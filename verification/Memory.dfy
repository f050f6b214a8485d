/** Byte-addressable backing store with little-endian word access. */
module MemoryModel {
  import opened Words

  /** A memory as a value: its base address, its bytes and the run-time write protection. */
  datatype Bank = Bank(base: u32, data: seq<byte>, readonly: bool)

  /** The bank holds the whole range. */
  predicate Holds(m: Bank, addr: u32, len: u32) {
    Covers(m.base, |m.data|, addr, len)
  }

  function ReadBytes(m: Bank, addr: u32, len: u32): Option<seq<byte>> {
    if Holds(m, addr, len) then Some(m.data[addr - m.base..addr - m.base + len]) else None
  }

  function WriteBytes(m: Bank, addr: u32, payload: seq<byte>): Option<Bank>
    requires |payload| < POW32
  {
    if !m.readonly && Holds(m, addr, |payload|)
    then Some(m.(data := Splice(m.data, addr - m.base, payload))) else None
  }

  function ReadWord(m: Bank, addr: u32): Option<u32> {
    if addr % 4 == 0 && Holds(m, addr, 4)
    then Some(PackWord(m.data[addr - m.base..addr - m.base + 4])) else None
  }

  function WriteWord(m: Bank, addr: u32, value: u32): Option<Bank> {
    if addr % 4 == 0 then WriteBytes(m, addr, UnpackWord(value)) else None
  }

  /** The bytes of a word list, each word little-endian. */
  function Flatten(words: seq<u32>): (b: seq<byte>)
    ensures |b| == 4 * |words|
  {
    if words == [] then [] else Flatten(words[..|words| - 1]) + UnpackWord(words[|words| - 1])
  }

  /** As many of the words as fit, stored from the base of the bank on. */
  function LoadWords(m: Bank, words: seq<u32>): Bank {
    var n := Min(|words|, |m.data| / 4);
    m.(data := Splice(m.data, 0, Flatten(words[..n])))
  }

  lemma SpliceMore(s: seq<byte>, p: seq<byte>, q: seq<byte>)
    requires |p| + |q| <= |s|
    ensures Splice(Splice(s, 0, p), |p|, q) == Splice(s, 0, p + q)
  {
  }

  lemma LoadedSoFar(was: seq<byte>, words: seq<u32>, i: nat)
    requires i <= |words|
    ensures i == 0 ==> Splice(was, 0, Flatten(words[..i])) == was
    ensures i < |words| ==> Flatten(words[..i + 1]) == Flatten(words[..i]) + UnpackWord(words[i])
  {
    if i < |words| {
      assert words[..i + 1][..i] == words[..i];
    }
  }

  class Memory {
    const base: u32
    const readonly: bool
    const data: array<byte>

    function State(): Bank
      reads data
    {
      Bank(base, data[..], readonly)
    }

    constructor (base: u32, size: u32, readonly: bool)
      ensures fresh(data)
      ensures this.base == base && this.readonly == readonly
      ensures data.Length == size && data[..] == Zeros(size)
    {
      this.base := base;
      this.readonly := readonly;
      this.data := new byte[size](_ => 0);
    }

    method Offset(addr: u32, len: u32) returns (off: Option<u32>)
      ensures off == if Holds(State(), addr, len) then Some(addr - base) else None
    {
      if len == 0 {
        return None;
      }
      if addr + len > POW32 {
        return None;
      }
      if !(addr >= base && addr + len <= base + data.Length) {
        return None;
      }
      return Some(addr - base);
    }

    method LoadWord(addr: u32) returns (r: Option<u32>)
      ensures r == ReadWord(State(), addr)
    {
      if addr % 4 != 0 {
        return None;
      }
      var off := Offset(addr, 4);
      if off.None? {
        return None;
      }
      var o := off.value;
      assert data[o..o + 4] == [data[o], data[o + 1], data[o + 2], data[o + 3]];
      r := Some(data[o] as int + data[o + 1] as int * 0x100
                + data[o + 2] as int * 0x1_0000 + data[o + 3] as int * 0x100_0000);
    }

    method PutWord(o: nat, value: u32)
      requires o + 4 <= data.Length
      modifies data
      ensures data[..] == Splice(old(data[..]), o, UnpackWord(value))
    {
      data[o] := value % 0x100;
      data[o + 1] := value / 0x100 % 0x100;
      data[o + 2] := value / 0x1_0000 % 0x100;
      data[o + 3] := value / 0x100_0000 % 0x100;
    }

    method StoreWord(addr: u32, value: u32) returns (ok: bool)
      modifies data
      ensures ok == WriteWord(old(State()), addr, value).Some?
      ensures State() == if ok then WriteWord(old(State()), addr, value).value else old(State())
    {
      if addr % 4 != 0 {
        return false;
      }
      if readonly {
        return false;
      }
      var off := Offset(addr, 4);
      if off.None? {
        return false;
      }
      PutWord(off.value, value);
      ok := true;
    }

    method CopyOut(addr: u32, len: u32, out: array<byte>) returns (ok: bool)
      requires out != data && out.Length == len
      modifies out
      ensures ok == ReadBytes(State(), addr, len).Some?
      ensures ok ==> out[..] == ReadBytes(State(), addr, len).value
    {
      var off := Offset(addr, len);
      if off.None? {
        return false;
      }
      forall i | 0 <= i < len {
        out[i] := data[off.value + i];
      }
      ok := true;
    }

    method CopyIn(addr: u32, payload: array<byte>) returns (ok: bool)
      requires payload != data && payload.Length < POW32
      modifies data
      ensures ok == WriteBytes(old(State()), addr, payload[..]).Some?
      ensures State() == if ok then WriteBytes(old(State()), addr, payload[..]).value else old(State())
    {
      if readonly {
        return false;
      }
      var off := Offset(addr, payload.Length);
      if off.None? {
        return false;
      }
      forall i | 0 <= i < payload.Length {
        data[off.value + i] := payload[i];
      }
      ok := true;
    }

    /** The image loader: stops with a fault at the first word that does not fit. */
    method Load(words: seq<u32>) returns (ok: bool)
      modifies data
      ensures ok <==> 4 * |words| <= data.Length
      ensures State() == LoadWords(old(State()), words)
    {
      hide UnpackWord, Splice, Flatten;
      ghost var was := data[..];
      LoadedSoFar(was, words, 0);
      var i := 0;
      while i < |words|
        invariant 0 <= i <= Min(|words|, data.Length / 4)
        invariant data[..] == Splice(was, 0, Flatten(words[..i]))
      {
        if i * 4 + 4 > data.Length {
          return false;
        }
        PutWord(i * 4, words[i]);
        SpliceMore(was, Flatten(words[..i]), UnpackWord(words[i]));
        LoadedSoFar(was, words, i);
        i := i + 1;
      }
      ok := true;
    }

    method Zero()
      modifies data
      ensures State() == old(State()).(data := Zeros(data.Length))
    {
      forall i | 0 <= i < data.Length {
        data[i] := 0;
      }
    }
  }

  /** A stored word reads back, and every aligned word elsewhere keeps its value. */
  lemma WordRoundTrip(m: Bank, addr: u32, value: u32, other: u32)
    requires WriteWord(m, addr, value).Some?
    ensures var m' := WriteWord(m, addr, value).value;
            ReadWord(m', addr) == Some(value)
            && (other != addr ==> ReadWord(m', other) == ReadWord(m, other))
  {
    hide PackWord, UnpackWord;
    var m' := WriteWord(m, addr, value).value;
    assert m'.data[addr - m.base..addr - m.base + 4] == UnpackWord(value);
    PackUnpack(value, UnpackWord(value));
    if other != addr && other % 4 == 0 && Holds(m, other, 4) {
      WordsApart(other, addr);
      assert m'.data[other - m.base..other - m.base + 4] == m.data[other - m.base..other - m.base + 4];
    }
  }

  lemma WordsApart(a: int, b: int)
    requires a % 4 == 0 && b % 4 == 0 && a != b
    ensures a + 4 <= b || b + 4 <= a
  {
  }
}
