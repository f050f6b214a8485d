/**
 Machine words shared by every component: 32-bit registers and bytes as
 bounded integers, the C conversions between them, and little-endian packing.
 */
module Words {

  const POW31: int := 0x8000_0000
  const POW32: int := 0x1_0000_0000

  type u32 = x: int | 0 <= x < 0x1_0000_0000
  type pos32 = x: int | 0 < x < 0x1_0000_0000 witness 1
  type byte = x: int | 0 <= x < 0x100

  datatype Option<+T> = None | Some(value: T)

  /** Status of a bus write: done, bus fault, or the UART's "transmitter disabled". */
  datatype WriteStatus = Ok | BusFault | Disabled

  /** uint32_t arithmetic: the value modulo 2^32. */
  function Wrap(x: int): u32 {
    x % POW32
  }

  /** The C cast (int32_t)x. */
  function ToInt32(x: u32): int {
    if x < POW31 then x else x - POW32
  }

  /** The range [addr, addr+len) is not empty, does not wrap and lies inside [base, base+size). */
  predicate Covers(base: u32, size: nat, addr: u32, len: u32) {
    len > 0 && addr + len <= POW32 && base <= addr && addr + len <= base + size
  }

  function Min(a: int, b: int): int {
    if a < b then a else b
  }

  predicate Bit0(v: u32) { v % 2 == 1 }

  predicate Bit1(v: u32) { v / 2 % 2 == 1 }

  predicate Bit2(v: u32) { v / 4 % 2 == 1 }

  lemma WrapAdd(a: int, b: int)
    ensures Wrap(Wrap(a) + b) == Wrap(a + b)
  {
    var q := a / POW32;
    assert a + b == Wrap(a) + b + q * POW32;
    WrapShift(Wrap(a) + b, q);
  }

  lemma WrapShift(x: int, q: int)
    ensures Wrap(x + q * POW32) == Wrap(x)
  {
    var d := (x + q * POW32) / POW32 - x / POW32 - q;
    assert d * POW32 == Wrap(x) - Wrap(x + q * POW32);
    assert d == 0;
  }

  function PackWord(b: seq<byte>): (v: u32)
    requires |b| == 4
  {
    b[0] as int + b[1] as int * 0x100 + b[2] as int * 0x1_0000 + b[3] as int * 0x100_0000
  }

  function UnpackWord(v: u32): (b: seq<byte>)
    ensures |b| == 4
  {
    [v % 0x100, v / 0x100 % 0x100, v / 0x1_0000 % 0x100, v / 0x100_0000 % 0x100]
  }

  /** Little-endian packing and unpacking are inverse, both ways round. */
  lemma PackUnpack(v: u32, b: seq<byte>)
    requires |b| == 4
    ensures PackWord(UnpackWord(v)) == v
    ensures UnpackWord(PackWord(b)) == b
  {
    var w := PackWord(b);
    assert w / 0x100 == b[1] as int + b[2] as int * 0x100 + b[3] as int * 0x1_0000;
    assert w / 0x1_0000 == b[2] as int + b[3] as int * 0x100;
    assert w / 0x100_0000 == b[3];
    assert v / 0x100 / 0x100 == v / 0x1_0000;
    assert v / 0x1_0000 / 0x100 == v / 0x100_0000;
  }

  function Zeros(n: nat): (z: seq<byte>)
    ensures |z| == n
    ensures forall i :: 0 <= i < n ==> z[i] == 0
  {
    seq(n, _ => 0)
  }

  /** s with the bytes from index `at` on overwritten by p. */
  function Splice(s: seq<byte>, at: nat, p: seq<byte>): (r: seq<byte>)
    requires at + |p| <= |s|
    ensures |r| == |s|
    ensures forall i :: 0 <= i < |s| ==> r[i] == if at <= i < at + |p| then p[i - at] else s[i]
  {
    s[..at] + p + s[at + |p|..]
  }

  function Take(s: seq<byte>, n: nat): (r: seq<byte>)
    ensures |r| == Min(|s|, n)
    ensures r == s[..|r|]
  {
    if n < |s| then s[..n] else s
  }
}
