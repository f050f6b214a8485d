/** The memories as software sees them: stores and loads on the bus, the byte order, and what boot leaves in them. */
module BusMemoryTheorems {
  import opened Words
  import opened Platform
  import opened Bus
  import opened MemoryModel
  import opened UartModel
  import opened SocModel
  import opened Validators
  import opened Access
  import opened TransferTheorems
  import opened RoundTripTheorems
  import opened AtomicTheorems
  import opened BootTheorems
  import opened RegisterTheorems

  predicate InRam(addr: u32) {
    SRAM_BASE <= addr < SRAM_BASE + SRAM_SIZE
  }

  /** The bytes of a bank from an address on, as one little-endian number. */
  predicate Holding(data: seq<byte>, at: nat, v: u32)
    requires at + 4 <= |data|
  {
    data[at] as int + data[at + 1] as int * 0x100 + data[at + 2] as int * 0x1_0000 + data[at + 3] as int * 0x100_0000 == v
  }

  /** A memory word on the bus is its four bytes, least significant first. */
  lemma MemoryShows(s: SocState, addr: u32)
    requires WellFormed(s) && addr % 4 == 0 && InMemory(addr)
    ensures Peek(s, addr).Some?
    ensures addr < ROM_SIZE ==> Holding(s.rom.data, addr, Peek(s, addr).value)
    ensures InRam(addr) ==> Holding(s.sram.data, addr - SRAM_BASE, Peek(s, addr).value)
  {
    PeekIsAnswer(s, addr);
  }

  lemma OneNumber(data: seq<byte>, at: nat, v: u32, w: u32)
    requires at + 4 <= |data| && Holding(data, at, v) && Holding(data, at, w)
    ensures v == w
  {
  }

  lemma SameBytes(data: seq<byte>, at: nat, data': seq<byte>, at': nat, v: u32)
    requires at + 4 <= |data| && at' + 4 <= |data'| && data[at..at + 4] == data'[at'..at' + 4] && Holding(data, at, v)
    ensures Holding(data', at', v)
  {
    var w, w' := data[at..at + 4], data'[at'..at' + 4];
    assert w[0] == w'[0] && w[1] == w'[1] && w[2] == w'[2] && w[3] == w'[3];
  }

  /** A bus write to an SRAM word replaces exactly its four bytes. */
  lemma RamWrite(s: SocState, addr: u32, v: u32)
    requires WellFormed(s) && addr % 4 == 0 && InRam(addr)
    ensures SameButPerf(s.(sram := s.sram.(data := Splice(s.sram.data, addr - SRAM_BASE, UnpackWord(v)))), Poke(s, addr, v))
  {
    hide PerfModel.Count, UnpackWord, Splice;
    VlabDecode(addr);
  }

  lemma UnpackedHolds(data: seq<byte>, at: nat, v: u32)
    requires at + 4 <= |data|
    ensures Holding(Splice(data, at, UnpackWord(v)), at, v)
  {
    hide PackWord;
    PackUnpack(v, UnpackWord(v));
    PackIsSum(UnpackWord(v));
    var d := Splice(data, at, UnpackWord(v));
    assert forall i :: 0 <= i < 4 ==> d[at + i] == UnpackWord(v)[i];
  }

  lemma PackIsSum(b: seq<byte>)
    requires |b| == 4
    ensures PackWord(b) == b[0] as int + b[1] as int * 0x100 + b[2] as int * 0x1_0000 + b[3] as int * 0x100_0000
  {
  }

  lemma Shows(s: SocState, addr: u32, v: u32)
    requires WellFormed(s) && addr % 4 == 0 && InRam(addr) && Holding(s.sram.data, addr - SRAM_BASE, v)
    ensures Peek(s, addr) == Some(v)
  {
    hide Peek, Holding;
    MemoryShows(s, addr);
    OneNumber(s.sram.data, addr - SRAM_BASE, v, Peek(s, addr).value);
  }

  lemma RomShows(s: SocState, addr: u32, v: u32)
    requires WellFormed(s) && addr % 4 == 0 && addr < ROM_SIZE && Holding(s.rom.data, addr, v)
    ensures Peek(s, addr) == Some(v)
  {
    hide Peek, Holding;
    MemoryShows(s, addr);
    OneNumber(s.rom.data, addr, v, Peek(s, addr).value);
  }

  /** A word written to SRAM reads back, and every other word of SRAM and ROM keeps its value on the bus. */
  lemma StoreLoads(s: SocState, addr: u32, v: u32, other: u32)
    requires WellFormed(s) && addr % 4 == 0 && InRam(addr)
    requires other % 4 == 0 && InMemory(other) && other != addr
    ensures var t := Poke(s, addr, v);
            WellFormed(t) && Peek(t, addr) == Some(v) && Peek(t, other) == Peek(s, other)
  {
    hide Peek, Poke, Splice, UnpackWord, Holding;
    RamWrite(s, addr, v);
    var t := Poke(s, addr, v);
    UnpackedHolds(s.sram.data, addr - SRAM_BASE, v);
    Shows(t, addr, v);
    MemoryShows(s, other);
    if InRam(other) {
      WordsApart(other, addr);
      var o := other - SRAM_BASE;
      assert s.sram.data[o..o + 4] == t.sram.data[o..o + 4];
      SameBytes(s.sram.data, o, t.sram.data, o, Peek(s, other).value);
      Shows(t, other, Peek(s, other).value);
    } else {
      RomShows(t, other, Peek(s, other).value);
    }
  }

  /** ROM cannot be written: the access faults and no word of either memory changes. */
  lemma RomKeeps(s: SocState, addr: u32, v: u32, other: u32)
    requires WellFormed(s) && addr < ROM_SIZE && other % 4 == 0 && InMemory(other)
    ensures BusWrite(s, addr, v).1 == BusFault && Peek(Poke(s, addr, v), other) == Peek(s, other)
  {
    hide Peek, BusWrite, Holding;
    WritesExactly(s, addr, v);
    RefusedIsHarmless(s, addr, v);
    MemoryShows(s, other);
    if InRam(other) {
      Shows(Poke(s, addr, v), other, Peek(s, other).value);
    } else {
      RomShows(Poke(s, addr, v), other, Peek(s, other).value);
    }
  }

  // ---- over runs ----

  /** The engine completes nothing in the run. */
  predicate EngineRests(s: SocState, ops: seq<Op>)
    decreases |ops|
  {
    ops == [] ||
    var init, last := ops[..|ops| - 1], ops[|ops| - 1];
    EngineRests(s, init) && !(last.Step? && Completing(Run(s, init)))
  }

  /** The value last written to the word in the run, or the one it had. */
  function LastWritten(s: SocState, ops: seq<Op>, addr: u32): Option<u32>
    decreases |ops|
  {
    if ops == [] then Peek(s, addr)
    else
      var last := ops[|ops| - 1];
      if last.Wr? && last.addr == addr then Some(last.value) else LastWritten(s, ops[..|ops| - 1], addr)
  }

  lemma OpKeepsWord(s: SocState, op: Op, addr: u32)
    requires WellFormed(s) && addr % 4 == 0 && InRam(addr) && !(op.Step? && Completing(s))
    ensures WellFormed(Exec(s, op))
    ensures Peek(Exec(s, op), addr) == if op.Wr? && op.addr == addr then Some(op.value) else Peek(s, addr)
  {
    hide Peek, Holding, Exec, CpuMemory;
    WellFormedStep(s, op);
    MemoryShows(s, addr);
    if op.Wr? && op.addr % 4 == 0 && InRam(op.addr) {
      WriteExec(s, op);
      if op.addr == addr {
        StoreLoads(s, addr, op.value, 0);
      } else {
        StoreLoads(s, op.addr, op.value, addr);
      }
    } else {
      QuietEngine(s, op);
      SameBank(s, op);
      Shows(Exec(s, op), addr, Peek(s, addr).value);
    }
  }

  lemma WriteExec(s: SocState, op: Op)
    requires op.Wr?
    ensures Exec(s, op) == Poke(s, op.addr, op.value)
  {
    hide BusWrite;
  }

  lemma SameBank(s: SocState, op: Op)
    requires WellFormed(s) && !(op.Wr? && op.addr % 4 == 0 && InRam(op.addr))
    ensures CpuMemory(s.sram, op) == s.sram
  {
    hide UnpackWord, Splice;
  }

  /** In every run of the machine in which the engine completes no transfer, an SRAM word reads as the value last written to
      it, whatever other accesses, ticks and interrupts there are. */
  lemma {:induction false} ReadsLastWritten(s: SocState, ops: seq<Op>, addr: u32)
    requires WellFormed(s) && addr % 4 == 0 && InRam(addr) && EngineRests(s, ops)
    ensures WellFormed(Run(s, ops)) && Peek(Run(s, ops), addr) == LastWritten(s, ops, addr)
    decreases |ops|
  {
    hide Peek, Exec, WellFormed;
    if ops != [] {
      ReadsLastWritten(s, ops[..|ops| - 1], addr);
      OpKeepsWord(Run(s, ops[..|ops| - 1]), ops[|ops| - 1], addr);
    }
  }

  // ---- byte order on the stream ----

  /** Byte i of a word, the least significant being byte 0. */
  function ByteOf(v: u32, i: nat): int
    requires i < 4
  {
    if i == 0 then v % 0x100
    else if i == 1 then v / 0x100 % 0x100
    else if i == 2 then v / 0x1_0000 % 0x100
    else v / 0x100_0000
  }

  lemma BytesOfNumber(data: seq<byte>, at: nat, v: u32, i: nat)
    requires at + 4 <= |data| && Holding(data, at, v) && i < 4
    ensures data[at + i] == ByteOf(v, i)
  {
    var a, b, c, d := data[at], data[at + 1], data[at + 2], data[at + 3];
    assert v / 0x100 == b as int + c as int * 0x100 + d as int * 0x1_0000;
    assert v / 0x1_0000 == c as int + d as int * 0x100;
    assert v / 0x100_0000 == d;
  }

  /** What a completing transfer to uart-tx puts on the stream are the words software reads on the bus, each with
      its least significant byte first. */
  lemma WordsAreStreamed(s: SocState, j: nat)
    requires WellFormed(s) && Completing(s) && s.dma.dst == UART_TXDATA && VlabTransfer(s.dma.src, s.dma.dst, s.dma.len)
    requires j < s.dma.len
    ensures var data := ReadBytes(s.sram, s.dma.src, s.dma.len);
            && data.Some? && |data.value| == s.dma.len
            && Tick(s).uart == Append(UartTick(s.uart), data.value)
            && Peek(s, s.dma.src + j - j % 4).Some?
            && data.value[j] == ByteOf(Peek(s, s.dma.src + j - j % 4).value, j % 4)
  {
    hide Peek, Tick, Append, UartTick, Holding, ByteOf;
    AcceptedCompletes(s);
    WordOfByte(s.dma.src, s.dma.dst, s.dma.len, j);
    var a := s.dma.src + j - j % 4;
    MemoryShows(s, a);
    BytesOfNumber(s.sram.data, a - SRAM_BASE, Peek(s, a).value, j % 4);
  }

  lemma WordOfByte(src: u32, dst: u32, len: u32, j: nat)
    requires VlabTransfer(src, dst, len) && dst == UART_TXDATA && j < len
    ensures SRAM_BASE <= src + j - j % 4 && src + j - j % 4 + 4 <= SRAM_BASE + SRAM_SIZE && (src + j - j % 4) % 4 == 0
  {
  }

  // ---- after boot ----

  lemma {:induction false} FlattenedWords(words: seq<u32>, i: nat)
    requires i < |words|
    ensures Flatten(words)[4 * i..4 * i + 4] == UnpackWord(words[i])
    decreases |words|
  {
    hide UnpackWord;
    var n := |words| - 1;
    if i < n {
      FlattenedWords(words[..n], i);
      assert Flatten(words)[4 * i..4 * i + 4] == Flatten(words[..n])[4 * i..4 * i + 4];
    }
  }

  lemma ImageInRom(rom: Bank, image: seq<u32>, i: nat)
    requires |rom.data| == ROM_SIZE && 4 * i < ROM_SIZE
    ensures var r := LoadWords(rom.(data := Zeros(ROM_SIZE)), image);
            Holding(r.data, 4 * i, if i < |image| then image[i] else 0)
  {
    hide UnpackWord, Holding, Flatten, Splice;
    var z := Zeros(ROM_SIZE);
    var n := Min(|image|, ROM_SIZE / 4);
    var f := Flatten(image[..n]);
    var r := Splice(z, 0, f);
    if i < n {
      FlattenedWords(image[..n], i);
      var w := Splice(z, 0, UnpackWord(image[i]));
      UnpackedHolds(z, 0, image[i]);
      assert w[0..4] == UnpackWord(image[i]);
      assert r[4 * i..4 * i + 4] == f[4 * i..4 * i + 4];
      SameBytes(w, 0, r, 4 * i, image[i]);
    } else {
      assert forall k :: 4 * i <= k < 4 * i + 4 ==> r[k] == 0;
      ZerosHold(r, 4 * i);
    }
  }

  lemma ZerosHold(data: seq<byte>, at: nat)
    requires at + 4 <= |data| && forall k :: at <= k < at + 4 ==> data[k] == 0
    ensures Holding(data, at, 0)
  {
  }

  /** After boot the words of ROM are the image, as far as it fits, and zeros behind it; without an image ROM reads as before;
      every word of SRAM is zero. */
  lemma BootedMemory(s: SocState, image: seq<u32>, addr: u32)
    requires WellFormed(s) && addr % 4 == 0 && InMemory(addr)
    ensures WellFormed(Booted(s, image))
    ensures Peek(Booted(s, image), addr)
         == if InRam(addr) then Some(0)
            else if image == [] then Peek(s, addr)
            else if addr / 4 < |image| then Some(image[addr / 4])
            else Some(0)
  {
    hide Booted, Peek, LoadWords, Zeros, Holding;
    BootResult(s, image);
    var b := Booted(s, image);
    if image != [] {
      ImageFits(s.rom.(data := Zeros(ROM_SIZE)), image);
    }
    if InRam(addr) {
      ZerosHold(b.sram.data, addr - SRAM_BASE);
      Shows(b, addr, 0);
    } else if image == [] {
      MemoryShows(s, addr);
      RomShows(b, addr, Peek(s, addr).value);
    } else {
      ImageInRom(s.rom, image, addr / 4);
      RomShows(b, addr, if addr / 4 < |image| then image[addr / 4] else 0);
    }
  }

  lemma ImageFits(m: Bank, image: seq<u32>)
    ensures var r := LoadWords(m, image); |r.data| == |m.data| && r.base == m.base && r.readonly == m.readonly
  {
  }
}
