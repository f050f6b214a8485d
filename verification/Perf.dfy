/** The performance counters: 32-bit, wrapping, gated by one enable bit. */
module PerfModel {
  import opened Words

  const PERF_CYCLES_OFF := 0x00
  const PERF_MEM_ACC_OFF := 0x04
  const PERF_DMA_BYTES_OFF := 0x08
  const PERF_IRQ_COUNT_OFF := 0x0C
  const PERF_STALLS_OFF := 0x10
  const PERF_CTRL_OFF := 0x14

  datatype PerfState = PerfState(cycles: u32, memAcc: u32, dmaBytes: u32, irqCount: u32,
                                 stalls: u32, enabled: bool, ctrl: u32)

  /** Amounts added to the counters by some event. */
  datatype Counts = Counts(cycles: nat, memAcc: nat, dmaBytes: nat, irqCount: nat, stalls: nat) {
    function Plus(o: Counts): Counts {
      Counts(cycles + o.cycles, memAcc + o.memAcc, dmaBytes + o.dmaBytes,
             irqCount + o.irqCount, stalls + o.stalls)
    }
  }

  const NOTHING := Counts(0, 0, 0, 0, 0)

  /** The counters after some event, each modulo 2^32; nothing moves while disabled. */
  function Count(p: PerfState, c: Counts): PerfState {
    if !p.enabled then p
    else p.(cycles := Wrap(p.cycles + c.cycles), memAcc := Wrap(p.memAcc + c.memAcc),
            dmaBytes := Wrap(p.dmaBytes + c.dmaBytes), irqCount := Wrap(p.irqCount + c.irqCount),
            stalls := Wrap(p.stalls + c.stalls))
  }

  lemma CountNothing(p: PerfState)
    ensures Count(p, NOTHING) == p
  {
  }

  /** Counting one event after another is counting both: the counters never lose a carry. */
  lemma CountTwice(p: PerfState, c: Counts, d: Counts)
    ensures Count(Count(p, c), d) == Count(p, c.Plus(d))
  {
    WrapAdd(p.cycles + c.cycles, d.cycles);
    WrapAdd(p.memAcc + c.memAcc, d.memAcc);
    WrapAdd(p.dmaBytes + c.dmaBytes, d.dmaBytes);
    WrapAdd(p.irqCount + c.irqCount, d.irqCount);
    WrapAdd(p.stalls + c.stalls, d.stalls);
  }

  const TICK := NOTHING.(cycles := 1)
  const ACCESS := NOTHING.(memAcc := 1)
  const ACK := NOTHING.(irqCount := 1)
  const STALL := NOTHING.(stalls := 1)

  function Cleared(p: PerfState): PerfState {
    p.(cycles := 0, memAcc := 0, dmaBytes := 0, irqCount := 0, stalls := 0)
  }

  function ReadPerf(p: PerfState, off: u32): Option<u32> {
    if off == PERF_CYCLES_OFF then Some(p.cycles)
    else if off == PERF_MEM_ACC_OFF then Some(p.memAcc)
    else if off == PERF_DMA_BYTES_OFF then Some(p.dmaBytes)
    else if off == PERF_IRQ_COUNT_OFF then Some(p.irqCount)
    else if off == PERF_STALLS_OFF then Some(p.stalls)
    else if off == PERF_CTRL_OFF then Some(p.ctrl)
    else None
  }

  function WritePerf(p: PerfState, off: u32, v: u32): Option<PerfState> {
    if off == PERF_CYCLES_OFF then Some(p.(cycles := v))
    else if off == PERF_MEM_ACC_OFF then Some(p.(memAcc := v))
    else if off == PERF_DMA_BYTES_OFF then Some(p.(dmaBytes := v))
    else if off == PERF_IRQ_COUNT_OFF then Some(p.(irqCount := v))
    else if off == PERF_STALLS_OFF then Some(p.(stalls := v))
    else if off == PERF_CTRL_OFF then
      var q := p.(ctrl := v, enabled := Bit0(v));
      Some(if Bit1(v) then Cleared(q) else q)
    else None
  }

  class Perf {
    var cycles: u32
    var memAcc: u32
    var dmaBytes: u32
    var irqCount: u32
    var stalls: u32
    var enabled: bool
    var ctrl: u32

    function State(): PerfState
      reads this
    {
      PerfState(cycles, memAcc, dmaBytes, irqCount, stalls, enabled, ctrl)
    }

    constructor ()
      ensures State() == PerfState(0, 0, 0, 0, 0, false, 0)
    {
      cycles, memAcc, dmaBytes, irqCount, stalls := 0, 0, 0, 0, 0;
      enabled, ctrl := false, 0;
    }

    method ResetCounters()
      modifies this
      ensures State() == Cleared(old(State()))
    {
      cycles, memAcc, dmaBytes, irqCount, stalls := 0, 0, 0, 0, 0;
    }

    method Tick()
      modifies this
      ensures State() == Count(old(State()), TICK)
    {
      if enabled {
        cycles := Wrap(cycles + 1);
      }
    }

    method CountMem()
      modifies this
      ensures State() == Count(old(State()), ACCESS)
    {
      if enabled {
        memAcc := Wrap(memAcc + 1);
      }
    }

    method CountStall(n: u32)
      modifies this
      ensures State() == Count(old(State()), NOTHING.(stalls := n))
    {
      if enabled {
        stalls := Wrap(stalls + n);
      }
    }

    method CountDma(n: u32)
      modifies this
      ensures State() == Count(old(State()), NOTHING.(dmaBytes := n))
    {
      if enabled {
        dmaBytes := Wrap(dmaBytes + n);
      }
    }

    method CountIrq()
      modifies this
      ensures State() == Count(old(State()), ACK)
    {
      if enabled {
        irqCount := Wrap(irqCount + 1);
      }
    }

    method Read(off: u32) returns (r: Option<u32>)
      ensures r == ReadPerf(State(), off)
    {
      if off == PERF_CYCLES_OFF { return Some(cycles); }
      if off == PERF_MEM_ACC_OFF { return Some(memAcc); }
      if off == PERF_DMA_BYTES_OFF { return Some(dmaBytes); }
      if off == PERF_IRQ_COUNT_OFF { return Some(irqCount); }
      if off == PERF_STALLS_OFF { return Some(stalls); }
      if off == PERF_CTRL_OFF { return Some(ctrl); }
      return None;
    }

    method Write(off: u32, v: u32) returns (ok: bool)
      modifies this
      ensures ok == WritePerf(old(State()), off, v).Some?
      ensures State() == if ok then WritePerf(old(State()), off, v).value else old(State())
    {
      if off == PERF_CYCLES_OFF { cycles := v; return true; }
      if off == PERF_MEM_ACC_OFF { memAcc := v; return true; }
      if off == PERF_DMA_BYTES_OFF { dmaBytes := v; return true; }
      if off == PERF_IRQ_COUNT_OFF { irqCount := v; return true; }
      if off == PERF_STALLS_OFF { stalls := v; return true; }
      if off == PERF_CTRL_OFF {
        ctrl := v;
        enabled := Bit0(v);
        if Bit1(v) {
          ResetCounters();
        }
        return true;
      }
      return false;
    }
  }
}
