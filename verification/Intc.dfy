/**
 The interrupt controller. The device keeps three bit masks; the specification
 is sets of lines, with fixed priority TIMER, DMA, UART.
 */
module IntcModel {
  import opened Words
  import opened PerfModel

  const INTC_ENABLE_OFF := 0x00
  const INTC_PENDING_OFF := 0x04
  const INTC_ACK_OFF := 0x08
  const INTC_CLEAR_OFF := 0x0C
  const INTC_ACTIVE_OFF := 0x10

  const NO_LINE: u32 := 0xFFFF_FFFF

  type Line = l: int | 0 <= l < 3

  datatype IntcState = IntcState(enable: set<Line>, pending: set<Line>, active: set<Line>)

  function Raise(i: IntcState, line: int): IntcState {
    if 0 <= line < 3 then i.(pending := i.pending + {line}) else i
  }

  function Gated(i: IntcState): set<Line> {
    i.pending * i.enable
  }

  /** Position of a line in the fixed order TIMER, DMA, UART. */
  function Rank(l: Line): int {
    (l + 2) % 3
  }

  function Highest(i: IntcState): (h: Option<Line>)
    ensures h.None? <==> Gated(i) == {}
    ensures h.Some? ==> h.value in Gated(i) && forall l :: l in Gated(i) ==> Rank(h.value) <= Rank(l)
  {
    if 1 in Gated(i) then Some(1) else if 2 in Gated(i) then Some(2)
    else if 0 in Gated(i) then Some(0) else
      assert forall l :: l in Gated(i) ==> l == 0 || l == 1 || l == 2;
      None
  }

  /** What an ACK read does: the highest gated line moves from pending to active. */
  function Acked(i: IntcState): IntcState {
    match Highest(i)
    case None => i
    case Some(l) => i.(pending := i.pending - {l}, active := i.active + {l})
  }

  function AckValue(i: IntcState): u32 {
    match Highest(i)
    case None => NO_LINE
    case Some(l) => l
  }

  /** The register image of a set of lines. */
  function Mask(s: set<Line>): (m: u32)
    ensures m < 8
  {
    (if 0 in s then 1 else 0) + (if 1 in s then 2 else 0) + (if 2 in s then 4 else 0)
  }

  /** The lines whose bits are set in a register value. */
  function Lines(m: u32): set<Line> {
    (if Bit0(m) then {0} else {}) + (if Bit1(m) then {1} else {}) + (if Bit2(m) then {2} else {})
  }

  lemma Parity(x: int, k: int)
    ensures (x + 2 * k) % 2 == x % 2
  {
  }

  lemma LowBitsOf(q: nat, r: nat)
    requires r < 8
    ensures (8 * q + r) % 2 == r % 2
    ensures (8 * q + r) / 2 % 2 == r / 2 % 2
    ensures (8 * q + r) / 4 % 2 == r / 4 % 2
  {
    Parity(r, 4 * q);
    assert (8 * q + r) / 2 == r / 2 + 2 * (2 * q);
    Parity(r / 2, 2 * q);
    assert (8 * q + r) / 4 == r / 4 + 2 * q;
    Parity(r / 4, q);
  }

  /** Registers and line sets determine each other on the three implemented bits. */
  lemma MaskOfLines(m: u32, s: set<Line>)
    requires m < 8
    ensures Mask(Lines(m)) == m
    ensures Lines(Mask(s)) == s
  {
    LinesOfMask(s);
    assert m == 0 || m == 1 || m == 2 || m == 3 || m == 4 || m == 5 || m == 6 || m == 7;
  }

  lemma LinesOfMask(s: set<Line>)
    ensures Lines(Mask(s)) == s
  {
    forall l: Line
      ensures l in Lines(Mask(s)) <==> l in s
    {
      assert l == 0 || l == 1 || l == 2;
    }
  }

  function ReadIntc(i: IntcState, off: u32): (IntcState, Option<u32>) {
    if off == INTC_ENABLE_OFF then (i, Some(Mask(i.enable)))
    else if off == INTC_PENDING_OFF then (i, Some(Mask(i.pending)))
    else if off == INTC_ACTIVE_OFF then (i, Some(Mask(i.active)))
    else if off == INTC_ACK_OFF then (Acked(i), Some(AckValue(i)))
    else (i, None)
  }

  /** Interrupts counted by a read: one for an ACK that returns a line. */
  function AckCounts(i: IntcState, off: u32): Counts {
    if off == INTC_ACK_OFF && Highest(i).Some? then ACK else NOTHING
  }

  function WriteIntc(i: IntcState, off: u32, v: u32): Option<IntcState> {
    if off == INTC_ENABLE_OFF then Some(i.(enable := Lines(v)))
    else if off == INTC_CLEAR_OFF then Some(if v < 3 then i.(active := i.active - {v}) else i)
    else None
  }

  /** 1 << line */
  function Weight(l: Line): u32 {
    if l == 0 then 1 else if l == 1 then 2 else 4
  }

  predicate Test(m: u32, l: Line) {
    m / Weight(l) % 2 == 1
  }

  function SetBit(m: u32, l: Line): (r: u32)
    requires m < 8
    ensures r < 8 && Lines(r) == Lines(m) + {l}
  {
    if Test(m, l) then m else m + Weight(l)
  }

  function ClearBit(m: u32, l: Line): (r: u32)
    requires m < 8
    ensures r < 8 && Lines(r) == Lines(m) - {l}
  {
    if Test(m, l) then m - Weight(l) else m
  }

  class Intc {
    var enable: u32
    var pending: u32
    var active: u32
    const perf: Perf

    ghost predicate Valid()
      reads this
    {
      enable < 8 && pending < 8 && active < 8
    }

    function State(): IntcState
      reads this
    {
      IntcState(Lines(enable), Lines(pending), Lines(active))
    }

    constructor (perf: Perf)
      ensures Valid() && this.perf == perf
      ensures State() == IntcState({}, {}, {})
    {
      this.perf := perf;
      enable, pending, active := 0, 0, 0;
    }

    method Reset()
      modifies this
      ensures Valid() && State() == IntcState({}, {}, {})
    {
      enable, pending, active := 0, 0, 0;
    }

    method RaiseLine(line: int)
      requires Valid()
      modifies this
      ensures Valid() && State() == Raise(old(State()), line)
    {
      if line >= 0 && line < 3 {
        pending := SetBit(pending, line);
      }
    }

    /** The priority scan over the gated mask; -1 when it is empty. */
    method HighestLine() returns (line: int)
      requires Valid()
      ensures line == match Highest(State()) case None => -1 case Some(l) => l
    {
      var priority: seq<Line> := [1, 2, 0];
      var i := 0;
      while i < 3
        invariant 0 <= i <= 3
        invariant i > 0 ==> 1 !in Gated(State())
        invariant i > 1 ==> 2 !in Gated(State())
        invariant i > 2 ==> 0 !in Gated(State())
      {
        if Test(pending, priority[i]) && Test(enable, priority[i]) {
          assert priority[i] in Gated(State());
          return priority[i];
        }
        i := i + 1;
      }
      line := -1;
    }

    method Read(off: u32) returns (r: Option<u32>)
      requires Valid()
      modifies this, perf
      ensures Valid()
      ensures (State(), r) == ReadIntc(old(State()), off)
      ensures perf.State() == Count(old(perf.State()), AckCounts(old(State()), off))
    {
      hide Lines, Mask;
      if off == INTC_ENABLE_OFF {
        MaskOfLines(enable, {});
        return Some(enable);
      }
      if off == INTC_PENDING_OFF {
        MaskOfLines(pending, {});
        return Some(pending);
      }
      if off == INTC_ACTIVE_OFF {
        MaskOfLines(active, {});
        return Some(active);
      }
      if off == INTC_ACK_OFF {
        var line := HighestLine();
        if line < 0 {
          return Some(NO_LINE);
        }
        pending := ClearBit(pending, line);
        active := SetBit(active, line);
        perf.CountIrq();
        return Some(line);
      }
      return None;
    }

    method Write(off: u32, v: u32) returns (ok: bool)
      requires Valid()
      modifies this
      ensures Valid()
      ensures ok == WriteIntc(old(State()), off, v).Some?
      ensures State() == if ok then WriteIntc(old(State()), off, v).value else old(State())
    {
      if off == INTC_ENABLE_OFF {
        enable := v % 8;
        LowBitsOf(v / 8, v % 8);
        return true;
      }
      if off == INTC_CLEAR_OFF {
        if v < 3 {
          active := ClearBit(active, v);
        }
        return true;
      }
      return false;
    }
  }
}
