/** Interrupt dispatch: a vector table and the bounded acknowledge-handle-clear loop. */
module IsrModel {
  import opened Words
  import opened Platform
  import opened IntcModel
  import opened SocModel
  import opened Hal
  import opened DmaDriverModel

  const MAX_LINES := 8

  /** What a vector holds. A foreign handler is any reaction to the machine it finds: the sequence
      of operations it then performs. */
  datatype Handler = NoHandler | DmaHandler | Foreign(behave: SocState -> seq<Op>)

  type Vectors = v: seq<Handler> | |v| == MAX_LINES
    witness [NoHandler, NoHandler, NoHandler, NoHandler, NoHandler, NoHandler, NoHandler, NoHandler]
  type LineCount = n: int | 1 <= n <= MAX_LINES witness 3

  datatype IsrState = IsrState(vectors: Vectors, nLines: LineCount, dispatched: u32)

  /** The whole system: the SoC, the DMA driver and the dispatcher. */
  datatype Sys = Sys(soc: SocState, drv: DriverState, isr: IsrState)

  function Handle(h: Handler, sys: Sys): Sys {
    match h
    case NoHandler => sys
    case DmaHandler =>
      var (d, s) := Isr(sys.drv, sys.soc);
      sys.(drv := d, soc := s)
    case Foreign(behave) => sys.(soc := Run(sys.soc, behave(sys.soc)))
  }

  /** The handler of an acknowledged line, then CLEAR of its ACTIVE bit. */
  function Service(sys: Sys, line: u32): Sys
    requires line < MAX_LINES
  {
    var after := Handle(sys.isr.vectors[line], sys);
    after.(soc := HalWrite(after.soc, INTC_CLEAR, line),
           isr := after.isr.(dispatched := Wrap(after.isr.dispatched + 1)))
  }

  /** Acknowledge, then service the line that answered; None if nothing usable answered. */
  function Round(sys: Sys): (Sys, Option<u32>) {
    var (s1, line) := HalRead(sys.soc, INTC_ACK);
    var acked := sys.(soc := s1);
    if line >= sys.isr.nLines then (acked, None) else (Service(acked, line), Some(line))
  }

  /** At most `fuel` rounds; the lines serviced, in order. */
  function Rounds(sys: Sys, fuel: nat): (Sys, seq<u32>)
    decreases fuel
  {
    if fuel == 0 then (sys, [])
    else
      var (s1, line) := Round(sys);
      if line.None? then (s1, [])
      else
        var (last, lines) := Rounds(s1, fuel - 1);
        (last, [line.value] + lines)
  }

  lemma RoundsUnfold(sys: Sys, fuel: nat)
    ensures fuel == 0 ==> Rounds(sys, fuel) == (sys, [])
    ensures fuel > 0 && Round(sys).1.None? ==> Rounds(sys, fuel) == (Round(sys).0, [])
    ensures fuel > 0 && Round(sys).1.Some? ==>
              Rounds(sys, fuel).0 == Rounds(Round(sys).0, fuel - 1).0
              && Rounds(sys, fuel).1 == [Round(sys).1.value] + Rounds(Round(sys).0, fuel - 1).1
  {
    hide Round;
  }

  function Dispatch(sys: Sys): (Sys, seq<u32>) {
    Rounds(sys, sys.isr.nLines)
  }

  function Configured(i: IsrState, n: u32): IsrState {
    if n == 0 || n > MAX_LINES then i
    else i.(nLines := n, vectors := seq(MAX_LINES, _ => NoHandler))
  }

  function Registered(i: IsrState, line: u32, h: Handler): IsrState {
    if line < i.nLines then i.(vectors := i.vectors[line := h]) else i
  }

  class Dispatcher {
    const driver: DmaDriver
    const vectors: array<Handler>
    var nLines: u32
    var dispatched: u32

    ghost predicate Valid()
      reads this, driver, driver.soc.Repr()
    {
      && driver.Valid() && vectors.Length == MAX_LINES && 1 <= nLines <= MAX_LINES
      && this !in driver.soc.Repr() && vectors !in driver.soc.Repr()
    }

    function State(): IsrState
      requires Valid()
      reads this, vectors, driver, driver.soc.Repr()
    {
      IsrState(vectors[..], nLines, dispatched)
    }

    function System(): Sys
      requires Valid()
      reads this, vectors, driver, driver.soc.Repr()
    {
      Sys(driver.soc.State(), driver.State(), State())
    }

    constructor (driver: DmaDriver)
      requires driver.Valid()
      ensures Valid() && fresh(vectors) && this.driver == driver
      ensures State() == IsrState(seq(MAX_LINES, _ => NoHandler), 3, 0)
    {
      this.driver := driver;
      vectors := new Handler[MAX_LINES](_ => NoHandler);
      nLines, dispatched := 3, 0;
    }

    method Configure(n: u32)
      requires Valid()
      modifies this, vectors
      ensures Valid() && State() == Configured(old(State()), n)
    {
      if n == 0 || n > MAX_LINES {
        return;
      }
      nLines := n;
      for i := 0 to MAX_LINES
        invariant Valid() && nLines == n && dispatched == old(dispatched)
        invariant forall j :: 0 <= j < i ==> vectors[j] == NoHandler
      {
        vectors[i] := NoHandler;
      }
    }

    method Register(line: u32, h: Handler)
      requires Valid()
      modifies vectors
      ensures Valid() && State() == Registered(old(State()), line, h)
    {
      if line < nLines {
        vectors[line] := h;
      }
    }

    method Invoke(h: Handler)
      requires Valid()
      modifies driver, driver.soc.Repr()
      ensures Valid() && System() == Handle(h, old(System()))
    {
      hide Exec, Isr;
      match h {
        case NoHandler =>
        case DmaHandler => driver.ServiceIrq();
        case Foreign(behave) =>
          var ops := behave(driver.soc.State());
          for i := 0 to |ops|
            invariant Valid() && State() == old(State()) && driver.State() == old(driver.State())
            invariant driver.soc.State() == Run(old(driver.soc.State()), ops[..i])
          {
            driver.soc.Perform(ops[i]);
            assert ops[..i + 1][..i] == ops[..i];
          }
          assert ops[..|ops|] == ops;
      }
    }

    method ServiceLine(line: u32)
      requires Valid() && line < MAX_LINES
      modifies this`dispatched, driver, driver.soc.Repr()
      ensures Valid() && System() == Service(old(System()), line)
    {
      hide Handle, HalWrite;
      Invoke(vectors[line]);
      WriteReg(driver.soc, INTC_CLEAR, line);
      dispatched := Wrap(dispatched + 1);
    }

    method RunRound() returns (r: Option<u32>)
      requires Valid()
      modifies this`dispatched, driver, driver.soc.Repr()
      ensures Valid() && (System(), r) == Round(old(System()))
    {
      hide HalRead, Service;
      var line := ReadReg(driver.soc, INTC_ACK);
      if line == NO_LINE || line >= nLines {
        return None;
      }
      ServiceLine(line);
      return Some(line);
    }

    /** isr_dispatch: one round per configured line at most. */
    method DispatchAll() returns (handled: nat)
      requires Valid()
      modifies this`dispatched, driver, driver.soc.Repr()
      ensures Valid()
      ensures System() == Dispatch(old(System())).0
      ensures handled == |Dispatch(old(System())).1| <= nLines
    {
      hide Round, Rounds, Valid, Soc.Valid, Soc.State, DmaDriver.Valid, DmaDriver.State;
      handled := 0;
      ghost var goal := Dispatch(old(System()));
      ghost var now := System();
      RoundsUnfold(now, 0);
      while handled < nLines
        invariant Valid() && now == System() && handled <= nLines && nLines == now.isr.nLines == old(nLines)
        invariant goal.0 == Rounds(now, nLines - handled).0
        invariant |goal.1| == handled + |Rounds(now, nLines - handled).1|
        decreases nLines - handled
      {
        RoundsUnfold(now, nLines - handled);
        var r := RunRound();
        now := System();
        if r.None? {
          break;
        }
        handled := handled + 1;
      }
      RoundsUnfold(now, 0);
    }
  }
}
