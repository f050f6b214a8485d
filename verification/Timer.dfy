/** The countdown timer: one-shot or periodic, interrupt line 1. */
module TimerModel {
  import opened Words
  import opened Platform
  import opened IntcModel

  const TIMER_CTRL_OFF := 0x00
  const TIMER_LOAD_OFF := 0x04
  const TIMER_VALUE_OFF := 0x08
  const TIMER_IRQ_STATUS_OFF := 0x0C
  const TIMER_IRQ_CLEAR_OFF := 0x10

  datatype TimerState = TimerState(ctrl: u32, load: u32, value: u32, fired: bool) {
    predicate Enabled() { Bit0(ctrl) }
    predicate Periodic() { Bit1(ctrl) }
    predicate IrqEnabled() { Bit2(ctrl) }
  }

  function ReadTimer(t: TimerState, off: u32): Option<u32> {
    if off == TIMER_CTRL_OFF then Some(t.ctrl)
    else if off == TIMER_LOAD_OFF then Some(t.load)
    else if off == TIMER_VALUE_OFF then Some(t.value)
    else if off == TIMER_IRQ_STATUS_OFF then Some(if t.fired then 1 else 0)
    else None
  }

  /** Enabling a disabled timer reloads it only from VALUE 0; otherwise the old count resumes. */
  function WriteTimer(t: TimerState, off: u32, v: u32): Option<TimerState> {
    if off == TIMER_CTRL_OFF then
      Some(t.(ctrl := v, value := if Bit0(v) && !t.Enabled() && t.value == 0 then t.load else t.value))
    else if off == TIMER_LOAD_OFF then Some(t.(load := v))
    else if off == TIMER_IRQ_STATUS_OFF || off == TIMER_IRQ_CLEAR_OFF then Some(t.(fired := t.fired && !Bit0(v)))
    else None
  }

  /** The countdown reaches zero on this tick. */
  predicate Expires(t: TimerState) {
    t.Enabled() && t.load != 0 && t.value <= 1
  }

  function TimerTick(t: TimerState): TimerState {
    if Expires(t) then
      if t.Periodic() then t.(fired := true, value := t.load)
      else t.(fired := true, value := 0, ctrl := t.ctrl - 1)
    else if t.Enabled() && t.load != 0 then t.(value := t.value - 1)
    else t
  }

  class Timer {
    const intc: Intc
    var ctrl: u32
    var load: u32
    var value: u32
    var irqStatus: u32

    ghost predicate Valid()
      reads this
    {
      irqStatus <= 1
    }

    function State(): TimerState
      reads this
    {
      TimerState(ctrl, load, value, Bit0(irqStatus))
    }

    constructor (intc: Intc)
      ensures Valid() && this.intc == intc && State() == TimerState(0, 0, 0, false)
    {
      this.intc := intc;
      ctrl, load, value, irqStatus := 0, 0, 0, 0;
    }

    method Reset()
      modifies this
      ensures Valid() && State() == TimerState(0, 0, 0, false)
    {
      ctrl, load, value, irqStatus := 0, 0, 0, 0;
    }

    method Read(off: u32) returns (r: Option<u32>)
      requires Valid()
      ensures r == ReadTimer(State(), off)
    {
      if off == TIMER_CTRL_OFF { return Some(ctrl); }
      if off == TIMER_LOAD_OFF { return Some(load); }
      if off == TIMER_VALUE_OFF { return Some(value); }
      if off == TIMER_IRQ_STATUS_OFF { return Some(irqStatus); }
      return None;
    }

    method Write(off: u32, v: u32) returns (ok: bool)
      requires Valid()
      modifies this
      ensures Valid()
      ensures ok == WriteTimer(old(State()), off, v).Some?
      ensures State() == if ok then WriteTimer(old(State()), off, v).value else old(State())
    {
      if off == TIMER_CTRL_OFF {
        var wasEnabled := Bit0(ctrl);
        ctrl := v;
        var nowEnabled := Bit0(ctrl);
        if nowEnabled && !wasEnabled && value == 0 {
          value := load;
        }
        return true;
      }
      if off == TIMER_LOAD_OFF {
        load := v;
        return true;
      }
      if off == TIMER_IRQ_STATUS_OFF || off == TIMER_IRQ_CLEAR_OFF {
        if Bit0(v) {
          irqStatus := if Bit0(irqStatus) then irqStatus - 1 else irqStatus;
        }
        return true;
      }
      return false;
    }

    method Step()
      requires Valid() && intc.Valid()
      modifies this, intc
      ensures Valid() && State() == TimerTick(old(State()))
      ensures intc.Valid()
      ensures intc.State() == if Expires(old(State())) && old(State()).IrqEnabled()
                              then Raise(old(intc.State()), IRQ_TIMER) else old(intc.State())
    {
      if !Bit0(ctrl) {
        return;
      }
      if load == 0 {
        return;
      }
      if value > 0 {
        value := value - 1;
      }
      if value == 0 {
        irqStatus := if Bit0(irqStatus) then irqStatus else irqStatus + 1;
        if Bit2(ctrl) {
          intc.RaiseLine(IRQ_TIMER);
        }
        if Bit1(ctrl) {
          value := load;
        } else {
          ctrl := ctrl - 1;
        }
      }
    }
  }
}
