/** Interrupts are coalesced but never lost or invented: the controller against its whole history. */
module IntcHistory {
  import opened Words
  import opened IntcModel

  datatype IntcOp = Arrive(line: int) | Load(off: u32) | Store(off: u32, value: u32)

  function Do(i: IntcState, op: IntcOp): IntcState {
    match op
    case Arrive(line) => Raise(i, line)
    case Load(off) => ReadIntc(i, off).0
    case Store(off, v) => if WriteIntc(i, off, v).Some? then WriteIntc(i, off, v).value else i
  }

  function After(i: IntcState, ops: seq<IntcOp>): IntcState
    decreases |ops|
  {
    if ops == [] then i else Do(After(i, ops[..|ops| - 1]), ops[|ops| - 1])
  }

  /** The operation is a read whose result is this line's number. */
  predicate Acks(i: IntcState, op: IntcOp, l: Line) {
    op.Load? && op.off == INTC_ACK_OFF && ReadIntc(i, op.off).1 == Some(l as int)
  }

  /** The line arrived after the last ACK that returned it. */
  predicate RaisedSinceAck(i: IntcState, ops: seq<IntcOp>, l: Line)
    decreases |ops|
  {
    if ops == [] then false
    else
      var init, last := ops[..|ops| - 1], ops[|ops| - 1];
      if last == Arrive(l) then true
      else RaisedSinceAck(i, init, l) && !Acks(After(i, init), last, l)
  }

  function RaiseCount(ops: seq<IntcOp>, l: Line): nat
    decreases |ops|
  {
    if ops == [] then 0
    else RaiseCount(ops[..|ops| - 1], l) + if ops[|ops| - 1] == Arrive(l) then 1 else 0
  }

  function AckCount(i: IntcState, ops: seq<IntcOp>, l: Line): nat
    decreases |ops|
  {
    if ops == [] then 0
    else
      var init, last := ops[..|ops| - 1], ops[|ops| - 1];
      AckCount(i, init, l) + if Acks(After(i, init), last, l) then 1 else 0
  }

  /** From reset, over every trace: a line is pending exactly if it was raised since the last ACK that returned it,
      and the ACKs of a line plus its pending bit never exceed its raises, however raises coalesce. */
  lemma {:induction false} PendingIsRaisedSinceAck(i: IntcState, ops: seq<IntcOp>, l: Line)
    requires i.pending == {}
    ensures var t := After(i, ops);
            && (l in t.pending <==> RaisedSinceAck(i, ops, l))
            && AckCount(i, ops, l) + (if l in t.pending then 1 else 0) <= RaiseCount(ops, l)
    decreases |ops|
  {
    hide Do;
    if ops != [] {
      var init, last := ops[..|ops| - 1], ops[|ops| - 1];
      PendingIsRaisedSinceAck(i, init, l);
      PendingStep(After(i, init), last, l);
    }
  }

  /** Only an arrival sets a pending bit and only the ACK that returns the line clears it: CLEAR does not. */
  lemma PendingStep(i: IntcState, op: IntcOp, l: Line)
    ensures l in Do(i, op).pending <==> (op == Arrive(l) || (l in i.pending && !Acks(i, op, l)))
    ensures Acks(i, op, l) ==> l in i.pending
  {
    hide Mask, Lines;
  }

  /** An ACK returns "none" exactly when no enabled line is pending; otherwise the highest one, which it moves from
      pending to active; a second ACK of the same event does not return it again. */
  lemma AckReturnsHighest(i: IntcState)
    ensures var (t, v) := ReadIntc(i, INTC_ACK_OFF);
            && v.Some?
            && (v.value == NO_LINE <==> Gated(i) == {})
            && (v.value != NO_LINE ==>
                  && v.value < 3 && v.value in Gated(i)
                  && (forall l :: l in Gated(i) ==> Rank(v.value) <= Rank(l))
                  && v.value !in t.pending && v.value in t.active
                  && ReadIntc(t, INTC_ACK_OFF).1 != v)
  {
  }
}
