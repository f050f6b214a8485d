/** Closed forms of the timer: when it expires, how often, and what it leaves pending. */
module TimerTheorems {
  import opened Words
  import opened IntcModel
  import opened TimerModel

  function RunTicks(t: TimerState, n: nat): TimerState {
    if n == 0 then t else TimerTick(RunTicks(t, n - 1))
  }

  /** Expiries in the first n ticks. */
  function Expiries(t: TimerState, n: nat): nat {
    if n == 0 then 0 else Expiries(t, n - 1) + if Expires(RunTicks(t, n - 1)) then 1 else 0
  }

  /** Ticks to the first expiry of an enabled timer. */
  function First(t: TimerState): int {
    if t.value == 0 then 1 else t.value
  }

  lemma DivUnique(x: int, l: int, q: int, r: int)
    requires 0 <= r < l && x == q * l + r
    ensures x / l == q && x % l == r
  {
    var q', r' := x / l, x % l;
    assert q' * l + r' == x;
    if q' > q {
      Scale(q + 1, q', l);
    }
    if q' < q {
      Scale(q' + 1, q, l);
    }
  }

  lemma Scale(a: int, b: int, l: int)
    requires a <= b && l > 0
    ensures a * l <= b * l
  {
  }

  lemma DivStep(x: nat, l: nat)
    requires l > 0
    ensures x % l + 1 == l ==> (x + 1) / l == x / l + 1 && (x + 1) % l == 0
    ensures x % l + 1 != l ==> (x + 1) / l == x / l && (x + 1) % l == x % l + 1
  {
    var q, r := x / l, x % l;
    assert x == q * l + r;
    if r + 1 == l {
      assert (q + 1) * l == q * l + l;
      DivUnique(x + 1, l, q + 1, 0);
    } else {
      DivUnique(x + 1, l, q, r + 1);
    }
  }

  /** A periodic timer first expires after the count it was left with, then every LOAD ticks. */
  lemma {:induction false} PeriodicForm(t: TimerState, n: nat)
    requires t.Enabled() && t.Periodic() && t.load > 0
    ensures var f, l := First(t), t.load;
            var u := RunTicks(t, n);
            && u.ctrl == t.ctrl && u.load == l
            && (n < f ==> Expiries(t, n) == 0 && u.value == t.value - n)
            && (n >= f ==> Expiries(t, n) == 1 + (n - f) / l && u.value == l - (n - f) % l && u.fired)
    decreases n
  {
    if n > 0 {
      PeriodicForm(t, n - 1);
      if n - 1 >= First(t) {
        DivStep(n - 1 - First(t), t.load);
      } else if n == First(t) {
        DivUnique(0, t.load, 0, 0);
      }
    }
  }

  /** A one-shot timer expires exactly once, then is disabled and stays at zero. */
  lemma {:induction false} OneShotForm(t: TimerState, n: nat)
    requires t.Enabled() && !t.Periodic() && t.load > 0
    ensures var f := First(t);
            var u := RunTicks(t, n);
            && u.load == t.load
            && (n < f ==> Expiries(t, n) == 0 && u == t.(value := t.value - n))
            && (n >= f ==> Expiries(t, n) == 1 && u == t.(value := 0, fired := true, ctrl := t.ctrl - 1)
                           && !u.Enabled())
    decreases n
  {
    if n > 0 {
      OneShotForm(t, n - 1);
    }
  }

  /** Enabling a disabled timer: a leftover VALUE is counted down first, otherwise LOAD. From VALUE 0 a periodic
      timer expires n / LOAD times in n ticks and then reads LOAD - n mod LOAD. */
  lemma EnabledFromStopped(t: TimerState, ctrl: u32, n: nat)
    requires !t.Enabled() && t.load > 0 && Bit0(ctrl)
    ensures var e := WriteTimer(t, TIMER_CTRL_OFF, ctrl).value;
            && First(e) == (if t.value > 0 then t.value else t.load)
            && (Expiries(e, n) == 0 <==> n < First(e))
            && (Bit1(ctrl) && t.value == 0 ==>
                  Expiries(e, n) == n / t.load && RunTicks(e, n).value == t.load - n % t.load)
            && (!Bit1(ctrl) ==> Expiries(e, n) <= 1)
  {
    hide RunTicks, Expiries;
    var e := WriteTimer(t, TIMER_CTRL_OFF, ctrl).value;
    if Bit1(ctrl) {
      PeriodicForm(e, n);
      FullPeriods(n, t.load);
      if n >= First(e) {
        QuotientNat(n - First(e), t.load);
      }
    } else {
      OneShotForm(e, n);
    }
  }

  lemma QuotientNat(a: nat, l: nat)
    requires l > 0
    ensures a / l >= 0
  {
  }

  lemma FullPeriods(n: nat, l: nat)
    requires l > 0
    ensures n < l ==> n / l == 0 && n % l == n
    ensures n >= l ==> n / l == 1 + (n - l) / l && n % l == (n - l) % l
  {
    if n < l {
      DivUnique(n, l, 0, n);
    } else {
      var q, r := (n - l) / l, (n - l) % l;
      assert n - l == q * l + r;
      assert (1 + q) * l == l + q * l;
      DivUnique(n, l, 1 + q, r);
    }
  }

  /** With LOAD 0 an enabled timer never expires and never moves. */
  lemma {:induction false} ZeroLoadNeverFires(t: TimerState, n: nat)
    requires t.load == 0
    ensures RunTicks(t, n) == t && Expiries(t, n) == 0
    decreases n
  {
    if n > 0 {
      ZeroLoadNeverFires(t, n - 1);
    }
  }

  lemma IrqBitStays(c: u32)
    requires Bit0(c)
    ensures Bit2(c - 1) == Bit2(c)
  {
    var q, r := c / 4, c % 4;
    assert c == 2 * (2 * q) + r;
    Parity(r, 2 * q);
    QuarterStays(q, r);
  }

  lemma QuarterStays(q: int, r: int)
    requires 1 <= r < 4
    ensures (4 * q + r - 1) / 4 == q == (4 * q + r) / 4
  {
  }

  /** Expiring does not change whether the timer asks for interrupts. */
  lemma {:induction false} IrqEnableStays(t: TimerState, n: nat)
    ensures RunTicks(t, n).IrqEnabled() == t.IrqEnabled()
    decreases n
  {
    if n > 0 {
      IrqEnableStays(t, n - 1);
      var u := RunTicks(t, n - 1);
      if u.Enabled() {
        IrqBitStays(u.ctrl);
      }
    }
  }
}
