/** Boot erases history: the machine after it depends only on its configuration and the image. */
module BootTheorems {
  import opened Words
  import opened MemoryModel
  import opened PerfModel
  import opened IntcModel
  import opened UartModel
  import opened TimerModel
  import opened DmaModel
  import opened SocModel

  lemma WrapSmall(x: u32)
    ensures Wrap(x) == x
  {
  }

  /** Every device at rest. */
  predicate AtRest(s: SocState) {
    s.uart.busy <= 0 && !s.timer.Enabled() && s.dma.phase.Idle?
  }

  lemma RestingTick(s: SocState)
    requires AtRest(s)
    ensures Tick(s) == s.(ticks := Wrap(s.ticks + 1), perf := Count(s.perf, TICK))
  {
    hide Count, Append, TimerTick;
    CountNothing(Count(s.perf, TICK));
    assert TimerTick(s.timer) == s.timer by {
      StoppedTimer(s.timer);
    }
  }

  lemma StoppedTimer(t: TimerState)
    requires !t.Enabled()
    ensures TimerTick(t) == t
  {
  }

  /** Ticks of a machine at rest only count time. */
  lemma {:induction false} RestingTicks(s: SocState, n: nat)
    requires AtRest(s)
    ensures Ticks(s, n) == s.(ticks := Wrap(s.ticks + n), perf := Count(s.perf, NOTHING.(cycles := n)))
    decreases n
  {
    hide Count, Tick, Wrap;
    if n == 0 {
      CountNothing(s.perf);
      assert NOTHING.(cycles := 0) == NOTHING;
      WrapSmall(s.ticks);
    } else {
      RestingTicks(s, n - 1);
      RestingTick(Ticks(s, n - 1));
      WrapAdd(s.ticks + n - 1, 1);
      CountTwice(s.perf, NOTHING.(cycles := n - 1), TICK);
      assert NOTHING.(cycles := n - 1).Plus(TICK) == NOTHING.(cycles := n);
    }
  }

  /** After boot everything is at its reset value, SRAM is zero, five ticks have passed and only CYCLES has counted. */
  lemma BootResult(s: SocState, image: seq<u32>)
    ensures Booted(s, image) == SocState(
              if image == [] then s.rom else LoadWords(s.rom.(data := Zeros(|s.rom.data|)), image),
              s.sram.(data := Zeros(|s.sram.data|)),
              PerfState(5, 0, 0, 0, 0, true, 1), IntcState({}, {}, {}),
              UartState(s.uart.latency, 0, 0, 0, 0, 0, false, false, [], []), TimerState(0, 0, 0, false),
              DmaState(s.dma.cfg, 0, 0, 0, 0, Phase.Idle, false), 5)
  {
    hide LoadWords, Zeros;
    RestingTicks(BootImage(s, image), BOOT_TICKS);
  }

  /** Two machines of the same configuration are the same machine after booting the same image, whatever
      happened to them before: running transfers, pending interrupts, stream contents and fault latches. */
  lemma BootForgets(s: SocState, t: SocState, image: seq<u32>)
    requires WellFormed(s) && WellFormed(t) && image != []
    requires s.dma.cfg == t.dma.cfg && s.uart.latency == t.uart.latency
    ensures Booted(s, image) == Booted(t, image)
  {
    hide LoadWords;
    BootResult(s, image);
    BootResult(t, image);
  }
}
