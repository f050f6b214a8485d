/**
 Burst arithmetic: the exact number of ticks of a transfer, when the 32-bit
 countdown computes it, and how it depends on the burst size.
 */
module Timing {
  import opened Words
  import opened DmaModel

  function CeilDiv(a: nat, b: nat): nat
    requires b > 0
  {
    (a + b - 1) / b
  }

  function WordsOf(len: nat): nat {
    CeilDiv(len, 4)
  }

  /** The documented duration, over unbounded integers. */
  function TransferTicks(words: nat, latency: nat, burst: nat): int
    requires burst > 0
  {
    words * latency + CeilDiv(words, burst) - 1
  }

  /** CeilDiv is the least number of bursts that cover the words. */
  lemma CeilDivLeast(a: nat, b: nat, k: nat)
    requires b > 0
    ensures a <= CeilDiv(a, b) * b
    ensures a <= k * b ==> CeilDiv(a, b) <= k
  {
    var q := CeilDiv(a, b);
    assert q * b + (a + b - 1) % b == a + b - 1;
    if q > k {
      MulMonotone(k + 1, q, b);
    }
  }

  lemma MulMonotone(x: int, y: int, b: nat)
    requires x <= y
    ensures x * b <= y * b
  {
  }

  /** Longer bursts never take longer. */
  lemma LongerBurstsNoSlower(words: nat, latency: nat, b1: nat, b2: nat)
    requires 0 < b1 <= b2
    ensures TransferTicks(words, latency, b2) <= TransferTicks(words, latency, b1)
  {
    var k := CeilDiv(words, b1);
    CeilDivLeast(words, b1, k);
    assert k * b1 <= k * b2;
    CeilDivLeast(words, b2, k);
  }

  /** Between one burst and one burst per word; one burst as soon as the burst covers the words. */
  lemma TickBounds(words: nat, latency: nat, burst: nat)
    requires words > 0 && burst > 0
    ensures words * latency <= TransferTicks(words, latency, burst) <= words * (latency + 1) - 1
    ensures TransferTicks(words, latency, burst) == words * latency <==> burst >= words
  {
    hide CeilDiv;
    CeilDivRange(words, burst);
    assert words * (latency + 1) == words * latency + words;
  }

  lemma CeilDivRange(a: nat, b: nat)
    requires a > 0 && b > 0
    ensures 1 <= CeilDiv(a, b) <= a
    ensures CeilDiv(a, b) == 1 <==> b >= a
  {
    hide CeilDiv;
    CeilDivLeast(a, b, 1);
    CeilDivLeast(a, b, a);
    MulMonotone(1, b, a);
  }

  /** At one tick a word the engine always beats the CPU copy of three ticks a word. */
  lemma FasterThanCpuCopy(len: nat, burst: nat)
    requires len > 0 && burst > 0
    ensures TransferTicks(WordsOf(len), 1, burst) < 3 * WordsOf(len)
  {
    TickBounds(WordsOf(len), 1, burst);
  }

  /** Neither the rounding of the length, nor that of the bursts, nor the duration itself overflows; a
      duration of one tick survives the second and third. */
  predicate TimingFits(c: DmaConfig, len: u32) {
    var t := TransferTicks(WordsOf(len), c.latency, c.burst);
    len + 3 < POW32 && (t == 1 || (t < POW31 && WordsOf(len) + c.burst - 1 < POW32))
  }

  /** For every accepted length the countdown equals the documented duration exactly when the
      arithmetic fits; the device is one tick short, or far off, in all other cases. */
  lemma CountdownExact(c: DmaConfig, len: u32)
    requires 0 < len
    ensures Countdown(c, len) == TransferTicks(WordsOf(len), c.latency, c.burst) <==> TimingFits(c, len)
  {
    hide Countdown, TransferTicks, WordsOf, Wrap;
    if len + 3 >= POW32 {
      LengthOverflow(c, len);
    } else {
      var w := WordsOf(len);
      WordsFit(len);
      AtLeastOneTick(w, c.latency, c.burst);
      if w + c.burst - 1 < POW32 {
        Fitting(c, len, w, TransferTicks(w, c.latency, c.burst));
      } else {
        BurstOverflow(c, len, w, TransferTicks(w, c.latency, c.burst));
      }
    }
  }

  lemma WordsFit(len: u32)
    requires 0 < len && len + 3 < POW32
    ensures WordsOf(len) == Wrap(len + 3) / 4 >= 1
  {
  }

  lemma AtLeastOneTick(words: nat, latency: nat, burst: nat)
    requires words > 0 && latency > 0 && burst > 0
    ensures TransferTicks(words, latency, burst) >= 1
  {
    hide TransferTicks;
    TickBounds(words, latency, burst);
    MulMonotone(1, words, latency);
  }

  /** For the three longest lengths the device computes no word at all and finishes after one tick. */
  lemma LengthOverflow(c: DmaConfig, len: u32)
    requires len + 3 >= POW32
    ensures Countdown(c, len) == 1 < TransferTicks(WordsOf(len), c.latency, c.burst)
  {
    hide LoadedWith, Countdown;
    SmallDiv(c.burst - 1, c.burst);
    assert Wrap(c.burst - 1) == c.burst - 1;
    CountdownIs(c, len, 0, 0);
    NothingLoaded();
    TickBounds(WordsOf(len), c.latency, c.burst);
    MulMonotone(1, c.latency, WordsOf(len));
  }

  lemma NothingLoaded()
    ensures LoadedWith(-1) == 1
  {
    assert Wrap(-1) == POW32 - 1;
  }

  lemma CountdownIs(c: DmaConfig, len: u32, words: nat, bursts: nat)
    requires words == Wrap(len + 3) / 4 && bursts == Wrap(words + c.burst - 1) / c.burst
    ensures Countdown(c, len) == LoadedWith(words * c.latency + bursts - 1)
  {
    hide LoadedWith, Wrap;
  }

  lemma Fitting(c: DmaConfig, len: u32, w: nat, t: int)
    requires w == Wrap(len + 3) / 4
    requires t == TransferTicks(w, c.latency, c.burst) >= 1
    requires w + c.burst - 1 < POW32
    ensures Countdown(c, len) == t <==> t < POW31
  {
    hide LoadedWith, Countdown;
    assert Wrap(w + c.burst - 1) == w + c.burst - 1;
    CountdownIs(c, len, w, CeilDiv(w, c.burst));
    LoadedFits(t);
  }

  lemma LoadedFits(t: int)
    requires t >= 1
    ensures LoadedWith(t) == t <==> t < POW31
  {
    if t < POW32 {
      assert Wrap(t) == t;
    }
  }

  lemma BurstOverflow(c: DmaConfig, len: u32, w: nat, t: int)
    requires 0 < w == Wrap(len + 3) / 4
    requires t == TransferTicks(w, c.latency, c.burst) >= 1
    requires w + c.burst - 1 >= POW32
    ensures Countdown(c, len) == t <==> t == 1
  {
    hide LoadedWith, Countdown, CeilDiv;
    TickBounds(w, c.latency, c.burst);
    OverflowedBursts(w, c.burst);
    CountdownIs(c, len, w, 0);
    Truncated(t);
  }

  /** When the rounding sum overflows, the device computes no burst at all. */
  lemma OverflowedBursts(w: nat, burst: pos32)
    requires w < POW31 && w + burst - 1 >= POW32
    ensures Wrap(w + burst - 1) / burst == 0
  {
    assert Wrap(w + burst - 1) == w + burst - 1 - POW32;
    SmallDiv(w + burst - 1 - POW32, burst);
  }

  lemma SmallDiv(s: nat, b: nat)
    requires s < b
    ensures s / b == 0
  {
  }

  /** Loading t - 1, clamped to at least 1, gives t only for t = 1. */
  lemma Truncated(t: int)
    requires t >= 1
    ensures LoadedWith(t - 1) == t <==> t == 1
  {
    assert Wrap(t - 1) <= t - 1;
  }
}
