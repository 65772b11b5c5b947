/**
 * The integer moving average of MarkSuccessWithLatency (pool.go): int64 nanoseconds, products
 * and sum wrapping around, division truncating toward zero.
 */
module Latency {
  /** int64 arithmetic. */
  function Wrap64(x: int): int {
    (x + 0x8000_0000_0000_0000) % 0x1_0000_0000_0000_0000 - 0x8000_0000_0000_0000
  }

  function TruncDiv(x: int, d: int): int
    requires d > 0
  {
    if x >= 0 then x / d else -((-x) / d)
  }

  /** The result is the one int64 that differs by a multiple of 2^64. */
  lemma WrapsAround(x: int)
    ensures -0x8000_0000_0000_0000 <= Wrap64(x) < 0x8000_0000_0000_0000
    ensures (Wrap64(x) - x) % 0x1_0000_0000_0000_0000 == 0
  {}

  /** The quotient leaves a remainder that is shorter than the divisor and has the sign of `x`. */
  lemma DivisionTruncates(x: int, d: int)
    requires d > 0
    ensures var r := x - TruncDiv(x, d) * d;
            -d < r < d && (x >= 0 ==> r >= 0) && (x <= 0 ==> r <= 0)
  {
    if x < 0 { assert -x == (-x) / d * d + (-x) % d; } else { assert x == x / d * d + x % d; }
  }

  /** The stored latency after one more sample. */
  function Next(prior: int, sample: int): int {
    if prior == 0 then sample
    else TruncDiv(Wrap64(Wrap64(sample * 2) + Wrap64(prior * 8)), 10)
  }

  /** The latency after a history of samples, starting from none. */
  function Average(samples: seq<int>): int {
    if samples == [] then 0 else Next(Average(samples[..|samples| - 1]), samples[|samples| - 1])
  }

  ghost predicate Within(samples: seq<int>, lo: int, hi: int) {
    forall i :: 0 <= i < |samples| ==> lo <= samples[i] <= hi
  }

  /** No intermediate value leaves the int64 range. */
  ghost predicate NoOverflow(prior: int, sample: int) {
    Wrap64(sample * 2) == sample * 2 && Wrap64(prior * 8) == prior * 8 &&
    Wrap64(sample * 2 + prior * 8) == sample * 2 + prior * 8
  }

  lemma NextInRange(prior: int, sample: int, lo: int, hi: int)
    requires 0 < lo <= sample <= hi && 10 * hi < 0x8000_0000_0000_0000
    requires prior == 0 || lo <= prior <= hi
    ensures lo <= Next(prior, sample) <= hi && NoOverflow(prior, sample)
    ensures prior != 0 ==> Next(prior, sample) == (sample * 2 + prior * 8) / 10
  {
    hide Wrap64, TruncDiv;
    WrapInRange(sample * 2);
    WrapInRange(prior * 8);
    WrapInRange(sample * 2 + prior * 8);
    if prior != 0 { MeanBetween(prior, sample, lo, hi); }
  }

  lemma WrapInRange(x: int)
    requires 0 <= x < 0x8000_0000_0000_0000
    ensures Wrap64(x) == x
  {}

  /** Two parts new and eight parts old, divided, lie between bounds of both. */
  lemma MeanBetween(prior: int, sample: int, lo: int, hi: int)
    requires 0 < lo <= sample <= hi && lo <= prior <= hi
    ensures var mean := TruncDiv(sample * 2 + prior * 8, 10);
            lo <= mean <= hi && mean == (sample * 2 + prior * 8) / 10
  {}

  /** For every history of positive samples in [lo, hi] the latency stays in [lo, hi] and nothing
      overflows, as long as 10 * hi fits an int64. */
  lemma {:induction false} AverageInRange(samples: seq<int>, lo: int, hi: int)
    requires samples != [] && 0 < lo && 10 * hi < 0x8000_0000_0000_0000 && Within(samples, lo, hi)
    ensures lo <= Average(samples) <= hi
    ensures forall n :: 0 <= n < |samples| ==> NoOverflow(Average(samples[..n]), samples[n])
  {
    hide Next, NoOverflow;
    var before, last := samples[..|samples| - 1], samples[|samples| - 1];
    if before != [] {
      AverageInRange(before, lo, hi);
      forall n | 0 <= n < |before| ensures samples[..n] == before[..n] && samples[n] == before[n] {}
    }
    NextInRange(Average(before), last, lo, hi);
  }

  /** The latency after `k` more samples of the same value. */
  function Repeated(prior: int, sample: int, k: nat): int {
    if k == 0 then prior else Next(Repeated(prior, sample, k - 1), sample)
  }

  /** One step under a constant sample: from above the gap shrinks, from below it shrinks until
      it is at most four, where the latency stays. */
  lemma StepTowards(prior: int, sample: int)
    requires 0 < sample && 0 < prior && 10 * sample < 0x8000_0000_0000_0000 && 10 * prior < 0x8000_0000_0000_0000
    ensures prior > sample ==> sample <= Next(prior, sample) < prior
    ensures prior < sample - 4 ==> prior < Next(prior, sample) <= sample - 4
    ensures sample - 4 <= prior <= sample ==> Next(prior, sample) == prior
  {
    hide Next, NoOverflow;
    NextInRange(prior, sample, if prior < sample then prior else sample, if prior < sample then sample else prior);
  }

  /** Where the latency ends up under a constant sample: on the sample from above, four below
      it from further below, and where it is from within four below. */
  function Limit(prior: int, sample: int): int {
    if prior >= sample then sample else if sample - prior <= 4 then prior else sample - 4
  }

  /** The latency is at its limit after at most as many updates as the gap. */
  lemma {:induction false} Settles(prior: int, sample: int, k: nat)
    requires 0 < sample && 0 < prior && 10 * sample < 0x8000_0000_0000_0000 && 10 * prior < 0x8000_0000_0000_0000
    requires k >= if prior > sample then prior - sample else sample - prior
    ensures Repeated(prior, sample, k) == Limit(prior, sample)
    decreases k
  {
    hide Next;
    StepTowards(prior, sample);
    if sample - 4 <= prior <= sample {
      Stays(prior, sample, k);
    } else {
      Settles(Next(prior, sample), sample, k - 1);
      Shift(prior, sample, k - 1);
    }
  }

  /** So a constant sample is ever reached if and only if the latency does not start below it. */
  lemma ReachedExactlyFromAbove(prior: int, sample: int)
    requires 0 < sample && 0 < prior && 10 * sample < 0x8000_0000_0000_0000 && 10 * prior < 0x8000_0000_0000_0000
    ensures (exists k: nat :: Repeated(prior, sample, k) == sample) <==> prior >= sample
  {
    hide Next, Repeated;
    if prior >= sample {
      Settles(prior, sample, prior - sample);
    } else {
      forall k: nat ensures Repeated(prior, sample, k) < sample { StaysBelow(prior, sample, k); }
    }
  }

  lemma {:induction false} StaysBelow(prior: int, sample: int, k: nat)
    requires 0 < prior < sample && 10 * sample < 0x8000_0000_0000_0000
    ensures prior <= Repeated(prior, sample, k) <= Limit(prior, sample)
  {
    hide Next;
    if k > 0 {
      StaysBelow(prior, sample, k - 1);
      StepTowards(Repeated(prior, sample, k - 1), sample);
    }
  }

  /** On the way the latency moves one way only. */
  lemma {:induction false} Monotone(prior: int, sample: int, k: nat)
    requires 0 < sample && 0 < prior && 10 * sample < 0x8000_0000_0000_0000 && 10 * prior < 0x8000_0000_0000_0000
    ensures var now, next := Repeated(prior, sample, k), Repeated(prior, sample, k + 1);
            if prior > sample then sample <= next <= now <= prior else prior <= now <= next <= sample
  {
    hide Next;
    if k > 0 { Monotone(prior, sample, k - 1); }
    StepTowards(Repeated(prior, sample, k), sample);
  }

  lemma {:induction false} Shift(prior: int, sample: int, k: nat)
    ensures Repeated(Next(prior, sample), sample, k) == Repeated(prior, sample, k + 1)
  {
    if k > 0 { Shift(prior, sample, k - 1); }
  }

  lemma {:induction false} Stays(prior: int, sample: int, k: nat)
    requires Next(prior, sample) == prior
    ensures Repeated(prior, sample, k) == prior
  {
    if k > 0 { Stays(prior, sample, k - 1); }
  }
}
