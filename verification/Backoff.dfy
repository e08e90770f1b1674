/** Restart delays: exponential growth, a cap, and up to five per cent of jitter either way.
    Durations are exact reals (milliseconds in the default configuration). */
module Backoff {

  datatype BackoffConfig = BackoffConfig(initial: real, max: real, multiplier: real, jitter: bool)

  const DEFAULT_BACKOFF := BackoffConfig(100.0, 30000.0, 2.0, true)

  /** What the documentation of the configuration takes for granted. */
  predicate Sensible(bc: BackoffConfig) {
    0.0 <= bc.initial <= bc.max && 1.0 <= bc.multiplier
  }

  function Power(base: real, exponent: nat): real {
    if exponent == 0 then 1.0 else base * Power(base, exponent - 1)
  }

  /** The delay before jitter. */
  function CappedDelay(bc: BackoffConfig, attempt: nat): real {
    var dur := bc.initial * Power(bc.multiplier, attempt);
    if dur > bc.max then bc.max else dur
  }

  /** A value the random source can contribute: a float in [0, 1) scaled by 0.1. */
  predicate JitterDraw(frac: real) {
    0.0 <= frac < 0.1
  }

  function Jittered(jitter: bool, dur: real, frac: real): real {
    if jitter then dur * (1.0 + frac - 0.05) else dur
  }

  /** The delay scheduled for a zero-based attempt, given the random draw. */
  function BackoffFor(bc: BackoffConfig, attempt: nat, frac: real): real {
    Jittered(bc.jitter, CappedDelay(bc, attempt), frac)
  }

  predicate Near(jitter: bool, dur: real, delay: real) {
    if jitter then 0.95 * dur <= delay <= 1.05 * dur else delay == dur
  }

  /** The band a jittered delay may fall in: five per cent either way, or none without jitter. */
  predicate InBand(bc: BackoffConfig, attempt: nat, delay: real) {
    Near(bc.jitter, CappedDelay(bc, attempt), delay)
  }

  function CappedSum(bc: BackoffConfig, terms: nat): real {
    if terms == 0 then 0.0 else CappedSum(bc, terms - 1) + CappedDelay(bc, terms - 1)
  }

  function Total(delays: seq<real>): real {
    if delays == [] then 0.0 else Total(delays[..|delays| - 1]) + delays[|delays| - 1]
  }

  lemma ScaleUp(a: real, m: real)
    requires 0.0 <= a && 1.0 <= m
    ensures a <= m * a
  {
  }

  lemma {:induction false} PowerAtLeastOne(base: real, exponent: nat)
    requires 1.0 <= base
    ensures 1.0 <= Power(base, exponent)
  {
    if exponent > 0 {
      PowerAtLeastOne(base, exponent - 1);
      ScaleUp(Power(base, exponent - 1), base);
    }
  }

  /** The delay before jitter starts at `initial`, stays within [initial, max] and never shrinks. */
  lemma CappedDelayBounds(bc: BackoffConfig, attempt: nat)
    requires Sensible(bc)
    ensures bc.initial <= CappedDelay(bc, attempt) <= bc.max
    ensures CappedDelay(bc, 0) == bc.initial
    ensures CappedDelay(bc, attempt) <= CappedDelay(bc, attempt + 1)
  {
    var p := Power(bc.multiplier, attempt);
    PowerAtLeastOne(bc.multiplier, attempt);
    ScaleUp(bc.initial, p);
    assert bc.initial * p == p * bc.initial;
    ScaleUp(bc.initial * p, bc.multiplier);
    assert bc.initial * Power(bc.multiplier, attempt + 1) == bc.multiplier * (bc.initial * p);
  }

  /** Monotone over any distance, not just one step. */
  lemma {:induction false} CappedDelayMonotone(bc: BackoffConfig, a: nat, b: nat)
    requires Sensible(bc) && a <= b
    ensures CappedDelay(bc, a) <= CappedDelay(bc, b)
  {
    if a < b {
      CappedDelayMonotone(bc, a, b - 1);
      CappedDelayBounds(bc, b - 1);
    }
  }

  /** Each delay before jitter is the one before times the multiplier, cut off at the maximum. */
  lemma CappedDelayGrows(bc: BackoffConfig, attempt: nat)
    requires Sensible(bc)
    ensures
      var next := bc.multiplier * CappedDelay(bc, attempt);
      CappedDelay(bc, attempt + 1) == if next > bc.max then bc.max else next
  {
    var dur := bc.initial * Power(bc.multiplier, attempt);
    assert bc.initial * Power(bc.multiplier, attempt + 1) == bc.multiplier * dur;
    CappedDelayBounds(bc, attempt);
    if dur > bc.max {
      ScaleUp(dur, bc.multiplier);
      ScaleUp(bc.max, bc.multiplier);
    }
  }

  lemma ProductNonNegative(a: real, b: real)
    requires 0.0 <= a && 0.0 <= b
    ensures 0.0 <= a * b
  {
  }

  lemma JitteredIsNear(jitter: bool, d: real, frac: real)
    requires 0.0 <= d && JitterDraw(frac)
    ensures Near(jitter, d, Jittered(jitter, d, frac))
  {
    ProductNonNegative(frac, d);
    ProductNonNegative(0.1 - frac, d);
    assert d * (1.0 + frac - 0.05) == 0.95 * d + frac * d;
  }

  lemma JitterStaysInBand(bc: BackoffConfig, attempt: nat, frac: real)
    requires Sensible(bc) && JitterDraw(frac)
    ensures InBand(bc, attempt, BackoffFor(bc, attempt, frac))
  {
    CappedDelayBounds(bc, attempt);
    JitteredIsNear(bc.jitter, CappedDelay(bc, attempt), frac);
  }

  /** Jitter uses the whole band: a delay can be drawn exactly when it is at least 95 and less than 105 per cent
      of the delay before jitter. */
  lemma JitterCoversBand(dur: real, delay: real)
    requires dur > 0.0
    ensures (exists frac :: JitterDraw(frac) && Jittered(true, dur, frac) == delay) <==> 0.95 * dur <= delay < 1.05 * dur
  {
    if 0.95 * dur <= delay < 1.05 * dur {
      var frac := DrawFor(dur, delay);
      assert JitterDraw(frac);
    }
    forall frac | JitterDraw(frac) && Jittered(true, dur, frac) == delay
      ensures 0.95 * dur <= delay < 1.05 * dur
    {
      JitterBand(dur, frac);
    }
  }

  lemma DrawFor(dur: real, delay: real) returns (frac: real)
    requires dur > 0.0 && 0.95 * dur <= delay < 1.05 * dur
    ensures JitterDraw(frac) && Jittered(true, dur, frac) == delay
  {
    var extra := delay - 0.95 * dur;
    frac := extra / dur;
    assert frac * dur == extra;
    QuotientBounds(extra, dur, frac);
    assert dur * (1.0 + frac - 0.05) == 0.95 * dur + frac * dur;
  }

  lemma QuotientBounds(extra: real, dur: real, frac: real)
    requires dur > 0.0 && frac * dur == extra && 0.0 <= extra < 0.1 * dur
    ensures 0.0 <= frac < 0.1
  {
    ScaleBounds(frac, dur);
  }

  lemma ScaleBounds(frac: real, dur: real)
    requires dur > 0.0
    ensures frac < 0.0 ==> frac * dur < 0.0
    ensures frac >= 0.1 ==> frac * dur >= 0.1 * dur
  {
    if frac >= 0.1 {
      ProductNonNegative(frac - 0.1, dur);
    }
  }

  lemma JitterBand(dur: real, frac: real)
    requires dur > 0.0 && JitterDraw(frac)
    ensures 0.95 * dur <= Jittered(true, dur, frac) < 1.05 * dur
  {
    ProductNonNegative(frac, dur);
    assert (0.1 - frac) * dur > 0.0;
    assert dur * (1.0 + frac - 0.05) == 0.95 * dur + frac * dur;
  }

  lemma {:induction false} CappedSumMonotone(bc: BackoffConfig, a: nat, b: nat)
    requires Sensible(bc) && a <= b
    ensures 0.0 <= CappedSum(bc, a) <= CappedSum(bc, b)
  {
    if a < b {
      CappedSumMonotone(bc, a, b - 1);
      CappedDelayBounds(bc, b - 1);
    } else if a > 0 {
      CappedSumMonotone(bc, a - 1, a - 1);
      CappedDelayBounds(bc, a - 1);
    }
  }

  /** Delays that are each in band add up to at most 1.05 times the capped geometric sum. */
  lemma {:induction false} TotalBound(bc: BackoffConfig, delays: seq<real>)
    requires Sensible(bc)
    requires forall j :: 0 <= j < |delays| ==> InBand(bc, j, delays[j])
    ensures Total(delays) <= 1.05 * CappedSum(bc, |delays|)
  {
    if delays != [] {
      var last := |delays| - 1;
      TotalBound(bc, delays[..last]);
      CappedDelayBounds(bc, last);
      assert InBand(bc, last, delays[last]);
    }
  }

  /** With the defaults and the default limit of five restarts the sum is 1500 milliseconds. */
  lemma DefaultCappedSum()
    ensures Sensible(DEFAULT_BACKOFF)
    ensures CappedSum(DEFAULT_BACKOFF, 4) == 1500.0
  {
  }

  /** The default delays double from 100 milliseconds until the tenth and all later ones are 30 seconds, before
      jitter, which may take five per cent off. */
  lemma {:induction false} DefaultDelays(attempt: nat)
    ensures CappedDelay(DEFAULT_BACKOFF, 0) == 100.0
    ensures attempt < 8 ==> CappedDelay(DEFAULT_BACKOFF, attempt + 1) == 2.0 * CappedDelay(DEFAULT_BACKOFF, attempt)
    ensures attempt >= 9 ==> CappedDelay(DEFAULT_BACKOFF, attempt) == 30000.0
    ensures BackoffFor(DEFAULT_BACKOFF, 0, 0.0) == 95.0
  {
    DefaultSmall();
    if attempt > 9 {
      DefaultDelays(attempt - 1);
      CappedDelayGrows(DEFAULT_BACKOFF, attempt - 1);
    } else {
      CappedDelayGrows(DEFAULT_BACKOFF, attempt);
    }
  }

  lemma DefaultSmall()
    ensures CappedDelay(DEFAULT_BACKOFF, 0) == 100.0 && CappedDelay(DEFAULT_BACKOFF, 1) == 200.0
    ensures CappedDelay(DEFAULT_BACKOFF, 2) == 400.0 && CappedDelay(DEFAULT_BACKOFF, 3) == 800.0
    ensures CappedDelay(DEFAULT_BACKOFF, 4) == 1600.0 && CappedDelay(DEFAULT_BACKOFF, 5) == 3200.0
    ensures CappedDelay(DEFAULT_BACKOFF, 6) == 6400.0 && CappedDelay(DEFAULT_BACKOFF, 7) == 12800.0
    ensures CappedDelay(DEFAULT_BACKOFF, 8) == 25600.0 && CappedDelay(DEFAULT_BACKOFF, 9) == 30000.0
  {
    CappedDelayGrows(DEFAULT_BACKOFF, 0);
    CappedDelayGrows(DEFAULT_BACKOFF, 1);
    CappedDelayGrows(DEFAULT_BACKOFF, 2);
    CappedDelayGrows(DEFAULT_BACKOFF, 3);
    CappedDelayGrows(DEFAULT_BACKOFF, 4);
    CappedDelayGrows(DEFAULT_BACKOFF, 5);
    CappedDelayGrows(DEFAULT_BACKOFF, 6);
    CappedDelayGrows(DEFAULT_BACKOFF, 7);
    CappedDelayGrows(DEFAULT_BACKOFF, 8);
  }
}
