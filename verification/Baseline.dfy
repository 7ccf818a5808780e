/** The baseline latency: an integer exponentially weighted moving average. */
module Baseline {
  const DIVISOR := 8
  const INITIAL_LATENCY := 1000

  /** The average after one more sample, in integer arithmetic. */
  function Smooth(average: nat, sample: nat): nat
  {
    (average * (DIVISOR - 1) + sample) / DIVISOR
  }

  /** The average after some samples; the first one since a reset is taken as it is. */
  function Average(samples: seq<nat>): nat
  {
    if samples == [] then INITIAL_LATENCY
    else if |samples| == 1 then samples[0]
    else Smooth(Average(samples[..|samples| - 1]), samples[|samples| - 1])
  }

  lemma SmoothBetween(average: nat, sample: nat, lo: nat, hi: nat)
    requires lo <= average <= hi && lo <= sample <= hi
    ensures lo <= Smooth(average, sample) <= hi
  {
  }

  /** The average never leaves the range of the samples since the last reset. */
  lemma {:induction false} AverageBetween(samples: seq<nat>, lo: nat, hi: nat)
    requires samples != [] && forall i :: 0 <= i < |samples| ==> lo <= samples[i] <= hi
    ensures lo <= Average(samples) <= hi
    decreases |samples|
  {
    if |samples| > 1 {
      AverageBetween(samples[..|samples| - 1], lo, hi);
      SmoothBetween(Average(samples[..|samples| - 1]), samples[|samples| - 1], lo, hi);
    }
  }

  /** The average after `n` more samples of the same value. */
  function Repeated(average: nat, sample: nat, n: nat): nat
  {
    if n == 0 then average else Smooth(Repeated(average, sample, n - 1), sample)
  }

  lemma Approach(average: nat, b: nat)
    ensures average >= b ==> b <= Smooth(average, b) && (average > b ==> Smooth(average, b) < average)
    ensures average <= b ==> average <= Smooth(average, b) <= b && (average < b - 7 ==> average < Smooth(average, b))
    ensures average == b ==> Smooth(average, b) == b
    ensures b - 7 <= average <= b ==> Smooth(average, b) == average
  {
  }

  /** Approached from above, a steady sample is reached exactly, at the latest after as many updates as the distance. */
  lemma {:induction false} SettlesFromAbove(average: nat, b: nat, n: nat)
    requires average >= b
    ensures b <= Repeated(average, b, n) && (Repeated(average, b, n) == b || Repeated(average, b, n) + n <= average)
    ensures n >= average - b ==> Repeated(average, b, n) == b
  {
    if n > 0 {
      SettlesFromAbove(average, b, n - 1);
      Approach(Repeated(average, b, n - 1), b);
    }
  }

  /** Approached from below, the average settles at most seven below a steady sample. */
  lemma {:induction false} SettlesFromBelow(average: nat, b: nat, n: nat)
    requires average <= b
    ensures Repeated(average, b, n) <= b
    ensures Repeated(average, b, n) >= b - 7 || Repeated(average, b, n) >= average + n
    ensures n >= b - average ==> b - 7 <= Repeated(average, b, n)
  {
    if n > 0 {
      SettlesFromBelow(average, b, n - 1);
      Approach(Repeated(average, b, n - 1), b);
    }
  }

  /** A steady sample up to seven above the average is never reached: rounding down eats the difference. */
  lemma {:induction false} StaysShort(average: nat, b: nat, n: nat)
    requires b - 7 <= average <= b
    ensures Repeated(average, b, n) == average
  {
    if n > 0 {
      StaysShort(average, b, n - 1);
      Approach(average, b);
    }
  }

  /** Rounding down keeps the average below every sample it is below. */
  lemma {:induction false} StaysBelow(average: nat, b: nat, n: nat)
    requires average < b
    ensures Repeated(average, b, n) < b
  {
    if n > 0 {
      StaysBelow(average, b, n - 1);
      Approach(Repeated(average, b, n - 1), b);
    }
  }

  /** A steady sample is ever reached if and only if the average starts at it or above. */
  lemma ReachedExactly(average: nat, b: nat)
    ensures (exists n: nat :: Repeated(average, b, n) == b) <==> average >= b
  {
    if average >= b {
      SettlesFromAbove(average, b, average - b);
    } else {
      forall n: nat ensures Repeated(average, b, n) != b {
        StaysBelow(average, b, n);
      }
    }
  }

  class Health {
    var latency: nat
    var initialized: bool
    var pingSequence: nat
    /** Samples since the last reset. */
    ghost var samples: seq<nat>

    ghost predicate Valid()
      reads this
    {
      latency == Average(samples) && initialized == (samples != [])
    }

    constructor ()
      ensures Valid() && samples == []
    {
      latency, initialized, pingSequence, samples := INITIAL_LATENCY, false, 0, [];
    }

    method StartIdle(sequence: nat)
      modifies this
      ensures Valid() && samples == [] && pingSequence == sequence
    {
      pingSequence := sequence;
      initialized := false;
      latency := INITIAL_LATENCY;
      samples := [];
    }

    /** Only a reply to the current ping counts. */
    method DnsPingReceived(sequence: nat, elapsed: nat)
      requires Valid()
      modifies this
      ensures Valid() && pingSequence == old(pingSequence)
      ensures samples == if sequence == pingSequence then old(samples) + [elapsed] else old(samples)
    {
      if sequence != pingSequence {
        return;
      }
      assert (samples + [elapsed])[..|samples|] == samples;
      if initialized {
        latency := latency * (DIVISOR - 1);
        latency := latency + elapsed;
        latency := latency / DIVISOR;
      } else {
        latency := elapsed;
        initialized := true;
      }
      samples := samples + [elapsed];
    }
  }
}
