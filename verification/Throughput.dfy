/** The moving average of a replica's tokens per second. */
module Throughput {
  import opened Wrappers
  import opened Tables
  import opened Queue
  import opened Placement
  import opened Protocol

  datatype Completion = Completion(durationMs: int, tokens: int, at: Time)

  predicate Counts(c: Completion) {
    Qualifies(c.durationMs, c.tokens)
  }

  /** A replica row after a series of completions. */
  function After(row: Replica, completions: seq<Completion>, alpha: real): Replica {
    if completions == [] then row
    else
      var last := completions[|completions| - 1];
      Settled(After(row, completions[..|completions| - 1], alpha), last.durationMs, last.tokens, last.at, alpha)
  }

  predicate Within(rate: Option<real>, lo: real, hi: real) {
    rate.Some? ==> lo <= rate.value <= hi
  }

  lemma MixStaysWithin(v: real, x: real, alpha: real, lo: real, hi: real)
    requires 0.0 <= alpha <= 1.0 && lo <= v <= hi && lo <= x <= hi
    ensures lo <= (1.0 - alpha) * v + alpha * x <= hi
  {
    var mix := (1.0 - alpha) * v + alpha * x;
    ProductNonNegative(1.0 - alpha, v - lo);
    ProductNonNegative(alpha, x - lo);
    ProductNonNegative(1.0 - alpha, hi - v);
    ProductNonNegative(alpha, hi - x);
    assert mix - lo == (1.0 - alpha) * (v - lo) + alpha * (x - lo);
    assert hi - mix == (1.0 - alpha) * (hi - v) + alpha * (hi - x);
  }

  lemma ProductNonNegative(x: real, y: real)
    requires 0.0 <= x && 0.0 <= y
    ensures 0.0 <= x * y
  {
  }

  lemma SampleStaysWithin(row: Replica, durationMs: int, tokens: int, now: Time, alpha: real, lo: real, hi: real)
    requires 0.0 <= alpha <= 1.0 && Within(row.tokensPerSec, lo, hi)
    requires Qualifies(durationMs, tokens) ==> lo <= Rate(durationMs, tokens) <= hi
    ensures Within(Settled(row, durationMs, tokens, now, alpha).tokensPerSec, lo, hi)
  {
    if Qualifies(durationMs, tokens) && row.tokensPerSec.Some? {
      MixStaysWithin(row.tokensPerSec.value, Rate(durationMs, tokens), alpha, lo, hi);
    }
  }

  /** The average lies between the least and greatest qualifying sample, and is unknown exactly until the first. */
  lemma {:induction false} AverageIsBounded(row: Replica, completions: seq<Completion>, alpha: real, lo: real, hi: real)
    requires 0.0 <= alpha <= 1.0 && Within(row.tokensPerSec, lo, hi)
    requires forall c :: c in completions && Counts(c) ==> lo <= Rate(c.durationMs, c.tokens) <= hi
    ensures Within(After(row, completions, alpha).tokensPerSec, lo, hi)
    ensures After(row, completions, alpha).tokensPerSec.None? <==>
              row.tokensPerSec.None? && forall c :: c in completions ==> !Counts(c)
  {
    if completions != [] {
      var last := |completions| - 1;
      AverageIsBounded(row, completions[..last], alpha, lo, hi);
      assert completions == completions[..last] + [completions[last]];
      SampleStaysWithin(After(row, completions[..last], alpha), completions[last].durationMs, completions[last].tokens,
                        completions[last].at, alpha, lo, hi);
    }
  }

  /** The stamp is the time of the last qualifying sample; completions that do not qualify leave no trace. */
  lemma {:induction false} StampIsTheLastSample(row: Replica, completions: seq<Completion>, tail: seq<Completion>, alpha: real)
    requires forall c :: c in tail ==> !Counts(c)
    ensures var before, after := After(row, completions, alpha), After(row, completions + tail, alpha);
            after.tokensPerSec == before.tokensPerSec && after.tokensPerSecAt == before.tokensPerSecAt
    ensures completions != [] && Counts(completions[|completions| - 1]) ==>
              After(row, completions + tail, alpha).tokensPerSecAt == Some(completions[|completions| - 1].at)
    decreases |tail|
  {
    if tail == [] {
      assert completions + tail == completions;
    } else {
      var last := |tail| - 1;
      StampIsTheLastSample(row, completions, tail[..last], alpha);
      var whole := completions + tail;
      assert whole[..|whole| - 1] == completions + tail[..last];
      assert whole[|whole| - 1] == tail[last] && tail[last] in tail;
    }
  }

  function Pow(x: real, n: nat): real {
    if n == 0 then 1.0 else x * Pow(x, n - 1)
  }

  function Repeat(c: Completion, n: nat): seq<Completion> {
    seq(n, _ => c)
  }

  /** n equal samples shrink the distance to that sample by exactly (1 - alpha)^n. */
  lemma {:induction false} AverageConverges(row: Replica, c: Completion, n: nat, alpha: real)
    requires row.tokensPerSec.Some? && Counts(c)
    ensures var rate := After(row, Repeat(c, n), alpha).tokensPerSec;
            && rate.Some?
            && rate.value - Rate(c.durationMs, c.tokens)
                == Pow(1.0 - alpha, n) * (row.tokensPerSec.value - Rate(c.durationMs, c.tokens))
  {
    var x := Rate(c.durationMs, c.tokens);
    var error := row.tokensPerSec.value - x;
    if n > 0 {
      AverageConverges(row, c, n - 1, alpha);
      assert Repeat(c, n)[..n - 1] == Repeat(c, n - 1);
      var v := After(row, Repeat(c, n - 1), alpha).tokensPerSec.value;
      var p := Pow(1.0 - alpha, n - 1);
      assert After(row, Repeat(c, n), alpha).tokensPerSec.value == (1.0 - alpha) * v + alpha * x;
      assert (1.0 - alpha) * v + alpha * x - x == (1.0 - alpha) * (v - x);
      assert (1.0 - alpha) * (p * error) == ((1.0 - alpha) * p) * error;
    }
  }

  /** At the default weight, ten samples leave under three per cent of the error. */
  lemma TenSamplesSettleIt()
    ensures EWMA_ALPHA == 0.3
    ensures 0.0 < Pow(1.0 - EWMA_ALPHA, 10) < 0.03
  {
    var q := 0.7;
    assert Pow(q, 1) == q && Pow(q, 2) == q * q;
    assert Pow(q, 3) == q * Pow(q, 2) && Pow(q, 4) == q * Pow(q, 3) && Pow(q, 5) == q * Pow(q, 4);
    assert Pow(q, 6) == q * Pow(q, 5) && Pow(q, 7) == q * Pow(q, 6) && Pow(q, 8) == q * Pow(q, 7);
    assert Pow(q, 9) == q * Pow(q, 8) && Pow(q, 10) == q * Pow(q, 9);
  }

  // ------------------------------------------------------------- over any run

  /** Every qualifying completion of the run, whichever handler and replica it is for, samples within [lo, hi]. */
  ghost predicate SamplesWithin(s: Sys, events: seq<Event>, lo: real, hi: real)
    decreases |events|
  {
    events == [] ||
    (&& (events[0].Complete? && events[0].h in s.requests ==>
           var durationMs := Finished(s.requests[events[0].h], events[0].tokens, s.clock).durationMs.value;
           Qualifies(durationMs, events[0].tokens) ==> lo <= Rate(durationMs, events[0].tokens) <= hi)
     && SamplesWithin(Apply(s, events[0]), events[1..], lo, hi))
  }

  /** So in every interleaving every replica's reading is an average of real samples. */
  lemma {:induction false} EveryReadingIsBounded(s: Sys, events: seq<Event>, lo: real, hi: real)
    requires forall r :: r in s.replicas ==> Within(s.replicas[r].tokensPerSec, lo, hi)
    requires SamplesWithin(s, events, lo, hi)
    ensures forall r :: r in Run(s, events).replicas ==> Within(Run(s, events).replicas[r].tokensPerSec, lo, hi)
    decreases |events|
  {
    if events != [] {
      var t := Apply(s, events[0]);
      forall r | r in t.replicas ensures Within(t.replicas[r].tokensPerSec, lo, hi) {
        ReadingAfterStep(s, events[0], r, lo, hi);
      }
      EveryReadingIsBounded(t, events[1..], lo, hi);
    }
  }

  lemma ReadingAfterStep(s: Sys, e: Event, r: ReplicaId, lo: real, hi: real)
    requires r in s.replicas ==> Within(s.replicas[r].tokensPerSec, lo, hi)
    requires e.Complete? && e.h in s.requests ==>
               var durationMs := Finished(s.requests[e.h], e.tokens, s.clock).durationMs.value;
               Qualifies(durationMs, e.tokens) ==> lo <= Rate(durationMs, e.tokens) <= hi
    requires r in Apply(s, e).replicas
    ensures Within(Apply(s, e).replicas[r].tokensPerSec, lo, hi)
  {
    if e.Complete? && e.h in s.requests && r in s.replicas {
      SampleStaysWithin(s.replicas[r], Finished(s.requests[e.h], e.tokens, s.clock).durationMs.value, e.tokens,
                        s.clock, EWMA_ALPHA, lo, hi);
    }
  }
}
