/** The shared scale-up signal: debounced by its own UPDATE predicate, so it holds across routers. */
module ScaleSignals {
  import opened Wrappers
  import opened Tables

  const DEBOUNCE_MS := 1_000

  type Signals = map<ModelId, Time>

  predicate Accepts(signals: Signals, model: ModelId, now: Time, debounceMs: nat) {
    model !in signals || signals[model] < now - debounceMs
  }

  function Requested(signals: Signals, model: ModelId, now: Time, debounceMs: nat): Signals {
    if Accepts(signals, model, now, debounceMs) then signals[model := now] else signals
  }

  predicate Wants(signals: Signals, model: ModelId, now: Time, withinMs: nat) {
    model in signals && signals[model] > now - withinMs
  }

  /** Any router asking, for any model, at one moment of the database clock. */
  datatype Ask = Ask(model: ModelId, at: Time)

  function AfterAsks(signals: Signals, asks: seq<Ask>, debounceMs: nat): Signals {
    if asks == [] then signals
    else
      var last := asks[|asks| - 1];
      Requested(AfterAsks(signals, asks[..|asks| - 1], debounceMs), last.model, last.at, debounceMs)
  }

  predicate InOrder(asks: seq<Ask>) {
    forall i, j :: 0 <= i < j < |asks| ==> asks[i].at <= asks[j].at
  }

  /** No stored signal is ahead of the clock. */
  predicate NotAhead(signals: Signals, now: Time) {
    forall m :: m in signals ==> signals[m] <= now
  }

  lemma {:induction false} SignalsStayBehindTheClock(signals: Signals, asks: seq<Ask>, debounceMs: nat, now: Time)
    requires InOrder(asks) && NotAhead(signals, now) && forall i :: 0 <= i < |asks| ==> asks[i].at <= now
    ensures NotAhead(AfterAsks(signals, asks, debounceMs), now)
    decreases |asks|
  {
    if asks != [] { SignalsStayBehindTheClock(signals, asks[..|asks| - 1], debounceMs, now); }
  }

  lemma {:induction false} SignalsOnlyAdvance(signals: Signals, asks: seq<Ask>, debounceMs: nat, model: ModelId)
    requires InOrder(asks) && model in signals && (asks != [] ==> NotAhead(signals, asks[0].at))
    ensures model in AfterAsks(signals, asks, debounceMs)
    ensures signals[model] <= AfterAsks(signals, asks, debounceMs)[model]
    decreases |asks|
  {
    if asks != [] {
      var last := |asks| - 1;
      assert last > 0 ==> asks[..last][0] == asks[0];
      SignalsOnlyAdvance(signals, asks[..last], debounceMs, model);
      SignalsStayBehindTheClock(signals, asks[..last], debounceMs, asks[last].at);
    }
  }

  lemma {:induction false} AsksSplit(signals: Signals, asks: seq<Ask>, k: nat, debounceMs: nat)
    requires k <= |asks|
    ensures AfterAsks(signals, asks, debounceMs)
         == AfterAsks(AfterAsks(signals, asks[..k], debounceMs), asks[k..], debounceMs)
    decreases |asks|
  {
    if k == |asks| {
      assert asks[..k] == asks;
    } else {
      var last := |asks| - 1;
      AsksSplit(signals, asks[..last], k, debounceMs);
      assert asks[..last][..k] == asks[..k];
      assert asks[k..][..|asks[k..]| - 1] == asks[..last][k..];
    }
  }

  predicate AcceptedAt(signals: Signals, asks: seq<Ask>, i: nat, debounceMs: nat)
    requires i < |asks|
  {
    Accepts(AfterAsks(signals, asks[..i], debounceMs), asks[i].model, asks[i].at, debounceMs)
  }

  /** Right after an ask, the signal is at most one debounce old; after an accepted one, it is that ask's own time. */
  lemma StoredAfterAsk(signals: Signals, asks: seq<Ask>, i: nat, debounceMs: nat)
    requires InOrder(asks) && i < |asks| && NotAhead(signals, asks[0].at)
    ensures var stored := AfterAsks(signals, asks[..i + 1], debounceMs);
            && NotAhead(stored, asks[i].at)
            && asks[i].model in stored
            && asks[i].at - debounceMs <= stored[asks[i].model]
            && (AcceptedAt(signals, asks, i, debounceMs) ==> stored[asks[i].model] == asks[i].at)
  {
    assert asks[..i + 1][..i] == asks[..i];
    SignalsStayBehindTheClock(signals, asks[..i], debounceMs, asks[i].at);
  }

  /** From there to any later point of the run the signal only moves forward. */
  lemma StoredLater(signals: Signals, asks: seq<Ask>, i: nat, j: nat, debounceMs: nat)
    requires InOrder(asks) && i < j <= |asks| && NotAhead(signals, asks[0].at)
    ensures var stored := AfterAsks(signals, asks[..i + 1], debounceMs);
            var later := AfterAsks(signals, asks[..j], debounceMs);
            && asks[i].model in stored
            && asks[i].model in later
            && stored[asks[i].model] <= later[asks[i].model]
  {
    StoredAfterAsk(signals, asks, i, debounceMs);
    var rest := asks[i + 1..j];
    assert asks[..j][..i + 1] == asks[..i + 1] && asks[..j][i + 1..] == rest;
    AsksSplit(signals, asks[..j], i + 1, debounceMs);
    assert rest != [] ==> asks[i].at <= rest[0].at;
    SignalsOnlyAdvance(AfterAsks(signals, asks[..i + 1], debounceMs), rest, debounceMs, asks[i].model);
  }

  /**
   * A request made at `asks[i].at` is visible at every later moment before
   * that time + within - debounce, whatever every router has asked since.
   */
  lemma SignalSurvivesDebouncing(signals: Signals, asks: seq<Ask>, i: nat, debounceMs: nat, withinMs: nat, now: Time)
    requires InOrder(asks) && i < |asks| && NotAhead(signals, asks[0].at)
    requires forall a :: a in asks ==> a.at <= now
    requires now < asks[i].at + withinMs - debounceMs
    ensures Wants(AfterAsks(signals, asks, debounceMs), asks[i].model, now, withinMs)
  {
    StoredAfterAsk(signals, asks, i, debounceMs);
    assert asks[..|asks|] == asks;
    StoredLater(signals, asks, i, |asks|, debounceMs);
  }

  /** A signal is seen only if it was there already or some router really asked inside the window. */
  lemma {:induction false} WantedOnlyIfAsked(signals: Signals, asks: seq<Ask>, debounceMs: nat, model: ModelId,
                                             now: Time, withinMs: nat)
    requires Wants(AfterAsks(signals, asks, debounceMs), model, now, withinMs)
    ensures Wants(signals, model, now, withinMs)
         || exists a :: a in asks && a.model == model && a.at > now - withinMs
    decreases |asks|
  {
    if asks != [] {
      var last := asks[|asks| - 1];
      assert last in asks && forall a :: a in asks[..|asks| - 1] ==> a in asks;
      if Wants(AfterAsks(signals, asks[..|asks| - 1], debounceMs), model, now, withinMs) {
        WantedOnlyIfAsked(signals, asks[..|asks| - 1], debounceMs, model, now, withinMs);
      }
    }
  }

  /** The bound is tight: one request can already be invisible at exactly its time + within - debounce. */
  lemma SurvivalBoundIsTight(model: ModelId, t: Time, debounceMs: nat, withinMs: nat)
    ensures var signals := map[model := t - debounceMs];
            && AfterAsks(signals, [Ask(model, t)], debounceMs) == signals
            && !Wants(signals, model, t + withinMs - debounceMs, withinMs)
  {
    assert [Ask(model, t)][..0] == [];
    assert AfterAsks(map[model := t - debounceMs], [], debounceMs) == map[model := t - debounceMs];
  }

  /** Two accepted writes for one model are always more than the debounce apart. */
  lemma AcceptedWritesAreSpaced(signals: Signals, asks: seq<Ask>, i: nat, j: nat, debounceMs: nat)
    requires InOrder(asks) && i < j < |asks| && NotAhead(signals, asks[0].at)
    requires asks[i].model == asks[j].model
    requires AcceptedAt(signals, asks, i, debounceMs) && AcceptedAt(signals, asks, j, debounceMs)
    ensures asks[j].at - asks[i].at > debounceMs
  {
    StoredAfterAsk(signals, asks, i, debounceMs);
    StoredLater(signals, asks, i, j, debounceMs);
  }
}
