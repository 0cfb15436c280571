/**
 * The live request's own clock, and how it agrees with the sweep that watches
 * the same request through its row.
 */
module Deadline {
  import opened Wrappers
  import opened Tables
  import opened Queue

  datatype Reason = FirstToken | Stall

  /** What a generationDeadline holds: when its timer is due, whether it has aborted, and which clock is running. */
  datatype Clock = Clock(timer: Option<Time>, aborted: bool, reason: Reason)

  function Armed(now: Time, firstTokenMs: nat): Clock {
    Clock(Some(now + firstTokenMs), false, FirstToken)
  }

  function OnToken(clock: Clock, now: Time, stallMs: nat): Clock {
    clock.(timer := Some(now + stallMs), reason := Stall)
  }

  /** A timer that has come due aborts once; aborting again changes nothing. */
  function OnTime(clock: Clock, now: Time): Clock {
    if clock.timer.Some? && clock.timer.value <= now then Clock(None, true, clock.reason) else clock
  }

  class GenerationDeadline {
    var timer: Option<Time>
    var aborted: bool
    var reason: Reason
    const stallMs: nat

    function View(): Clock
      reads this
    {
      Clock(timer, aborted, reason)
    }

    constructor (now: Time, firstTokenMs: nat, stallMs: nat)
      ensures View() == Armed(now, firstTokenMs) && this.stallMs == stallMs
    {
      this.stallMs := stallMs;
      aborted := false;
      reason := FirstToken;
      timer := None;
      new;
      Arm(now, firstTokenMs);
    }

    /** clearTimeout, then setTimeout. */
    method Arm(now: Time, ms: nat)
      modifies this
      ensures timer == Some(now + ms) && aborted == old(aborted) && reason == old(reason)
    {
      timer := None;
      timer := Some(now + ms);
    }

    method SawToken(now: Time)
      modifies this
      ensures View() == OnToken(old(View()), now, stallMs)
    {
      reason := Stall;
      Arm(now, stallMs);
    }

    /** The event loop reaching `now`. */
    method Elapse(now: Time)
      modifies this
      ensures View() == OnTime(old(View()), now)
    {
      if timer.Some? && timer.value <= now {
        timer := None;
        aborted := true;
      }
    }

    method Done()
      modifies this
      ensures View() == old(View()).(timer := None)
    {
      timer := None;
    }
  }

  // ------------------------------------------ the handler's loop and its row

  /**
   * One generation in progress. A token reaches the deadline and the row in one
   * step; `expiredWith` is how many tokens had arrived when the deadline fired.
   */
  datatype Stream = Stream(clock: Clock, row: Request, now: Time, tokens: nat, expiredWith: Option<nat>)

  datatype Moment = Pass(ms: nat) | TokenArrives

  function Next(s: Stream, m: Moment, stallMs: nat): Stream {
    match m
    case Pass(ms) =>
      var clock' := OnTime(s.clock, s.now + ms);
      Stream(clock', s.row, s.now + ms, s.tokens,
             if s.expiredWith.None? && clock'.aborted then Some(s.tokens) else s.expiredWith)
    case TokenArrives =>
      s.(clock := OnToken(s.clock, s.now, stallMs), row := TokenEmitted(s.row, s.now), tokens := s.tokens + 1)
  }

  function Trace(s: Stream, moments: seq<Moment>, stallMs: nat): Stream
    decreases |moments|
  {
    if moments == [] then s else Trace(Next(s, moments[0], stallMs), moments[1..], stallMs)
  }

  /** The row was marked as started `lag` milliseconds before the handler armed its deadline. */
  function Opening(row: Request, startedAt: Time, lag: nat, firstTokenMs: nat): Stream {
    Stream(Armed(startedAt + lag, firstTokenMs),
           row.(status := Streaming, startedAt := Some(startedAt), lastTokenAt := Some(startedAt), firstTokenAt := None),
           startedAt + lag, 0, None)
  }

  ghost predicate InStep(s: Stream, routed: Option<ModelId>, startedAt: Time, armedAt: Time,
                         firstTokenMs: nat, stallMs: nat)
  {
    && s.row.lastTokenAt.Some?
    && s.row.status == Streaming
    && s.row.routedModel == routed
    && s.row.startedAt == Some(startedAt)
    && armedAt <= s.now
    && (s.tokens > 0 <==> s.row.firstTokenAt.Some?)
    && (s.tokens > 0 <==> s.clock.reason == Stall)
    && (s.clock.aborted <==> s.expiredWith.Some?)
    && (s.expiredWith.Some? ==> s.expiredWith.value <= s.tokens)
    && (s.clock.timer.Some? ==> s.now <= s.clock.timer.value)
    && (s.clock.timer.None? ==> s.clock.aborted)
    && (s.tokens > 0 && s.clock.timer.Some? ==> s.clock.timer.value == s.row.lastTokenAt.value + stallMs)
    && (s.tokens == 0 && s.clock.timer.Some? ==> s.clock.timer.value == armedAt + firstTokenMs)
    && (s.tokens == 0 ==> (s.clock.aborted <==> s.clock.timer.None?))
    && (s.tokens == 0 && s.clock.aborted ==> armedAt + firstTokenMs <= s.now)
  }

  lemma {:induction false} TraceStaysInStep(s: Stream, moments: seq<Moment>, routed: Option<ModelId>,
                                            startedAt: Time, armedAt: Time, firstTokenMs: nat, stallMs: nat)
    requires InStep(s, routed, startedAt, armedAt, firstTokenMs, stallMs)
    ensures InStep(Trace(s, moments, stallMs), routed, startedAt, armedAt, firstTokenMs, stallMs)
    decreases |moments|
  {
    if moments != [] {
      TraceStaysInStep(Next(s, moments[0], stallMs), moments[1..], routed, startedAt, armedAt, firstTokenMs, stallMs);
    }
  }

  /** The stall sweep can only ever select a row whose own handler's deadline has already fired. */
  lemma LiveClockFiresBeforeTheStallSweep(row: Request, startedAt: Time, lag: nat, firstTokenMs: nat, stallMs: nat,
                                          moments: seq<Moment>)
    ensures var s := Trace(Opening(row, startedAt, lag, firstTokenMs), moments, stallMs);
            Stalled(s.row, s.now, stallMs) ==> s.clock.aborted
  {
    TraceStaysInStep(Opening(row, startedAt, lag, firstTokenMs), moments, row.routedModel,
                     startedAt, startedAt + lag, firstTokenMs, stallMs);
  }

  // -------------------------------------------------- in terms of the trace

  /** How long the trace is silent before its first token, or to its end if there is none. */
  function Silence(moments: seq<Moment>): nat {
    if moments == [] || moments[0].TokenArrives? then 0 else moments[0].ms + Silence(moments[1..])
  }

  /** Whether some silence reaches the allowance it is under: `left` for this one, `stallMs` for those after a token. */
  predicate Expires(moments: seq<Moment>, left: int, stallMs: nat) {
    moments != [] &&
    match moments[0]
    case Pass(ms) => ms >= left || Expires(moments[1..], left - ms, stallMs)
    case TokenArrives => Expires(moments[1..], stallMs, stallMs)
  }

  /** Tokens already seen, and an expiry that has happened, stay as they are. */
  lemma {:induction false} TraceOnlyAdds(s: Stream, moments: seq<Moment>, stallMs: nat)
    ensures var t := Trace(s, moments, stallMs);
            && (t.tokens > 0 <==> s.tokens > 0 || TokenArrives in moments)
            && (s.expiredWith.Some? ==> t.expiredWith == s.expiredWith)
            && (s.tokens > 0 && s.expiredWith.None? && t.expiredWith.Some? ==> t.expiredWith.value > 0)
            && (TokenArrives !in moments ==> t.now == s.now + Silence(moments))
    decreases |moments|
  {
    if moments != [] {
      TraceOnlyAdds(Next(s, moments[0], stallMs), moments[1..], stallMs);
      assert TokenArrives in moments <==> moments[0] == TokenArrives || TokenArrives in moments[1..];
    }
  }

  /** The first token of the trace comes once the clock has turned and at least `allowance` has passed in silence. */
  predicate FirstTokenIsLate(moments: seq<Moment>, allowance: int) {
    TokenArrives in moments && moments[0].Pass? && Silence(moments) >= allowance
  }

  /** The deadline fired before any token, and then one came. */
  predicate OvertakenByAToken(s: Stream) {
    s.expiredWith == Some(0) && s.tokens > 0
  }

  lemma {:induction false} OvertakenExactlyWhenLate(s: Stream, moments: seq<Moment>, stallMs: nat)
    requires s.tokens == 0 && s.expiredWith.None? && !s.clock.aborted
    requires s.clock.timer.Some? && s.now <= s.clock.timer.value
    ensures OvertakenByAToken(Trace(s, moments, stallMs)) <==> FirstTokenIsLate(moments, s.clock.timer.value - s.now)
    decreases |moments|
  {
    if moments != [] {
      var next, rest := Next(s, moments[0], stallMs), moments[1..];
      assert TokenArrives in moments <==> moments[0] == TokenArrives || TokenArrives in rest;
      if next.tokens == 0 && next.expiredWith.None? {
        OvertakenExactlyWhenLate(next, rest, stallMs);
        assert Silence(moments) == moments[0].ms + Silence(rest);
        assert rest != [] && rest[0].TokenArrives? ==> Silence(rest) == 0;
      } else {
        TraceOnlyAdds(next, rest, stallMs);
      }
    }
  }

  /**
   * An expiry is reported as a stall exactly when a token arrived at any time. That
   * is wrong, a stall named where no token preceded the expiry or the reverse, if
   * and only if the first token came and came too late.
   */
  lemma ReasonNamesTheClockThatRanOut(row: Request, startedAt: Time, lag: nat, firstTokenMs: nat, stallMs: nat,
                                      moments: seq<Moment>)
    ensures var s := Trace(Opening(row, startedAt, lag, firstTokenMs), moments, stallMs);
            && (s.clock.aborted <==> s.expiredWith.Some?)
            && (s.clock.reason == Stall <==> TokenArrives in moments)
            && (s.clock.aborted && (s.clock.reason == Stall) != (s.expiredWith.value > 0)
                <==> FirstTokenIsLate(moments, firstTokenMs))
  {
    var opening := Opening(row, startedAt, lag, firstTokenMs);
    TraceStaysInStep(opening, moments, row.routedModel, startedAt, startedAt + lag, firstTokenMs, stallMs);
    TraceOnlyAdds(opening, moments, stallMs);
    OvertakenExactlyWhenLate(opening, moments, stallMs);
  }

  /** And that does happen: a chunk already buffered when the first-token timer fires renames the failure. */
  lemma LateFirstTokenRenamesTheFailure(row: Request, startedAt: Time, lag: nat, firstTokenMs: nat, stallMs: nat)
    ensures var s := Trace(Opening(row, startedAt, lag, firstTokenMs), [Pass(firstTokenMs), TokenArrives], stallMs);
            s.clock.aborted && s.expiredWith == Some(0) && s.clock.reason == Stall
  {
    var moments := [Pass(firstTokenMs), TokenArrives];
    assert moments[1..] == [TokenArrives] && [TokenArrives][1..] == [];
    assert moments[1] == TokenArrives;
    assert FirstTokenIsLate(moments, firstTokenMs);
    ReasonNamesTheClockThatRanOut(row, startedAt, lag, firstTokenMs, stallMs, moments);
  }

  /** Before any token, the deadline is still pending exactly while the silence is under its allowance. */
  lemma {:induction false} PendingWhileSilenceIsShort(s: Stream, moments: seq<Moment>, stallMs: nat)
    requires TokenArrives !in moments && !s.clock.aborted
    requires s.clock.timer.Some? && s.now <= s.clock.timer.value
    ensures var t := Trace(s, moments, stallMs);
            !t.clock.aborted <==> moments == [] || s.now + Silence(moments) < s.clock.timer.value
    decreases |moments|
  {
    if moments != [] {
      var next := Next(s, moments[0], stallMs);
      if next.clock.aborted {
        TraceStaysAborted(next, moments[1..], stallMs);
      } else {
        PendingWhileSilenceIsShort(next, moments[1..], stallMs);
      }
    }
  }

  lemma {:induction false} TraceStaysAborted(s: Stream, moments: seq<Moment>, stallMs: nat)
    requires s.clock.aborted
    ensures Trace(s, moments, stallMs).clock.aborted
    decreases |moments|
  {
    if moments != [] { TraceStaysAborted(Next(s, moments[0], stallMs), moments[1..], stallMs); }
  }

  /**
   * The first-token sweep measures from the row's start, the deadline from when it
   * was armed, `lag` later. So with no token yet the sweep selects the row while
   * the handler still waits in exactly this window. (A zero allowance is due at
   * once, but nothing fires before the event loop turns.)
   */
  lemma FirstTokenSweepCanGoFirst(row: Request, startedAt: Time, lag: nat, firstTokenMs: nat, stallMs: nat,
                                  moments: seq<Moment>, allowances: Allowances, defaultMs: int)
    requires TokenArrives !in moments
    requires row.routedModel.Some? && row.routedModel.value in allowances
    requires allowances[row.routedModel.value].GetOr(defaultMs) == firstTokenMs
    ensures var s := Trace(Opening(row, startedAt, lag, firstTokenMs), moments, stallMs);
            var silence := s.now - startedAt;
            && silence == lag + Silence(moments)
            && (ColdStartExpired(s.row, allowances, s.now, defaultMs) && !s.clock.aborted
                <==> firstTokenMs < silence && (silence < firstTokenMs + lag || moments == []))
  {
    var opening := Opening(row, startedAt, lag, firstTokenMs);
    TraceStaysInStep(opening, moments, row.routedModel, startedAt, startedAt + lag, firstTokenMs, stallMs);
    TraceOnlyAdds(opening, moments, stallMs);
    PendingWhileSilenceIsShort(opening, moments, stallMs);
  }

  /** The window is not empty: two milliseconds between the row and the deadline are enough. */
  lemma SweepGoesFirst(row: Request, startedAt: Time, firstTokenMs: nat, stallMs: nat, model: ModelId)
    requires row.routedModel == Some(model) && firstTokenMs > 0
    ensures var s := Trace(Opening(row, startedAt, 2, firstTokenMs), [Pass(firstTokenMs - 1)], stallMs);
            ColdStartExpired(s.row, map[model := None], s.now, firstTokenMs) && !s.clock.aborted
  {
    var moments := [Pass(firstTokenMs - 1)];
    assert moments[1..] == [];
    assert TokenArrives !in moments;
    FirstTokenSweepCanGoFirst(row, startedAt, 2, firstTokenMs, stallMs, moments, map[model := None], firstTokenMs);
  }

  // ------------------------------------------------------ the object, over a trace

  lemma {:induction false} ClockAlone(s: Stream, moments: seq<Moment>, stallMs: nat)
    requires s.clock.timer.Some? && s.now <= s.clock.timer.value && !s.clock.aborted
    ensures Trace(s, moments, stallMs).clock.aborted <==> Expires(moments, s.clock.timer.value - s.now, stallMs)
    decreases |moments|
  {
    if moments != [] {
      var next := Next(s, moments[0], stallMs);
      if next.clock.aborted {
        TraceStaysAborted(next, moments[1..], stallMs);
      } else {
        ClockAlone(next, moments[1..], stallMs);
      }
    }
  }

  /**
   * A handler's use of its deadline over one generation: armed at the start, told of
   * every token, put away at the end. It aborts exactly when some silence reached
   * the allowance it was under, and blames the stall clock exactly when a token came.
   */
  method Generate(armedAt: Time, firstTokenMs: nat, stallMs: nat, moments: seq<Moment>, ghost row: Request)
    returns (aborted: bool, reason: Reason)
    ensures aborted <==> Expires(moments, firstTokenMs, stallMs)
    ensures reason == Stall <==> TokenArrives in moments
    ensures var s := Trace(Opening(row, armedAt, 0, firstTokenMs), moments, stallMs);
            aborted == s.clock.aborted && reason == s.clock.reason
  {
    var deadline := new GenerationDeadline(armedAt, firstTokenMs, stallMs);
    var now := armedAt;
    ghost var opening := Opening(row, armedAt, 0, firstTokenMs);
    ghost var s := opening;
    for n := 0 to |moments|
      invariant deadline.stallMs == stallMs && deadline.View() == s.clock && now == s.now
      invariant Trace(s, moments[n..], stallMs) == Trace(opening, moments, stallMs)
    {
      assert moments[n..][1..] == moments[n + 1..];
      match moments[n] {
        case Pass(ms) =>
          now := now + ms;
          deadline.Elapse(now);
        case TokenArrives =>
          deadline.SawToken(now);
      }
      s := Next(s, moments[n], stallMs);
    }
    deadline.Done();
    aborted, reason := deadline.aborted, deadline.reason;
    ClockAlone(opening, moments, stallMs);
    ReasonNamesTheClockThatRanOut(row, armedAt, 0, firstTokenMs, stallMs, moments);
  }
}
