/** The order circuit breaker: a tumbling-window counter with a latch. Its comment promises a limit over
    a rolling window; what it enforces is twice that, and this is the best that can be said. */
module CircuitBreaker {

  datatype State = State(windowStart: int, count: nat, tripped: bool)

  /** One call reads the clock when it checks the window, and again if it opens a new one. */
  datatype Call = Call(check: int, start: int)

  class Breaker {
    const maxOrders: int
    const window: int
    var windowStart: int
    var count: nat
    var tripped: bool

    constructor (maxOrders: int, window: int, now: int)
      ensures this.maxOrders == maxOrders && this.window == window && Now() == Fresh(now)
    {
      this.maxOrders, this.window := maxOrders, window;
      windowStart, count, tripped := now, 0, false;
    }

    ghost function Now(): State
      reads this
    {
      State(windowStart, count, tripped)
    }

    method Allow(call: Call) returns (ok: bool)
      modifies this
      ensures (Now(), ok) == Next(maxOrders, window, old(Now()), call)
    {
      if tripped {
        return false;
      }
      if call.check - windowStart > window {
        count := 0;
        windowStart := call.start;
      }
      count := count + 1;
      if count > maxOrders {
        tripped := true;
        return false;
      }
      return true;
    }

    method Reset(now: int)
      modifies this
      ensures Now() == Fresh(now)
    {
      tripped := false;
      count := 0;
      windowStart := now;
    }
  }

  function Fresh(now: int): State {
    State(now, 0, false)
  }

  predicate Opens(window: int, s: State, call: Call) {
    !s.tripped && call.check - s.windowStart > window
  }

  function Next(maxOrders: int, window: int, s: State, call: Call): (State, bool) {
    if s.tripped then (s, false)
    else
      var start := if Opens(window, s, call) then call.start else s.windowStart;
      var count := (if Opens(window, s, call) then 0 else s.count) + 1;
      (State(start, count, count > maxOrders), count <= maxOrders)
  }

  // ---- Traces without a reset ----

  /** The breaker's settings and the time it was made. */
  datatype Setup = Setup(maxOrders: int, window: int, start: int)

  ghost function After(u: Setup, calls: seq<Call>): State {
    if calls == [] then Fresh(u.start)
    else Next(u.maxOrders, u.window, After(u, calls[..|calls| - 1]), calls[|calls| - 1]).0
  }

  ghost predicate AllowedAt(u: Setup, calls: seq<Call>, i: nat)
    requires i < |calls|
  {
    Next(u.maxOrders, u.window, After(u, calls[..i]), calls[i]).1
  }

  /** The clock never runs backwards, within a call or between calls. */
  predicate Forward(u: Setup, calls: seq<Call>) {
    && (forall i :: 0 <= i < |calls| ==> u.start <= calls[i].check <= calls[i].start)
    && (forall i, j :: 0 <= i < j < |calls| ==> calls[i].start <= calls[j].check)
  }

  /** Allowed calls checked within `[a, b]`. */
  ghost function AllowedWithin(u: Setup, calls: seq<Call>, a: int, b: int): nat {
    if calls == [] then 0
    else
      var n := |calls| - 1;
      AllowedWithin(u, calls[..n], a, b) + if a <= calls[n].check <= b && AllowedAt(u, calls, n) then 1 else 0
  }

  /** Allowed calls since the current window opened. */
  ghost function AllowedInWindow(u: Setup, calls: seq<Call>): nat {
    if calls == [] then 0
    else
      var n := |calls| - 1;
      (if Opens(u.window, After(u, calls[..n]), calls[n]) then 0 else AllowedInWindow(u, calls[..n]))
      + if AllowedAt(u, calls, n) then 1 else 0
  }

  /** When the current window opened, by the check that opened it. */
  ghost function Opener(u: Setup, calls: seq<Call>): int {
    if calls == [] then u.start
    else
      var n := |calls| - 1;
      if Opens(u.window, After(u, calls[..n]), calls[n]) then calls[n].check else Opener(u, calls[..n])
  }

  ghost function LastCheck(u: Setup, calls: seq<Call>): int {
    if calls == [] then u.start else calls[|calls| - 1].check
  }

  function Limit(u: Setup): nat {
    if u.maxOrders < 0 then 0 else u.maxOrders
  }

  function Min(a: nat, b: nat): nat {
    if a < b then a else b
  }

  lemma ForwardPrefix(u: Setup, calls: seq<Call>)
    requires Forward(u, calls) && calls != []
    ensures Forward(u, calls[..|calls| - 1]) && LastCheck(u, calls[..|calls| - 1]) <= calls[|calls| - 1].check
  {
    var before := calls[..|calls| - 1];
    if before != [] {
      assert before[|before| - 1] == calls[|before| - 1];
    }
  }

  lemma {:induction false} OpenerFacts(u: Setup, calls: seq<Call>)
    requires Forward(u, calls)
    ensures Opener(u, calls) <= After(u, calls).windowStart && Opener(u, calls) <= LastCheck(u, calls)
    ensures !After(u, calls).tripped ==> After(u, calls).count <= Limit(u)
  {
    if calls != [] {
      ForwardPrefix(u, calls);
      OpenerFacts(u, calls[..|calls| - 1]);
    }
  }

  /** Each window the breaker opens allows as many calls as it counted, up to the limit. */
  lemma {:induction false} WindowHoldsAtMostLimit(u: Setup, calls: seq<Call>)
    ensures AllowedInWindow(u, calls) == Min(After(u, calls).count, Limit(u))
    ensures !After(u, calls).tripped ==> After(u, calls).count <= Limit(u)
  {
    if calls != [] {
      WindowHoldsAtMostLimit(u, calls[..|calls| - 1]);
    }
  }

  /** The span `[a, b]` no longer than the window: allowed calls in it come from the window open at `a`
      and at most one more. */
  lemma {:induction false} SpanInvariant(u: Setup, calls: seq<Call>, a: int, b: int)
    requires Forward(u, calls) && b - a <= u.window
    ensures var (o, n, k) := (Opener(u, calls), AllowedWithin(u, calls, a, b), Min(After(u, calls).count, Limit(u)));
      && (LastCheck(u, calls) < a ==> n == 0)
      && (o < a ==> n <= k)
      && (a <= o <= b ==> n <= Limit(u) + k)
      && n <= 2 * Limit(u)
  {
    if calls != [] {
      ForwardPrefix(u, calls);
      SpanInvariant(u, calls[..|calls| - 1], a, b);
      OpenerFacts(u, calls[..|calls| - 1]);
    }
  }

  /** Any span no longer than the window holds at most twice the limit. */
  lemma SpanHoldsAtMostTwice(u: Setup, calls: seq<Call>, a: int, b: int)
    requires Forward(u, calls) && b - a <= u.window
    ensures AllowedWithin(u, calls, a, b) <= 2 * Limit(u)
  {
    SpanInvariant(u, calls, a, b);
  }

  lemma {:induction false} TrippedStays(u: Setup, calls: seq<Call>, i: nat)
    requires i <= |calls| && After(u, calls[..i]).tripped
    ensures After(u, calls).tripped
    decreases |calls|
  {
    if i < |calls| {
      assert calls[..|calls| - 1][..i] == calls[..i];
      TrippedStays(u, calls[..|calls| - 1], i);
    } else {
      assert calls[..i] == calls;
    }
  }

  /** After the first refusal nothing is allowed. */
  lemma RefusalIsFinal(u: Setup, calls: seq<Call>, i: nat, j: nat)
    requires i < j < |calls| && !AllowedAt(u, calls, i)
    ensures !AllowedAt(u, calls, j)
  {
    assert calls[..i + 1][..i] == calls[..i];
    assert After(u, calls[..i + 1]).tripped;
    assert calls[..j][..i + 1] == calls[..i + 1];
    TrippedStays(u, calls[..j], i + 1);
  }

  // ---- When the limit itself holds ----

  /** Some call checked within `[a, b]` opens a window. */
  ghost predicate OpensWithin(u: Setup, calls: seq<Call>, a: int, b: int) {
    exists i :: 0 <= i < |calls| && a <= calls[i].check <= b && Opens(u.window, After(u, calls[..i]), calls[i])
  }

  lemma OpensPrefix(u: Setup, calls: seq<Call>, a: int, b: int)
    requires calls != [] && !OpensWithin(u, calls, a, b)
    ensures !OpensWithin(u, calls[..|calls| - 1], a, b)
    ensures a <= calls[|calls| - 1].check <= b ==> !Opens(u.window, After(u, calls[..|calls| - 1]), calls[|calls| - 1])
  {
    var before := calls[..|calls| - 1];
    forall i | 0 <= i < |before| ensures before[i] == calls[i] && before[..i] == calls[..i] {
    }
  }

  /** A span, of any length and anywhere in the trace, in which no window opens holds at most the limit. */
  lemma {:induction false} SpanWithoutOpeningInvariant(u: Setup, calls: seq<Call>, a: int, b: int)
    requires Forward(u, calls) && !OpensWithin(u, calls, a, b)
    ensures AllowedWithin(u, calls, a, b) <= Limit(u)
    ensures LastCheck(u, calls) <= b ==> AllowedWithin(u, calls, a, b) <= Min(After(u, calls).count, Limit(u))
    ensures LastCheck(u, calls) < a ==> AllowedWithin(u, calls, a, b) == 0
  {
    if calls != [] {
      ForwardPrefix(u, calls);
      OpensPrefix(u, calls, a, b);
      SpanWithoutOpeningInvariant(u, calls[..|calls| - 1], a, b);
    }
  }

  lemma SpanWithoutOpening(u: Setup, calls: seq<Call>, a: int, b: int)
    requires Forward(u, calls) && !OpensWithin(u, calls, a, b)
    ensures AllowedWithin(u, calls, a, b) <= Limit(u)
  {
    SpanWithoutOpeningInvariant(u, calls, a, b);
  }

  /** A window of no length: at any one instant, calls are counted in one window. */
  lemma {:induction false} InstantInvariant(u: Setup, calls: seq<Call>, a: int)
    requires Forward(u, calls) && u.window == 0
    ensures var (n, s) := (AllowedWithin(u, calls, a, a), After(u, calls));
      && n <= Limit(u)
      && (LastCheck(u, calls) < a ==> n == 0)
      && (LastCheck(u, calls) == a && !s.tripped && calls != [] ==> n <= Min(s.count, Limit(u)) && s.windowStart >= a)
  {
    if calls != [] {
      ForwardPrefix(u, calls);
      InstantInvariant(u, calls[..|calls| - 1], a);
    }
  }

  // ---- When calls must be allowed ----

  /** A call is allowed exactly when the breaker is not tripped, some order is allowed at all, and the window has
      expired or is not used up; and an expired window is left behind, with this call the first of the next. */
  lemma AllowedMeans(maxOrders: int, window: int, s: State, call: Call)
    ensures var (s', ok) := Next(maxOrders, window, s, call);
      && (ok <==> !s.tripped && 1 <= maxOrders && (call.check > s.windowStart + window || s.count < maxOrders))
      && (ok && call.check > s.windowStart + window ==> s' == State(call.start, 1, false))
      && (ok && call.check <= s.windowStart + window ==> s' == State(s.windowStart, s.count + 1, false))
      && (!ok ==> s'.tripped)
  {
  }

  /** Calls checked within `[a, b]`, allowed or not. */
  function CallsWithin(calls: seq<Call>, a: int, b: int): nat {
    if calls == [] then 0
    else CallsWithin(calls[..|calls| - 1], a, b) + if a <= calls[|calls| - 1].check <= b then 1 else 0
  }

  /** From each moment at which a window could open, at most the limit of calls comes before it would expire. */
  ghost predicate Sparse(u: Setup, calls: seq<Call>) {
    && CallsWithin(calls, u.start, u.start + u.window) <= Limit(u)
    && forall i :: 0 <= i < |calls| ==> CallsWithin(calls, calls[i].check, calls[i].start + u.window) <= Limit(u)
  }

  lemma SparsePrefix(u: Setup, calls: seq<Call>)
    requires Sparse(u, calls) && calls != []
    ensures Sparse(u, calls[..|calls| - 1])
  {
    var before := calls[..|calls| - 1];
    forall i | 0 <= i < |before| ensures CallsWithin(before, before[i].check, before[i].start + u.window) <= Limit(u) {
      assert before[i] == calls[i];
      assert CallsWithin(calls, calls[i].check, calls[i].start + u.window) <= Limit(u);
    }
  }

  /** Where the current window was opened: by a call, or when the breaker was made. */
  lemma {:induction false} OpenerIs(u: Setup, calls: seq<Call>)
    ensures var (o, w) := (Opener(u, calls), After(u, calls).windowStart);
      (o, w) == (u.start, u.start) || exists i :: 0 <= i < |calls| && (o, w) == (calls[i].check, calls[i].start)
  {
    if calls != [] {
      var before := calls[..|calls| - 1];
      OpenerIs(u, before);
      if i :| 0 <= i < |before| && (Opener(u, before), After(u, before).windowStart) == (before[i].check, before[i].start) {
        assert before[i] == calls[i];
      }
    }
  }

  /** The window's count is at most the calls since its opener, none of which has seen it expire. */
  lemma {:induction false} SparseInvariant(u: Setup, calls: seq<Call>)
    requires Forward(u, calls) && Sparse(u, calls) && 0 <= u.window
    ensures var s := After(u, calls);
      && !s.tripped && s.count <= CallsWithin(calls, Opener(u, calls), s.windowStart + u.window)
  {
    if calls != [] {
      ForwardPrefix(u, calls);
      SparsePrefix(u, calls);
      SparseInvariant(u, calls[..|calls| - 1]);
      OpenerFacts(u, calls[..|calls| - 1]);
      OpenerIs(u, calls);
    }
  }

  lemma SparseIsAllowed(u: Setup, calls: seq<Call>, i: nat)
    requires Forward(u, calls) && Sparse(u, calls) && 0 <= u.window && i < |calls|
    ensures AllowedAt(u, calls, i)
  {
    SparseInvariant(u, calls);
    if !AllowedAt(u, calls, i) {
      assert calls[..i + 1][..i] == calls[..i];
      TrippedStays(u, calls, i + 1);
      assert false;
    }
  }

  /** When the clock reads the same both times and no span as long as the window has more calls than the limit,
      every call is allowed. */
  lemma SlowTraceIsAllowed(u: Setup, calls: seq<Call>, i: nat)
    requires Forward(u, calls) && 0 <= u.window && i < |calls|
    requires forall k :: 0 <= k < |calls| ==> calls[k].check == calls[k].start
    requires forall a, b :: b - a <= u.window ==> CallsWithin(calls, a, b) <= Limit(u)
    ensures AllowedAt(u, calls, i)
  {
    assert CallsWithin(calls, u.start, u.start + u.window) <= Limit(u);
    forall k | 0 <= k < |calls| ensures CallsWithin(calls, calls[k].check, calls[k].start + u.window) <= Limit(u) {
    }
    SparseIsAllowed(u, calls, i);
  }

  // ---- The factor two is attained ----

  /** `limit` calls as the first window ends, and as many as the next begins. */
  function Burst(start: int, limit: nat, window: nat, n: nat): seq<Call> {
    seq(n, i => if i < limit then Call(start + window, start + window) else Call(start + window + 1, start + window + 1))
  }

  lemma {:induction false} BurstAllowed(start: int, limit: nat, window: nat, n: nat)
    requires 1 <= limit && n <= 2 * limit
    ensures var (u, calls) := (Setup(limit, window, start), Burst(start, limit, window, n));
      && After(u, calls) == (if n <= limit then State(start, n, false) else State(start + window + 1, n - limit, false))
      && AllowedWithin(u, calls, start + window, start + window + 1) == n
  {
    if n > 0 {
      BurstAllowed(start, limit, window, n - 1);
      assert Burst(start, limit, window, n)[..n - 1] == Burst(start, limit, window, n - 1);
    }
  }

  /** For every positive limit and window, from any start, the bound of twice the limit is met exactly, within
      one tick. */
  lemma TwiceIsReached(start: int, limit: nat, window: nat)
    requires 1 <= limit && 1 <= window
    ensures var (u, calls) := (Setup(limit, window, start), Burst(start, limit, window, 2 * limit));
      Forward(u, calls) && AllowedWithin(u, calls, start + window, start + window + 1) == 2 * limit
  {
    BurstAllowed(start, limit, window, 2 * limit);
  }

  // ---- The promise of a rolling window ----

  /** Every span no longer than the window, in every trace, holds at most the limit. */
  ghost predicate RollingLimit(u: Setup) {
    forall calls, a, b :: Forward(u, calls) && b - a <= u.window ==> AllowedWithin(u, calls, a, b) <= Limit(u)
  }

  /** The breaker keeps that promise exactly when it allows nothing at all or its window has no length. */
  lemma RollingLimitIff(u: Setup)
    ensures RollingLimit(u) <==> u.maxOrders <= 0 || u.window <= 0
  {
    if u.maxOrders <= 0 || u.window <= 0 {
      forall calls, a, b | Forward(u, calls) && b - a <= u.window ensures AllowedWithin(u, calls, a, b) <= Limit(u) {
        ShortSpan(u, calls, a, b);
      }
    } else {
      var calls := Burst(u.start, u.maxOrders, u.window, 2 * u.maxOrders);
      TwiceIsReached(u.start, u.maxOrders, u.window);
      assert u == Setup(u.maxOrders, u.window, u.start);
      assert AllowedWithin(u, calls, u.start + u.window, u.start + u.window + 1) > Limit(u);
    }
  }

  lemma ShortSpan(u: Setup, calls: seq<Call>, a: int, b: int)
    requires Forward(u, calls) && b - a <= u.window && (u.maxOrders <= 0 || u.window <= 0)
    ensures AllowedWithin(u, calls, a, b) <= Limit(u)
  {
    if u.maxOrders <= 0 {
      SpanInvariant(u, calls, a, b);
    } else if b < a {
      EmptySpan(u, calls, a, b);
    } else {
      InstantInvariant(u, calls, a);
    }
  }

  lemma {:induction false} EmptySpan(u: Setup, calls: seq<Call>, a: int, b: int)
    requires b < a
    ensures AllowedWithin(u, calls, a, b) == 0
  {
    if calls != [] {
      EmptySpan(u, calls[..|calls| - 1], a, b);
    }
  }
}
