/** The market streamer's status and subscriptions, and the per-connection watchdog as a protocol: over
    every run of reconnects, with each connection's own dispatch and watchdog goroutines. */
module MarketStreamer {
  import opened Common

  // ---- Status and subscriptions ----

  /** Each symbol of `more` that is new and not empty joins the list, once. */
  function Joined(have: seq<string>, more: seq<string>): seq<string> {
    if more == [] then have
    else
      var before := Joined(have, more[..|more| - 1]);
      var x := more[|more| - 1];
      if x == "" || x in before then before else before + [x]
  }

  ghost predicate Distinct(xs: seq<string>) {
    forall i, j :: 0 <= i < j < |xs| ==> xs[i] != xs[j]
  }

  lemma {:induction false} JoinedMembers(have: seq<string>, more: seq<string>)
    ensures have <= Joined(have, more)
    ensures forall x :: x in Joined(have, more) <==> x in have || (x in more && x != "")
    ensures Distinct(have) ==> Distinct(Joined(have, more))
  {
    if more != [] {
      var init := more[..|more| - 1];
      JoinedMembers(have, init);
      assert more == init + [more[|more| - 1]];
    }
  }

  /** `i` is the first place of the symbol. */
  predicate FirstAt(xs: seq<string>, x: string, i: nat) {
    i < |xs| && xs[i] == x && forall j :: 0 <= j < i ==> xs[j] != x
  }

  /** New symbols are in the order in which they were first asked for. */
  lemma {:induction false} JoinedInOrder(have: seq<string>, more: seq<string>, a: nat, b: nat) returns (i: nat, j: nat)
    requires |have| <= a < b < |Joined(have, more)|
    ensures FirstAt(more, Joined(have, more)[a], i) && FirstAt(more, Joined(have, more)[b], j) && i < j
  {
    var (n, init) := (|more| - 1, more[..|more| - 1]);
    var before := Joined(have, init);
    JoinedMembers(have, init);
    if b < |before| {
      i, j := JoinedInOrder(have, init, a, b);
    } else {
      i := JoinedFirst(have, init, a);
      j := n;
    }
    assert forall k :: 0 <= k < n ==> more[k] == init[k];
  }

  lemma {:induction false} JoinedFirst(have: seq<string>, more: seq<string>, a: nat) returns (i: nat)
    requires |have| <= a < |Joined(have, more)|
    ensures FirstAt(more, Joined(have, more)[a], i)
  {
    var (n, init) := (|more| - 1, more[..|more| - 1]);
    var before := Joined(have, init);
    JoinedMembers(have, init);
    i := n;
    if a < |before| {
      i := JoinedFirst(have, init, a);
    }
    assert forall k :: 0 <= k < n ==> more[k] == init[k];
  }

  lemma {:induction false} JoinedNothingNew(have: seq<string>, more: seq<string>)
    requires forall x :: x in more ==> x in have || x == ""
    ensures Joined(have, more) == have
  {
    if more != [] {
      JoinedNothingNew(have, more[..|more| - 1]);
    }
  }

  /** Subscribing again changes nothing. */
  lemma SubscribeTwice(have: seq<string>, more: seq<string>)
    ensures Joined(Joined(have, more), more) == Joined(have, more)
  {
    JoinedMembers(have, more);
    JoinedNothingNew(Joined(have, more), more);
  }

  // ---- What the status fields mean ----

  datatype Event = Connected(since: int) | Disconnected(err: string) | Touched(at: int)

  /** The stamp of the last quote since the last connect. */
  function LastTouch(h: seq<Event>): Option<int> {
    if h == [] then None
    else
      match h[|h| - 1]
      case Connected(_) => None
      case Touched(at) => Some(at)
      case Disconnected(_) => LastTouch(h[..|h| - 1])
  }

  function IsUp(h: seq<Event>): bool {
    if h == [] then false
    else
      match h[|h| - 1]
      case Connected(_) => true
      case Disconnected(_) => false
      case Touched(_) => IsUp(h[..|h| - 1])
  }

  function ConnectedSince(h: seq<Event>): int {
    if h == [] then 0 else if h[|h| - 1].Connected? then h[|h| - 1].since else ConnectedSince(h[..|h| - 1])
  }

  function LastError(h: seq<Event>): string {
    if h == [] then ""
    else
      match h[|h| - 1]
      case Connected(_) => ""
      case Disconnected(err) => err
      case Touched(_) => LastError(h[..|h| - 1])
  }

  /** The last connect or disconnect decides whether the streamer is up, and what error it shows. */
  lemma {:induction false} LastChangeMeans(h: seq<Event>, k: nat)
    requires k < |h| && !h[k].Touched? && forall j :: k < j < |h| ==> h[j].Touched?
    ensures IsUp(h) <==> h[k].Connected?
    ensures LastError(h) == if h[k].Disconnected? then h[k].err else ""
  {
    if k < |h| - 1 {
      assert forall j :: k <= j < |h| - 1 ==> h[j] == h[..|h| - 1][j];
      LastChangeMeans(h[..|h| - 1], k);
    }
  }

  lemma {:induction false} NeverChangedMeans(h: seq<Event>)
    requires forall j :: 0 <= j < |h| ==> h[j].Touched?
    ensures !IsUp(h) && LastError(h) == "" && ConnectedSince(h) == 0
  {
    if h != [] {
      NeverChangedMeans(h[..|h| - 1]);
    }
  }

  lemma {:induction false} LastConnectMeans(h: seq<Event>, k: nat)
    requires k < |h| && h[k].Connected? && forall j :: k < j < |h| ==> !h[j].Connected?
    ensures ConnectedSince(h) == h[k].since
  {
    if k < |h| - 1 {
      assert forall j :: k <= j < |h| - 1 ==> h[j] == h[..|h| - 1][j];
      LastConnectMeans(h[..|h| - 1], k);
    }
  }

  /** A quote stamped since the last connect. */
  predicate OfThisConnection(h: seq<Event>, k: nat) {
    k < |h| && h[k].Touched? && forall j :: k < j < |h| ==> !h[j].Connected?
  }

  /** The stored time is that of the latest such quote; a disconnect leaves it, a connect forgets it. */
  lemma LastTouchIsLatest(h: seq<Event>, at: int)
    ensures LastTouch(h) == Some(at) <==> exists k: nat :: LatestTouch(h, k, at)
  {
    if LastTouch(h) == Some(at) {
      var k := LatestPlace(h, at);
    }
    forall k: nat | LatestTouch(h, k, at) ensures LastTouch(h) == Some(at) {
      LatestIsStored(h, k, at);
    }
  }

  /** A quote stamped `at` since the last connect, and none since. */
  predicate LatestTouch(h: seq<Event>, k: nat, at: int) {
    OfThisConnection(h, k) && h[k] == Touched(at) && forall j :: k < j < |h| ==> !h[j].Touched?
  }

  lemma {:induction false} LatestPlace(h: seq<Event>, at: int) returns (k: nat)
    requires LastTouch(h) == Some(at)
    ensures LatestTouch(h, k, at)
  {
    k := |h| - 1;
    if !h[k].Touched? {
      k := LatestPlace(h[..|h| - 1], at);
      assert forall j :: k <= j < |h| - 1 ==> h[j] == h[..|h| - 1][j];
    }
  }

  lemma {:induction false} LatestIsStored(h: seq<Event>, k: nat, at: int)
    requires LatestTouch(h, k, at)
    ensures LastTouch(h) == Some(at)
  {
    if k < |h| - 1 {
      assert forall j :: k <= j < |h| - 1 ==> h[j] == h[..|h| - 1][j];
      LatestIsStored(h[..|h| - 1], k, at);
    }
  }

  predicate Stale(symbols: seq<string>, h: seq<Event>, now: int, timeout: int) {
    symbols != [] && LastTouch(h).Some? && now - LastTouch(h).value >= timeout
  }

  /** The clock does not run backwards from one stamp to the next. */
  predicate Forward(h: seq<Event>) {
    forall i, j :: 0 <= i < j < |h| && h[i].Touched? && h[j].Touched? ==> h[i].at <= h[j].at
  }

  /** Symbols are subscribed, a quote of this connection was stamped, and each such is the timeout old. */
  ghost predicate QuotesAreOld(symbols: seq<string>, h: seq<Event>, now: int, timeout: int) {
    && symbols != [] && (exists k: nat :: OfThisConnection(h, k))
    && forall k: nat :: OfThisConnection(h, k) ==> now - h[k].at >= timeout
  }

  /** That is what the one stored time decides. */
  lemma StaleMeans(symbols: seq<string>, h: seq<Event>, now: int, timeout: int)
    requires Forward(h)
    ensures Stale(symbols, h, now, timeout) <==> QuotesAreOld(symbols, h, now, timeout)
  {
    if exists k: nat :: OfThisConnection(h, k) {
      TouchedIsSome(h);
    }
    if LastTouch(h).Some? {
      var k := LatestPlace(h, LastTouch(h).value);
      assert forall i: nat :: OfThisConnection(h, i) ==> h[i].at <= h[k].at;
    }
  }

  lemma {:induction false} TouchedIsSome(h: seq<Event>)
    requires exists k: nat :: OfThisConnection(h, k)
    ensures LastTouch(h).Some?
  {
    var k: nat :| OfThisConnection(h, k);
    var (init, n) := (h[..|h| - 1], |h| - 1);
    if k < n {
      assert forall j :: k < j < n ==> h[j] == init[j];
      assert OfThisConnection(init, k);
      TouchedIsSome(init);
    }
  }

  datatype Report = Report(connected: bool, connectedSince: int, lastEventAt: Option<int>, lastError: string)

  ghost function ReportOf(h: seq<Event>): Report {
    Report(IsUp(h), ConnectedSince(h), LastTouch(h), LastError(h))
  }

  class Status {
    var symbols: seq<string>
    var connected: bool
    var connectedSince: int
    /** `None` is the zero time. */
    var lastEventAt: Option<int>
    var lastError: string
    ghost var history: seq<Event>

    /** The fields are what the history says. */
    ghost predicate Valid()
      reads this
    {
      Report(connected, connectedSince, lastEventAt, lastError) == ReportOf(history)
    }

    constructor (symbols: seq<string>)
      ensures Valid() && this.symbols == symbols && history == []
    {
      this.symbols, connected, connectedSince, lastEventAt, lastError := symbols, false, 0, None, "";
      history := [];
    }

    method SetConnected(since: int)
      requires Valid()
      modifies this`connected, this`connectedSince, this`lastEventAt, this`lastError, this`history
      ensures Valid() && history == old(history) + [Connected(since)]
    {
      connected, connectedSince, lastEventAt, lastError := true, since, None, "";
      history := history + [Connected(since)];
    }

    method SetDisconnected(err: string)
      requires Valid()
      modifies this`connected, this`lastError, this`history
      ensures Valid() && history == old(history) + [Disconnected(err)]
    {
      connected, lastError := false, err;
      history := history + [Disconnected(err)];
      assert history[..|history| - 1] == old(history);
    }

    method TouchLastEvent(now: int)
      requires Valid()
      modifies this`lastEventAt, this`history
      ensures Valid() && history == old(history) + [Touched(now)]
    {
      lastEventAt := Some(now);
      history := history + [Touched(now)];
      assert history[..|history| - 1] == old(history);
    }

    method CurrentStatus() returns (r: Report)
      requires Valid()
      ensures r == ReportOf(history)
    {
      r := Report(connected, connectedSince, lastEventAt, lastError);
    }

    method IsStale(now: int, timeout: int) returns (stale: bool)
      requires Valid()
      ensures stale == Stale(symbols, history, now, timeout)
      ensures Forward(history) ==> (stale <==> QuotesAreOld(symbols, history, now, timeout))
    {
      if Forward(history) {
        StaleMeans(symbols, history, now, timeout);
      }
      if |symbols| == 0 {
        return false;
      }
      if lastEventAt.None? {
        return false;
      }
      return now - lastEventAt.value >= timeout;
    }

    method Subscribe(more: seq<string>)
      modifies this`symbols
      ensures symbols == Joined(old(symbols), more)
    {
      var seen := set x | x in symbols;
      var i := 0;
      while i < |more|
        invariant 0 <= i <= |more|
        invariant symbols == Joined(old(symbols), more[..i])
        invariant forall x :: x in seen <==> x in symbols
      {
        if more[i] !in seen && more[i] != "" {
          seen := seen + {more[i]};
          symbols := symbols + [more[i]];
        }
        assert more[..i + 1][..i] == more[..i];
        i := i + 1;
      }
      assert more[..i] == more;
    }
  }
}
