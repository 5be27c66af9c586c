/** The stale-quote watchdog over every run of reconnects. Each connection has its own dispatch and watchdog
    goroutines; a quote's arrival, its reading of the clock, the storing of that reading, and the watchdog's
    reading, its look at the symbols and its look at what is stored are separate steps. */
module WatchdogProtocol {
  import opened Common
  import MarketStreamer

  /** A dispatcher that took a quote, with the time it arrived, and read the clock, but has yet to store that. */
  datatype Dispatcher = Waiting | Holding(arrival: int, stamp: int) | Returned

  /** `isStale` is called with the clock's reading, looks at the symbols, and then at the last event. */
  datatype Watchdog = Polling | Called(now: int) | Looking(now: int) | Exited

  /** `queue` holds the arrival times of the quotes in the dispatch channel. As history: the arrival times of all
      quotes received on the connection, of those dispatched, and of those dropped from a full channel. */
  datatype Conn = Conn(queue: seq<int>, queueClosed: bool, cancelled: bool, dispatcher: Dispatcher, watchdog: Watchdog,
                       received: seq<int>, dispatched: seq<int>, dropped: seq<int>)

  /** Where the goroutine that runs one connection after another stands. */
  datatype Runner = Between | Receiving | Stopping | Draining

  /** A quote's time was stored, for a connection. */
  datatype Touch = Touch(conn: nat, stamp: int)

  /** A watchdog forced a reconnect: of which connection, at what reading, how many touches had been, and which
      of the connection's quotes had been received and which of those were undispatched. */
  datatype Verdict = Verdict(conn: nat, now: int, touches: nat, received: seq<int>, undispatched: seq<int>)

  /** `status` is the history of the streamer's status; `touches`, `verdicts` and `start` (the touches before
      this connection was set connected) are history too. */
  datatype System = System(timeout: int, clock: int, symbols: seq<string>, status: seq<MarketStreamer.Event>,
                           runner: Runner, conns: seq<Conn>, touches: seq<Touch>, verdicts: seq<Verdict>, start: nat)

  /** Quotes the dispatch channel holds. */
  const DISPATCH_SIZE: nat := 64

  datatype Action =
    | Pass(time: nat)
    | Subscribe(more: seq<string>)
    | CancelOutside(c: nat)
    | Disconnect(err: string)
    | Connect
    | Arrive
    | ReceiveFails
    | WatchdogJoined
    | DispatchJoined
    | TakeQuote(c: nat)
    | StoreTime(c: nat)
    | DispatchReturns(c: nat)
    | Poll(c: nat)
    | LookAtSymbols(c: nat)
    | LookAtLastEvent(c: nat)
    | WatchdogExits(c: nat)

  const NEW_CONN := Conn([], false, false, Waiting, Polling, [], [], [])

  function Initial(timeout: int, clock: int, symbols: seq<string>): System {
    System(timeout, clock, symbols, [], Between, [], [], [], 0)
  }

  function LastEvent(s: System): Option<int> {
    MarketStreamer.LastTouch(s.status)
  }

  /** What the watchdog's last look finds. */
  predicate TooOld(s: System, now: int) {
    LastEvent(s).Some? && now - LastEvent(s).value >= s.timeout
  }

  function Held(d: Dispatcher): seq<int> {
    if d.Holding? then [d.arrival] else []
  }

  /** Quotes received but not dispatched: held by the dispatcher, queued, or dropped. */
  function Undispatched(conn: Conn): seq<int> {
    Held(conn.dispatcher) + conn.queue + conn.dropped
  }

  predicate Enabled(s: System, a: Action) {
    var n := |s.conns|;
    match a
    case Pass(_) => true
    case Subscribe(_) => true
    case CancelOutside(c) => c < n
    case Disconnect(_) => s.runner == Between
    case Connect => s.runner == Between
    case Arrive => s.runner == Receiving && n > 0
    case ReceiveFails => s.runner == Receiving && n > 0
    case WatchdogJoined => s.runner == Stopping && n > 0 && s.conns[n - 1].watchdog == Exited
    case DispatchJoined => s.runner == Draining && n > 0 && s.conns[n - 1].dispatcher == Returned
    case TakeQuote(c) => c < n && s.conns[c].dispatcher == Waiting && s.conns[c].queue != []
    case StoreTime(c) => c < n && s.conns[c].dispatcher.Holding?
    case DispatchReturns(c) => c < n && s.conns[c].dispatcher == Waiting && s.conns[c].queue == [] && s.conns[c].queueClosed
    case Poll(c) => c < n && s.conns[c].watchdog == Polling
    case LookAtSymbols(c) => c < n && s.conns[c].watchdog.Called?
    case LookAtLastEvent(c) => c < n && s.conns[c].watchdog.Looking?
    case WatchdogExits(c) => c < n && s.conns[c].watchdog == Polling && s.conns[c].cancelled
  }

  function With(s: System, c: nat, conn: Conn): System
    requires c < |s.conns|
  {
    s.(conns := s.conns[c := conn])
  }

  /** A quote arrives at `time`: into the dispatch channel, or dropped when that is full. */
  function Arrived(conn: Conn, time: int): Conn {
    if |conn.queue| < DISPATCH_SIZE then conn.(received := conn.received + [time], queue := conn.queue + [time])
    else conn.(received := conn.received + [time], dropped := conn.dropped + [time])
  }

  function Taken(conn: Conn, clock: int): Conn
    requires conn.queue != []
  {
    conn.(queue := conn.queue[1..], dispatcher := Holding(conn.queue[0], clock))
  }

  function Stored(conn: Conn): Conn
    requires conn.dispatcher.Holding?
  {
    conn.(dispatcher := Waiting, dispatched := conn.dispatched + [conn.dispatcher.arrival])
  }

  function Next(s: System, a: Action): System
    requires Enabled(s, a)
  {
    var n := |s.conns|;
    match a
    case Pass(time) => s.(clock := s.clock + time)
    case Subscribe(more) => s.(symbols := MarketStreamer.Joined(s.symbols, more))
    case CancelOutside(c) => With(s, c, s.conns[c].(cancelled := true))
    case Disconnect(err) => s.(status := s.status + [MarketStreamer.Disconnected(err)])
    case Connect =>
      s.(runner := Receiving, status := s.status + [MarketStreamer.Connected(s.clock)], start := |s.touches|,
         conns := s.conns + [NEW_CONN])
    case Arrive => With(s, n - 1, Arrived(s.conns[n - 1], s.clock))
    case ReceiveFails => With(s, n - 1, s.conns[n - 1].(cancelled := true)).(runner := Stopping)
    case WatchdogJoined => With(s, n - 1, s.conns[n - 1].(queueClosed := true)).(runner := Draining)
    case DispatchJoined => s.(runner := Between)
    case TakeQuote(c) => With(s, c, Taken(s.conns[c], s.clock))
    case StoreTime(c) =>
      var stamp := s.conns[c].dispatcher.stamp;
      With(s, c, Stored(s.conns[c])).(
        status := s.status + [MarketStreamer.Touched(stamp)], touches := s.touches + [Touch(c, stamp)])
    case DispatchReturns(c) => With(s, c, s.conns[c].(dispatcher := Returned))
    case Poll(c) => With(s, c, s.conns[c].(watchdog := Called(s.clock)))
    case LookAtSymbols(c) =>
      var now := s.conns[c].watchdog.now;
      With(s, c, s.conns[c].(watchdog := if s.symbols == [] then Polling else Looking(now)))
    case LookAtLastEvent(c) =>
      if TooOld(s, s.conns[c].watchdog.now) then
        With(s, c, s.conns[c].(watchdog := Exited, cancelled := true)).(
          verdicts := s.verdicts + [VerdictOn(s, c, s.conns[c].watchdog.now)])
      else With(s, c, s.conns[c].(watchdog := Polling))
    case WatchdogExits(c) => With(s, c, s.conns[c].(watchdog := Exited))
  }

  function VerdictOn(s: System, c: nat, now: int): Verdict
    requires c < |s.conns|
  {
    Verdict(c, now, |s.touches|, s.conns[c].received, Undispatched(s.conns[c]))
  }

  /** Every run, by its list of attempted actions; one that is not enabled does nothing. */
  function Run(s: System, actions: seq<Action>): System {
    if actions == [] then s
    else
      var before := Run(s, actions[..|actions| - 1]);
      var a := actions[|actions| - 1];
      if Enabled(before, a) then Next(before, a) else before
  }

  // ---- Goroutines and the stored time ----

  /** Only the latest connection can still have goroutines, and between connections not even that. */
  predicate Joins(s: System) {
    && (s.runner != Between ==> s.conns != [])
    && (forall c :: 0 <= c < |s.conns| && (c < |s.conns| - 1 || s.runner == Between) ==>
        s.conns[c].dispatcher == Returned && s.conns[c].watchdog == Exited)
    && (s.runner == Draining ==> s.conns[|s.conns| - 1].watchdog == Exited)
  }

  lemma JoinsKept(s: System, a: Action)
    requires Joins(s) && Enabled(s, a)
    ensures Joins(Next(s, a))
  {
  }

  lemma StatusPlus(status: seq<MarketStreamer.Event>, e: MarketStreamer.Event)
    ensures MarketStreamer.LastTouch(status + [e])
      == if e.Touched? then Some(e.at) else if e.Connected? then None else MarketStreamer.LastTouch(status)
  {
    assert (status + [e])[..|status|] == status;
  }

  /** Only a connect and a store change what is stored. */
  lemma LastEventStep(s: System, a: Action)
    requires Enabled(s, a)
    ensures LastEvent(Next(s, a)) ==
      if a.Connect? then None else if a.StoreTime? then Some(s.conns[a.c].dispatcher.stamp) else LastEvent(s)
  {
    match a
    case Disconnect(err) => StatusPlus(s.status, MarketStreamer.Disconnected(err));
    case Connect => StatusPlus(s.status, MarketStreamer.Connected(s.clock));
    case StoreTime(c) => StatusPlus(s.status, MarketStreamer.Touched(s.conns[c].dispatcher.stamp));
    case _ =>
  }

  /** The stored time is that of the last touch of this connection, or none. */
  predicate Remembers(s: System) {
    && s.start <= |s.touches|
    && LastEvent(s) == if s.start == |s.touches| then None else Some(s.touches[|s.touches| - 1].stamp)
  }

  lemma RemembersKept(s: System, a: Action)
    requires Remembers(s) && Enabled(s, a)
    ensures Remembers(Next(s, a))
  {
    LastEventStep(s, a);
  }

  /** No touch since this connection was set connected is another connection's, and none before is its. */
  predicate Owned(s: System) {
    && s.start <= |s.touches|
    && (forall k :: 0 <= k < |s.touches| ==> s.touches[k].conn < |s.conns|)
    && (forall k :: 0 <= k < |s.touches| ==> (s.touches[k].conn == |s.conns| - 1 <==> s.start <= k))
  }

  lemma OwnedKept(s: System, a: Action)
    requires Joins(s) && Owned(s) && Enabled(s, a)
    ensures Owned(Next(s, a))
  {
  }

  predicate Clocks(s: System) {
    && (forall k, l :: 0 <= k < l < |s.touches| ==> s.touches[k].stamp <= s.touches[l].stamp)
    && (forall k :: 0 <= k < |s.touches| ==> s.touches[k].stamp <= s.clock)
    && (forall c :: 0 <= c < |s.conns| && s.conns[c].dispatcher.Holding? ==>
        && s.conns[c].dispatcher.stamp <= s.clock
        && forall k :: 0 <= k < |s.touches| ==> s.touches[k].stamp <= s.conns[c].dispatcher.stamp)
  }

  lemma ClocksKept(s: System, a: Action)
    requires Joins(s) && Clocks(s) && Enabled(s, a)
    ensures Clocks(Next(s, a))
  {
    if a.StoreTime? {
      StoreKeepsClocks(s, a.c);
    }
  }

  /** The time stored is no earlier than any before, and no other dispatcher holds one. */
  lemma StoreKeepsClocks(s: System, c: nat)
    requires Joins(s) && Clocks(s) && Enabled(s, StoreTime(c))
    ensures Clocks(Next(s, StoreTime(c)))
  {
    assert c == |s.conns| - 1;
  }

  predicate Watching(s: System) {
    forall c :: 0 <= c < |s.conns| && s.conns[c].watchdog.Looking? ==> s.symbols != []
  }

  lemma WatchingKept(s: System, a: Action)
    requires Watching(s) && Enabled(s, a)
    ensures Watching(Next(s, a)) && (s.symbols != [] ==> Next(s, a).symbols != [])
  {
    if a.Subscribe? {
      MarketStreamer.JoinedMembers(s.symbols, a.more);
    }
  }

  // ---- Every quote received is dispatched, held, queued or dropped ----

  function Count(arrivals: seq<int>, t: int): nat {
    multiset(arrivals)[t]
  }

  /** As many quotes that arrived at `t` were received as are in one of the four places. */
  predicate Accounted(conn: Conn, t: int) {
    Count(conn.received, t)
    == Count(conn.dispatched, t) + Count(Held(conn.dispatcher), t) + Count(conn.queue, t) + Count(conn.dropped, t)
  }

  lemma FirstCounts(arrivals: seq<int>, t: int)
    requires arrivals != []
    ensures Count(arrivals, t) == Count([arrivals[0]], t) + Count(arrivals[1..], t)
  {
    assert arrivals == [arrivals[0]] + arrivals[1..];
  }

  lemma LastCounts(arrivals: seq<int>, last: int, t: int)
    ensures Count(arrivals + [last], t) == Count(arrivals, t) + Count([last], t)
  {
  }

  lemma ArrivedKeepsAccount(conn: Conn, clock: int, t: int)
    requires Accounted(conn, t)
    ensures Accounted(Arrived(conn, clock), t)
  {
    LastCounts(conn.received, clock, t);
    LastCounts(conn.queue, clock, t);
    LastCounts(conn.dropped, clock, t);
  }

  lemma TakenKeepsAccount(conn: Conn, clock: int, t: int)
    requires Accounted(conn, t) && conn.dispatcher == Waiting && conn.queue != []
    ensures Accounted(Taken(conn, clock), t)
  {
    FirstCounts(conn.queue, t);
  }

  lemma StoredKeepsAccount(conn: Conn, t: int)
    requires Accounted(conn, t) && conn.dispatcher.Holding?
    ensures Accounted(Stored(conn), t)
  {
    LastCounts(conn.dispatched, conn.dispatcher.arrival, t);
  }

  ghost predicate AllAccounted(s: System) {
    forall c, t :: 0 <= c < |s.conns| ==> Accounted(s.conns[c], t)
  }

  /** A step changes one connection at most, in one of these ways, or only its flags. */
  lemma ConnStep(s: System, a: Action, c: nat)
    requires Enabled(s, a) && c < |s.conns|
    ensures c < |Next(s, a).conns|
    ensures var (before, after) := (s.conns[c], Next(s, a).conns[c]);
      || (a.Arrive? && after == Arrived(before, s.clock))
      || (a.TakeQuote? && before.dispatcher == Waiting && before.queue != [] && after == Taken(before, s.clock))
      || (a.StoreTime? && before.dispatcher.Holding? && after == Stored(before))
      || (after.(cancelled := before.cancelled, queueClosed := before.queueClosed, watchdog := before.watchdog,
                 dispatcher := before.dispatcher) == before && Held(after.dispatcher) == Held(before.dispatcher)
          && (after.dispatcher == before.dispatcher || after.dispatcher == Returned))
  {
  }

  lemma OnlyStoresDispatch(s: System, a: Action, c: nat)
    requires Enabled(s, a) && c < |s.conns| && !a.StoreTime?
    ensures c < |Next(s, a).conns| && Next(s, a).conns[c].dispatched == s.conns[c].dispatched
  {
  }

  lemma NewConns(s: System, a: Action)
    requires Enabled(s, a)
    ensures |Next(s, a).conns| == |s.conns| || Next(s, a).conns == s.conns + [NEW_CONN]
  {
  }

  lemma AccountKept(s: System, a: Action)
    requires AllAccounted(s) && Enabled(s, a)
    ensures AllAccounted(Next(s, a))
  {
    var after := Next(s, a);
    NewConns(s, a);
    forall c, t | 0 <= c < |after.conns| ensures Accounted(after.conns[c], t) {
      if c < |s.conns| {
        ConnStep(s, a, c);
        var conn := s.conns[c];
        assert Accounted(conn, t);
        ArrivedKeepsAccount(conn, s.clock, t);
        if conn.dispatcher == Waiting && conn.queue != [] {
          TakenKeepsAccount(conn, s.clock, t);
        }
        if conn.dispatcher.Holding? {
          StoredKeepsAccount(conn, t);
        }
      }
    }
  }

  /** Nothing arrived later than it was looked at. */
  predicate Punctual(conn: Conn, clock: int) {
    && (forall k :: 0 <= k < |conn.queue| ==> conn.queue[k] <= clock)
    && (conn.dispatcher.Holding? ==> conn.dispatcher.arrival <= conn.dispatcher.stamp)
  }

  predicate AllPunctual(s: System) {
    forall c :: 0 <= c < |s.conns| ==> Punctual(s.conns[c], s.clock)
  }

  lemma PunctualKept(s: System, a: Action)
    requires AllPunctual(s) && Enabled(s, a)
    ensures AllPunctual(Next(s, a))
  {
    var after := Next(s, a);
    NewConns(s, a);
    forall c | 0 <= c < |after.conns| ensures Punctual(after.conns[c], after.clock) {
      if c < |s.conns| {
        ConnStep(s, a, c);
        assert Punctual(s.conns[c], s.clock);
      }
    }
  }

  predicate DispatchedBy(conn: Conn, last: Option<int>) {
    forall k :: 0 <= k < |conn.dispatched| ==> last.Some? && conn.dispatched[k] <= last.value
  }

  /** What this connection dispatched arrived no later than the stored time. */
  predicate Timely(s: System) {
    s.conns != [] ==> DispatchedBy(s.conns[|s.conns| - 1], LastEvent(s))
  }

  lemma StoreIsTimely(conn: Conn, last: Option<int>)
    requires DispatchedBy(conn, last) && conn.dispatcher.Holding? && conn.dispatcher.arrival <= conn.dispatcher.stamp
    requires last.Some? ==> last.value <= conn.dispatcher.stamp
    ensures DispatchedBy(Stored(conn), Some(conn.dispatcher.stamp))
  {
  }

  lemma TimelyKept(s: System, a: Action)
    requires Joins(s) && Remembers(s) && Clocks(s) && AllPunctual(s) && Timely(s) && Enabled(s, a)
    ensures Timely(Next(s, a))
  {
    LastEventStep(s, a);
    if a.StoreTime? {
      StoreKeepsTimely(s, a.c);
    } else if !a.Connect? {
      OthersKeepTimely(s, a);
    }
  }

  lemma StoreKeepsTimely(s: System, c: nat)
    requires Joins(s) && Remembers(s) && Clocks(s) && AllPunctual(s) && Timely(s) && Enabled(s, StoreTime(c))
    ensures Timely(Next(s, StoreTime(c)))
  {
    LastEventStep(s, StoreTime(c));
    assert c == |s.conns| - 1 && Punctual(s.conns[c], s.clock);
    StoreIsTimely(s.conns[c], LastEvent(s));
  }

  lemma OthersKeepTimely(s: System, a: Action)
    requires Timely(s) && Enabled(s, a) && !a.StoreTime? && !a.Connect?
    ensures Timely(Next(s, a))
  {
    LastEventStep(s, a);
    assert |Next(s, a).conns| == |s.conns|;
    if s.conns != [] {
      OnlyStoresDispatch(s, a, |s.conns| - 1);
    }
  }

  // ---- Verdicts ----

  /** `timeout` old at `now`, all of them. */
  predicate AllOld(arrivals: seq<int>, timeout: int, now: int) {
    forall t :: t in arrivals ==> t + timeout <= now
  }

  /** What a watchdog's reconnect stands on: its own connection's last quote, and every one stamped before it;
      and it is right about all the quotes received exactly when it is right about the undispatched ones. */
  predicate Justified(s: System, v: Verdict) {
    && s.symbols != []
    && 0 < v.touches <= |s.touches|
    && s.touches[v.touches - 1].conn == v.conn
    && (forall k :: 0 <= k < v.touches ==> s.touches[k].stamp + s.timeout <= v.now)
    && (AllOld(v.received, s.timeout, v.now) <==> AllOld(v.undispatched, s.timeout, v.now))
  }

  predicate AllJustified(s: System) {
    forall i :: 0 <= i < |s.verdicts| ==> Justified(s, s.verdicts[i])
  }

  lemma StaysJustified(s: System, t: System, v: Verdict)
    requires Justified(s, v) && s.touches <= t.touches && t.timeout == s.timeout && t.symbols != []
    ensures Justified(t, v)
  {
  }

  ghost predicate Facts(s: System) {
    && Joins(s) && Remembers(s) && Owned(s) && Clocks(s) && Watching(s)
    && AllAccounted(s) && AllPunctual(s) && Timely(s)
  }

  lemma NewVerdictJustified(s: System, c: nat)
    requires Facts(s) && Enabled(s, LookAtLastEvent(c)) && TooOld(s, s.conns[c].watchdog.now)
    ensures Justified(s, VerdictOn(s, c, s.conns[c].watchdog.now))
  {
    assert c == |s.conns| - 1;
    assert s.touches[|s.touches| - 1].conn == c;
    OldIff(s.conns[c], LastEvent(s), s.timeout, s.conns[c].watchdog.now) by {
      forall t ensures Accounted(s.conns[c], t) {
      }
    }
  }

  /** With the stored time the timeout old, only undispatched quotes can be younger. */
  lemma OldIff(conn: Conn, last: Option<int>, timeout: int, now: int)
    requires (forall t :: Accounted(conn, t)) && DispatchedBy(conn, last)
    requires last.Some? && last.value + timeout <= now
    ensures AllOld(conn.received, timeout, now) <==> AllOld(Undispatched(conn), timeout, now)
  {
    forall t ensures t in conn.received <==> t in conn.dispatched || t in Undispatched(conn) {
      ReceivedIsSomewhere(conn, t);
    }
  }

  lemma ReceivedIsSomewhere(conn: Conn, t: int)
    requires Accounted(conn, t)
    ensures t in conn.received <==> t in conn.dispatched || t in Undispatched(conn)
    ensures t in Undispatched(conn) <==> t in Held(conn.dispatcher) || t in conn.queue || t in conn.dropped
  {
    assert t in conn.received <==> Count(conn.received, t) > 0;
    assert t in conn.dispatched <==> Count(conn.dispatched, t) > 0;
    assert t in Held(conn.dispatcher) <==> Count(Held(conn.dispatcher), t) > 0;
    assert t in conn.queue <==> Count(conn.queue, t) > 0;
    assert t in conn.dropped <==> Count(conn.dropped, t) > 0;
  }

  lemma OnlyGrows(s: System, a: Action)
    requires Enabled(s, a)
    ensures var t := Next(s, a);
      && s.touches <= t.touches && t.timeout == s.timeout
      && (t.verdicts == s.verdicts || (a.LookAtLastEvent? && TooOld(s, s.conns[a.c].watchdog.now)
          && t.verdicts == s.verdicts + [VerdictOn(s, a.c, s.conns[a.c].watchdog.now)]))
  {
  }

  lemma JustifiedKept(s: System, a: Action)
    requires Facts(s) && AllJustified(s) && Enabled(s, a)
    ensures AllJustified(Next(s, a))
  {
    var t := Next(s, a);
    OnlyGrows(s, a);
    WatchingKept(s, a);
    forall i | 0 <= i < |t.verdicts| ensures Justified(t, t.verdicts[i]) {
      if i == |s.verdicts| {
        NewVerdictJustified(s, a.c);
      }
      StaysJustified(s, t, t.verdicts[i]);
    }
  }

  lemma {:induction false} RunFacts(timeout: int, clock: int, symbols: seq<string>, actions: seq<Action>)
    ensures Facts(Run(Initial(timeout, clock, symbols), actions))
    ensures AllJustified(Run(Initial(timeout, clock, symbols), actions))
  {
    if actions != [] {
      var (rest, a) := (actions[..|actions| - 1], actions[|actions| - 1]);
      RunFacts(timeout, clock, symbols, rest);
      var s := Run(Initial(timeout, clock, symbols), rest);
      if Enabled(s, a) {
        JoinsKept(s, a);
        RemembersKept(s, a);
        OwnedKept(s, a);
        ClocksKept(s, a);
        WatchingKept(s, a);
        AccountKept(s, a);
        PunctualKept(s, a);
        TimelyKept(s, a);
        JustifiedKept(s, a);
      }
    }
  }

  // ---- What the runs include ----

  /** Any number of quotes may come while the connection receives, up to 64 wait, and any younger one is dropped
      while they do; a connection may fail at any point, and the next follows when its goroutines have returned. */
  lemma WhatMayHappen(s: System)
    requires s.conns != []
    ensures s.runner == Receiving ==> Enabled(s, Arrive) && Enabled(s, ReceiveFails)
    ensures s.runner == Receiving ==>
      var (before, after) := (s.conns[|s.conns| - 1], Next(s, Arrive).conns[|s.conns| - 1]);
      && after.queue == (if |before.queue| < 64 then before.queue + [s.clock] else before.queue)
      && after.dropped == (if |before.queue| < 64 then before.dropped else before.dropped + [s.clock])
      && after.received == before.received + [s.clock]
    ensures s.runner == Between ==> Enabled(s, Connect) && LastEvent(Next(s, Connect)) == None
  {
    StatusPlus(s.status, MarketStreamer.Connected(s.clock));
  }

  /** A dispatcher takes the first quote that waits and stamps it with the time at which it took it. */
  lemma DispatchMeans(s: System, c: nat)
    requires c < |s.conns| && s.conns[c].dispatcher == Waiting && s.conns[c].queue != []
    ensures Enabled(s, TakeQuote(c))
    ensures var t := Next(s, TakeQuote(c));
      && t.conns[c].dispatcher == Holding(s.conns[c].queue[0], s.clock) && t.conns[c].queue == s.conns[c].queue[1..]
      && Enabled(t, StoreTime(c)) && LastEvent(Next(t, StoreTime(c))) == Some(s.clock)
  {
    StatusPlus(s.status, MarketStreamer.Touched(s.clock));
  }

  // ---- Theorems ----

  /** Over every run: a watchdog forces a reconnect only while symbols are subscribed, after a quote was
      dispatched on its own connection, when the last such is at least the timeout old. */
  lemma ReconnectsAreJustified(timeout: int, clock: int, symbols: seq<string>, actions: seq<Action>)
    ensures var s := Run(Initial(timeout, clock, symbols), actions);
      forall i :: 0 <= i < |s.verdicts| ==>
        var v := s.verdicts[i];
        && s.symbols != []
        && 0 < v.touches <= |s.touches|
        && s.touches[v.touches - 1].conn == v.conn
        && forall k :: 0 <= k < v.touches ==> s.touches[k].stamp + s.timeout <= v.now
  {
    RunFacts(timeout, clock, symbols, actions);
    var s := Run(Initial(timeout, clock, symbols), actions);
    forall i | 0 <= i < |s.verdicts| ensures Justified(s, s.verdicts[i]) {
    }
  }

  /** Over every run: at a forced reconnect no quote has been received within the timeout, as the comment on
      `isStale` says, exactly when none younger is held by the dispatcher, queued, or dropped. */
  lemma NoQuoteReceivedIff(timeout: int, clock: int, symbols: seq<string>, actions: seq<Action>, i: nat)
    requires i < |Run(Initial(timeout, clock, symbols), actions).verdicts|
    ensures var s := Run(Initial(timeout, clock, symbols), actions);
      var v := s.verdicts[i];
      (forall t :: t in v.received ==> t + s.timeout <= v.now) <==> (forall t :: t in v.undispatched ==> t + s.timeout <= v.now)
  {
    RunFacts(timeout, clock, symbols, actions);
    var s := Run(Initial(timeout, clock, symbols), actions);
    assert Justified(s, s.verdicts[i]);
    assert AllOld(s.verdicts[i].received, s.timeout, s.verdicts[i].now) <==> AllOld(s.verdicts[i].undispatched, s.timeout, s.verdicts[i].now);
  }

  /** Over every run, the quotes received on a connection are exactly those dispatched, held, queued or dropped,
      each once. */
  lemma QuotesAccountedFor(timeout: int, clock: int, symbols: seq<string>, actions: seq<Action>, c: nat)
    requires c < |Run(Initial(timeout, clock, symbols), actions).conns|
    ensures var conn := Run(Initial(timeout, clock, symbols), actions).conns[c];
      multiset(conn.received) == multiset(conn.dispatched) + multiset(Undispatched(conn))
  {
    RunFacts(timeout, clock, symbols, actions);
    var s := Run(Initial(timeout, clock, symbols), actions);
    var conn := s.conns[c];
    forall t: int ensures multiset(conn.received)[t] == multiset(conn.dispatched)[t] + multiset(Undispatched(conn))[t] {
      assert Accounted(s.conns[c], t);
    }
  }

  /** Over every run: every touch after a connection was set connected is that connection's, until the next;
      so the stored time is `None` or this connection's last. */
  lemma ClockIsPerConnection(timeout: int, clock: int, symbols: seq<string>, actions: seq<Action>)
    ensures var s := Run(Initial(timeout, clock, symbols), actions);
      && s.start <= |s.touches|
      && (forall k :: 0 <= k < |s.touches| ==> (s.touches[k].conn == |s.conns| - 1 <==> s.start <= k))
      && LastEvent(s) == (if s.start == |s.touches| then None else Some(s.touches[|s.touches| - 1].stamp))
  {
    RunFacts(timeout, clock, symbols, actions);
  }

  /** When nothing comes between its two looks, the watchdog decides as `IsStale` does on the same history. */
  lemma UninterruptedLookIsStale(s: System, c: nat)
    requires c < |s.conns| && s.conns[c].watchdog.Called?
    ensures var now := s.conns[c].watchdog.now;
      var t := Run(s, [LookAtSymbols(c), LookAtLastEvent(c)]);
      && |t.conns| == |s.conns|
      && (MarketStreamer.Stale(s.symbols, s.status, now, s.timeout) ==>
            t.conns[c].watchdog == Exited && t.conns[c].cancelled && t.verdicts == s.verdicts + [VerdictOn(s, c, now)])
      && (!MarketStreamer.Stale(s.symbols, s.status, now, s.timeout) ==>
            t == s.(conns := s.conns[c := s.conns[c].(watchdog := Polling)]))
  {
    var looks := [LookAtSymbols(c), LookAtLastEvent(c)];
    assert looks[..1] == [LookAtSymbols(c)] && looks[..1][..0] == [];
    assert Run(s, []) == s;
    var u := Run(s, looks[..1]);
    assert u == Next(s, LookAtSymbols(c));
    if s.symbols != [] {
      assert u.conns[c := u.conns[c].(watchdog := Polling)] == s.conns[c := s.conns[c].(watchdog := Polling)];
    }
  }

  /** The other side of `NoQuoteReceivedIff`, in all three places: at any point of any run, a quote that is held,
      queued or dropped, however young, does not stop a reconnect that the stored time calls for. */
  lemma UndispatchedIsOverlooked(timeout: int, clock: int, symbols: seq<string>, actions: seq<Action>, c: nat, t: int)
    requires var s := Run(Initial(timeout, clock, symbols), actions);
      && c < |s.conns| && s.conns[c].watchdog.Called?
      && (t in Held(s.conns[c].dispatcher) || t in s.conns[c].queue || t in s.conns[c].dropped)
      && MarketStreamer.Stale(s.symbols, s.status, s.conns[c].watchdog.now, s.timeout)
    ensures var s := Run(Initial(timeout, clock, symbols), actions);
      var u := Run(s, [LookAtSymbols(c), LookAtLastEvent(c)]);
      && |u.conns| == |s.conns| && u.conns[c].cancelled && |u.verdicts| == |s.verdicts| + 1
      && t in u.verdicts[|s.verdicts|].received
  {
    RunFacts(timeout, clock, symbols, actions);
    var s := Run(Initial(timeout, clock, symbols), actions);
    assert Accounted(s.conns[c], t);
    UninterruptedLookIsStale(s, c);
    ReceivedIsSomewhere(s.conns[c], t);
  }
}
