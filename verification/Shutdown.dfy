/** Shutdown: the two streamers publishing on four buses, the bus consumers, the reconciler, the wait group
    and the closing of the store, as interleaved steps. */
module Shutdown {
  import Bus

  /** What a bus's one consumer is doing. */
  datatype Consumer = Waiting | Handling(event: int) | Gone

  /** One bus and its one subscriber: what it took in and what its consumer is done with, in order. */
  datatype Feed = Feed(capacity: nat, buffer: seq<int>, closed: bool, accepted: seq<int>,
                       handled: seq<int>, consumer: Consumer)

  /** A streamer; while publishing it holds the read lock of a bus it found open. */
  datatype Source = Working | Publishing(bus: nat, event: int) | Stopped

  datatype Reconciler = Absent | Idle | InPass | Ended

  /** How far the shutdown has come. */
  datatype Progress = NotStarted | Closing(bus: nat) | Joining | ClosingStore | Signalling | Finished

  /** The order, balance, position and quote buses, by number. */
  const BUSES: nat := 4
  const QUOTES: nat := 3

  /** `arrivals` counts, once cancelled, how many events, ticks and position rows are still to come. */
  datatype System = System(hasAccount: bool, cancelled: bool, arrivals: nat, feeds: seq<Feed>, account: Source,
                           market: Source, reconciler: Reconciler, waitGroup: int, shutdown: Progress,
                           storeOpen: bool, lateWrites: nat, signalled: bool, lateEvents: nat)

  datatype Action =
    | Cancel(arrivals: nat)
    | AccountEnter(bus: nat, event: int)
    | AccountSend
    | AccountStop
    | MarketEnter(event: int)
    | MarketSend
    | Take(bus: nat)
    | Handle(bus: nat, writes: bool)
    | Leave(bus: nat)
    | Tick
    | WriteSnapshot
    | EndPass
    | ReconcilerStop
    | CloseBus
    | Join
    | CloseStore
    | Signal

  function Initial(hasAccount: bool, capacities: seq<nat>): System
    requires |capacities| == BUSES
  {
    System(hasAccount, false, 0, seq(BUSES, b requires 0 <= b < BUSES => Feed(capacities[b], [], false, [], [], Waiting)),
           Working, Working, if hasAccount then Idle else Absent, if hasAccount then 5 else 4, NotStarted,
           true, 0, false, 0)
  }

  predicate WellSized(s: System) {
    && |s.feeds| == BUSES
    && (s.account.Publishing? ==> s.account.bus < QUOTES && s.hasAccount)
    && (s.market.Publishing? ==> s.market.bus == QUOTES)
    && (s.shutdown.Closing? ==> s.shutdown.bus < BUSES)
  }

  /** Once cancelled, only finitely much still arrives. */
  predicate Arrives(s: System) {
    s.cancelled ==> s.arrivals > 0
  }

  function Arrived(s: System): System
    requires Arrives(s)
  {
    if s.cancelled then s.(arrivals := s.arrivals - 1) else s
  }

  predicate Enabled(s: System, a: Action)
    requires WellSized(s)
  {
    match a
    case Cancel(_) => !s.cancelled
    case AccountEnter(bus, _) => s.hasAccount && s.account == Working && bus < QUOTES && Arrives(s)
    case AccountSend => s.account.Publishing?
    case AccountStop => s.account == Working && s.cancelled
    case MarketEnter(_) => s.market == Working && Arrives(s)
    case MarketSend => s.market.Publishing?
    case Take(bus) => bus < BUSES && s.feeds[bus].consumer == Waiting && s.feeds[bus].buffer != []
    case Handle(bus, writes) => bus < BUSES && s.feeds[bus].consumer.Handling? && (writes ==> bus < 2)
    case Leave(bus) =>
      bus < BUSES && s.feeds[bus].consumer == Waiting && s.feeds[bus].buffer == [] && s.feeds[bus].closed
    case Tick => s.reconciler == Idle && Arrives(s)
    case WriteSnapshot => s.reconciler == InPass && Arrives(s)
    case EndPass => s.reconciler == InPass
    case ReconcilerStop => s.reconciler == Idle && s.cancelled
    case CloseBus => s.shutdown.Closing? && !Inside(s.account, s.shutdown.bus) && !Inside(s.market, s.shutdown.bus)
    case Join => s.shutdown == Joining && s.waitGroup == 0
    case CloseStore => s.shutdown == ClosingStore
    case Signal => s.shutdown == Signalling
  }

  predicate Inside(source: Source, bus: nat) {
    source.Publishing? && source.bus == bus
  }

  function Accept(f: Feed, e: int): Feed {
    if |f.buffer| >= f.capacity then f else f.(buffer := f.buffer + [e], accepted := f.accepted + [e])
  }

  /** A write to the store, and whether it came too late. */
  function Written(s: System): System {
    if s.storeOpen then s else s.(lateWrites := s.lateWrites + 1)
  }

  function Next(s: System, a: Action): System
    requires WellSized(s) && Enabled(s, a)
  {
    match a
    case Cancel(arrivals) => s.(cancelled := true, arrivals := arrivals)
    case AccountEnter(bus, e) =>
      if s.feeds[bus].closed then Arrived(s).(lateEvents := s.lateEvents + 1)
      else Arrived(s).(account := Publishing(bus, e))
    case AccountSend =>
      s.(feeds := s.feeds[s.account.bus := Accept(s.feeds[s.account.bus], s.account.event)], account := Working)
    case AccountStop => s.(account := Stopped, shutdown := Closing(0))
    case MarketEnter(e) =>
      if s.feeds[QUOTES].closed then Arrived(s) else Arrived(s).(market := Publishing(QUOTES, e))
    case MarketSend =>
      s.(feeds := s.feeds[QUOTES := Accept(s.feeds[QUOTES], s.market.event)], market := Working)
    case Take(bus) =>
      var f := s.feeds[bus];
      s.(feeds := s.feeds[bus := f.(buffer := f.buffer[1..], consumer := Handling(f.buffer[0]))])
    case Handle(bus, writes) =>
      var f := s.feeds[bus];
      (if writes then Written(s) else s).(
        feeds := s.feeds[bus := f.(handled := f.handled + [f.consumer.event], consumer := Waiting)])
    case Leave(bus) => s.(feeds := s.feeds[bus := s.feeds[bus].(consumer := Gone)], waitGroup := s.waitGroup - 1)
    case Tick => Arrived(s).(reconciler := InPass)
    case WriteSnapshot => Written(Arrived(s))
    case EndPass => s.(reconciler := Idle)
    case ReconcilerStop => s.(reconciler := Ended, waitGroup := s.waitGroup - 1)
    case CloseBus =>
      var b := s.shutdown.bus;
      s.(feeds := s.feeds[b := s.feeds[b].(closed := true)],
         shutdown := if b + 1 < BUSES then Closing(b + 1) else Joining)
    case Join => s.(shutdown := ClosingStore)
    case CloseStore => s.(storeOpen := false, shutdown := Signalling)
    case Signal => s.(signalled := true, shutdown := Finished)
  }

  // ---- Invariant ----

  function One(b: bool): nat {
    if b then 1 else 0
  }

  /** Goroutines the wait group still waits for. */
  function Alive(s: System): nat
    requires WellSized(s)
  {
    One(s.feeds[0].consumer != Gone) + One(s.feeds[1].consumer != Gone) + One(s.feeds[2].consumer != Gone)
    + One(s.feeds[3].consumer != Gone) + One(s.reconciler == Idle || s.reconciler == InPass)
  }

  /** The rank of the shutdown's progress, counting down. */
  function StepsLeft(p: Progress): nat {
    match p
    case NotStarted => 8
    case Closing(b) => if b <= BUSES then 3 + BUSES - b else 3
    case Joining => 3
    case ClosingStore => 2
    case Signalling => 1
    case Finished => 0
  }

  predicate FeedInv(f: Feed) {
    && f.accepted == f.handled + (if f.consumer.Handling? then [f.consumer.event] else []) + f.buffer
    && (f.consumer == Gone ==> f.closed && f.buffer == [])
  }

  predicate FeedsInv(s: System) {
    WellSized(s) && forall b :: 0 <= b < BUSES ==> FeedInv(s.feeds[b])
  }

  predicate CountInv(s: System) {
    WellSized(s) && s.waitGroup == Alive(s) && (StepsLeft(s.shutdown) <= 2 ==> Alive(s) == 0)
  }

  predicate ClosedInv(s: System) {
    && WellSized(s)
    && (forall b: nat :: b < BUSES ==> (s.feeds[b].closed <==>
        s.shutdown != NotStarted && (s.shutdown.Closing? ==> b < s.shutdown.bus)))
    && (s.market.Publishing? ==> !s.feeds[QUOTES].closed)
  }

  predicate StageInv(s: System) {
    && (s.account == Stopped <==> s.shutdown != NotStarted)
    && (s.account == Stopped ==> s.cancelled)
    && (s.storeOpen <==> StepsLeft(s.shutdown) >= 2)
    && (s.signalled <==> s.shutdown == Finished)
    && s.lateWrites == 0 && s.lateEvents == 0
  }

  ghost predicate Inv(s: System) {
    FeedsInv(s) && CountInv(s) && ClosedInv(s) && StageInv(s)
  }

  lemma InitialInv(hasAccount: bool, capacities: seq<nat>)
    requires |capacities| == BUSES
    ensures Inv(Initial(hasAccount, capacities))
  {
  }

  lemma FeedKept(f: Feed, e: int)
    requires FeedInv(f)
    ensures !f.closed ==> FeedInv(Accept(f, e))
    ensures f.consumer == Waiting && f.buffer != [] ==>
      FeedInv(f.(buffer := f.buffer[1..], consumer := Handling(f.buffer[0])))
    ensures f.consumer.Handling? ==> FeedInv(f.(handled := f.handled + [f.consumer.event], consumer := Waiting))
  {
    if f.buffer != [] {
      assert f.buffer == [f.buffer[0]] + f.buffer[1..];
    }
    assert (f.handled + (if f.consumer.Handling? then [f.consumer.event] else []) + f.buffer) + [e]
        == f.handled + (if f.consumer.Handling? then [f.consumer.event] else []) + (f.buffer + [e]);
  }

  lemma StepKeepsFeeds(s: System, a: Action)
    requires FeedsInv(s) && ClosedInv(s) && StageInv(s) && Enabled(s, a)
    ensures FeedsInv(Next(s, a))
  {
    match a
    case AccountSend => FeedKept(s.feeds[s.account.bus], s.account.event);
    case MarketSend => FeedKept(s.feeds[QUOTES], s.market.event);
    case Take(b) => FeedKept(s.feeds[b], 0);
    case Handle(b, _) => FeedKept(s.feeds[b], 0);
    case _ =>
  }

  lemma StepKeepsClosed(s: System, a: Action)
    requires ClosedInv(s) && StageInv(s) && Enabled(s, a)
    ensures ClosedInv(Next(s, a))
  {
  }

  lemma AliveUpdate(s: System, t: System, b: nat)
    requires WellSized(s) && WellSized(t) && b < BUSES && t.feeds == s.feeds[b := t.feeds[b]]
    requires t.reconciler == s.reconciler
    ensures Alive(t) == Alive(s) - One(s.feeds[b].consumer != Gone) + One(t.feeds[b].consumer != Gone)
  {
  }

  /** The bus that an action touches. */
  function BusOf(s: System, a: Action): nat
    requires WellSized(s) && Enabled(s, a)
  {
    match a
    case AccountSend => s.account.bus
    case MarketSend => QUOTES
    case Take(b) => b
    case Handle(b, _) => b
    case Leave(b) => b
    case CloseBus => s.shutdown.bus
    case _ => 0
  }

  lemma FeedActions(s: System, a: Action)
    requires WellSized(s) && Enabled(s, a)
    ensures WellSized(Next(s, a)) && BusOf(s, a) < BUSES
    ensures Next(s, a).feeds == s.feeds[BusOf(s, a) := Next(s, a).feeds[BusOf(s, a)]]
  {
    match a
    case AccountSend =>
    case MarketSend =>
    case Take(_) =>
    case Handle(_, _) =>
    case Leave(_) =>
    case CloseBus =>
    case AccountEnter(_, _) =>
    case MarketEnter(_) =>
    case _ =>
  }

  lemma OnlyLeaveEnds(s: System, a: Action)
    requires WellSized(s) && Enabled(s, a) && !a.Leave?
    ensures Next(s, a).feeds[BusOf(s, a)].consumer == Gone <==> s.feeds[BusOf(s, a)].consumer == Gone
  {
    match a
    case AccountSend =>
    case MarketSend =>
    case Take(_) =>
    case Handle(_, _) =>
    case CloseBus =>
    case _ =>
  }

  lemma WaitGroupStep(s: System, a: Action)
    requires WellSized(s) && s.waitGroup == Alive(s) && Enabled(s, a)
    ensures WellSized(Next(s, a)) && Next(s, a).waitGroup == Alive(Next(s, a)) <= Alive(s)
  {
    FeedActions(s, a);
    if !a.Leave? {
      OnlyLeaveEnds(s, a);
    }
    if !a.Tick? && !a.EndPass? && !a.ReconcilerStop? {
      AliveUpdate(s, Next(s, a), BusOf(s, a));
    }
  }

  lemma StepKeepsCount(s: System, a: Action)
    requires CountInv(s) && Enabled(s, a)
    ensures CountInv(Next(s, a))
  {
    WaitGroupStep(s, a);
  }

  /** A goroutine that can write to the store is counted, so the store is still open. */
  lemma StepKeepsStage(s: System, a: Action)
    requires Inv(s) && Enabled(s, a)
    ensures StageInv(Next(s, a))
  {
  }

  lemma StepKeepsInv(s: System, a: Action)
    requires Inv(s) && Enabled(s, a)
    ensures Inv(Next(s, a))
  {
    StepKeepsFeeds(s, a);
    StepKeepsClosed(s, a);
    StepKeepsCount(s, a);
    StepKeepsStage(s, a);
  }

  // ---- Runs ----

  predicate Runs(s: System, actions: seq<Action>)
    decreases |actions|
  {
    WellSized(s) && (actions == [] || (Enabled(s, actions[0]) && Runs(Next(s, actions[0]), actions[1..])))
  }

  function End(s: System, actions: seq<Action>): System
    requires Runs(s, actions)
    decreases |actions|
  {
    if actions == [] then s else End(Next(s, actions[0]), actions[1..])
  }

  lemma {:induction false} RunKeepsInv(s: System, actions: seq<Action>)
    requires Inv(s) && Runs(s, actions)
    ensures Inv(End(s, actions))
    decreases |actions|
  {
    if actions != [] {
      StepKeepsInv(s, actions[0]);
      RunKeepsInv(Next(s, actions[0]), actions[1..]);
    }
  }

  /** In every run: no write reaches a closed store; no account event finds its bus closed; and once the store
      is closed every event that any bus accepted has been handled, in order, and every goroutine that
      could write is gone. */
  lemma StoreClosesLast(hasAccount: bool, capacities: seq<nat>, actions: seq<Action>)
    requires |capacities| == BUSES && Runs(Initial(hasAccount, capacities), actions)
    ensures var t := End(Initial(hasAccount, capacities), actions);
      && t.lateWrites == 0 && t.lateEvents == 0 && t.waitGroup >= 0
      && (t.signalled ==> !t.storeOpen)
      && |t.feeds| == BUSES
      && (!t.storeOpen ==>
            && t.reconciler != Idle && t.reconciler != InPass
            && forall b :: 0 <= b < BUSES ==>
                t.feeds[b].closed && t.feeds[b].consumer == Gone && t.feeds[b].handled == t.feeds[b].accepted)
  {
    InitialInv(hasAccount, capacities);
    RunKeepsInv(Initial(hasAccount, capacities), actions);
    var t := End(Initial(hasAccount, capacities), actions);
    if !t.storeOpen {
      AllHandled(t);
    }
  }

  lemma AllHandled(s: System)
    requires Inv(s) && !s.storeOpen
    ensures s.reconciler != Idle && s.reconciler != InPass
    ensures forall b :: 0 <= b < BUSES ==>
      s.feeds[b].closed && s.feeds[b].consumer == Gone && s.feeds[b].handled == s.feeds[b].accepted
  {
    assert Alive(s) == 0;
    forall b | 0 <= b < BUSES
      ensures s.feeds[b].closed && s.feeds[b].consumer == Gone && s.feeds[b].handled == s.feeds[b].accepted
    {
      assert FeedInv(s.feeds[b]);
    }
  }

  /** A bus takes an event exactly as the broker's channel does. */
  lemma AcceptIsOffer(f: Feed, e: int, taken: seq<int>, missed: nat)
    ensures var (c, f') := (Bus.Contents(f.capacity, f.buffer, f.closed, 0, taken, missed), Accept(f, e));
      && f'.buffer == Bus.Offer(c, e).buffer
      && f'.accepted == f.accepted + (if |f.buffer| < f.capacity then [e] else [])
      && f' == f.(buffer := f'.buffer, accepted := f'.accepted)
  {
  }

  /** While the streamers run, any event may come on any of their buses, and the reconciler may start a pass. */
  lemma AnythingMayArrive(s: System, bus: nat, e: int)
    requires WellSized(s) && !s.cancelled && bus < QUOTES
    ensures s.hasAccount && s.account == Working && !s.feeds[bus].closed ==>
      Enabled(s, AccountEnter(bus, e)) && Next(s, AccountEnter(bus, e)).account == Publishing(bus, e)
    ensures s.market == Working && !s.feeds[QUOTES].closed ==>
      Enabled(s, MarketEnter(e)) && Next(s, MarketEnter(e)).market == Publishing(QUOTES, e)
    ensures s.reconciler == Idle ==> Enabled(s, Tick) && Next(s, Tick).reconciler == InPass
  {
  }

  // ---- Once cancelled, shutdown finishes ----

  function FeedWork(f: Feed): nat {
    2 * |f.buffer| + One(f.consumer.Handling?) + One(f.consumer != Gone)
  }

  function SourceWork(source: Source): nat {
    match source
    case Working => 1
    case Publishing(_, _) => 4
    case Stopped => 0
  }

  function ReconcilerWork(r: Reconciler): nat {
    match r
    case Idle => 1
    case InPass => 2
    case _ => 0
  }

  function FeedsWork(feeds: seq<Feed>): nat
    requires |feeds| == BUSES
  {
    FeedWork(feeds[0]) + FeedWork(feeds[1]) + FeedWork(feeds[2]) + FeedWork(feeds[3])
  }

  /** What is left to do, as a number of steps at most. */
  function Work(s: System): nat
    requires WellSized(s)
  {
    6 * s.arrivals + FeedsWork(s.feeds) + SourceWork(s.account) + SourceWork(s.market)
    + ReconcilerWork(s.reconciler) + StepsLeft(s.shutdown)
  }

  lemma FeedsWorkUpdate(feeds: seq<Feed>, b: nat, f: Feed)
    requires |feeds| == BUSES && b < BUSES
    ensures FeedsWork(feeds[b := f]) == FeedsWork(feeds) - FeedWork(feeds[b]) + FeedWork(f)
  {
  }

  lemma StepIsProgress(s: System, a: Action)
    requires WellSized(s) && StageInv(s) && s.cancelled && Enabled(s, a)
    ensures WellSized(Next(s, a)) && Next(s, a).cancelled && Work(Next(s, a)) < Work(s)
  {
    FeedActions(s, a);
    var b := BusOf(s, a);
    FeedsWorkUpdate(s.feeds, b, Next(s, a).feeds[b]);
  }

  /** Until shutdown has finished, something can always move. */
  lemma SomethingMoves(s: System) returns (a: Action)
    requires Inv(s) && s.cancelled && s.shutdown != Finished
    ensures Enabled(s, a)
  {
    match s.shutdown {
      case NotStarted => a := if s.account == Working then AccountStop else AccountSend;
      case Closing(b) =>
        a := if Inside(s.account, b) then AccountSend else if Inside(s.market, b) then MarketSend else CloseBus;
      case Joining => a := Drain(s);
      case ClosingStore => a := CloseStore;
      case Signalling => a := Signal;
    }
  }

  /** The buses are closed: a consumer or the reconciler can move, or all have left. */
  function Drain(s: System): Action
    requires WellSized(s)
  {
    if s.feeds[0].consumer != Gone then ConsumerMove(s.feeds[0], 0)
    else if s.feeds[1].consumer != Gone then ConsumerMove(s.feeds[1], 1)
    else if s.feeds[2].consumer != Gone then ConsumerMove(s.feeds[2], 2)
    else if s.feeds[3].consumer != Gone then ConsumerMove(s.feeds[3], 3)
    else if s.reconciler == InPass then EndPass
    else if s.reconciler == Idle then ReconcilerStop
    else Join
  }

  function ConsumerMove(f: Feed, b: nat): Action {
    if f.consumer.Handling? then Handle(b, false) else if f.buffer != [] then Take(b) else Leave(b)
  }

  ghost predicate Stuck(s: System) {
    WellSized(s) && forall a :: !Enabled(s, a)
  }

  lemma {:induction false} WorkBoundsRun(s: System, actions: seq<Action>)
    requires Inv(s) && s.cancelled && Runs(s, actions)
    ensures |actions| <= Work(s) && Inv(End(s, actions)) && End(s, actions).cancelled
    decreases |actions|
  {
    if actions != [] {
      StepIsProgress(s, actions[0]);
      StepKeepsInv(s, actions[0]);
      WorkBoundsRun(Next(s, actions[0]), actions[1..]);
    }
  }

  /** After a cancel, every run is finite, by a bound known at the cancel; and one that can go no further has
      closed the store and signalled. */
  lemma ShutdownFinishes(hasAccount: bool, capacities: seq<nat>, before: seq<Action>, actions: seq<Action>)
    requires |capacities| == BUSES && Runs(Initial(hasAccount, capacities), before)
    requires var s := End(Initial(hasAccount, capacities), before); s.cancelled && Runs(s, actions)
    ensures var s := End(Initial(hasAccount, capacities), before);
      && |actions| <= Work(s)
      && (Stuck(End(s, actions)) ==> End(s, actions).signalled && !End(s, actions).storeOpen)
  {
    InitialInv(hasAccount, capacities);
    RunKeepsInv(Initial(hasAccount, capacities), before);
    var s := End(Initial(hasAccount, capacities), before);
    WorkBoundsRun(s, actions);
    var t := End(s, actions);
    if Stuck(t) && t.shutdown != Finished {
      var a := SomethingMoves(t);
      assert false;
    }
  }
}
