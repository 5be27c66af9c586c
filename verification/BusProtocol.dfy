/** The bus under concurrency. Each step is one lock operation, one channel operation or one update of the
    drop counter, by any of any number of publishers, by `Subscribe`, by `Close` or by a receiver. Events
    are tagged with their publisher and with their place in the order in which publishers entered. */
module BusProtocol {
  import opened Common
  import Bus

  datatype Event = Event(publisher: nat, stamp: nat)

  /** A subscriber's channel, with what its consumer took from it and what it missed; `since` counts the
      events published before it was made. */
  datatype Sub = Sub(capacity: nat, buffer: seq<Event>, closed: bool,
                     received: seq<Event>, dropped: seq<Event>, since: nat)

  /** A publisher inside `Publish` holds the read lock; `next` is the subscriber it turns to. */
  datatype Pub = Idle | Sending(next: nat, event: Event) | Counting(next: nat, event: Event)

  /** `closing` is the subscriber the closer turns to while it holds the write lock. */
  datatype System = System(subs: seq<Sub>, closed: bool, closing: Option<nat>, dropCount: int,
                           pubs: seq<Pub>, published: seq<Event>, panicked: bool)

  datatype Action =
    | Enter(p: nat)
    | Send(p: nat, waiting: bool)
    | CountDrop(p: nat)
    | Leave(p: nat)
    | Subscribe(capacity: nat)
    | EnterClose
    | CloseNext
    | LeaveClose
    | Receive(i: nat)

  function Initial(publishers: nat): System {
    System([], false, None, 0, seq(publishers, _ => Idle), [], false)
  }

  ghost predicate Unlocked(s: System) {
    s.closing == None && forall p :: 0 <= p < |s.pubs| ==> s.pubs[p] == Idle
  }

  ghost predicate Enabled(s: System, a: Action) {
    match a
    case Enter(p) => p < |s.pubs| && s.pubs[p] == Idle && s.closing == None
    case Send(p, _) => p < |s.pubs| && s.pubs[p].Sending? && s.pubs[p].next < |s.subs|
    case CountDrop(p) => p < |s.pubs| && s.pubs[p].Counting?
    case Leave(p) => p < |s.pubs| && s.pubs[p].Sending? && s.pubs[p].next >= |s.subs|
    case Subscribe(_) => Unlocked(s)
    case EnterClose => Unlocked(s)
    case CloseNext => s.closing.Some? && s.closing.value < |s.subs|
    case LeaveClose => s.closing.Some? && s.closing.value >= |s.subs|
    case Receive(i) => i < |s.subs| && s.subs[i].buffer != []
  }

  /** The non-blocking send to one channel; a consumer waiting on an empty channel is handed the event. */
  function Offered(sub: Sub, e: Event, waiting: bool): Sub {
    if waiting && sub.buffer == [] then sub.(received := sub.received + [e])
    else if |sub.buffer| < sub.capacity then sub.(buffer := sub.buffer + [e])
    else sub.(dropped := sub.dropped + [e])
  }

  predicate Drops(sub: Sub, waiting: bool) {
    !(waiting && sub.buffer == []) && |sub.buffer| >= sub.capacity
  }

  function SendNext(s: System, p: nat, waiting: bool): System
    requires p < |s.pubs| && s.pubs[p].Sending? && s.pubs[p].next < |s.subs|
  {
    var Sending(i, e) := s.pubs[p];
    if s.subs[i].closed then s.(panicked := true)
    else s.(subs := s.subs[i := Offered(s.subs[i], e, waiting)],
            pubs := s.pubs[p := if Drops(s.subs[i], waiting) then Counting(i, e) else Sending(i + 1, e)])
  }

  ghost function Next(s: System, a: Action): System
    requires Enabled(s, a)
  {
    match a
    case Enter(p) =>
      if s.closed then s
      else
        var e := Event(p, |s.published|);
        s.(pubs := s.pubs[p := Sending(0, e)], published := s.published + [e])
    case Send(p, waiting) => SendNext(s, p, waiting)
    case CountDrop(p) =>
      s.(pubs := s.pubs[p := Sending(s.pubs[p].next + 1, s.pubs[p].event)], dropCount := s.dropCount + 1)
    case Leave(p) => s.(pubs := s.pubs[p := Idle])
    case Subscribe(capacity) =>
      // once closed, the caller's channel is closed at once and the broker never sees it
      if s.closed then s else s.(subs := s.subs + [Sub(capacity, [], false, [], [], |s.published|)])
    case EnterClose => if s.closed then s else s.(closed := true, closing := Some(0))
    case CloseNext =>
      var i := s.closing.value;
      if s.subs[i].closed then s.(panicked := true)
      else s.(subs := s.subs[i := s.subs[i].(closed := true)], closing := Some(i + 1))
    case LeaveClose => s.(closing := None)
    case Receive(i) =>
      var sub := s.subs[i];
      s.(subs := s.subs[i := sub.(received := sub.received + [sub.buffer[0]], buffer := sub.buffer[1..])])
  }

  /** Every run, by its list of attempted actions; one that is not enabled does nothing. */
  ghost function Run(s: System, actions: seq<Action>): System {
    if actions == [] then s
    else
      var before := Run(s, actions[..|actions| - 1]);
      var a := actions[|actions| - 1];
      if Enabled(before, a) then Next(before, a) else before
  }

  // ---- Nothing is sent on a closed channel, and none is closed twice ----

  ghost predicate Locks(s: System) {
    && !s.panicked
    && (s.closing.Some? ==> s.closed && s.closing.value <= |s.subs|)
    && (forall p :: 0 <= p < |s.pubs| ==> s.pubs[p] == Idle || (!s.closed && s.pubs[p].next <= |s.subs|))
    && (forall p :: 0 <= p < |s.pubs| && s.pubs[p].Counting? ==> s.pubs[p].next < |s.subs|)
    && (forall i :: 0 <= i < |s.subs| ==>
        (s.subs[i].closed <==> s.closed && (s.closing.Some? ==> i < s.closing.value)))
  }

  lemma LocksKept(s: System, a: Action)
    requires Locks(s) && Enabled(s, a)
    ensures Locks(Next(s, a))
  {
  }

  // ---- Every event published to a subscriber is received, buffered, dropped or on its way ----

  /** Whether the publisher still has `e` to offer to subscriber `i`. */
  predicate Pending(pub: Pub, i: nat, e: Event) {
    match pub
    case Idle => false
    case Sending(next, event) => next <= i && event == e
    case Counting(next, event) => next < i && event == e
  }

  function PendingCount(pubs: seq<Pub>, i: nat, e: Event): nat {
    if pubs == [] then 0
    else PendingCount(pubs[..|pubs| - 1], i, e) + One(Pending(pubs[|pubs| - 1], i, e))
  }

  function One(b: bool): nat {
    if b then 1 else 0
  }

  lemma {:induction false} PendingUpdate(pubs: seq<Pub>, p: nat, pub: Pub, i: nat, e: Event)
    requires p < |pubs|
    ensures PendingCount(pubs[p := pub], i, e) + One(Pending(pubs[p], i, e))
         == PendingCount(pubs, i, e) + One(Pending(pub, i, e))
  {
    var (n, after) := (|pubs| - 1, pubs[p := pub]);
    if p < n {
      PendingUpdate(pubs[..n], p, pub, i, e);
      assert after[..n] == pubs[..n][p := pub];
    } else {
      assert after[..n] == pubs[..n];
    }
  }

  lemma {:induction false} NonePending(pubs: seq<Pub>, i: nat, e: Event)
    requires forall p :: 0 <= p < |pubs| ==> !Pending(pubs[p], i, e)
    ensures PendingCount(pubs, i, e) == 0
  {
    if pubs != [] {
      NonePending(pubs[..|pubs| - 1], i, e);
    }
  }

  function Count(events: seq<Event>, e: Event): nat {
    multiset(events)[e]
  }

  /** How often a subscriber was offered `e`. */
  function Fates(sub: Sub, e: Event): nat {
    Count(sub.received, e) + Count(sub.buffer, e) + Count(sub.dropped, e)
  }

  ghost predicate Conserved(s: System, i: nat, e: Event)
    requires i < |s.subs|
  {
    && s.subs[i].since <= |s.published|
    && Count(s.published[s.subs[i].since..], e) == Fates(s.subs[i], e) + PendingCount(s.pubs, i, e)
  }

  ghost predicate Tagged(s: System) {
    && (forall k :: 0 <= k < |s.published| ==> s.published[k].stamp == k && s.published[k].publisher < |s.pubs|)
    && (forall p :: 0 <= p < |s.pubs| && s.pubs[p] != Idle ==>
        s.pubs[p].event.publisher == p && s.pubs[p].event in s.published)
  }

  lemma TaggedKept(s: System, a: Action)
    requires Tagged(s) && Enabled(s, a)
    ensures Tagged(Next(s, a))
  {
  }

  lemma OfferedFates(sub: Sub, last: Event, waiting: bool, e: Event)
    ensures Fates(Offered(sub, last, waiting), e) == Fates(sub, e) + One(last == e)
  {
  }

  lemma ReceivedFates(sub: Sub, e: Event)
    requires sub.buffer != []
    ensures Fates(sub.(received := sub.received + [sub.buffer[0]], buffer := sub.buffer[1..]), e) == Fates(sub, e)
  {
    assert sub.buffer == [sub.buffer[0]] + sub.buffer[1..];
  }

  lemma PublishedGrows(published: seq<Event>, since: nat, last: Event, e: Event)
    requires since <= |published|
    ensures Count((published + [last])[since..], e) == Count(published[since..], e) + One(last == e)
  {
    assert (published + [last])[since..] == published[since..] + [last];
  }

  /** A publisher's step at subscriber `i`. */
  lemma PublisherKeepsConserved(s: System, a: Action, i: nat, e: Event)
    requires Locks(s) && i < |s.subs| && Conserved(s, i, e) && Enabled(s, a)
    requires a.Enter? || a.Send? || a.CountDrop? || a.Leave?
    ensures Conserved(Next(s, a), i, e)
  {
    PendingUpdate(s.pubs, a.p, Next(s, a).pubs[a.p], i, e);
    if a.Enter? {
      PublishedGrows(s.published, s.subs[i].since, Event(a.p, |s.published|), e);
    } else if a.Send? {
      OfferedFates(s.subs[i], s.pubs[a.p].event, a.waiting, e);
    }
  }

  lemma ConservedKept(s: System, a: Action, i: nat, e: Event)
    requires Locks(s) && i < |s.subs| && Conserved(s, i, e) && Enabled(s, a)
    ensures i < |Next(s, a).subs| && Conserved(Next(s, a), i, e)
  {
    if a.Enter? || a.Send? || a.CountDrop? || a.Leave? {
      PublisherKeepsConserved(s, a, i, e);
    } else if a.Receive? {
      ReceivedFates(s.subs[a.i], e);
    }
  }

  lemma ConservedAtFirst(s: System, capacity: nat, e: Event)
    requires Enabled(s, Subscribe(capacity)) && !s.closed
    ensures Conserved(Next(s, Subscribe(capacity)), |s.subs|, e)
  {
    NonePending(s.pubs, |s.subs|, e);
  }

  // ---- Order ----

  /** What the consumer has taken or will take, in its order. */
  function Taken(sub: Sub): seq<Event> {
    sub.received + sub.buffer
  }

  /** One publisher's events come in the order in which it published them. */
  ghost predicate InOrder(events: seq<Event>) {
    forall k, l :: 0 <= k < l < |events| && events[k].publisher == events[l].publisher ==> events[k].stamp < events[l].stamp
  }

  ghost predicate Older(events: seq<Event>, e: Event) {
    forall k :: 0 <= k < |events| && events[k].publisher == e.publisher ==> events[k].stamp < e.stamp
  }

  ghost predicate FromStream(events: seq<Event>, published: seq<Event>) {
    forall k :: 0 <= k < |events| ==> events[k].stamp < |published| && published[events[k].stamp] == events[k]
  }

  ghost predicate Ordered(s: System, i: nat)
    requires i < |s.subs|
  {
    var taken := Taken(s.subs[i]);
    && InOrder(taken) && FromStream(taken, s.published)
    && forall p :: 0 <= p < |s.pubs| && s.pubs[p] != Idle && Pending(s.pubs[p], i, s.pubs[p].event) ==>
        Older(taken, s.pubs[p].event)
  }

  lemma OfferedTaken(sub: Sub, e: Event, waiting: bool)
    ensures Taken(Offered(sub, e, waiting)) == if Drops(sub, waiting) then Taken(sub) else Taken(sub) + [e]
  {
  }

  lemma SendKeepsOrdered(s: System, p: nat, waiting: bool, i: nat)
    requires Locks(s) && Tagged(s) && i < |s.subs| && Ordered(s, i) && Enabled(s, Send(p, waiting))
    ensures Ordered(SendNext(s, p, waiting), i)
  {
    var (j, e, t) := (s.pubs[p].next, s.pubs[p].event, SendNext(s, p, waiting));
    if j == i && !Drops(s.subs[i], waiting) {
      var taken := Taken(s.subs[i]);
      assert Pending(s.pubs[p], i, e);
      OfferedTaken(s.subs[i], e, waiting);
      AppendNewest(taken, e, s.published);
      forall q | 0 <= q < |s.pubs| && t.pubs[q] != Idle && Pending(t.pubs[q], i, t.pubs[q].event)
        ensures Older(taken + [e], t.pubs[q].event)
      {
        assert q != p && Older(taken, t.pubs[q].event);
      }
    } else {
      OfferedTaken(s.subs[j], e, waiting);
      assert Taken(t.subs[i]) == Taken(s.subs[i]);
    }
  }

  lemma AppendNewest(taken: seq<Event>, e: Event, published: seq<Event>)
    requires InOrder(taken) && FromStream(taken, published) && Older(taken, e)
    requires e.stamp < |published| && published[e.stamp] == e
    ensures InOrder(taken + [e]) && FromStream(taken + [e], published)
  {
  }

  lemma OrderedKept(s: System, a: Action, i: nat)
    requires Locks(s) && Tagged(s) && i < |s.subs| && Ordered(s, i) && Enabled(s, a)
    ensures i < |Next(s, a).subs| && Ordered(Next(s, a), i)
  {
    if a.Send? {
      SendKeepsOrdered(s, a.p, a.waiting, i);
    } else if a.Receive? {
      assert Taken(Next(s, a).subs[i]) == Taken(s.subs[i]);
    }
  }

  // ---- The drop counter ----

  function TotalDropped(subs: seq<Sub>): nat {
    if subs == [] then 0 else TotalDropped(subs[..|subs| - 1]) + |subs[|subs| - 1].dropped|
  }

  /** Publishers that dropped an event and have yet to count it. */
  function Uncounted(pubs: seq<Pub>): nat {
    if pubs == [] then 0 else Uncounted(pubs[..|pubs| - 1]) + One(pubs[|pubs| - 1].Counting?)
  }

  lemma {:induction false} DroppedUpdate(subs: seq<Sub>, i: nat, sub: Sub)
    requires i < |subs|
    ensures TotalDropped(subs[i := sub]) + |subs[i].dropped| == TotalDropped(subs) + |sub.dropped|
  {
    var (n, after) := (|subs| - 1, subs[i := sub]);
    if i < n {
      DroppedUpdate(subs[..n], i, sub);
      assert after[..n] == subs[..n][i := sub];
    } else {
      assert after[..n] == subs[..n];
    }
  }

  lemma {:induction false} UncountedUpdate(pubs: seq<Pub>, p: nat, pub: Pub)
    requires p < |pubs|
    ensures Uncounted(pubs[p := pub]) + One(pubs[p].Counting?) == Uncounted(pubs) + One(pub.Counting?)
  {
    var (n, after) := (|pubs| - 1, pubs[p := pub]);
    if p < n {
      UncountedUpdate(pubs[..n], p, pub);
      assert after[..n] == pubs[..n][p := pub];
    } else {
      assert after[..n] == pubs[..n];
    }
  }

  lemma {:induction false} NoneUncounted(pubs: seq<Pub>)
    requires forall p :: 0 <= p < |pubs| ==> pubs[p] == Idle
    ensures Uncounted(pubs) == 0
  {
    if pubs != [] {
      NoneUncounted(pubs[..|pubs| - 1]);
    }
  }

  ghost predicate DropsCounted(s: System) {
    s.dropCount + Uncounted(s.pubs) == TotalDropped(s.subs)
  }

  lemma DropsCountedKept(s: System, a: Action)
    requires Locks(s) && DropsCounted(s) && Enabled(s, a)
    ensures DropsCounted(Next(s, a))
  {
    var t := Next(s, a);
    match a
    case Enter(p) => UncountedUpdate(s.pubs, p, t.pubs[p]);
    case Send(p, _) =>
      var i := s.pubs[p].next;
      UncountedUpdate(s.pubs, p, t.pubs[p]);
      DroppedUpdate(s.subs, i, t.subs[i]);
    case CountDrop(p) => UncountedUpdate(s.pubs, p, t.pubs[p]);
    case Leave(p) => UncountedUpdate(s.pubs, p, t.pubs[p]);
    case Subscribe(_) =>
      if !s.closed {
        assert t.subs[..|s.subs|] == s.subs;
      }
    case CloseNext => DroppedUpdate(s.subs, s.closing.value, t.subs[s.closing.value]);
    case Receive(i) => DroppedUpdate(s.subs, i, t.subs[i]);
    case _ =>
  }

  // ---- Every run ----

  ghost predicate AllOrdered(s: System) {
    forall i :: 0 <= i < |s.subs| ==> Ordered(s, i)
  }

  ghost predicate AllConserved(s: System) {
    forall i, e :: 0 <= i < |s.subs| ==> Conserved(s, i, e)
  }

  ghost predicate Inv(s: System) {
    Locks(s) && Tagged(s) && DropsCounted(s) && AllOrdered(s) && AllConserved(s)
  }

  /** Only a subscription adds a subscriber. */
  lemma SubsStay(s: System, a: Action)
    requires Enabled(s, a)
    ensures |Next(s, a).subs| == |s.subs| + if a.Subscribe? && !s.closed then 1 else 0
  {
  }

  lemma NewIsOrdered(s: System, capacity: nat)
    requires Enabled(s, Subscribe(capacity)) && !s.closed
    ensures Ordered(Next(s, Subscribe(capacity)), |s.subs|)
  {
  }

  lemma AllOrderedKept(s: System, a: Action)
    requires Locks(s) && Tagged(s) && AllOrdered(s) && Enabled(s, a)
    ensures AllOrdered(Next(s, a))
  {
    SubsStay(s, a);
    forall i | 0 <= i < |Next(s, a).subs| ensures Ordered(Next(s, a), i) {
      if i < |s.subs| {
        OrderedKept(s, a, i);
      } else {
        NewIsOrdered(s, a.capacity);
      }
    }
  }

  lemma AllConservedKept(s: System, a: Action)
    requires Locks(s) && AllConserved(s) && Enabled(s, a)
    ensures AllConserved(Next(s, a))
  {
    SubsStay(s, a);
    forall i, e | 0 <= i < |Next(s, a).subs| ensures Conserved(Next(s, a), i, e) {
      if i < |s.subs| {
        ConservedKept(s, a, i, e);
      } else {
        ConservedAtFirst(s, a.capacity, e);
      }
    }
  }

  lemma InvKept(s: System, a: Action)
    requires Inv(s) && Enabled(s, a)
    ensures Inv(Next(s, a))
  {
    LocksKept(s, a);
    TaggedKept(s, a);
    DropsCountedKept(s, a);
    AllOrderedKept(s, a);
    AllConservedKept(s, a);
  }

  lemma {:induction false} RunInv(publishers: nat, actions: seq<Action>)
    ensures Inv(Run(Initial(publishers), actions))
  {
    if actions == [] {
      NoneUncounted(Initial(publishers).pubs);
    } else {
      var (before, a) := (Run(Initial(publishers), actions[..|actions| - 1]), actions[|actions| - 1]);
      RunInv(publishers, actions[..|actions| - 1]);
      if Enabled(before, a) {
        InvKept(before, a);
      }
    }
  }

  /** No step of any run sends on a closed channel or closes one twice. */
  lemma NeverPanics(publishers: nat, actions: seq<Action>)
    ensures !Run(Initial(publishers), actions).panicked
  {
    RunInv(publishers, actions);
  }

  /** With no publisher under way, what was published to a subscriber since it subscribed is exactly what it
      received, what is buffered for it, and what it missed; and `Drops` is the sum of what was missed. */
  lemma EventsAccountedFor(publishers: nat, actions: seq<Action>)
    ensures var s := Run(Initial(publishers), actions);
      (forall p :: 0 <= p < |s.pubs| ==> s.pubs[p] == Idle) ==>
        && s.dropCount == TotalDropped(s.subs)
        && forall i :: 0 <= i < |s.subs| ==>
            && s.subs[i].since <= |s.published|
            && multiset(s.published[s.subs[i].since..])
                == multiset(s.subs[i].received) + multiset(s.subs[i].buffer) + multiset(s.subs[i].dropped)
            && |s.published| - s.subs[i].since
                == |s.subs[i].received| + |s.subs[i].buffer| + |s.subs[i].dropped|
  {
    var s := Run(Initial(publishers), actions);
    RunInv(publishers, actions);
    if forall p :: 0 <= p < |s.pubs| ==> s.pubs[p] == Idle {
      NoneUncounted(s.pubs);
      forall i | 0 <= i < |s.subs|
        ensures s.subs[i].since <= |s.published|
        ensures multiset(s.published[s.subs[i].since..])
             == multiset(s.subs[i].received) + multiset(s.subs[i].buffer) + multiset(s.subs[i].dropped)
        ensures |s.published| - s.subs[i].since == |s.subs[i].received| + |s.subs[i].buffer| + |s.subs[i].dropped|
      {
        SubscriberAccount(s, i);
      }
    }
  }

  lemma SubscriberAccount(s: System, i: nat)
    requires Inv(s) && i < |s.subs| && forall p :: 0 <= p < |s.pubs| ==> s.pubs[p] == Idle
    ensures s.subs[i].since <= |s.published|
    ensures var sub := s.subs[i];
      && multiset(s.published[sub.since..]) == multiset(sub.received) + multiset(sub.buffer) + multiset(sub.dropped)
      && |s.published| - sub.since == |sub.received| + |sub.buffer| + |sub.dropped|
  {
    var sub := s.subs[i];
    assert Conserved(s, i, Event(0, 0));
    forall e: Event ensures multiset(s.published[sub.since..])[e] == Fates(sub, e) {
      assert Conserved(s, i, e);
      NonePending(s.pubs, i, e);
    }
    assert multiset(s.published[sub.since..]) == multiset(sub.received) + multiset(sub.buffer) + multiset(sub.dropped);
    assert |multiset(s.published[sub.since..])| == |s.published| - sub.since;
  }

  /** At every moment, what a consumer has received and will receive is a selection of each publisher's
      stream, in that publisher's order. */
  lemma StreamsStayInOrder(publishers: nat, actions: seq<Action>, i: nat)
    requires i < |Run(Initial(publishers), actions).subs|
    ensures var s := Run(Initial(publishers), actions);
      InOrder(Taken(s.subs[i])) && FromStream(Taken(s.subs[i]), s.published)
  {
    RunInv(publishers, actions);
    InvOrders(Run(Initial(publishers), actions), i);
  }

  lemma InvOrders(s: System, i: nat)
    requires Inv(s) && i < |s.subs|
    ensures InOrder(Taken(s.subs[i])) && FromStream(Taken(s.subs[i]), s.published)
  {
    assert Ordered(s, i);
  }

  // ---- One subscriber never changes what another gets ----

  function Remove<T>(xs: seq<T>, i: nat): seq<T>
    requires i < |xs|
  {
    xs[..i] + xs[i + 1..]
  }

  function Renumber(j: nat, i: nat): nat {
    if j > i then j - 1 else j
  }

  function WithoutPub(pub: Pub, i: nat): Pub {
    match pub
    case Idle => Idle
    case Sending(next, e) => Sending(Renumber(next, i), e)
    case Counting(next, e) => if next == i then Sending(i, e) else Counting(Renumber(next, i), e)
  }

  /** The bus as if subscriber `i` had never been there, up to the drop counter. */
  function Without(s: System, i: nat): System
    requires i < |s.subs|
  {
    s.(subs := Remove(s.subs, i),
       closing := if s.closing.Some? then Some(Renumber(s.closing.value, i)) else None,
       pubs := WithoutPubs(s.pubs, i),
       dropCount := 0)
  }

  function WithoutPubs(pubs: seq<Pub>, i: nat): seq<Pub> {
    seq(|pubs|, p requires 0 <= p < |pubs| => WithoutPub(pubs[p], i))
  }

  /** The same action without subscriber `i`; none if it concerns that subscriber alone. */
  ghost function WithoutAction(s: System, a: Action, i: nat): Option<Action>
    requires Enabled(s, a)
  {
    match a
    case Send(p, _) => if s.pubs[p].next == i then None else Some(a)
    case CountDrop(p) => if s.pubs[p].next == i then None else Some(a)
    case CloseNext => if s.closing.value == i then None else Some(a)
    case Receive(j) => if j == i then None else Some(Receive(Renumber(j, i)))
    case _ => Some(a)
  }

  lemma RemoveFacts<T>(xs: seq<T>, i: nat, j: nat, x: T)
    requires i < |xs| && j < |xs|
    ensures j != i ==> Remove(xs, i)[Renumber(j, i)] == xs[j]
    ensures Remove(xs[j := x], i) == if j == i then Remove(xs, i) else Remove(xs, i)[Renumber(j, i) := x]
    ensures Remove(xs + [x], i) == Remove(xs, i) + [x]
  {
  }

  lemma PubsWithout(pubs: seq<Pub>, p: nat, pub: Pub, i: nat)
    requires p < |pubs|
    ensures WithoutPubs(pubs, i)[p] == WithoutPub(pubs[p], i)
    ensures WithoutPubs(pubs[p := pub], i) == WithoutPubs(pubs, i)[p := WithoutPub(pub, i)]
  {
  }

  lemma SendWithout(s: System, p: nat, waiting: bool, i: nat)
    requires Locks(s) && i < |s.subs| && Enabled(s, Send(p, waiting)) && s.pubs[p].next != i
    ensures Enabled(Without(s, i), Send(p, waiting))
    ensures SendNext(Without(s, i), p, waiting) == Without(SendNext(s, p, waiting), i)
  {
    var (j, e) := (s.pubs[p].next, s.pubs[p].event);
    var sub := Offered(s.subs[j], e, waiting);
    var pub := if Drops(s.subs[j], waiting) then Counting(j, e) else Sending(j + 1, e);
    RemoveFacts(s.subs, i, j, sub);
    PubsWithout(s.pubs, p, pub, i);
    ChangedWithout(s, i, j, sub, p, pub);
  }

  lemma ChangedWithout(s: System, i: nat, j: nat, sub: Sub, p: nat, pub: Pub)
    requires i < |s.subs| && j < |s.subs| && p < |s.pubs|
    ensures Without(s.(subs := s.subs[j := sub], pubs := s.pubs[p := pub]), i)
      == Without(s, i).(subs := Remove(s.subs[j := sub], i), pubs := WithoutPubs(s.pubs[p := pub], i))
  {
  }

  lemma SkippedStep(s: System, a: Action, i: nat)
    requires Locks(s) && i < |s.subs| && Enabled(s, a) && WithoutAction(s, a, i) == None
    ensures Without(Next(s, a), i) == Without(s, i)
  {
    var t := Next(s, a);
    RemoveFacts(s.subs, i, i, t.subs[i]);
    if a.Send? || a.CountDrop? {
      PubsWithout(s.pubs, a.p, t.pubs[a.p], i);
    }
  }

  lemma UnlockedWithout(s: System, i: nat)
    requires i < |s.subs|
    requires Unlocked(s)
    ensures Unlocked(Without(s, i))
  {
  }

  lemma MirroredStep(s: System, a: Action, i: nat)
    requires Locks(s) && i < |s.subs| && Enabled(s, a) && WithoutAction(s, a, i).Some?
    ensures var b := WithoutAction(s, a, i).value;
      Enabled(Without(s, i), b) && Next(Without(s, i), b).(dropCount := 0) == Without(Next(s, a), i)
  {
    var t := Next(s, a);
    match a
    case Send(p, waiting) => SendWithout(s, p, waiting, i);
    case Subscribe(_) => UnlockedWithout(s, i); RemoveFacts(s.subs, i, i, t.subs[|t.subs| - 1]);
    case EnterClose => UnlockedWithout(s, i);
    case CloseNext => RemoveFacts(s.subs, i, s.closing.value, t.subs[s.closing.value]);
    case Receive(j) => RemoveFacts(s.subs, i, j, t.subs[j]);
    case LeaveClose =>
    case Enter(p) => PubsWithout(s.pubs, p, t.pubs[p], i);
    case CountDrop(p) => PubsWithout(s.pubs, p, t.pubs[p], i);
    case Leave(p) => PubsWithout(s.pubs, p, t.pubs[p], i);
  }

  ghost function RunWithout(s: System, actions: seq<Action>, i: nat): seq<Action> {
    if actions == [] then []
    else
      var (rest, a) := (actions[..|actions| - 1], actions[|actions| - 1]);
      var before := Run(s, rest);
      if Enabled(before, a) then Mirrored(RunWithout(s, rest, i), WithoutAction(before, a, i)) else RunWithout(s, rest, i)
  }

  function Mirrored(actions: seq<Action>, b: Option<Action>): seq<Action> {
    if b.Some? then actions + [b.value] else actions
  }

  lemma RunMore(s: System, actions: seq<Action>, a: Action)
    ensures Run(s, actions + [a]) == var t := Run(s, actions); if Enabled(t, a) then Next(t, a) else t
  {
    assert (actions + [a])[..|actions|] == actions;
  }

  /** The counter is only ever added to. */
  lemma CounterIsNotRead(s: System, a: Action)
    requires Enabled(s.(dropCount := 0), a)
    ensures Enabled(s, a) && Next(s.(dropCount := 0), a).(dropCount := 0) == Next(s, a).(dropCount := 0)
  {
  }

  lemma MirrorOneMore(w: System, actions: seq<Action>, before: System, a: Action, i: nat)
    requires Locks(before) && i < |before.subs| && Enabled(before, a)
    requires Run(w, actions).(dropCount := 0) == Without(before, i)
    ensures i < |Next(before, a).subs|
    ensures Run(w, Mirrored(actions, WithoutAction(before, a, i))).(dropCount := 0) == Without(Next(before, a), i)
  {
    if WithoutAction(before, a, i).None? {
      SkippedStep(before, a, i);
    } else {
      var b := WithoutAction(before, a, i).value;
      MirroredStep(before, a, i);
      RunMore(w, actions, b);
      CounterIsNotRead(Run(w, actions), b);
    }
  }

  /** Whatever subscriber `i` does and however full it is, everything else on the bus goes as in a run of the
      same bus in which it was never there. */
  lemma {:induction false} OthersUnaffected(s: System, actions: seq<Action>, i: nat)
    requires Locks(s) && i < |s.subs|
    ensures var t := Run(s, actions);
      && Locks(t) && i < |t.subs|
      && Run(Without(s, i), RunWithout(s, actions, i)).(dropCount := 0) == Without(t, i)
  {
    if actions != [] {
      var (rest, a) := (actions[..|actions| - 1], actions[|actions| - 1]);
      var before := Run(s, rest);
      OthersUnaffected(s, rest, i);
      if Enabled(before, a) {
        LocksKept(before, a);
        MirrorOneMore(Without(s, i), RunWithout(s, rest, i), before, a, i);
      }
    }
  }

  // ---- An uninterrupted `Publish` is the broker's ----

  function Channels(s: System): seq<Bus.Contents<Event>> {
    seq(|s.subs|, i requires 0 <= i < |s.subs| => ChannelOf(s.subs[i]))
  }

  /** A subscriber's channel with no receiver waiting. */
  function ChannelOf(sub: Sub): Bus.Contents<Event> {
    Bus.Contents(sub.capacity, sub.buffer, sub.closed, 0, sub.received, |sub.dropped|)
  }

  /** The steps of one call up to subscriber `n`, without the entry. */
  function Calls(s: System, p: nat, n: nat): seq<Action>
    requires n <= |s.subs|
  {
    if n == 0 then []
    else Calls(s, p, n - 1) + [Send(p, false)] + if Drops(s.subs[n - 1], false) then [CountDrop(p)] else []
  }

  /** The state after turning to subscriber `k`. */
  function Turned(t: System, p: nat, k: nat, e: Event): System
    requires p < |t.pubs| && k < |t.subs|
  {
    t.(subs := t.subs[k := Offered(t.subs[k], e, false)], pubs := t.pubs[p := Sending(k + 1, e)],
       dropCount := t.dropCount + if Drops(t.subs[k], false) then 1 else 0)
  }

  lemma SendTurns(t: System, p: nat, k: nat, e: Event)
    requires p < |t.pubs| && t.pubs[p] == Sending(k, e) && k < |t.subs| && !t.subs[k].closed
    ensures var u := Next(t, Send(p, false));
      if Drops(t.subs[k], false) then Enabled(u, CountDrop(p)) && Next(u, CountDrop(p)) == Turned(t, p, k, e)
      else u == Turned(t, p, k, e)
  {
    assert t.pubs[p := Counting(k, e)][p := Sending(k + 1, e)] == t.pubs[p := Sending(k + 1, e)];
  }

  lemma OneChannel(before: seq<Action>, s: System, t: System, p: nat, k: nat, e: Event)
    requires Run(s, before) == t && p < |t.pubs| && t.pubs[p] == Sending(k, e) && k < |t.subs| && !t.subs[k].closed
    ensures Run(s, before + [Send(p, false)] + if Drops(t.subs[k], false) then [CountDrop(p)] else []) == Turned(t, p, k, e)
  {
    SendTurns(t, p, k, e);
    RunEnabled(s, before, t, Send(p, false));
    if Drops(t.subs[k], false) {
      RunEnabled(s, before + [Send(p, false)], Next(t, Send(p, false)), CountDrop(p));
    } else {
      assert before + [Send(p, false)] + [] == before + [Send(p, false)];
    }
  }

  lemma RunEnabled(s: System, actions: seq<Action>, t: System, a: Action)
    requires Run(s, actions) == t && Enabled(t, a)
    ensures Run(s, actions + [a]) == Next(t, a)
  {
    RunMore(s, actions, a);
  }

  lemma OfferedMore(cs: seq<Bus.Contents<Event>>, n: nat, e: Event)
    requires n < |cs|
    ensures (Bus.OfferAll(cs[..n], e) + cs[n..])[n := Bus.Offer(cs[n], e)] == Bus.OfferAll(cs[..n + 1], e) + cs[n + 1..]
  {
  }

  lemma ChannelsUpdate(s: System, k: nat, e: Event)
    requires k < |s.subs|
    ensures var sub := Offered(s.subs[k], e, false);
      Channels(s.(subs := s.subs[k := sub])) == Channels(s)[k := Bus.Offer(Channels(s)[k], e)]
  {
  }

  /** After turning to `n` subscribers. */
  ghost predicate CallReached(s: System, t: System, p: nat, e: Event, n: nat)
    requires p < |s.pubs| && n <= |s.subs|
  {
    && t == s.(subs := t.subs, pubs := s.pubs[p := Sending(n, e)], dropCount := t.dropCount)
    && |t.subs| == |s.subs| && t.subs[n..] == s.subs[n..]
    && Channels(t) == Bus.OfferAll(Channels(s)[..n], e) + Channels(s)[n..]
    && t.dropCount == s.dropCount + Bus.CountFull(Channels(s)[..n])
  }

  lemma CallOneMore(s: System, t: System, p: nat, e: Event, n: nat)
    requires p < |s.pubs| && n < |s.subs| && CallReached(s, t, p, e, n)
    ensures CallReached(s, Turned(t, p, n, e), p, e, n + 1)
  {
    assert t.subs[n] == t.subs[n..][0];
    ChannelsUpdate(t, n, e);
    OfferedMore(Channels(s), n, e);
    Bus.CountOneMore(Channels(s), n);
    var after := t.subs[n := Offered(t.subs[n], e, false)];
    assert after[n + 1..] == t.subs[n..][1..] == s.subs[n..][1..] == s.subs[n + 1..];
  }

  lemma {:induction false} CallProgress(s: System, p: nat, e: Event, n: nat)
    requires p < |s.pubs| && s.pubs[p] == Sending(0, e) && n <= |s.subs|
    requires forall i :: 0 <= i < |s.subs| ==> !s.subs[i].closed
    ensures CallReached(s, Run(s, Calls(s, p, n)), p, e, n)
  {
    if n > 0 {
      CallProgress(s, p, e, n - 1);
      var t := Run(s, Calls(s, p, n - 1));
      assert t.subs[n - 1] == t.subs[n - 1..][0] == s.subs[n - 1..][0] == s.subs[n - 1];
      OneChannel(Calls(s, p, n - 1), s, t, p, n - 1, e);
      CallOneMore(s, t, p, e, n - 1);
    } else {
      assert s.pubs[p := Sending(0, e)] == s.pubs;
    }
  }

  /** A call to `Publish` that nothing interleaves with leaves every channel, and the counter, as the
      broker's `Publish` does. */
  lemma UninterruptedPublish(s: System, p: nat)
    requires Locks(s) && Enabled(s, Enter(p)) && !s.closed
    ensures var t := Next(s, Enter(p));
      var u := Run(t, Calls(t, p, |t.subs|) + [Leave(p)]);
      && u.pubs == s.pubs
      && Channels(u) == Bus.OfferAll(Channels(s), Event(p, |s.published|))
      && u.dropCount == s.dropCount + Bus.CountFull(Channels(s))
  {
    var (t, e) := (Next(s, Enter(p)), Event(p, |s.published|));
    var n := |s.subs|;
    CallProgress(t, p, e, n);
    RunMore(t, Calls(t, p, n), Leave(p));
    assert Channels(s)[..n] == Channels(s) && Channels(t) == Channels(s) && Channels(s)[n..] == [];
  }

  // ---- An uninterrupted `Close` closes every channel and keeps what is in it ----

  function ClosedSubs(subs: seq<Sub>, n: nat): seq<Sub>
    requires n <= |subs|
  {
    seq(|subs|, i requires 0 <= i < |subs| => if i < n then subs[i].(closed := true) else subs[i])
  }

  /** The closer has dealt with `n` channels. */
  function ClosedUpTo(s: System, n: nat): System
    requires n <= |s.subs|
  {
    s.(subs := ClosedSubs(s.subs, n), closing := Some(n))
  }

  lemma ClosedNone(s: System)
    requires s.closing == Some(0)
    ensures ClosedUpTo(s, 0) == s
  {
    assert ClosedSubs(s.subs, 0) == s.subs;
  }

  lemma ClosesNext(s: System, n: nat)
    requires n < |s.subs| && !s.subs[n].closed
    ensures Enabled(ClosedUpTo(s, n), CloseNext) && Next(ClosedUpTo(s, n), CloseNext) == ClosedUpTo(s, n + 1)
  {
    assert ClosedSubs(s.subs, n)[n := s.subs[n].(closed := true)] == ClosedSubs(s.subs, n + 1);
  }

  lemma {:induction false} CloseProgress(s: System, n: nat) returns (actions: seq<Action>)
    requires s.closing == Some(0) && n <= |s.subs| && forall i :: 0 <= i < |s.subs| ==> !s.subs[i].closed
    ensures |actions| == n && forall k :: 0 <= k < n ==> actions[k] == CloseNext
    ensures Run(s, actions) == ClosedUpTo(s, n)
  {
    actions := [];
    if n == 0 {
      ClosedNone(s);
    } else {
      var before := CloseProgress(s, n - 1);
      CloseOneMore(s, before, n - 1);
      actions := before + [CloseNext];
    }
  }

  lemma CloseOneMore(s: System, actions: seq<Action>, n: nat)
    requires n < |s.subs| && !s.subs[n].closed && Run(s, actions) == ClosedUpTo(s, n)
    ensures Run(s, actions + [CloseNext]) == ClosedUpTo(s, n + 1)
  {
    ClosesNext(s, n);
    RunEnabled(s, actions, ClosedUpTo(s, n), CloseNext);
  }

  lemma UninterruptedClose(s: System) returns (actions: seq<Action>)
    requires Locks(s) && Enabled(s, EnterClose) && !s.closed
    ensures |actions| == |s.subs| + 1 && actions[|s.subs|] == LeaveClose
    ensures forall k :: 0 <= k < |s.subs| ==> actions[k] == CloseNext
    ensures var u := Run(Next(s, EnterClose), actions);
      && u == s.(subs := u.subs, closed := true) && |u.subs| == |s.subs|
      && forall i :: 0 <= i < |s.subs| ==> u.subs[i] == s.subs[i].(closed := true)
  {
    var t := Next(s, EnterClose);
    var closings := CloseProgress(t, |s.subs|);
    RunEnabled(t, closings, ClosedUpTo(t, |s.subs|), LeaveClose);
    actions := closings + [LeaveClose];
  }

  /** A consumer can take from any channel that holds something, and takes the first; a closed one too. */
  lemma ReceiveTakesFirst(s: System, i: nat)
    requires i < |s.subs|
    ensures Enabled(s, Receive(i)) <==> s.subs[i].buffer != []
    ensures s.subs[i].buffer != [] ==>
      var (before, after) := (s.subs[i], Next(s, Receive(i)).subs[i]);
      && [before.buffer[0]] + after.buffer == before.buffer && after.received == before.received + [before.buffer[0]]
      && after == before.(buffer := after.buffer, received := after.received)
  {
  }

  /** Publishers can enter an open bus whenever nobody closes it, in any number at once, and subscriptions and
      the close come in whenever nobody is inside. */
  lemma WhoMayEnter(s: System, p: nat, capacity: nat)
    requires p < |s.pubs| && s.closing == None
    ensures s.pubs[p] == Idle ==> Enabled(s, Enter(p))
    ensures s.pubs[p] == Idle && !s.closed ==> Next(s, Enter(p)).pubs[p] == Sending(0, Event(p, |s.published|))
    ensures (forall k :: 0 <= k < |s.pubs| ==> s.pubs[k] == Idle) ==> Enabled(s, Subscribe(capacity)) && Enabled(s, EnterClose)
    ensures (forall k :: 0 <= k < |s.pubs| ==> s.pubs[k] == Idle) && !s.closed ==>
      Next(s, Subscribe(capacity)).subs == s.subs + [Sub(capacity, [], false, [], [], |s.published|)]
  {
  }
}
