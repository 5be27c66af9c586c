/** What the protocol's theorems say of the command itself: of the HTTP requests an invocation makes, and of
    two invocations for the same account and order. */
module SubmitRuns {
  import opened Common
  import opened SubmitIdentities
  import opened RegistryLaws
  import opened SubmitProtocol
  import opened SubmitCommand

  /** The run so far ends where this path begins. */
  ghost predicate Continues(past: seq<System>, pastActions: seq<Action>, run: seq<System>) {
    IsRun(past, pastActions) && run != [] && Last(past) == run[0]
  }

  lemma Whole(past: seq<System>, pastActions: seq<Action>, run: seq<System>, actions: seq<Action>)
    returns (whole: seq<System>, all: seq<Action>)
    requires Continues(past, pastActions, run) && Path(run, actions)
    ensures IsRun(whole, all) && Last(whole) == Last(run)
    ensures |all| == |pastActions| + |actions|
    ensures forall j :: 0 <= j < |actions| ==> all[|pastActions| + j] == actions[j]
    ensures forall j :: 0 <= j < |run| ==> whole[|pastActions| + j] == run[j]
  {
    RunThenPath(past, pastActions, run, actions);
    whole, all := past + run[1..], pastActions + actions;
    forall j | 0 <= j < |run| ensures whole[|pastActions| + j] == run[j] {
      assert j > 0 ==> whole[|pastActions| + j] == run[1..][j - 1];
    }
  }

  lemma WireStep(w: System, a: Action, w': System)
    requires Step(w, a, w')
    ensures |Wire(w'.log)| == |Wire(w.log)| + if a.Send? then 1 else 0
    ensures Wire(w.log) <= Wire(w'.log)
  {
    var more := StepEvents(w, a, w');
    WirePlus(w.log, more);
    if a.Send? {
      assert more[..0] == [];
    } else {
      NothingSent(more);
    }
  }

  lemma StepEvents(w: System, a: Action, w': System) returns (more: seq<Event>)
    requires Step(w, a, w')
    ensures w'.log == w.log + more
    ensures if a.Send? then |more| == 1 && more[0].Sent? else forall i :: 0 <= i < |more| ==> !more[i].Sent?
  {
    match a
    case Operate(op, _, after, allowed, dies) => more := OperationEvents(Store(w.proc.mem, w.disk), op, after, allowed, dies);
    case Send => more := [Sent(w.proc.pc.id, w.proc.pc.call.key)];
    case Receive(reply, decoded) => more := ReplyEvents(w.proc.pc.id, w.proc.pc.call, reply, decoded);
    case _ => more := [];
  }

  lemma {:induction false} WireGrows(run: seq<System>, actions: seq<Action>, i: nat, j: nat)
    requires Path(run, actions) && i <= j < |run|
    ensures Wire(run[i].log) <= Wire(run[j].log)
  {
    if i < j {
      WireGrows(run, actions, i, j - 1);
      WireStep(run[j - 1], actions[j - 1], run[j]);
    }
  }

  /** Every entry on the wire was put there by a send step. */
  lemma {:induction false} WireComesFromSends(run: seq<System>, actions: seq<Action>, n: nat, k: nat) returns (j: nat)
    requires Path(run, actions) && n < |run| && |Wire(run[0].log)| <= k < |Wire(run[n].log)|
    ensures j < n && actions[j].Send? && |Wire(run[j].log)| == k
    decreases n
  {
    WireStep(run[n - 1], actions[n - 1], run[n]);
    if k < |Wire(run[n - 1].log)| {
      j := WireComesFromSends(run, actions, n - 1, k);
    } else {
      j := n - 1;
    }
  }

  /** In every run, at the moment of each HTTP request the command makes, the file holds, in flight, a record
      with the request's account, the hash of its body, and its idempotency key as intent. */
  lemma EveryTransmissionIsReserved(past: seq<System>, pastActions: seq<Action>, s: Scene, run: seq<System>, actions: seq<Action>,
                                    sent: seq<Transmission>, k: nat) returns (j: nat, id: Identity)
    requires Invocation(s, run, actions, sent) && Continues(past, pastActions, run) && k < |sent|
    ensures j < |actions| && actions[j].Send? && |Wire(run[j].log)| == |Wire(run[0].log)| + k
    ensures View(run[j].disk).Some? && Holds(View(run[j].disk).value, id)
    ensures sent[k] == Transmission(id.accountID, s.order.value, id.intentID) && id.orderHash == s.digest(sent[k].body)
  {
    var n := |Wire(run[0].log)|;
    id := IdentityOf(s);
    j := WireComesFromSends(run, actions, |run| - 1, n + k);
    var e := SendIsReserved(past, pastActions, run, actions, j);
    WireGrows(run, actions, j + 1, |run| - 1);
    PlaceOnWire(Wire(run[0].log), SendsOf(id, sent), Wire(run[j].log), e, Wire(Last(run).log), k);
  }

  lemma PlaceOnWire(before: seq<Event>, sends: seq<Event>, soFar: seq<Event>, e: Event, wire: seq<Event>, k: nat)
    requires wire == before + sends && soFar + [e] <= wire && |soFar| == |before| + k && k < |sends|
    ensures e == sends[k]
  {
    assert wire[|soFar|] == (soFar + [e])[|soFar|];
  }

  /** A send step along a path puts on the wire an identity that the file holds in flight. */
  lemma SendIsReserved(past: seq<System>, pastActions: seq<Action>, run: seq<System>, actions: seq<Action>, j: nat) returns (e: Event)
    requires Continues(past, pastActions, run) && Path(run, actions) && j < |actions| && actions[j].Send?
    ensures e.Sent? && Wire(run[j + 1].log) == Wire(run[j].log) + [e]
    ensures View(run[j].disk).Some? && Holds(View(run[j].disk).value, e.id)
  {
    var whole, all := Whole(past, pastActions, run, actions);
    var m := |pastActions| + j;
    assert all[m] == actions[j] && whole[m] == run[j] && whole[m + 1] == run[j + 1];
    EverySendIsReserved(whole, all, m);
    e := Sent(run[j].proc.pc.id, run[j].proc.pc.id.intentID);
    WirePlus(run[j].log, [e]);
    assert [e][..0] == [];
  }

  /** When the command reports success, the file has its record as submitted. */
  lemma SuccessIsOnFile(past: seq<System>, pastActions: seq<Action>, s: Scene, run: seq<System>, actions: seq<Action>)
    requires Continues(past, pastActions, run) && Path(run, actions)
    requires s.order.Some? && EndsInMark(IdentityOf(s), s.markedAt, actions, true)
    ensures var (view, id) := (View(Last(run).disk), IdentityOf(s));
      view.Some? && id.key in view.value && view.value[id.key].identity == id && view.value[id.key].state == State.Submitted
      && view.value[id.key].updatedAt == s.markedAt
  {
    var whole, all := Whole(past, pastActions, run, actions);
    var (n, m) := (|actions| - 1, |pastActions| + |actions| - 1);
    RunInv(whole, all, m);
    var (a, w) := (actions[n], run[n]);
    assert all[m] == a && whole[m] == w && Step(run[n], actions[n], run[n + 1]);
    OperationStep(Store(w.proc.mem, w.disk), a.op, a.load, a.after, true);
  }

  lemma {:induction false} WireNotEmpty(log: seq<Event>) returns (i: nat)
    requires Wire(log) != []
    ensures i < |log| && log[i] == Wire(log)[0] && log[i].Sent?
  {
    var init := log[..|log| - 1];
    if Wire(init) != [] {
      i := WireNotEmpty(init);
    } else {
      i := |log| - 1;
    }
  }

  /** Where an invocation's first request is in the log. */
  lemma FirstSend(s: Scene, run: seq<System>, actions: seq<Action>, sent: seq<Transmission>) returns (i: nat)
    requires Invocation(s, run, actions, sent) && sent != []
    ensures |run[0].log| <= i < |Last(run).log| && Last(run).log[i] == Sent(IdentityOf(s), s.uuid)
  {
    LogGrows(run, actions, 0, |run| - 1);
    i := FirstNewSend(run[0].log, Last(run).log, SendsOf(IdentityOf(s), sent));
  }

  lemma FirstNewSend(before: seq<Event>, log: seq<Event>, sends: seq<Event>) returns (i: nat)
    requires before <= log && Wire(log) == Wire(before) + sends && sends != []
    ensures |before| <= i < |log| && log[i] == sends[0]
  {
    var more := log[|before|..];
    assert log == before + more;
    WirePlus(before, more);
    assert Wire(more) == Wire(log)[|Wire(before)|..] == sends;
    var k := WireNotEmpty(more);
    i := |before| + k;
  }

  /** Where an invocation that makes requests was granted its reservation. */
  lemma FirstGrant(s: Scene, run: seq<System>, actions: seq<Action>, sent: seq<Transmission>)
    requires Invocation(s, run, actions, sent) && sent != []
    ensures |run[0].log| < |Last(run).log| && Last(run).log[|run[0].log|] == Granted(IdentityOf(s))
  {
    assert Step(run[0], actions[0], run[1]);
    assert run[1].log == run[0].log + [Granted(IdentityOf(s))];
    LogGrows(run, actions, 1, |run| - 1);
  }

  /** Two invocations in one run, with anything between them: when both make HTTP requests for the same account
      and order, the broker acked the first one's order, or the operator cleared its record off the file,
      before the second began. */
  lemma SecondSubmitNeedsSettling(
      past: seq<System>, pastActions: seq<Action>,
      s1: Scene, run1: seq<System>, actions1: seq<Action>, sent1: seq<Transmission>,
      between: seq<System>, betweenActions: seq<Action>,
      s2: Scene, run2: seq<System>, actions2: seq<Action>, sent2: seq<Transmission>)
    requires Continues(past, pastActions, run1) && Invocation(s1, run1, actions1, sent1) && sent1 != []
    requires Path(between, betweenActions) && between[0] == Last(run1)
    requires Invocation(s2, run2, actions2, sent2) && run2[0] == Last(between) && sent2 != []
    requires s1.accountID == s2.accountID && OrderHash(s1) == OrderHash(s2)
    ensures |run2[0].log| <= |Last(run2).log|
    ensures exists k :: |run1[0].log| < k < |run2[0].log| && (Last(run2).log[k] == BrokerAcked(IdentityOf(s1)) || Last(run2).log[k] == Cleared(IdentityOf(s1).key))
  {
    var i := FirstSend(s1, run1, actions1, sent1);
    FirstGrant(s2, run2, actions2, sent2);
    LogGrows(between, betweenActions, 0, |between| - 1);
    LogGrows(run2, actions2, 0, |run2| - 1);
    var a, aActs := Whole(past, pastActions, run1, actions1);
    var b, bActs := Whole(a, aActs, between, betweenActions);
    var c, cActs := Whole(b, bActs, run2, actions2);
    var r := |run2[0].log|;
    assert i < r && Last(c).log[i] == Last(run1).log[i];
    NoSecondTransmission(c, cActs, |c| - 1, i, r);
  }
}
