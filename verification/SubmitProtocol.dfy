/** Live submission across crashes and restarts: processes that come and go over one state file,
    each reserving an identity, sending it, and marking it, while an operator clears records.

    A step is one effect: a registry operation, one HTTP send, one reply. The process may die between
    any two steps, and during an operation: then the file is whatever that operation may leave. */
module SubmitProtocol {
  import opened Common
  import opened SubmitIdentities
  import opened RegistryLaws
  import opened HttpRetry

  datatype PC =
    | Ready
    | Reserved(id: Identity)
    | Sending(id: Identity, call: Call)
    | Awaiting(id: Identity, call: Call)
    | Acked(id: Identity)

  datatype Process = Down | Up(mem: Memory, pc: PC)

  /** What happened, as an observer of broker and operator would record it. */
  datatype Event =
    | Granted(id: Identity)
    | Sent(id: Identity, idempotencyKey: string)
    | Refreshed(id: Identity)
    | BrokerAcked(id: Identity)
    | Cleared(key: string)

  datatype System = System(disk: Disk, proc: Process, log: seq<Event>)

  datatype Action =
    | Boot
    | Die
    | Operate(op: Op, load: LoadFault, after: Store, allowed: bool, dies: bool)
    | BeginCall(uuid: string)
    | CallFails
    | Send
    | Receive(reply: Reply, decoded: bool)

  predicate MayOperate(pc: PC, op: Op) {
    match pc
    case Ready => !op.MarkOp?
    case Acked(id) => op.MarkOp? && op.id == id
    case _ => false
  }

  function AfterOperation(pc: PC, op: Op, allowed: bool): PC {
    if op.ReserveOp? && allowed then Reserved(op.id) else Ready
  }

  /** A grant counts once the process has it; a clear counts only when it took the record off the file,
      whether or not the save is reported to succeed. */
  ghost function OperationEvents(s: Store, op: Op, after: Store, allowed: bool, dies: bool): seq<Event> {
    if op.ReserveOp? && allowed && !dies then [Granted(op.id)]
    else if op.ClearOp? && TakesOff(s.disk, op.key, after.disk) then [Cleared(op.key)]
    else []
  }

  ghost predicate TakesOff(before: Disk, key: string, after: Disk) {
    View(before).Some? && key in View(before).value && View(after).Some? && key !in View(after).value
  }

  predicate Success(next: Next, decoded: bool) {
    next.Stop? && next.outcome.Returned? && next.outcome.code in {200, 201} && decoded
  }

  ghost predicate Step(w: System, a: Action, w': System) {
    match a
    case Boot => w.proc.Down? && w' == w.(proc := Up(Memory(map[], false, false), Ready))
    case Die => w.proc.Up? && w' == w.(proc := Down)
    case Operate(op, load, after, allowed, dies) =>
      && w.proc.Up? && MayOperate(w.proc.pc, op)
      && Performs(Store(w.proc.mem, w.disk), op, load, after, allowed)
      && w' == System(
        after.disk,
        if dies then Down else Up(after.mem, AfterOperation(w.proc.pc, op, allowed)),
        w.log + OperationEvents(Store(w.proc.mem, w.disk), op, after, allowed, dies))
    case BeginCall(uuid) =>
      && w.proc.Up? && w.proc.pc.Reserved?
      && var id := w.proc.pc.id;
      w' == w.(proc := w.proc.(pc := Sending(id, Call(0, false, if id.intentID == "" then uuid else id.intentID))))
    case CallFails => w.proc.Up? && w.proc.pc.Reserved? && w' == w.(proc := w.proc.(pc := Ready))
    case Send =>
      && w.proc.Up? && w.proc.pc.Sending?
      && var (id, call) := (w.proc.pc.id, w.proc.pc.call);
      w' == w.(proc := w.proc.(pc := Awaiting(id, call)), log := w.log + [Sent(id, call.key)])
    case Receive(reply, decoded) =>
      && w.proc.Up? && w.proc.pc.Awaiting?
      && var (id, call) := (w.proc.pc.id, w.proc.pc.call);
      var next := After(call, true, reply);
      w' == System(
        w.disk,
        w.proc.(pc := if next.Again? then Sending(id, next.call) else if Success(next, decoded) then Acked(id) else Ready),
        w.log + ReplyEvents(id, call, reply, decoded))
  }

  // ---- Reading a log ----

  /** The identities sent and, since their last send, neither acked by the broker nor cleared. */
  ghost function Unsettled(log: seq<Event>): set<Identity> {
    if log == [] then {} else Settle(Unsettled(log[..|log| - 1]), log[|log| - 1])
  }

  function Settle(before: set<Identity>, e: Event): set<Identity> {
    match e
    case Sent(id, _) => before + {id}
    case BrokerAcked(id) => before - {id}
    case Cleared(key) => set id | id in before && id.key != key
    case _ => before
  }

  ghost function LastGrant(log: seq<Event>): Option<Identity> {
    if log == [] then None
    else if log[|log| - 1].Granted? then Some(log[|log| - 1].id)
    else LastGrant(log[..|log| - 1])
  }

  /** Sends, and forced token refreshes, since the last grant. */
  ghost function Sends(log: seq<Event>): nat {
    if log == [] || log[|log| - 1].Granted? then 0
    else Sends(log[..|log| - 1]) + if log[|log| - 1].Sent? then 1 else 0
  }

  ghost function Refreshes(log: seq<Event>): nat {
    if log == [] || log[|log| - 1].Granted? then 0
    else Refreshes(log[..|log| - 1]) + if log[|log| - 1].Refreshed? then 1 else 0
  }

  /** A grant is given only while nothing unsettled has the same account and order; a send belongs to
      the last grant, carries its intent as idempotency key, and is at most its third. */
  ghost predicate Proper(before: seq<Event>, e: Event) {
    match e
    case Granted(id) => forall o :: o in Unsettled(before) ==> !SameOrder(o, id)
    case Sent(id, key) => LastGrant(before) == Some(id) && Sends(before) < MAX_ATTEMPTS && key == id.intentID
    case Refreshed(id) => LastGrant(before) == Some(id) && Refreshes(before) == 0
    case BrokerAcked(id) => LastGrant(before) == Some(id) && Sends(before) > 0
    case Cleared(_) => true
  }

  ghost predicate ProperLog(log: seq<Event>) {
    forall i :: 0 <= i < |log| ==> Proper(log[..i], log[i])
  }

  // ---- The invariant ----

  ghost predicate Holds(m: Records, id: Identity) {
    id.key in m && m[id.key].identity == id && m[id.key].state == InFlight
  }

  /** The file cannot be read, or has the identity in flight. */
  ghost predicate Covered(disk: Disk, id: Identity) {
    View(disk).Some? ==> Holds(View(disk).value, id)
  }

  /** The process holds the reservation of `id`, with `sends` sends made under it so far. */
  ghost predicate Holding(w: System, id: Identity, sends: nat, refreshed: bool) {
    && w.proc.Up? && w.proc.mem.loaded && !w.proc.mem.uncertain
    && Complete(id)
    && View(w.disk).Some? && Holds(View(w.disk).value, id)
    && LastGrant(w.log) == Some(id)
    && Sends(w.log) == sends
    && Refreshes(w.log) == (if refreshed then 1 else 0)
    && (forall o :: o in Unsettled(w.log) && SameOrder(o, id) ==> o == id)
  }

  ghost predicate PcOk(w: System) {
    w.proc.Up? ==>
      match w.proc.pc
      case Ready => true
      case Reserved(id) => Holding(w, id, 0, false)
      case Sending(id, call) => call.attempt < MAX_ATTEMPTS && call.key == id.intentID && Holding(w, id, call.attempt, call.refreshed)
      case Awaiting(id, call) => call.attempt < MAX_ATTEMPTS && call.key == id.intentID && Holding(w, id, call.attempt + 1, call.refreshed)
      case Acked(id) => id !in Unsettled(w.log) && Complete(id)
  }

  ghost predicate Inv(w: System) {
    && ProperLog(w.log)
    && (forall o :: o in Unsettled(w.log) ==> Covered(w.disk, o))
    && (w.proc.Up? ==> InSync(Store(w.proc.mem, w.disk)))
    && PcOk(w)
  }

  lemma LogPlus(log: seq<Event>, e: Event)
    ensures (log + [e])[..|log|] == log && (log + [e])[|log|] == e && |log + [e]| == |log| + 1
    ensures Unsettled(log + [e]) == Settle(Unsettled(log), e)
    ensures ProperLog(log) && Proper(log, e) ==> ProperLog(log + [e])
  {
    assert (log + [e])[..|log|] == log;
    forall i | 0 <= i < |log| ensures (log + [e])[..i] == log[..i] && (log + [e])[i] == log[i] {}
  }

  /** A registry operation keeps every unsettled identity covered, minus those it clears. */
  lemma OperationKeepsCover(w: System, op: Op, load: LoadFault, after: Store, allowed: bool, o: Identity)
    requires Inv(w) && w.proc.Up? && MayOperate(w.proc.pc, op)
    requires Performs(Store(w.proc.mem, w.disk), op, load, after, allowed)
    requires o in Unsettled(w.log)
    requires op.ClearOp? && TakesOff(w.disk, op.key, after.disk) ==> o.key != op.key
    ensures Covered(after.disk, o)
  {
    var s := Store(w.proc.mem, w.disk);
    OperationStep(s, op, load, after, allowed);
    if View(after.disk).Some? && after.disk != s.disk {
      LoadKeepsSync(s, load);
      ViewWellFormed(s.disk);
      assert Covered(w.disk, o);
    }
  }

  lemma ReserveFindsNone(w: System, id: Identity, now: int, load: LoadFault, after: Store)
    requires Inv(w) && w.proc.Up? && w.proc.pc.Ready?
    requires Performs(Store(w.proc.mem, w.disk), ReserveOp(id, now), load, after, true)
    ensures forall o :: o in Unsettled(w.log) ==> !SameOrder(o, id)
  {
    OperationStep(Store(w.proc.mem, w.disk), ReserveOp(id, now), load, after, true);
    var m := View(w.disk).value;
    forall o | o in Unsettled(w.log) ensures !SameOrder(o, id) {
      assert Covered(w.disk, o);
      assert o.key in m && m[o.key].identity == o;
    }
  }

  lemma OperateKeepsInv(w: System, op: Op, load: LoadFault, after: Store, allowed: bool, dies: bool, w': System)
    requires Inv(w) && Step(w, Operate(op, load, after, allowed, dies), w')
    ensures Inv(w')
  {
    var s := Store(w.proc.mem, w.disk);
    OperationStep(s, op, load, after, allowed);
    OperateKeepsLog(w, op, load, after, allowed, dies, w');
    forall o | o in Unsettled(w'.log) ensures Covered(w'.disk, o) {
      OperationKeepsCover(w, op, load, after, allowed, o);
    }
    if op.ReserveOp? && allowed {
      ReserveFindsNone(w, op.id, op.now, load, after);
    }
  }

  lemma OperateKeepsLog(w: System, op: Op, load: LoadFault, after: Store, allowed: bool, dies: bool, w': System)
    requires Inv(w) && Step(w, Operate(op, load, after, allowed, dies), w')
    ensures ProperLog(w'.log)
    ensures var events := OperationEvents(Store(w.proc.mem, w.disk), op, after, allowed, dies);
      Unsettled(w'.log) == if events == [] then Unsettled(w.log) else Settle(Unsettled(w.log), events[0])
    ensures op.ReserveOp? && allowed && !dies ==>
      LastGrant(w'.log) == Some(op.id) && Sends(w'.log) == 0 && Refreshes(w'.log) == 0
  {
    var events := OperationEvents(Store(w.proc.mem, w.disk), op, after, allowed, dies);
    if events != [] {
      if events[0].Granted? {
        ReserveFindsNone(w, op.id, op.now, load, after);
      }
      LogPlus(w.log, events[0]);
      assert w'.log == w.log + [events[0]];
    } else {
      assert w'.log == w.log;
    }
  }

  lemma SendKeepsInv(w: System, w': System)
    requires Inv(w) && Step(w, Send, w')
    ensures Inv(w')
  {
    LogPlus(w.log, Sent(w.proc.pc.id, w.proc.pc.call.key));
  }

  lemma ReceiveKeepsInv(w: System, reply: Reply, decoded: bool, w': System)
    requires Inv(w) && Step(w, Receive(reply, decoded), w')
    ensures Inv(w')
  {
    ReceiveKeepsLog(w, reply, decoded, w');
    forall o | o in Unsettled(w'.log) ensures Covered(w'.disk, o) {
      assert Covered(w.disk, o);
    }
  }

  lemma ReceiveKeepsLog(w: System, reply: Reply, decoded: bool, w': System)
    requires ProperLog(w.log) && PcOk(w) && Step(w, Receive(reply, decoded), w')
    ensures ProperLog(w'.log) && Unsettled(w'.log) <= Unsettled(w.log)
    ensures var (id, call) := (w.proc.pc.id, w.proc.pc.call);
      && LastGrant(w'.log) == LastGrant(w.log) && Sends(w'.log) == Sends(w.log)
      && Refreshes(w'.log) == Refreshes(w.log) + (if ForcesRefresh(call, true, reply) then 1 else 0)
      && (Success(After(call, true, reply), decoded) ==> id !in Unsettled(w'.log))
  {
    var (id, call) := (w.proc.pc.id, w.proc.pc.call);
    if ForcesRefresh(call, true, reply) {
      RefreshLogged(w.log, id);
      assert w'.log == w.log + [Refreshed(id)];
    } else if Success(After(call, true, reply), decoded) {
      AckLogged(w.log, id);
      assert w'.log == w.log + [BrokerAcked(id)];
    } else {
      assert w'.log == w.log;
    }
  }

  lemma RefreshLogged(log: seq<Event>, id: Identity)
    requires ProperLog(log) && LastGrant(log) == Some(id) && Refreshes(log) == 0
    ensures var log' := log + [Refreshed(id)];
      && ProperLog(log') && Unsettled(log') == Unsettled(log)
      && LastGrant(log') == LastGrant(log) && Sends(log') == Sends(log) && Refreshes(log') == 1
  {
    LogPlus(log, Refreshed(id));
  }

  lemma AckLogged(log: seq<Event>, id: Identity)
    requires ProperLog(log) && LastGrant(log) == Some(id) && Sends(log) > 0
    ensures var log' := log + [BrokerAcked(id)];
      && ProperLog(log') && Unsettled(log') == Unsettled(log) - {id}
      && LastGrant(log') == LastGrant(log) && Sends(log') == Sends(log) && Refreshes(log') == Refreshes(log)
  {
    LogPlus(log, BrokerAcked(id));
  }

  lemma StepKeepsInv(w: System, a: Action, w': System)
    requires Inv(w) && Step(w, a, w')
    ensures Inv(w')
  {
    match a
    case Operate(op, load, after, allowed, dies) => OperateKeepsInv(w, op, load, after, allowed, dies, w');
    case Send => SendKeepsInv(w, w');
    case Receive(reply, decoded) => ReceiveKeepsInv(w, reply, decoded, w');
    case _ =>
  }

  // ---- What the runs include ----

  /** A process can start whenever there is none, on whatever is on file, and die whenever there is one. */
  lemma ProcessesComeAndGo(w: System)
    ensures w.proc.Down? ==> Step(w, Boot, System(w.disk, Up(Memory(map[], false, false), Ready), w.log))
    ensures w.proc.Up? ==> Step(w, Die, System(w.disk, Down, w.log))
  {
  }

  /** It can die in any registry operation that it may be in, after any of its effects on the file. */
  lemma DiesInOperation(w: System, op: Op, load: LoadFault, after: Store, allowed: bool)
    requires w.proc.Up? && Performs(Store(w.proc.mem, w.disk), op, load, after, allowed)
    requires if op.MarkOp? then w.proc.pc == Acked(op.id) else w.proc.pc == Ready
    ensures exists w' :: Step(w, Operate(op, load, after, allowed, true), w') && w'.proc == Down && w'.disk == after.disk
  {
    var w' := System(after.disk, Down, w.log + OperationEvents(Store(w.proc.mem, w.disk), op, after, allowed, true));
    assert Step(w, Operate(op, load, after, allowed, true), w');
  }

  /** Among those effects, for an operation that reaches its save: the old file, an unreadable one, or the new. */
  lemma SavesTear(s: Store, op: Op, load: LoadFault, disk: Disk)
    requires match op
      case ReserveOp(id, _) => MayReserve(s, id, load)
      case MarkOp(id, _) => MayMark(s, id, load)
      case ClearOp(key) => MayClear(s, key, load)
      case InspectOp => false
    requires disk == s.disk || disk == Garbage || Writes(Effect(Load(s.mem, s.disk, load).0.records, op), disk)
    ensures exists mem :: Performs(s, op, load, Store(mem, disk), false)
  {
    var m := Load(s.mem, s.disk, load).0.records;
    match op
    case ReserveOp(id, now) =>
      assert Reserves(s, id, now, load, Store(Memory(m, true, true), disk), Denied(RestartUnknown, None));
      assert Performs(s, op, load, Store(Memory(m, true, true), disk), false);
    case MarkOp(id, now) =>
      assert Marks(s, id, now, load, Store(Memory(Effect(m, op), true, true), disk), Denied(RestartUnknown, Some(State.Submitted)));
      assert Performs(s, op, load, Store(Memory(Effect(m, op), true, true), disk), false);
    case ClearOp(key) =>
      assert Clears(s, key, load, Store(Memory(Effect(m, op), true, true), disk), Some(RestartUnknown));
      assert Performs(s, op, load, Store(Memory(Effect(m, op), true, true), disk), false);
    case InspectOp =>
  }

  /** Between a reservation and the ack every send can be answered by anything. */
  lemma AnyReplyCanCome(w: System, reply: Reply, decoded: bool)
    requires w.proc.Up?
    ensures w.proc.pc.Reserved? ==> exists w' :: Step(w, BeginCall(""), w')
    ensures w.proc.pc.Sending? ==> exists w' :: Step(w, Send, w')
    ensures w.proc.pc.Awaiting? ==> exists w' :: Step(w, Receive(reply, decoded), w')
  {
    if w.proc.pc.Reserved? {
      var id := w.proc.pc.id;
      assert Step(w, BeginCall(""), w.(proc := w.proc.(pc := Sending(id, Call(0, false, if id.intentID == "" then "" else id.intentID)))));
    } else if w.proc.pc.Sending? {
      var (id, call) := (w.proc.pc.id, w.proc.pc.call);
      assert Step(w, Send, w.(proc := w.proc.(pc := Awaiting(id, call)), log := w.log + [Sent(id, call.key)]));
    } else if w.proc.pc.Awaiting? {
      var (id, call) := (w.proc.pc.id, w.proc.pc.call);
      assert Step(w, Receive(reply, decoded), System(
        w.disk, w.proc.(pc := AfterReply(id, After(call, true, reply), decoded)), w.log + ReplyEvents(id, call, reply, decoded)));
    }
  }

  // ---- Runs ----

  ghost predicate Init(w: System) {
    w.proc.Down? && w.log == []
  }

  ghost predicate Path(run: seq<System>, actions: seq<Action>) {
    && |run| == |actions| + 1
    && (forall i :: 0 <= i < |actions| ==> Step(run[i], actions[i], run[i + 1]))
  }

  /** Any file content whatever, then any actions. */
  ghost predicate IsRun(run: seq<System>, actions: seq<Action>) {
    Path(run, actions) && Init(run[0])
  }

  lemma {:induction false} RunInv(run: seq<System>, actions: seq<Action>, i: nat)
    requires IsRun(run, actions) && i < |run|
    ensures Inv(run[i])
  {
    if i > 0 {
      RunInv(run, actions, i - 1);
      StepKeepsInv(run[i - 1], actions[i - 1], run[i]);
    }
  }

  /** In every run, a transmission neither acked nor cleared is still in flight on file, or the file
      cannot be read. */
  lemma UnsettledStaysOnFile(run: seq<System>, actions: seq<Action>, i: nat, id: Identity)
    requires IsRun(run, actions) && i < |run| && id in Unsettled(run[i].log)
    ensures Covered(run[i].disk, id)
  {
    RunInv(run, actions, i);
  }

  /** So a reservation for the same account and order is refused, whichever process asks. */
  lemma SecondReservationRefused(run: seq<System>, actions: seq<Action>, i: nat, o: Identity, id: Identity, now: int, load: LoadFault, after: Store, allowed: bool)
    requires IsRun(run, actions) && i < |run| && o in Unsettled(run[i].log) && SameOrder(o, id)
    requires run[i].proc.Up? && run[i].proc.pc.Ready?
    requires Performs(Store(run[i].proc.mem, run[i].disk), ReserveOp(id, now), load, after, allowed)
    ensures !allowed
  {
    RunInv(run, actions, i);
    if allowed {
      ReserveFindsNone(run[i], id, now, load, after);
      assert false;
    }
  }

  lemma {:induction false} SentStaysUnsettled(log: seq<Event>, i: nat, id: Identity)
    requires i < |log| && log[i].Sent? && log[i].id == id
    requires forall k :: i < k < |log| ==> log[k] != BrokerAcked(id) && log[k] != Cleared(id.key)
    ensures id in Unsettled(log)
  {
    var n := |log| - 1;
    if i < n {
      SentStaysUnsettled(log[..n], i, id);
    }
  }

  /** Between a send and any later grant for the same account and order lies the broker's ack of what
      was sent, or the operator's clear of it. */
  lemma NoSecondTransmission(run: seq<System>, actions: seq<Action>, t: nat, i: nat, r: nat)
    requires IsRun(run, actions) && t < |run|
    requires i < r < |run[t].log| && run[t].log[i].Sent? && run[t].log[r].Granted?
    requires SameOrder(run[t].log[i].id, run[t].log[r].id)
    ensures exists k :: i < k < r && (run[t].log[k] == BrokerAcked(run[t].log[i].id) || run[t].log[k] == Cleared(run[t].log[i].id.key))
  {
    RunInv(run, actions, t);
    var log, id := run[t].log, run[t].log[i].id;
    assert Proper(log[..r], log[r]);
    assert forall k :: i < k < r ==> log[..r][k] == log[k];
    if forall k :: i < k < r ==> log[k] != BrokerAcked(id) && log[k] != Cleared(id.key) {
      SentStaysUnsettled(log[..r], i, id);
    }
  }

  /** At every HTTP send the file has, in flight, exactly the identity of the order sent, and the send
      carries its intent as idempotency key. */
  lemma EverySendIsReserved(run: seq<System>, actions: seq<Action>, i: nat)
    requires IsRun(run, actions) && i < |actions| && actions[i].Send?
    ensures run[i].proc.Up? && run[i].proc.pc.Sending?
    ensures var pc := run[i].proc.pc;
      && View(run[i].disk).Some? && Holds(View(run[i].disk).value, pc.id)
      && run[i + 1].disk == run[i].disk
      && run[i + 1].log == run[i].log + [Sent(pc.id, pc.id.intentID)]
      && LastGrant(run[i].log) == Some(pc.id)
  {
    assert Step(run[i], actions[i], run[i + 1]);
    RunInv(run, actions, i);
  }

  ghost function Count(log: seq<Event>, lo: nat, hi: nat, sends: bool): nat
    requires lo <= hi <= |log|
    decreases hi
  {
    if lo == hi then 0
    else Count(log, lo, hi - 1, sends) + if (if sends then log[hi - 1].Sent? else log[hi - 1].Refreshed?) then 1 else 0
  }

  lemma {:induction false} CountSinceGrant(log: seq<Event>, g: nat, hi: nat)
    requires g < hi <= |log| && log[g].Granted? && forall k :: g < k < hi ==> !log[k].Granted?
    ensures Count(log, g + 1, hi, true) == Sends(log[..hi]) && Count(log, g + 1, hi, false) == Refreshes(log[..hi])
    ensures LastGrant(log[..hi]) == Some(log[g].id)
    decreases hi
  {
    assert log[..hi][..hi - 1] == log[..hi - 1];
    if g + 1 < hi {
      CountSinceGrant(log, g, hi - 1);
    }
  }

  /** One grant causes at most three sends and at most one forced token refresh, and every send until
      the next grant is of the granted identity. */
  lemma GrantBoundsSends(run: seq<System>, actions: seq<Action>, t: nat, g: nat, hi: nat)
    requires IsRun(run, actions) && t < |run|
    requires g < hi <= |run[t].log| && run[t].log[g].Granted? && forall k :: g < k < hi ==> !run[t].log[k].Granted?
    ensures Count(run[t].log, g + 1, hi, true) <= MAX_ATTEMPTS
    ensures Count(run[t].log, g + 1, hi, false) <= 1
    ensures forall k :: g < k < hi && run[t].log[k].Sent? ==> run[t].log[k] == Sent(run[t].log[g].id, run[t].log[g].id.intentID)
  {
    RunInv(run, actions, t);
    var log := run[t].log;
    BoundedBySends(log, hi);
    CountSinceGrant(log, g, hi);
    forall k | g < k < hi && log[k].Sent? ensures log[k] == Sent(log[g].id, log[g].id.intentID) {
      CountSinceGrant(log, g, k);
      assert Proper(log[..k], log[k]);
    }
  }

  lemma {:induction false} BoundedBySends(log: seq<Event>, hi: nat)
    requires ProperLog(log) && hi <= |log|
    ensures Sends(log[..hi]) <= MAX_ATTEMPTS && Refreshes(log[..hi]) <= 1
  {
    if hi > 0 {
      BoundedBySends(log, hi - 1);
      assert log[..hi][..hi - 1] == log[..hi - 1];
      assert Proper(log[..hi - 1], log[hi - 1]);
    }
  }

  // ---- Composing paths: how a command's own execution is a piece of a run ----

  ghost function Last(run: seq<System>): System
    requires run != []
  {
    run[|run| - 1]
  }

  /** What went over the wire: the sends of a log, in order. */
  ghost function Wire(log: seq<Event>): seq<Event> {
    if log == [] then []
    else Wire(log[..|log| - 1]) + if log[|log| - 1].Sent? then [log[|log| - 1]] else []
  }

  lemma {:induction false} WirePlus(log: seq<Event>, more: seq<Event>)
    ensures Wire(log + more) == Wire(log) + Wire(more)
  {
    if more == [] {
      assert log + more == log;
    } else {
      WirePlus(log, more[..|more| - 1]);
      assert (log + more)[..|log + more| - 1] == log + more[..|more| - 1];
    }
  }

  /** One more action at the end of a path. */
  lemma Extend(run: seq<System>, actions: seq<Action>, a: Action, w: System)
    requires Path(run, actions) && Step(Last(run), a, w)
    ensures Path(run + [w], actions + [a]) && Last(run + [w]) == w && (run + [w])[0] == run[0]
    ensures actions <= actions + [a]
  {
    forall i | 0 <= i < |actions + [a]| ensures Step((run + [w])[i], (actions + [a])[i], (run + [w])[i + 1]) {
      if i < |actions| {
        assert Step(run[i], actions[i], run[i + 1]);
      }
    }
  }

  /** A run that reaches the start of a path goes on along it. */
  lemma RunThenPath(run: seq<System>, actions: seq<Action>, more: seq<System>, moreActions: seq<Action>)
    requires IsRun(run, actions) && Path(more, moreActions) && Last(run) == more[0]
    ensures IsRun(run + more[1..], actions + moreActions)
  {
    var whole, all := run + more[1..], actions + moreActions;
    forall i | 0 <= i < |all| ensures Step(whole[i], all[i], whole[i + 1]) {
      if i < |actions| {
        assert Step(run[i], actions[i], run[i + 1]);
      } else {
        var j := i - |actions|;
        assert Step(more[j], moreActions[j], more[j + 1]);
        assert whole[i] == more[j] && whole[i + 1] == more[j + 1];
      }
    }
  }

  function AfterCall(id: Identity, outcome: Outcome, decoded: bool): PC {
    if Success(Stop(outcome), decoded) then Acked(id) else Ready
  }

  /** The attempts of one HTTP call, from attempt `i` to its last, are a path of sends and replies, every
      send of the same identity under the same key. */
  lemma {:induction false} CallIsPath(run: seq<System>, actions: seq<Action>, replies: nat -> Reply, decoded: bool, i: nat, n: nat)
    returns (run': seq<System>, actions': seq<Action>)
    requires Path(run, actions) && Attempts(true, replies, n) && i < n
    requires Last(run).proc.Up? && Last(run).proc.pc.Sending?
    requires Last(run).proc.pc.call.attempt == i && Last(run).proc.pc.call.refreshed == Seen401(replies, i)
    ensures Path(run', actions') && run'[0] == run[0] && actions <= actions'
    ensures Last(run').disk == Last(run).disk
    ensures var (id, key) := (Last(run).proc.pc.id, Last(run).proc.pc.call.key);
      && Wire(Last(run').log) == Wire(Last(run).log) + seq(n - i, _ => Sent(id, key))
      && Last(run').proc == Up(Last(run).proc.mem, AfterCall(id, Verdict(true, replies, n - 1), decoded))
    decreases n - i
  {
    var (id, key) := (Last(run).proc.pc.id, Last(run).proc.pc.call.key);
    AttemptGoesOn(replies, n, key, i);
    run', actions' := AttemptIsPath(run, actions, replies(i), decoded);
    if i + 1 < n {
      run', actions' := CallIsPath(run', actions', replies, decoded, i + 1, n);
      assert [Sent(id, key)] + seq(n - (i + 1), _ => Sent(id, key)) == seq(n - i, _ => Sent(id, key));
    } else {
      assert [Sent(id, key)] == seq(n - i, _ => Sent(id, key));
    }
  }

  function AfterReply(id: Identity, next: Next, decoded: bool): PC {
    if next.Again? then Sending(id, next.call) else AfterCall(id, next.outcome, decoded)
  }

  lemma AttemptGoesOn(replies: nat -> Reply, n: nat, key: string, i: nat)
    requires Attempts(true, replies, n) && i < n
    ensures After(Call(i, Seen401(replies, i), key), true, replies(i))
      == if i + 1 < n then Again(Call(i + 1, Seen401(replies, i + 1), key)) else Stop(Verdict(true, replies, n - 1))
  {
    StepsAreTheLoop(true, replies, key, i);
    assert i < n - 1 ==> Retryable(true, replies, i);
  }

  /** One send and its reply. */
  lemma AttemptIsPath(run: seq<System>, actions: seq<Action>, reply: Reply, decoded: bool)
    returns (run': seq<System>, actions': seq<Action>)
    requires Path(run, actions) && Last(run).proc.Up? && Last(run).proc.pc.Sending?
    ensures Path(run', actions') && run'[0] == run[0] && actions <= actions'
    ensures Last(run').disk == Last(run).disk
    ensures var (id, call) := (Last(run).proc.pc.id, Last(run).proc.pc.call);
      && Wire(Last(run').log) == Wire(Last(run).log) + [Sent(id, call.key)]
      && Last(run').proc == Up(Last(run).proc.mem, AfterReply(id, After(call, true, reply), decoded))
  {
    var w := Last(run);
    var (id, call) := (w.proc.pc.id, w.proc.pc.call);
    var sent := w.(proc := w.proc.(pc := Awaiting(id, call)), log := w.log + [Sent(id, call.key)]);
    Extend(run, actions, Send, sent);
    var next := After(call, true, reply);
    var got := System(sent.disk, Up(w.proc.mem, AfterReply(id, next, decoded)), sent.log + ReplyEvents(id, call, reply, decoded));
    WireOfAttempt(w.log, id, call, reply, decoded);
    Extend(run + [sent], actions + [Send], Receive(reply, decoded), got);
    run', actions' := run + [sent] + [got], actions + [Send] + [Receive(reply, decoded)];
  }

  ghost function ReplyEvents(id: Identity, call: Call, reply: Reply, decoded: bool): seq<Event> {
    (if ForcesRefresh(call, true, reply) then [Refreshed(id)] else [])
    + (if Success(After(call, true, reply), decoded) then [BrokerAcked(id)] else [])
  }

  lemma WireOfAttempt(log: seq<Event>, id: Identity, call: Call, reply: Reply, decoded: bool)
    ensures Wire(log + [Sent(id, call.key)] + ReplyEvents(id, call, reply, decoded)) == Wire(log) + [Sent(id, call.key)]
  {
    WireOfOne(log, Sent(id, call.key));
    var events := ReplyEvents(id, call, reply, decoded);
    NothingSent(events);
    WirePlus(log + [Sent(id, call.key)], events);
  }

  lemma WireOfOne(log: seq<Event>, e: Event)
    ensures Wire(log + [e]) == Wire(log) + if e.Sent? then [e] else []
  {
    assert (log + [e])[..|log|] == log;
  }

  lemma {:induction false} NothingSent(events: seq<Event>)
    requires forall i :: 0 <= i < |events| ==> !events[i].Sent?
    ensures Wire(events) == []
  {
    if events != [] {
      NothingSent(events[..|events| - 1]);
    }
  }

  /** A path only adds to the log. */
  lemma {:induction false} LogGrows(run: seq<System>, actions: seq<Action>, i: nat, j: nat)
    requires Path(run, actions) && i <= j < |run|
    ensures run[i].log <= run[j].log
  {
    if i < j {
      LogGrows(run, actions, i, j - 1);
      assert Step(run[j - 1], actions[j - 1], run[j]);
    }
  }
}
