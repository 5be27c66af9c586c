/** What every registry operation keeps, under any load and save fault: memory and file agree, the
    file only ever moves by one enabled effect, records only advance, uncertainty is final. */
module RegistryLaws {
  import opened Common
  import opened SubmitIdentities

  datatype Op = ReserveOp(id: Identity, now: int) | MarkOp(id: Identity, now: int) | ClearOp(key: string) | InspectOp

  /** One operation, whatever it answers; `allowed` when it reports success. */
  ghost predicate Performs(s: Store, op: Op, load: LoadFault, s': Store, allowed: bool) {
    match op
    case ReserveOp(id, now) => exists result :: Reserves(s, id, now, load, s', result) && allowed == result.Allowed?
    case MarkOp(id, now) => exists result :: Marks(s, id, now, load, s', result) && allowed == result.Allowed?
    case ClearOp(key) => exists result :: Clears(s, key, load, s', result) && allowed == result.None?
    case InspectOp => s' == Store(Load(s.mem, s.disk, load).0, s.disk) && allowed == Usable(s.mem, s.disk, load)
  }

  /** A process that has not loaded is empty; one that is certain agrees with the file. */
  ghost predicate InSync(s: Store) {
    && (!s.mem.loaded ==> s.mem == Memory(map[], false, false))
    && (s.mem.loaded && !s.mem.uncertain ==> View(s.disk) == Some(s.mem.records))
  }

  /** The effect of an operation on the records, and when the registry will write it. */
  function Effect(m: Records, op: Op): Records {
    match op
    case ReserveOp(id, now) => m[id.key := Record(id, InFlight, now, now, "")]
    case MarkOp(id, now) => if id.key in m then m[id.key := m[id.key].(state := Submitted, updatedAt := now)] else m
    case ClearOp(key) => m - {key}
    case InspectOp => m
  }

  ghost predicate Enabled(m: Records, op: Op) {
    match op
    case ReserveOp(id, _) => Complete(id) && id.key !in m && !Blocks(m, id)
    case MarkOp(id, _) => id.key in m && m[id.key].identity == id
    case ClearOp(key) => key in m
    case InspectOp => false
  }

  ghost predicate OneInFlight(m: Records) {
    forall j, k :: j in m && k in m && m[j].state == InFlight && m[k].state == InFlight && SameOrder(m[j].identity, m[k].identity) ==> j == k
  }

  lemma EffectWellFormed(m: Records, op: Op)
    requires WellFormed(m) && Enabled(m, op)
    ensures WellFormed(Effect(m, op))
  {
  }

  lemma LoadKeepsSync(s: Store, load: LoadFault)
    requires InSync(s)
    ensures InSync(Store(Load(s.mem, s.disk, load).0, s.disk))
    ensures Usable(s.mem, s.disk, load) ==> View(s.disk) == Some(Load(s.mem, s.disk, load).0.records)
  {
    if !s.mem.loaded {
      FreshLoadIsView(s.disk, load);
    }
  }

  lemma SavedView(before: Disk, m: Records, ok: bool, after: Disk)
    requires WellFormed(m) && SaveLeaves(before, m, ok, after)
    ensures after == before || after == Garbage || View(after) == Some(m)
    ensures ok ==> View(after) == Some(m)
  {
    if Writes(m, after) {
      SaveThenLoad(m, after);
    }
  }

  /** Every operation keeps memory and file in agreement, and leaves the file as it was, unreadable,
      or changed by exactly its enabled effect. An allowed operation leaves the effect. */
  lemma OperationStep(s: Store, op: Op, load: LoadFault, s': Store, allowed: bool)
    requires InSync(s) && Performs(s, op, load, s', allowed)
    ensures InSync(s')
    ensures
      || s'.disk == s.disk
      || s'.disk == Garbage
      || (View(s.disk).Some? && Enabled(View(s.disk).value, op) && View(s'.disk) == Some(Effect(View(s.disk).value, op)))
    ensures allowed ==> s'.mem.loaded && !s'.mem.uncertain && View(s.disk).Some?
    ensures allowed && op != InspectOp ==>
      Enabled(View(s.disk).value, op) && View(s'.disk) == Some(Effect(View(s.disk).value, op))
  {
    LoadKeepsSync(s, load);
    if Usable(s.mem, s.disk, load) {
      var m := Load(s.mem, s.disk, load).0.records;
      ViewWellFormed(s.disk);
      if Enabled(m, op) {
        EffectWellFormed(m, op);
        SavedView(s.disk, Effect(m, op), allowed, s'.disk);
      }
    }
  }

  /** A granted reservation puts one record on file, in flight, dated now, and leaves all others. */
  lemma GrantedRecord(s: Store, id: Identity, now: int, load: LoadFault, s': Store)
    requires InSync(s) && Performs(s, ReserveOp(id, now), load, s', true)
    ensures View(s.disk).Some? && View(s'.disk).Some? && id.key !in View(s.disk).value
    ensures forall k :: k in View(s'.disk).value <==> k in View(s.disk).value || k == id.key
    ensures forall k :: k in View(s.disk).value ==> View(s'.disk).value[k] == View(s.disk).value[k]
    ensures View(s'.disk).value[id.key] == Record(id, InFlight, now, now, "")
  {
    OperationStep(s, ReserveOp(id, now), load, s', true);
  }

  /** A mark makes the one record submitted and updated now, and changes nothing else of it or of any other. */
  lemma MarkedRecord(s: Store, id: Identity, now: int, load: LoadFault, s': Store)
    requires InSync(s) && Performs(s, MarkOp(id, now), load, s', true)
    ensures View(s.disk).Some? && View(s'.disk).Some? && id.key in View(s.disk).value
    ensures forall k :: k in View(s'.disk).value <==> k in View(s.disk).value
    ensures forall k :: k in View(s.disk).value && k != id.key ==> View(s'.disk).value[k] == View(s.disk).value[k]
    ensures var (r, r') := (View(s.disk).value[id.key], View(s'.disk).value[id.key]);
      r.identity == id && r' == Record(id, Submitted, r.createdAt, now, r.denyReason)
  {
    OperationStep(s, MarkOp(id, now), load, s', true);
  }

  /** A clear takes the one record off the file and leaves all others. */
  lemma ClearedRecord(s: Store, key: string, load: LoadFault, s': Store)
    requires InSync(s) && Performs(s, ClearOp(key), load, s', true)
    ensures View(s.disk).Some? && View(s'.disk).Some? && key in View(s.disk).value
    ensures forall k :: k in View(s'.disk).value <==> k in View(s.disk).value && k != key
    ensures forall k :: k in View(s'.disk).value ==> View(s'.disk).value[k] == View(s.disk).value[k]
  {
    OperationStep(s, ClearOp(key), load, s', true);
  }

  /** Once uncertain, a process is refused everything and changes neither memory nor file. */
  lemma UncertainIsFinal(s: Store, op: Op, load: LoadFault, s': Store, allowed: bool)
    requires s.mem.loaded && s.mem.uncertain && Performs(s, op, load, s', allowed)
    ensures s' == s && !allowed
  {
  }

  /** Any failed load or save makes the process uncertain. */
  lemma RefusedLoadIsUncertain(s: Store, load: LoadFault)
    requires InSync(s) && !Usable(s.mem, s.disk, load)
    ensures Load(s.mem, s.disk, load).0.loaded && Load(s.mem, s.disk, load).0.uncertain
  {
    if !s.mem.loaded {
      FreshLoadIsView(s.disk, load);
    }
  }

  /** At most one in-flight record per account and order hash, if the file started so. */
  lemma OneInFlightKept(s: Store, op: Op, load: LoadFault, s': Store, allowed: bool)
    requires InSync(s) && Performs(s, op, load, s', allowed)
    requires View(s.disk).Some? ==> OneInFlight(View(s.disk).value)
    ensures View(s'.disk).Some? ==> OneInFlight(View(s'.disk).value)
  {
    OperationStep(s, op, load, s', allowed);
  }

  /** A record on file leaves only by a clear of its key; while there its identity and creation time
      stay, and its state stays or goes from in-flight to submitted. */
  lemma RecordsOnlyAdvance(s: Store, op: Op, load: LoadFault, s': Store, allowed: bool, k: string)
    requires InSync(s) && Performs(s, op, load, s', allowed)
    requires View(s.disk).Some? && k in View(s.disk).value && View(s'.disk).Some?
    ensures k !in View(s'.disk).value ==> op == ClearOp(k)
    ensures k in View(s'.disk).value ==>
      var (r, r') := (View(s.disk).value[k], View(s'.disk).value[k]);
      && r'.identity == r.identity && r'.createdAt == r.createdAt
      && (r' == r || (op.MarkOp? && op.id == r.identity && r'.state == Submitted))
  {
    OperationStep(s, op, load, s', allowed);
    ViewWellFormed(s.disk);
  }

  /** The states themselves only go forward. */
  lemma StateNeverGoesBack(s: Store, op: Op, load: LoadFault, s': Store, allowed: bool, k: string)
    requires InSync(s) && Performs(s, op, load, s', allowed)
    requires View(s.disk).Some? && View(s'.disk).Some? && k in View(s.disk).value && k in View(s'.disk).value
    requires View(s.disk).value[k].state == Submitted
    ensures View(s'.disk).value[k].state == Submitted
  {
    RecordsOnlyAdvance(s, op, load, s', allowed, k);
  }

  /** When two different identities share a key, reserving the second is refused and the record of
      the first stays, on file and in memory. */
  lemma KeyClashRefused(s: Store, first: Identity, second: Identity, now: int, load: LoadFault, s': Store, allowed: bool)
    requires InSync(s) && first != second && first.key == second.key
    requires View(s.disk).Some? && first.key in View(s.disk).value && View(s.disk).value[first.key].identity == first
    requires Performs(s, ReserveOp(second, now), load, s', allowed)
    ensures !allowed && s'.disk == s.disk
    ensures s'.mem.loaded && !s'.mem.uncertain ==> s'.mem.records == View(s.disk).value
  {
    LoadKeepsSync(s, load);
  }
}
