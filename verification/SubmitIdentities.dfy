/** The live-submit identity registry: an in-memory map of reservations backed by one JSON file.
    `Load`, `Reserves`, `Marks`, `Clears` say what each operation may do to memory and file under any
    fault; the class `Registry` does it in place. */
module SubmitIdentities {
  import opened Common
  import Ordering

  datatype Identity = Identity(key: string, accountID: string, intentID: string, orderHash: string)

  datatype State = InFlight | Submitted | Unrecognised(text: string)

  datatype Record = Record(identity: Identity, state: State, createdAt: int, updatedAt: int, denyReason: string)

  datatype DenyReason =
    | UnknownState | AlreadyInFlight | AlreadySubmitted | StateMismatch | RestartInFlight | RestartUnknown

  datatype CheckResult = Allowed(state: State) | Denied(reason: DenyReason, found: Option<State>)

  /** The state file: not there, there but not parseable as the JSON document, or a parsed document. */
  datatype Disk = Absent | Garbage | Doc(version: int, records: seq<Record>)

  type Records = map<string, Record>

  datatype Memory = Memory(records: Records, loaded: bool, uncertain: bool)

  /** What the file system does to one read. */
  datatype LoadFault = ReadsFine | PathFails | ReadFails

  /** What it does to one save: fail before opening the file, leave a truncated file, or report an
      error although the whole document was written. */
  datatype SaveFault = SavesFine | FailsBeforeOpen | Truncates | FailsAfterWrite

  // ---- Identities ----

  const NUL: char := '\0'

  function RawIdentity(accountID: string, intentID: string, orderHash: string): string {
    accountID + [NUL] + intentID + [NUL] + orderHash
  }

  /** `digest` is the hex form of SHA-256. */
  function DeriveSubmitIdentity(digest: string -> string, accountID: string, intentID: string, orderHash: string): (id: Option<Identity>)
    ensures id.None? <==> Blank(accountID) || Blank(intentID) || Blank(orderHash)
    ensures id.Some? ==> (id.value.accountID, id.value.intentID, id.value.orderHash) == (accountID, intentID, orderHash)
  {
    if Blank(accountID) || Blank(intentID) || Blank(orderHash) then None
    else Some(Identity(digest(RawIdentity(accountID, intentID, orderHash)), accountID, intentID, orderHash))
  }

  ghost predicate FirstNul(s: string, n: nat) {
    n < |s| && s[n] == NUL && forall i :: 0 <= i < n ==> s[i] != NUL
  }

  ghost predicate LastNul(s: string, n: nat) {
    n < |s| && s[n] == NUL && forall i :: n < i < |s| ==> s[i] != NUL
  }

  lemma SplitAtFirstNul(a: string, b: string, x: string, y: string)
    requires a + [NUL] + x == b + [NUL] + y && NUL !in a && NUL !in b
    ensures a == b && x == y
  {
    var s, t := a + [NUL] + x, b + [NUL] + y;
    assert FirstNul(s, |a|) && FirstNul(t, |b|);
    assert a == s[..|a|] && b == t[..|b|];
    assert x == s[|a| + 1..] && y == t[|b| + 1..];
  }

  lemma SplitAtLastNul(x: string, y: string, h: string, k: string)
    requires x + [NUL] + h == y + [NUL] + k && NUL !in h && NUL !in k
    ensures x == y && h == k
  {
    var s, t := x + [NUL] + h, y + [NUL] + k;
    assert LastNul(s, |x|) && LastNul(t, |y|);
    assert x == s[..|x|] && y == t[..|y|];
    assert h == s[|x| + 1..] && k == t[|y| + 1..];
  }

  /** The digested text determines the three parts when account and hash contain no NUL, whatever
      the intent contains. */
  lemma RawIdentityInjective(a1: string, i1: string, h1: string, a2: string, i2: string, h2: string)
    requires NUL !in a1 && NUL !in a2 && NUL !in h1 && NUL !in h2
    requires RawIdentity(a1, i1, h1) == RawIdentity(a2, i2, h2)
    ensures a1 == a2 && i1 == i2 && h1 == h2
  {
    assert RawIdentity(a1, i1, h1) == a1 + [NUL] + (i1 + [NUL] + h1);
    assert RawIdentity(a2, i2, h2) == a2 + [NUL] + (i2 + [NUL] + h2);
    SplitAtFirstNul(a1, a2, i1 + [NUL] + h1, i2 + [NUL] + h2);
    SplitAtLastNul(i1, i2, h1, h2);
  }

  /** Without that condition it does not: an account with a NUL gives two readings of one text. */
  lemma RawIdentityAmbiguousWithNul()
    ensures RawIdentity("A\0B", "C", "D") == RawIdentity("A", "B\0C", "D")
  {
  }

  /** So keys separate identities exactly as well as the digest separates their two texts. */
  lemma KeysSeparateIdentities(digest: string -> string, a1: string, i1: string, h1: string, a2: string, i2: string, h2: string)
    requires NUL !in a1 && NUL !in a2 && NUL !in h1 && NUL !in h2
    requires digest(RawIdentity(a1, i1, h1)) == digest(RawIdentity(a2, i2, h2)) ==> RawIdentity(a1, i1, h1) == RawIdentity(a2, i2, h2)
    requires !Blank(a1) && !Blank(i1) && !Blank(h1) && !Blank(a2) && !Blank(i2) && !Blank(h2)
    ensures DeriveSubmitIdentity(digest, a1, i1, h1).value.key == DeriveSubmitIdentity(digest, a2, i2, h2).value.key
      <==> (a1, i1, h1) == (a2, i2, h2)
  {
    if RawIdentity(a1, i1, h1) == RawIdentity(a2, i2, h2) {
      RawIdentityInjective(a1, i1, h1, a2, i2, h2);
    }
  }

  // ---- Loading and saving ----

  predicate Complete(id: Identity) {
    id.key != "" && id.accountID != "" && id.intentID != "" && id.orderHash != ""
  }

  predicate ValidState(state: State) {
    state.InFlight? || state.Submitted?
  }

  predicate Acceptable(r: Record) {
    Complete(r.identity) && ValidState(r.state)
  }

  /** How many leading records the loader accepts. */
  function FirstBad(recs: seq<Record>): (n: nat)
    ensures n <= |recs|
    ensures forall i :: 0 <= i < n ==> Acceptable(recs[i])
    ensures n < |recs| ==> !Acceptable(recs[n])
  {
    if recs == [] || !Acceptable(recs[0]) then 0 else 1 + FirstBad(recs[1..])
  }

  /** `recs` entered into `base` in order: a later record of the same key replaces an earlier one. */
  function Index(base: Records, recs: seq<Record>): Records {
    if recs == [] then base
    else Index(base, recs[..|recs| - 1])[recs[|recs| - 1].identity.key := recs[|recs| - 1]]
  }

  /** Memory after `ensureLoaded`, and whether it returned without error. */
  function Load(mem: Memory, disk: Disk, fault: LoadFault): (Memory, bool) {
    var refused := mem.(loaded := true, uncertain := true);
    if mem.loaded then (mem, true)
    else if !fault.ReadsFine? then (refused, false)
    else match disk
      case Absent => (mem.(loaded := true), true)
      case Garbage => (refused, false)
      case Doc(version, recs) =>
        if version != 1 then (refused, false)
        else
          var n := FirstBad(recs);
          var records := Index(mem.records, recs[..n]);
          if n == |recs| then (Memory(records, true, mem.uncertain), true) else (Memory(records, true, true), false)
  }

  /** The records a fresh process reads from the file, or nothing when it must treat them as uncertain. */
  ghost function View(disk: Disk): Option<Records> {
    match disk
    case Absent => Some(map[])
    case Garbage => None
    case Doc(version, recs) =>
      if version == 1 && forall i :: 0 <= i < |recs| ==> Acceptable(recs[i]) then Some(Index(map[], recs)) else None
  }

  ghost predicate KeysMatch(m: Records) {
    forall k :: k in m ==> m[k].identity.key == k
  }

  ghost predicate WellFormed(m: Records) {
    forall k :: k in m ==> m[k].identity.key == k && Acceptable(m[k])
  }

  /** `recs` holds every record of `m` exactly once, in some order: what iterating a Go map yields. */
  ghost predicate Lists(recs: seq<Record>, m: Records) {
    && (forall i :: 0 <= i < |recs| ==> recs[i].identity.key in m && m[recs[i].identity.key] == recs[i])
    && (forall i, j :: 0 <= i < j < |recs| ==> recs[i].identity.key != recs[j].identity.key)
    && (forall k :: k in m ==> m[k] in recs)
  }

  ghost predicate Writes(m: Records, disk: Disk) {
    disk.Doc? && disk.version == 1 && Lists(disk.records, m)
  }

  /** What a save of `m` may leave behind. */
  ghost predicate SaveLeaves(before: Disk, m: Records, ok: bool, after: Disk) {
    if ok then Writes(m, after) else after == before || after == Garbage || Writes(m, after)
  }

  lemma {:induction false} IndexLookup(base: Records, recs: seq<Record>, i: int)
    requires 0 <= i < |recs|
    requires forall j, k :: 0 <= j < k < |recs| ==> recs[j].identity.key != recs[k].identity.key
    ensures recs[i].identity.key in Index(base, recs) && Index(base, recs)[recs[i].identity.key] == recs[i]
  {
    var n := |recs| - 1;
    if i < n {
      IndexLookup(base, recs[..n], i);
      assert recs[..n][i] == recs[i] && recs[i].identity.key != recs[n].identity.key;
    }
  }

  lemma {:induction false} IndexFrom(base: Records, recs: seq<Record>)
    ensures forall k :: k in Index(base, recs) ==>
      (k in base && Index(base, recs)[k] == base[k]) || (Index(base, recs)[k] in recs && Index(base, recs)[k].identity.key == k)
  {
    if recs != [] {
      IndexFrom(base, recs[..|recs| - 1]);
    }
  }

  /** Saving in any map order and loading again gives the same records. */
  lemma SaveThenLoad(m: Records, disk: Disk)
    requires WellFormed(m) && Writes(m, disk)
    ensures View(disk) == Some(m)
    ensures Load(Memory(map[], false, false), disk, ReadsFine) == (Memory(m, true, false), true)
  {
    var recs := disk.records;
    var got := Index(map[], recs);
    IndexFrom(map[], recs);
    forall k | k in m ensures k in got && got[k] == m[k] {
      var i :| 0 <= i < |recs| && recs[i] == m[k];
      IndexLookup(map[], recs, i);
    }
    forall k | k in got ensures k in m {
      assert got[k] in recs;
    }
    assert got == m;
    assert recs[..|recs|] == recs;
  }

  lemma ViewWellFormed(disk: Disk)
    requires View(disk).Some?
    ensures WellFormed(View(disk).value)
  {
    if disk.Doc? {
      IndexFrom(map[], disk.records);
    }
  }

  /** A fresh process is certain exactly when the read works and the file has a view, and then holds it. */
  lemma FreshLoadIsView(disk: Disk, fault: LoadFault)
    ensures var (m, ok) := Load(Memory(map[], false, false), disk, fault);
      && m.loaded
      && (ok <==> fault.ReadsFine? && View(disk).Some?)
      && (m.uncertain <==> !ok)
      && (ok ==> m.records == View(disk).value)
  {
    if disk.Doc? {
      assert disk.records[..|disk.records|] == disk.records;
    }
  }

  /** A process reads the file once. */
  lemma LoadedIsKept(mem: Memory, disk: Disk, fault: LoadFault)
    requires mem.loaded
    ensures Load(mem, disk, fault) == (mem, true)
    ensures Usable(mem, disk, fault) <==> !mem.uncertain
  {
  }

  // ---- The operations, as relations between what was and what is ----

  datatype Store = Store(mem: Memory, disk: Disk)

  ghost predicate Usable(mem: Memory, disk: Disk, fault: LoadFault) {
    Load(mem, disk, fault).1 && !Load(mem, disk, fault).0.uncertain
  }

  predicate SameOrder(a: Identity, b: Identity) {
    a.accountID == b.accountID && a.orderHash == b.orderHash
  }

  ghost predicate Blocks(m: Records, id: Identity) {
    exists k :: k in m && SameOrder(m[k].identity, id) && m[k].state == InFlight
  }

  /** When the registry will do it, given that the save works. */
  ghost predicate MayReserve(s: Store, id: Identity, fault: LoadFault) {
    && Complete(id) && Usable(s.mem, s.disk, fault)
    && id.key !in Load(s.mem, s.disk, fault).0.records && !Blocks(Load(s.mem, s.disk, fault).0.records, id)
  }

  ghost predicate MayMark(s: Store, id: Identity, fault: LoadFault) {
    && id.key != "" && Usable(s.mem, s.disk, fault)
    && var m := Load(s.mem, s.disk, fault).0.records;
    id.key in m && m[id.key].identity == id
  }

  ghost predicate MayClear(s: Store, key: string, fault: LoadFault) {
    !Blank(key) && Usable(s.mem, s.disk, fault) && key in Load(s.mem, s.disk, fault).0.records
  }

  ghost predicate Reserves(s: Store, id: Identity, now: int, fault: LoadFault, s': Store, result: CheckResult) {
    if !Complete(id) then s' == s && result == Denied(UnknownState, None)
    else
      var mem := Load(s.mem, s.disk, fault).0;
      var m := mem.records;
      if !Usable(s.mem, s.disk, fault) then s' == Store(mem, s.disk) && result == Denied(RestartUnknown, None)
      else if id.key in m then
        && s' == Store(mem, s.disk)
        && result == Denied(
          if m[id.key].identity != id then StateMismatch
          else match m[id.key].state case InFlight => AlreadyInFlight case Submitted => AlreadySubmitted case Unrecognised(_) => UnknownState,
          Some(m[id.key].state))
      else if Blocks(m, id) then s' == Store(mem, s.disk) && result == Denied(RestartInFlight, Some(InFlight))
      else
        var m' := m[id.key := Record(id, InFlight, now, now, "")];
        && SaveLeaves(s.disk, m', result.Allowed?, s'.disk)
        && (result.Allowed? ==> result == Allowed(InFlight) && s'.mem == Memory(m', true, false))
        && (!result.Allowed? ==> result == Denied(RestartUnknown, None) && s'.mem == Memory(m, true, true))
  }

  ghost predicate Marks(s: Store, id: Identity, now: int, fault: LoadFault, s': Store, result: CheckResult) {
    if id.key == "" then s' == s && result == Denied(UnknownState, None)
    else
      var mem := Load(s.mem, s.disk, fault).0;
      var m := mem.records;
      if !Usable(s.mem, s.disk, fault) then s' == Store(mem, s.disk) && result == Denied(RestartUnknown, None)
      else if id.key !in m then s' == Store(mem, s.disk) && result == Denied(UnknownState, None)
      else if m[id.key].identity != id then s' == Store(mem, s.disk) && result == Denied(StateMismatch, Some(m[id.key].state))
      else
        var m' := m[id.key := m[id.key].(state := Submitted, updatedAt := now)];
        && SaveLeaves(s.disk, m', result.Allowed?, s'.disk)
        && (result.Allowed? ==> result == Allowed(Submitted))
        && (!result.Allowed? ==> result == Denied(RestartUnknown, Some(Submitted)))
        && s'.mem == Memory(m', true, !result.Allowed?)
  }

  /** `clear` reports an error value; `result` is its reason. */
  ghost predicate Clears(s: Store, key: string, fault: LoadFault, s': Store, result: Option<DenyReason>) {
    if Blank(key) then s' == s && result == Some(UnknownState)
    else
      var mem := Load(s.mem, s.disk, fault).0;
      if !Usable(s.mem, s.disk, fault) then s' == Store(mem, s.disk) && result == Some(RestartUnknown)
      else if key !in mem.records then s' == Store(mem, s.disk) && result == Some(UnknownState)
      else
        var m' := mem.records - {key};
        && SaveLeaves(s.disk, m', result.None?, s'.disk)
        && (result.Some? ==> result == Some(RestartUnknown))
        && s'.mem == Memory(m', true, result.Some?)
  }

  // ---- The same, answer by answer ----

  /** A reservation is granted when nothing of the identity is empty, its key is unused, and no record in flight
      has both its account and its order hash. */
  lemma MayReserveMeans(s: Store, id: Identity, fault: LoadFault)
    ensures MayReserve(s, id, fault) <==>
      && id.key != "" && id.accountID != "" && id.intentID != "" && id.orderHash != "" && Usable(s.mem, s.disk, fault)
      && var m := Load(s.mem, s.disk, fault).0.records;
        id.key !in m
        && forall k :: k in m && m[k].state == InFlight ==>
            m[k].identity.accountID != id.accountID || m[k].identity.orderHash != id.orderHash
  {
  }

  /** The reasons of a refused reservation, each with what it means; the save did not work in the last case. */
  lemma ReserveReasonsMean(s: Store, id: Identity, now: int, fault: LoadFault, s': Store, reason: DenyReason, found: Option<State>)
    requires Reserves(s, id, now, fault, s', Denied(reason, found))
    ensures var (mem, usable) := (Load(s.mem, s.disk, fault).0, Usable(s.mem, s.disk, fault));
      var m := mem.records;
      match reason
      case UnknownState => id.key == "" || id.accountID == "" || id.intentID == "" || id.orderHash == "" ||
        (id.key in m && m[id.key].identity == id && m[id.key].state.Unrecognised? && found == Some(m[id.key].state))
      case StateMismatch => usable && id.key in m && m[id.key].identity != id && found == Some(m[id.key].state)
      case AlreadyInFlight => usable && id.key in m && m[id.key].identity == id && m[id.key].state == InFlight && found == Some(InFlight)
      case AlreadySubmitted => usable && id.key in m && m[id.key].identity == id && m[id.key].state == Submitted && found == Some(Submitted)
      case RestartInFlight => usable && id.key !in m && found == Some(InFlight) &&
        (exists k :: k in m && m[k].identity.accountID == id.accountID && m[k].identity.orderHash == id.orderHash && m[k].state == InFlight)
      case RestartUnknown => found == None && (!usable || MayReserve(s, id, fault))
  {
  }

  lemma MarkReasonsMean(s: Store, id: Identity, now: int, fault: LoadFault, s': Store, reason: DenyReason, found: Option<State>)
    requires Marks(s, id, now, fault, s', Denied(reason, found))
    ensures var (mem, usable) := (Load(s.mem, s.disk, fault).0, Usable(s.mem, s.disk, fault));
      var m := mem.records;
      match reason
      case UnknownState => id.key == "" || (usable && id.key !in m)
      case StateMismatch => usable && id.key in m && m[id.key].identity != id && found == Some(m[id.key].state)
      case RestartUnknown => !usable || (id.key in m && m[id.key].identity == id && found == Some(Submitted))
      case _ => false
  {
  }

  lemma ClearReasonsMean(s: Store, key: string, fault: LoadFault, s': Store, reason: DenyReason)
    requires Clears(s, key, fault, s', Some(reason))
    ensures var (mem, usable) := (Load(s.mem, s.disk, fault).0, Usable(s.mem, s.disk, fault));
      match reason
      case UnknownState => Blank(key) || (usable && key !in mem.records)
      case RestartUnknown => !usable || key in mem.records
      case _ => false
  {
  }

  /** `i` is the last place where a record has the key. */
  ghost predicate LastWith(recs: seq<Record>, key: string, i: nat) {
    i < |recs| && recs[i].identity.key == key && forall j :: i < j < |recs| ==> recs[j].identity.key != key
  }

  lemma {:induction false} IndexIsLast(recs: seq<Record>, key: string, i: nat)
    requires LastWith(recs, key, i)
    ensures key in Index(map[], recs) && Index(map[], recs)[key] == recs[i]
  {
    var n := |recs| - 1;
    if i < n {
      assert recs[..n][i] == recs[i] && forall j :: i < j < n ==> recs[..n][j] == recs[j];
      IndexIsLast(recs[..n], key, i);
    }
  }

  /** A document is read exactly when its version is 1 and every record has its four identity fields and a known
      state; of records with one key the last counts, and nothing else is read. */
  lemma ViewMeans(version: int, recs: seq<Record>)
    ensures var view := View(Doc(version, recs));
      && (view.Some? <==> version == 1 && forall i :: 0 <= i < |recs| ==>
            && recs[i].identity.key != "" && recs[i].identity.accountID != "" && recs[i].identity.intentID != ""
            && recs[i].identity.orderHash != "" && (recs[i].state == InFlight || recs[i].state == Submitted))
      && (view.Some? ==> forall k :: k in view.value ==> view.value[k] in recs && view.value[k].identity.key == k)
      && (view.Some? ==> forall k, i: nat :: LastWith(recs, k, i) ==> k in view.value && view.value[k] == recs[i])
  {
    IndexFrom(map[], recs);
    forall k, i: nat | LastWith(recs, k, i) ensures k in Index(map[], recs) && Index(map[], recs)[k] == recs[i] {
      IndexIsLast(recs, k, i);
    }
    assert forall i :: 0 <= i < |recs| ==> (Acceptable(recs[i]) <==>
      && recs[i].identity.key != "" && recs[i].identity.accountID != "" && recs[i].identity.intentID != ""
      && recs[i].identity.orderHash != "" && (recs[i].state == InFlight || recs[i].state == Submitted));
  }

  // ---- The registry object ----

  /** The file survives the process; a `Registry` is one process's view of it. */
  class StateFile {
    var content: Disk

    constructor (content: Disk)
      ensures this.content == content
    {
      this.content := content;
    }
  }

  class Registry {
    const file: StateFile
    var records: Records
    var loaded: bool
    var uncertain: bool

    constructor (file: StateFile)
      ensures this.file == file && Mem() == Memory(map[], false, false)
    {
      this.file := file;
      records, loaded, uncertain := map[], false, false;
    }

    ghost function Mem(): Memory
      reads this
    {
      Memory(records, loaded, uncertain)
    }

    ghost function Contents(): Store
      reads this, file
    {
      Store(Mem(), file.content)
    }

    ghost predicate Valid()
      reads this
    {
      KeysMatch(records)
    }

    method EnsureLoaded(fault: LoadFault) returns (ok: bool)
      requires Valid()
      modifies this
      ensures Valid()
      ensures (Mem(), ok) == Load(old(Mem()), file.content, fault)
    {
      if loaded {
        return true;
      }
      if !fault.ReadsFine? {
        uncertain, loaded := true, true;
        return false;
      }
      match file.content {
        case Absent =>
          loaded := true;
          return true;
        case Garbage =>
          uncertain, loaded := true, true;
          return false;
        case Doc(version, recs) =>
          if version != 1 {
            uncertain, loaded := true, true;
            return false;
          }
          for i := 0 to |recs|
            invariant Valid() && !loaded && uncertain == old(uncertain)
            invariant FirstBad(recs) >= i
            invariant records == Index(old(records), recs[..i])
          {
            var record := recs[i];
            if !(Complete(record.identity) && ValidState(record.state)) {
              assert FirstBad(recs) == i;
              uncertain, loaded := true, true;
              return false;
            }
            assert recs[..i + 1][..i] == recs[..i];
            records := records[record.identity.key := record];
          }
          assert recs[..|recs|] == recs;
          loaded := true;
          return true;
      }
    }

    /** The loop over the records that a save and an inspection make, in any map order. */
    method RecordList() returns (listed: seq<Record>)
      requires Valid()
      ensures Lists(listed, records)
    {
      listed := [];
      var todo := records.Keys;
      while todo != {}
        invariant todo <= records.Keys
        invariant forall r :: r in listed ==> r.identity.key in records && records[r.identity.key] == r && r.identity.key !in todo
        invariant forall i, j :: 0 <= i < j < |listed| ==> listed[i].identity.key != listed[j].identity.key
        invariant forall k :: k in records && k !in todo ==> records[k] in listed
      {
        var k :| k in todo;
        listed := listed + [records[k]];
        todo := todo - {k};
      }
    }

    method SaveLocked(fault: SaveFault) returns (ok: bool)
      requires Valid()
      modifies file
      ensures ok <==> fault.SavesFine?
      ensures SaveLeaves(old(file.content), records, ok, file.content)
      ensures match fault
        case FailsBeforeOpen => file.content == old(file.content)
        case Truncates => file.content == Garbage
        case _ => file.content.Doc? && file.content.version == 1 && Lists(file.content.records, records)
    {
      if fault.FailsBeforeOpen? {
        return false;
      }
      var listed := RecordList();
      if fault.Truncates? {
        file.content := Garbage;
        return false;
      }
      file.content := Doc(1, listed);
      ok := fault.SavesFine?;
    }

    method Reserve(id: Identity, now: int, load: LoadFault, save: SaveFault) returns (result: CheckResult)
      requires Valid()
      modifies this, file
      ensures Valid()
      ensures Reserves(old(Contents()), id, now, load, Contents(), result)
      ensures result.Allowed? <==> old(MayReserve(Contents(), id, load)) && save.SavesFine?
    {
      if id.key == "" || id.accountID == "" || id.intentID == "" || id.orderHash == "" {
        return Denied(UnknownState, None);
      }
      var ok := EnsureLoaded(load);
      if !ok || uncertain {
        return Denied(RestartUnknown, None);
      }
      if id.key in records {
        var existing := records[id.key];
        if existing.identity != id {
          return Denied(StateMismatch, Some(existing.state));
        }
        match existing.state {
          case InFlight => return Denied(AlreadyInFlight, Some(existing.state));
          case Submitted => return Denied(AlreadySubmitted, Some(existing.state));
          case Unrecognised(_) => return Denied(UnknownState, Some(existing.state));
        }
      }
      var blocked := FindsInFlight(id);
      if blocked {
        return Denied(RestartInFlight, Some(InFlight));
      }
      result := EnterInFlight(id, now, save);
    }

    /** Enter the record, and take it back when it cannot be saved. */
    method EnterInFlight(id: Identity, now: int, save: SaveFault) returns (result: CheckResult)
      requires Valid() && id.key !in records
      modifies this, file
      ensures Valid() && loaded == old(loaded)
      ensures result == if save.SavesFine? then Allowed(InFlight) else Denied(RestartUnknown, None)
      ensures records == if result.Allowed? then old(records)[id.key := Record(id, InFlight, now, now, "")] else old(records)
      ensures uncertain == (old(uncertain) || !result.Allowed?)
      ensures SaveLeaves(old(file.content), old(records)[id.key := Record(id, InFlight, now, now, "")], result.Allowed?, file.content)
    {
      ghost var before := records;
      records := records[id.key := Record(id, InFlight, now, now, "")];
      var saved := SaveLocked(save);
      if !saved {
        records := records - {id.key};
        assert records == before;
        uncertain := true;
        return Denied(RestartUnknown, None);
      }
      return Allowed(InFlight);
    }

    /** Whether some record is in flight for the same account and order, in any map order. */
    method FindsInFlight(id: Identity) returns (found: bool)
      ensures found <==> Blocks(records, id)
    {
      var todo := records.Keys;
      while todo != {}
        invariant todo <= records.Keys
        invariant forall k :: k in records && k !in todo ==> !(SameOrder(records[k].identity, id) && records[k].state == InFlight)
      {
        var k :| k in todo;
        var existing := records[k];
        if existing.identity.accountID == id.accountID && existing.identity.orderHash == id.orderHash && existing.state == InFlight {
          return true;
        }
        todo := todo - {k};
      }
      return false;
    }

    method MarkSubmitted(id: Identity, now: int, load: LoadFault, save: SaveFault) returns (result: CheckResult)
      requires Valid()
      modifies this, file
      ensures Valid()
      ensures Marks(old(Contents()), id, now, load, Contents(), result)
      ensures result.Allowed? <==> old(MayMark(Contents(), id, load)) && save.SavesFine?
    {
      if id.key == "" {
        return Denied(UnknownState, None);
      }
      var ok := EnsureLoaded(load);
      if !ok || uncertain {
        return Denied(RestartUnknown, None);
      }
      if id.key !in records {
        return Denied(UnknownState, None);
      }
      var existing := records[id.key];
      if existing.identity != id {
        return Denied(StateMismatch, Some(existing.state));
      }
      existing := existing.(state := Submitted, updatedAt := now);
      records := records[id.key := existing];
      var saved := SaveLocked(save);
      if !saved {
        uncertain := true;
        return Denied(RestartUnknown, Some(existing.state));
      }
      return Allowed(Submitted);
    }

    method Clear(key: string, load: LoadFault, save: SaveFault) returns (result: Option<DenyReason>)
      requires Valid()
      modifies this, file
      ensures Valid()
      ensures Clears(old(Contents()), key, load, Contents(), result)
      ensures result.None? <==> old(MayClear(Contents(), key, load)) && save.SavesFine?
    {
      if Blank(key) {
        return Some(UnknownState);
      }
      var ok := EnsureLoaded(load);
      if !ok || uncertain {
        return Some(RestartUnknown);
      }
      if key !in records {
        return Some(UnknownState);
      }
      records := records - {key};
      var saved := SaveLocked(save);
      if !saved {
        uncertain := true;
        return Some(RestartUnknown);
      }
      return None;
    }

    /** The records in key order, or nothing when they are uncertain. */
    method Inspect(load: LoadFault) returns (views: Option<seq<Record>>)
      requires Valid()
      modifies this
      ensures Valid() && Mem() == Load(old(Mem()), file.content, load).0
      ensures views.Some? <==> old(Usable(Mem(), file.content, load))
      ensures views.Some? ==> forall i, j :: 0 <= i < j < |views.value| ==>
        !Ordering.StringLess(views.value[j].identity.key, views.value[i].identity.key)
      ensures views.Some? ==> exists listed :: Lists(listed, records) && multiset(listed) == multiset(views.value)
    {
      var ok := EnsureLoaded(load);
      if !ok || uncertain {
        return None;
      }
      var listed := RecordList();
      KeyOrderStrictWeak();
      Ordering.SortSorted(KeyOrder, listed);
      var sorted := Ordering.Sort(KeyOrder, listed);
      assert forall i, j :: 0 <= i < j < |sorted| ==> !KeyOrder(sorted[j], sorted[i]);
      return Some(sorted);
    }
  }

  predicate KeyOrder(a: Record, b: Record) {
    Ordering.StringLess(a.identity.key, b.identity.key)
  }

  lemma KeyOrderStrictWeak()
    ensures Ordering.StrictWeak(KeyOrder)
  {
    forall x, y | KeyOrder(x, y) ensures !KeyOrder(y, x) {
      Ordering.StringLessAsymmetric(x.identity.key, y.identity.key);
    }
    forall x, y, z | KeyOrder(x, y) ensures KeyOrder(x, z) || KeyOrder(z, y) {
      Ordering.StringLessSplits(x.identity.key, y.identity.key, z.identity.key);
    }
  }
}
