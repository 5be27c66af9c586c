/** One reconciler pass: a REST position list against the book, repairing cost basis, counting
    absences, removing what stayed absent. What the pass does to a symbol depends on that symbol alone
    (`Judge`), so the order in which the maps are walked does not matter. */
module Reconciler {
  import opened Common
  import MB = MarkBook

  type Positions = map<string, MB.PositionInfo>
  type Counts = map<string, nat>

  /** `decimal.String()`, which is never empty. */
  type DecimalText = s: string | s != "" witness "0"

  datatype RestPosition = RestPosition(
    symbol: string, accountNumber: string, quantity: DecimalText, quantityDirection: string,
    averageOpenPrice: real, closePrice: real)

  function EffectiveAvgOpen(p: RestPosition): real {
    if p.averageOpenPrice != 0.0 then p.averageOpenPrice else p.closePrice
  }

  // ---- What a pass does to one symbol ----

  datatype Verdict = LoadMissing | LoadDrifted | Untouched | InAgreement | Removed | Pending | NotOpen

  predicate Open(entry: Option<MB.PositionInfo>) {
    entry.Some? && entry.value.quantity != ""
  }

  function Judge(rest: Option<RestPosition>, entry: Option<MB.PositionInfo>, count: nat, threshold: nat, fetchedAt: int): Verdict {
    if rest.Some? then
      if !Open(entry) then LoadMissing
      else if entry.value.loadedAt >= fetchedAt && entry.value.avgOpenPrice != 0.0 then Untouched
      else if entry.value.avgOpenPrice == 0.0 || entry.value.avgOpenPrice != EffectiveAvgOpen(rest.value) then LoadDrifted
      else InAgreement
    else if !Open(entry) then NotOpen
    else if count + 1 >= threshold then Removed
    else Pending
  }

  predicate Loads(v: Verdict) {
    v.LoadMissing? || v.LoadDrifted?
  }

  function Loaded(p: RestPosition, at: int): MB.PositionInfo {
    MB.PositionInfo(p.accountNumber, p.quantity, p.quantityDirection, EffectiveAvgOpen(p), at)
  }

  /** The entry afterwards; a load is stamped some time after the fetch began. */
  predicate EntryAfter(v: Verdict, rest: Option<RestPosition>, entry: Option<MB.PositionInfo>, fetchedAt: int, entry': Option<MB.PositionInfo>)
    requires Loads(v) ==> rest.Some?
  {
    if Loads(v) then entry'.Some? && entry'.value.loadedAt >= fetchedAt && entry'.value == Loaded(rest.value, entry'.value.loadedAt)
    else if v.Removed? then entry'.None?
    else entry' == entry
  }

  function CountAfter(v: Verdict, count: Option<nat>): Option<nat> {
    match v
    case NotOpen => count
    case Pending => Some(MB.GetOr(count, 0) + 1)
    case _ => None
  }

  datatype Category = MissingInMarkBook | AvgOpenDrift | AbsentFromRest | AbsencePending

  datatype MismatchAction = LoadPositionAction | RemovePositionAction | AwaitConfirmation

  datatype Mismatch = Mismatch(symbol: string, category: Category, action: MismatchAction)

  function MismatchFor(v: Verdict, symbol: string): Option<Mismatch> {
    match v
    case LoadMissing => Some(Mismatch(symbol, MissingInMarkBook, LoadPositionAction))
    case LoadDrifted => Some(Mismatch(symbol, AvgOpenDrift, LoadPositionAction))
    case Removed => Some(Mismatch(symbol, AbsentFromRest, RemovePositionAction))
    case Pending => Some(Mismatch(symbol, AbsencePending, AwaitConfirmation))
    case _ => None
  }

  // ---- What it does to the whole book ----

  datatype State = State(positions: Positions, counts: Counts)

  /** The inputs of a successful pass. */
  datatype Pass = Pass(rest: map<string, RestPosition>, threshold: nat, fetchedAt: int)

  function VerdictOn(p: Pass, st: State, s: string): Verdict {
    Judge(MB.Lookup(p.rest, s), MB.Lookup(st.positions, s), MB.GetOr(MB.Lookup(st.counts, s), 0), p.threshold, p.fetchedAt)
  }

  predicate SymbolDone(p: Pass, st: State, st': State, s: string) {
    var v := VerdictOn(p, st, s);
    && EntryAfter(v, MB.Lookup(p.rest, s), MB.Lookup(st.positions, s), p.fetchedAt, MB.Lookup(st'.positions, s))
    && MB.Lookup(st'.counts, s) == CountAfter(v, MB.Lookup(st.counts, s))
  }

  predicate SymbolUnchanged(st: State, st': State, s: string) {
    MB.Lookup(st'.positions, s) == MB.Lookup(st.positions, s) && MB.Lookup(st'.counts, s) == MB.Lookup(st.counts, s)
  }

  /** The symbols in `done` have been dealt with, the others not. */
  ghost predicate Progress(p: Pass, st: State, done: set<string>, st': State) {
    forall s :: if s in done then SymbolDone(p, st, st', s) else SymbolUnchanged(st, st', s)
  }

  ghost predicate Passed(p: Pass, st: State, st': State) {
    forall s :: SymbolDone(p, st, st', s)
  }

  function SymbolsOf(ms: seq<Mismatch>): set<string> {
    set i | 0 <= i < |ms| :: ms[i].symbol
  }

  /** `ms` reports exactly the mismatches of the symbols in `done`, each once. */
  ghost predicate Reports(p: Pass, st: State, done: set<string>, ms: seq<Mismatch>) {
    && (forall i :: 0 <= i < |ms| ==> ms[i].symbol in done && MismatchFor(VerdictOn(p, st, ms[i].symbol), ms[i].symbol) == Some(ms[i]))
    && (forall i, j :: 0 <= i < j < |ms| ==> ms[i].symbol != ms[j].symbol)
    && (forall s :: s in done && MismatchFor(VerdictOn(p, st, s), s).Some? ==> s in SymbolsOf(ms))
  }

  // ---- Results ----

  datatype Status = Ok | DriftDetected | Partial | Error

  /** The mismatches of a pass, with their count and their totals by category. */
  datatype Findings = Findings(count: nat, categories: map<Category, nat>, mismatches: seq<Mismatch>)

  const NONE_FOUND := Findings(0, map[], [])

  datatype Result = Result(
    status: Status, positionsChecked: nat, symbolsChecked: nat, findings: Findings,
    recoveryTriggered: bool, action: string, errorText: string)

  function Tally(ms: seq<Mismatch>, c: Category): nat {
    if ms == [] then 0 else Tally(ms[..|ms| - 1], c) + if ms[|ms| - 1].category == c then 1 else 0
  }

  /** Count, category totals and list tell the same story. */
  ghost predicate Consistent(f: Findings) {
    f.count == |f.mismatches| && forall c :: MB.GetOr(LookupCategory(f.categories, c), 0) == Tally(f.mismatches, c)
  }

  function LookupCategory(m: map<Category, nat>, c: Category): Option<nat> {
    if c in m then Some(m[c]) else None
  }

  function AddMismatch(f: Findings, m: Option<Mismatch>): (f': Findings)
    ensures Consistent(f) ==> Consistent(f')
    ensures f'.mismatches == f.mismatches + if m.Some? then [m.value] else []
  {
    if m.None? then f
    else
      var c := m.value.category;
      assert (f.mismatches + [m.value])[..|f.mismatches|] == f.mismatches;
      Findings(f.count + 1, f.categories[c := (if c in f.categories then f.categories[c] else 0) + 1], f.mismatches + [m.value])
  }

  lemma ReportsOneMore(p: Pass, st: State, done: set<string>, ms: seq<Mismatch>, s: string)
    requires Reports(p, st, done, ms) && s !in done
    ensures var m := MismatchFor(VerdictOn(p, st, s), s);
      Reports(p, st, done + {s}, ms + if m.Some? then [m.value] else [])
  {
    var m := MismatchFor(VerdictOn(p, st, s), s);
    var ms' := ms + if m.Some? then [m.value] else [];
    forall t | t in SymbolsOf(ms) ensures t in SymbolsOf(ms') {
      var i :| 0 <= i < |ms| && ms[i].symbol == t;
      assert ms'[i].symbol == t;
    }
    if m.Some? {
      assert ms'[|ms|].symbol == s;
    }
  }

  // ---- The reconciler ----

  /** A row handed to `WritePositionSnapshot`. */
  datatype Row = Row(symbol: string, accountNumber: string, quantity: string, quantityDirection: string, avgOpenPrice: real, closePrice: real, snapshottedAt: int)

  function RowFor(p: RestPosition, at: int): Row {
    Row(p.symbol, p.accountNumber, p.quantity, p.quantityDirection, EffectiveAvgOpen(p), p.closePrice, at)
  }

  /** `rows` has one row for each symbol of `done`, made from its REST position. */
  ghost predicate RowsFor(p: Pass, done: set<string>, rows: seq<Row>) {
    && (forall i :: 0 <= i < |rows| ==> rows[i].symbol in done && rows[i].symbol in p.rest && rows[i] == RowFor(p.rest[rows[i].symbol], p.fetchedAt))
    && (forall i, j :: 0 <= i < j < |rows| ==> rows[i].symbol != rows[j].symbol)
    && |rows| == |done|
  }

  class SnapshotStore {
    var attempts: seq<Row>

    method Write(row: Row, fails: bool) returns (ok: bool)
      modifies this
      ensures attempts == old(attempts) + [row] && ok == !fails
    {
      attempts := attempts + [row];
      ok := !fails;
    }
  }

  datatype Fetch = Fetched(positions: seq<RestPosition>) | FetchFailed(text: string)

  /** The last position listed for each symbol. */
  function RestMap(positions: seq<RestPosition>): (m: map<string, RestPosition>)
    ensures forall s :: s in m ==> m[s].symbol == s
  {
    if positions == [] then map[]
    else RestMap(positions[..|positions| - 1])[positions[|positions| - 1].symbol := positions[|positions| - 1]]
  }

  function MaxInt(a: nat, b: nat): nat {
    if a > b then a else b
  }

  function OpenSymbols(positions: Positions): set<string> {
    set s | s in positions && positions[s].quantity != ""
  }

  class Reconciler {
    const book: MB.Book
    const store: SnapshotStore?
    const threshold: nat
    var absenceCounts: Counts
    var latest: Option<Result>
    /** The results of all passes so far. */
    ghost var results: seq<Result>

    ghost predicate Current()
      reads this
    {
      latest == if results == [] then None else Some(results[|results| - 1])
    }

    constructor (book: MB.Book, store: SnapshotStore?, configured: int)
      ensures this.book == book && this.store == store
      ensures threshold == if configured <= 0 then 2 else configured
      ensures absenceCounts == map[] && results == [] && Current()
    {
      this.book := book;
      this.store := store;
      threshold := if configured <= 0 then 2 else configured;
      absenceCounts, latest, results := map[], None, [];
    }

    ghost function Now(): State
      reads this, book
    {
      State(book.positions, absenceCounts)
    }

    method WriteSnapshot(p: RestPosition, at: int, fails: string -> bool) returns (ok: bool)
      modifies store
      ensures ok <==> store == null || !fails(p.symbol)
      ensures store != null ==> store.attempts == old(store.attempts) + [RowFor(p, at)]
    {
      if store == null {
        return true;
      }
      ok := store.Write(RowFor(p, at), fails(p.symbol));
    }

    /** Look, and load if missing or drifted. */
    method Repair(sym: string, p: RestPosition, fetchedAt: int) returns (found: Option<Mismatch>)
      requires book.Valid() && p.symbol == sym
      modifies book
      ensures book.Valid() && book.quotes == old(book.quotes)
      ensures var v := Judge(Some(p), MB.Lookup(old(book.positions), sym), 0, threshold, fetchedAt);
        && found == MismatchFor(v, sym)
        && EntryAfter(v, Some(p), MB.Lookup(old(book.positions), sym), fetchedAt, MB.Lookup(book.positions, sym))
      ensures book.positions - {sym} == old(book.positions) - {sym}
    {
      found := None;
      var avgOpen := p.averageOpenPrice;
      if avgOpen == 0.0 {
        avgOpen := p.closePrice;
      }
      assert avgOpen == EffectiveAvgOpen(p);
      var snap := book.SnapshotLocked(sym);
      assert MB.Lookup(book.positions, sym) == MB.PositionOf(book.history, sym);
      var now: int :| now >= fetchedAt;  // any later clock reading
      if snap.quantity == "" {
        book.LoadPosition(sym, p.accountNumber, p.quantity, p.quantityDirection, avgOpen, now);
        found := Some(Mismatch(sym, MissingInMarkBook, LoadPositionAction));
      } else {
        if snap.positionLoadedAt >= fetchedAt && snap.avgOpenPrice != 0.0 {
          return;
        }
        if snap.avgOpenPrice == 0.0 || snap.avgOpenPrice != avgOpen {
          book.LoadPosition(sym, p.accountNumber, p.quantity, p.quantityDirection, avgOpen, now);
          found := Some(Mismatch(sym, AvgOpenDrift, LoadPositionAction));
        }
      }
    }

    /** One REST symbol: repair it, forget its absences, record its snapshot. */
    method RestStep(sym: string, p: RestPosition, fetchedAt: int, fails: string -> bool) returns (found: Option<Mismatch>, ok: bool)
      requires book.Valid() && p.symbol == sym
      modifies this`absenceCounts, book, store
      ensures book.Valid() && book.quotes == old(book.quotes)
      ensures var v := Judge(Some(p), MB.Lookup(old(book.positions), sym), 0, threshold, fetchedAt);
        && found == MismatchFor(v, sym)
        && EntryAfter(v, Some(p), MB.Lookup(old(book.positions), sym), fetchedAt, MB.Lookup(book.positions, sym))
      ensures absenceCounts == old(absenceCounts) - {sym}
      ensures book.positions - {sym} == old(book.positions) - {sym}
      ensures ok <==> store == null || !fails(sym)
      ensures store != null ==> store.attempts == old(store.attempts) + [RowFor(p, fetchedAt)]
    {
      found := Repair(sym, p, fetchedAt);
      absenceCounts := absenceCounts - {sym};
      ok := WriteSnapshot(p, fetchedAt, fails);
    }

    /** One open symbol the REST list lacks: count the absence, remove at the threshold. */
    method SweepStep(sym: string) returns (found: Mismatch)
      requires book.Valid() && Open(MB.Lookup(book.positions, sym))
      modifies this`absenceCounts, book
      ensures book.Valid()
      ensures var v := Judge(None, MB.Lookup(old(book.positions), sym), MB.GetOr(MB.Lookup(old(absenceCounts), sym), 0), threshold, 0);
        && (v.Removed? || v.Pending?)
        && MismatchFor(v, sym) == Some(found)
        && MB.Lookup(absenceCounts, sym) == CountAfter(v, MB.Lookup(old(absenceCounts), sym))
        && book.positions == (if v.Removed? then old(book.positions) - {sym} else old(book.positions))
        && book.quotes == (if v.Removed? then old(book.quotes) - {sym} else old(book.quotes))
      ensures absenceCounts - {sym} == old(absenceCounts) - {sym}
    {
      absenceCounts := absenceCounts[sym := (if sym in absenceCounts then absenceCounts[sym] else 0) + 1];
      var count := absenceCounts[sym];
      if count >= threshold {
        book.RemovePosition(sym);
        absenceCounts := absenceCounts - {sym};
        found := Mismatch(sym, AbsentFromRest, RemovePositionAction);
      } else {
        found := Mismatch(sym, AbsencePending, AwaitConfirmation);
      }
    }

    /** One round of the first loop, with what the rounds before it have done. */
    method RestRound(ghost p: Pass, ghost st: State, ghost done: set<string>, sym: string, restPos: RestPosition, fetchedAt: int,
        fails: string -> bool, found: Findings, ghost base: seq<Row>, ghost rows: seq<Row>)
      returns (f: Findings, ok: bool)
      requires book.Valid() && Consistent(found)
      requires sym in p.rest && p.rest[sym] == restPos && restPos.symbol == sym && sym !in done
      requires p.threshold == threshold && p.fetchedAt == fetchedAt
      requires RestSoFar(p, st, done, Now(), found.mismatches, rows)
      requires store != null ==> store.attempts == base + rows
      modifies this`absenceCounts, book, store
      ensures book.Valid() && Consistent(f) && book.quotes == old(book.quotes)
      ensures RestSoFar(p, st, done + {sym}, Now(), f.mismatches, rows + [RowFor(restPos, fetchedAt)])
      ensures ok <==> store == null || !fails(sym)
      ensures store != null ==> store.attempts == base + (rows + [RowFor(restPos, fetchedAt)])
    {
      ghost var before := Now();
      var mismatch;
      mismatch, ok := RestStep(sym, restPos, fetchedAt, fails);
      RestOneMore(p, st, done, before, found.mismatches, rows, sym, Now());
      assert base + rows + [RowFor(restPos, fetchedAt)] == base + (rows + [RowFor(restPos, fetchedAt)]);
      f := AddMismatch(found, mismatch);
    }

    /** The first loop: every REST symbol, in any order. */
    method RestLoop(ghost p: Pass, rest: map<string, RestPosition>, fetchedAt: int, fails: string -> bool)
      returns (f: Findings, writeErrors: nat, ghost rows: seq<Row>)
      requires book.Valid()
      requires p == Pass(rest, threshold, fetchedAt) && forall s :: s in rest ==> rest[s].symbol == s
      modifies this`absenceCounts, book, store
      ensures book.Valid() && Consistent(f) && book.quotes == old(book.quotes)
      ensures RestSoFar(p, old(Now()), rest.Keys, Now(), f.mismatches, rows)
      ensures writeErrors > 0 <==> store != null && AnyFails(fails, rest.Keys)
      ensures store != null ==> store.attempts == old(store.attempts) + rows
    {
      f, writeErrors, rows := NONE_FOUND, 0, [];
      ghost var st := Now();
      ghost var base := if store != null then store.attempts else [];
      ghost var done := {};
      var todo := rest.Keys;
      while todo != {}
        invariant todo <= rest.Keys && done == rest.Keys - todo
        invariant book.Valid() && Consistent(f) && book.quotes == old(book.quotes)
        invariant RestSoFar(p, st, done, Now(), f.mismatches, rows)
        invariant writeErrors > 0 <==> store != null && AnyFails(fails, done)
        invariant store != null ==> store.attempts == base + rows
        decreases todo
      {
        var sym :| sym in todo;
        var ok;
        f, ok := RestRound(p, st, done, sym, rest[sym], fetchedAt, fails, f, base, rows);
        AnyFailsOneMore(fails, done, sym);
        if !ok {
          writeErrors := writeErrors + 1;
        }
        rows := rows + [RowFor(rest[sym], fetchedAt)];
        OneFewer(rest.Keys, todo, sym);
        todo := todo - {sym};
        done := done + {sym};
      }
    }

    /** One snapshot of the sweep: only an open symbol the REST list lacks is acted on. */
    method SweepSnapshot(ghost p: Pass, ghost st: State, ghost was: set<string>, rest: map<string, RestPosition>, snap: MB.Snapshot, found: Findings)
      returns (f: Findings, isOpen: bool)
      requires book.Valid() && Consistent(found)
      requires p.rest == rest && p.threshold == threshold && rest.Keys <= was
      requires Progress(p, st, was, Now()) && Reports(p, st, was, found.mismatches)
      requires snap.symbol in was ==> snap.symbol in rest
      requires snap.quantity != "" <==> Open(MB.Lookup(book.positions, snap.symbol))
      modifies this`absenceCounts, book
      ensures book.Valid() && Consistent(f)
      ensures Progress(p, st, was + {snap.symbol}, Now()) && Reports(p, st, was + {snap.symbol}, f.mismatches)
      ensures isOpen <==> snap.quantity != ""
      ensures var gone := snap.symbol !in rest && VerdictOn(p, st, snap.symbol).Removed?;
        && book.positions == (if gone then old(book.positions) - {snap.symbol} else old(book.positions))
        && book.quotes == (if gone then old(book.quotes) - {snap.symbol} else old(book.quotes))
    {
      f, isOpen := found, false;
      var sym := snap.symbol;
      ghost var before := Now();
      assert sym !in was ==> SymbolUnchanged(st, before, sym);
      assert sym in rest ==> was + {sym} == was;
      if snap.quantity == "" {
        if sym !in rest {
          SkipKeepsAll(p, st, was, before, found.mismatches, sym);
        }
        return;
      }
      isOpen := true;
      if sym in rest {
        return;
      }
      var mismatch := SweepStep(sym);
      ProgressOneMore(p, st, was, before, sym, Now());
      ReportsOneMore(p, st, was, found.mismatches, sym);
      f := AddMismatch(found, Some(mismatch));
    }

    /** One round of the sweep, with what the rounds before it have done to the book as it was. */
    method SweepRound(ghost p: Pass, ghost st: State, ghost w: Swept, ghost was: set<string>, rest: map<string, RestPosition>, snap: MB.Snapshot, found: Findings)
      returns (f: Findings, isOpen: bool)
      requires book.Valid() && Consistent(found)
      requires p.rest == rest && p.threshold == threshold && rest.Keys <= was
      requires SweepSoFar(p, st, w, was, Now(), book.quotes, found.mismatches)
      requires snap.symbol in was ==> snap.symbol in rest
      requires snap.quantity != "" <==> Open(MB.Lookup(w.positions, snap.symbol))
      modifies this`absenceCounts, book
      ensures book.Valid() && Consistent(f)
      ensures SweepSoFar(p, st, w, was + {snap.symbol}, Now(), book.quotes, f.mismatches)
      ensures isOpen <==> Open(MB.Lookup(w.positions, snap.symbol))
    {
      ghost var before, beforeQuotes := book.positions, book.quotes;
      assert MB.Lookup(book.positions, snap.symbol) == MB.Lookup(w.positions, snap.symbol);
      f, isOpen := SweepSnapshot(p, st, was, rest, snap, found);
      SweptOneMore(p, st, w.positions, w.quotes, was, before, beforeQuotes, snap.symbol, book.positions, book.quotes);
    }

    /** One turn of the sweep, over the snapshot at `i`. */
    method SweepTurn(ghost p: Pass, ghost st: State, ghost w: Swept, rest: map<string, RestPosition>, snaps: seq<MB.Snapshot>, i: nat,
        found: Findings, bookPositions: nat) returns (f: Findings, bookPositions': nat)
      requires book.Valid() && Consistent(found) && i < |snaps|
      requires p.rest == rest && p.threshold == threshold && DistinctSymbols(snaps)
      requires snaps[i].quantity != "" <==> Open(MB.Lookup(w.positions, snaps[i].symbol))
      requires SweptUpTo(p, st, w, snaps[..i], Now(), book.quotes, found.mismatches, bookPositions)
      modifies this`absenceCounts, book
      ensures book.Valid() && Consistent(f)
      ensures SweptUpTo(p, st, w, snaps[..i + 1], Now(), book.quotes, f.mismatches, bookPositions')
    {
      var snap := snaps[i];
      SweepBookkeeping(rest.Keys, snaps, i);
      CountOneMore(w.positions, MB.Symbols(snaps[..i]), snap.symbol);
      var isOpen;
      f, isOpen := SweepRound(p, st, w, rest.Keys + MB.Symbols(snaps[..i]), rest, snap, found);
      bookPositions' := bookPositions + if isOpen then 1 else 0;
    }

    method SweepLoop(ghost p: Pass, ghost st: State, ghost w: Swept, rest: map<string, RestPosition>, snaps: seq<MB.Snapshot>, found: Findings)
      returns (f: Findings, bookPositions: nat)
      requires book.Valid() && Consistent(found)
      requires p.rest == rest && p.threshold == threshold
      requires SweepSoFar(p, st, w, rest.Keys, Now(), book.quotes, found.mismatches)
      requires DistinctSymbols(snaps)
      requires forall i :: 0 <= i < |snaps| ==> (snaps[i].quantity != "" <==> Open(MB.Lookup(w.positions, snaps[i].symbol)))
      modifies this`absenceCounts, book
      ensures book.Valid() && Consistent(f)
      ensures SweptUpTo(p, st, w, snaps, Now(), book.quotes, f.mismatches, bookPositions)
    {
      f, bookPositions := found, 0;
      assert rest.Keys + MB.Symbols(snaps[..0]) == rest.Keys;
      for i := 0 to |snaps|
        invariant book.Valid() && Consistent(f)
        invariant SweptUpTo(p, st, w, snaps[..i], Now(), book.quotes, f.mismatches, bookPositions)
      {
        f, bookPositions := SweepTurn(p, st, w, rest, snaps, i, f, bookPositions);
      }
      assert snaps[..|snaps|] == snaps;
    }

    /** The sweep: every snapshot of the book, in any order. */
    method Sweep(ghost p: Pass, ghost st: State, rest: map<string, RestPosition>, found: Findings) returns (f: Findings, bookPositions: nat)
      requires book.Valid() && Consistent(found)
      requires p.rest == rest && p.threshold == threshold
      requires Progress(p, st, rest.Keys, Now()) && Reports(p, st, rest.Keys, found.mismatches)
      modifies this`absenceCounts, book
      ensures book.Valid() && Consistent(f)
      ensures Passed(p, st, Now())
      ensures Reports(p, st, rest.Keys + st.positions.Keys, f.mismatches)
      ensures bookPositions == |OpenSymbols(old(book.positions))|
      ensures QuotesSwept(p, st, old(book.quotes), book.quotes)
    {
      ghost var mid, w := Now(), Swept(book.positions, book.quotes);
      var snaps := book.AllSnapshots();
      SnapshotsMatch(book.history, w.positions, w.quotes, snaps, book.parse);
      f, bookPositions := SweepLoop(p, st, w, rest, snaps, found);
      WithinAll(OpenSymbols(w.positions), MB.Symbols(snaps));
      SweepCoversAll(p, st, mid, rest.Keys + MB.Symbols(snaps), Now(), f.mismatches, w.quotes, book.quotes);
    }

    /** Duplicates in the list: the last one counts. */
    method IndexPositions(positions: seq<RestPosition>) returns (rest: map<string, RestPosition>)
      ensures rest == RestMap(positions)
    {
      rest := map[];
      for i := 0 to |positions|
        invariant rest == RestMap(positions[..i])
      {
        assert positions[..i + 1][..i] == positions[..i];
        rest := rest[positions[i].symbol := positions[i]];
      }
      assert positions[..|positions|] == positions;
    }

    method Summarise(checked: nat, bookPositions: nat, found: Findings, writeErrors: nat) returns (result: Result)
      ensures result == Conclude(checked, bookPositions, found, writeErrors > 0)
    {
      result := Result(Ok, checked, MaxInt(checked, bookPositions), found, false, "", "");
      if writeErrors > 0 {
        result := result.(status := Partial, errorText := "snapshot_write_failed");
      }
      if found.count > 0 {
        if result.status == Ok {
          result := result.(status := DriftDetected);
        }
        result := result.(recoveryTriggered := true, action := "markbook_reconciled");
      }
      if result.status == Partial && result.action == "" {
        result := result.(action := "snapshot_write_degraded");
      }
    }

    /** A pass over a list that was fetched. */
    method Reconcile(positions: seq<RestPosition>, startedAt: int, fails: string -> bool) returns (result: Result, ghost rows: seq<Row>)
      requires book.Valid()
      modifies this`absenceCounts, book, store
      ensures book.Valid()
      ensures store != null ==> store.attempts == old(store.attempts) + rows
      ensures var p := Pass(RestMap(positions), threshold, startedAt);
        && Passed(p, old(Now()), Now())
        && QuotesSwept(p, old(Now()), old(book.quotes), book.quotes)
        && Consistent(result.findings)
        && Reports(p, old(Now()), p.rest.Keys + old(book.positions).Keys, result.findings.mismatches)
        && RowsFor(p, p.rest.Keys, rows)
        && StatusTells(result, |positions|, |OpenSymbols(old(book.positions)) + p.rest.Keys|,
                       store != null && AnyFails(fails, p.rest.Keys))
    {
      var rest := IndexPositions(positions);
      ghost var p, st := Pass(rest, threshold, startedAt), Now();
      var found, writeErrors;
      found, writeErrors, rows := RestLoop(p, rest, startedAt, fails);
      RestLeavesOpen(p, st, Now());
      var bookPositions;
      found, bookPositions := Sweep(p, st, rest, found);
      result := Summarise(|positions|, bookPositions, found, writeErrors);
      ConcludeTells(|positions|, bookPositions, found, writeErrors > 0);
    }

    /** One pass. `rows` are the snapshot rows it hands to the store. */
    method RunOnce(fetch: Fetch, startedAt: int, fails: string -> bool) returns (result: Result, ghost rows: seq<Row>)
      requires book.Valid()
      modifies this`absenceCounts, this`latest, this`results, book, store
      ensures book.Valid() && Current() && results == old(results) + [result]
      ensures store != null ==> store.attempts == old(store.attempts) + rows
      ensures fetch.FetchFailed? ==>
        && Now() == old(Now()) && book.quotes == old(book.quotes) && rows == []
        && result == Result(Error, 0, 0, NONE_FOUND, false, "", fetch.text)
      ensures fetch.Fetched? ==>
        var p := Pass(RestMap(fetch.positions), threshold, startedAt);
        && Passed(p, old(Now()), Now())
        && QuotesSwept(p, old(Now()), old(book.quotes), book.quotes)
        && Consistent(result.findings)
        && Reports(p, old(Now()), p.rest.Keys + old(book.positions).Keys, result.findings.mismatches)
        && RowsFor(p, p.rest.Keys, rows)
        && StatusTells(result, |fetch.positions|, |OpenSymbols(old(book.positions)) + p.rest.Keys|,
                       store != null && exists s :: s in p.rest && fails(s))
        && (result.findings.mismatches == [] <==> NothingToRepair(p, old(Now())))
        && (result.status == Ok ==> book.positions == old(book.positions))
    {
      rows := [];
      match fetch {
        case FetchFailed(text) =>
          result := Result(Error, 0, 0, NONE_FOUND, false, "", text);
        case Fetched(positions) =>
          result, rows := Reconcile(positions, startedAt, fails);
          FoundNothingMeans(Pass(RestMap(positions), threshold, startedAt), old(Now()), Now(), result.findings.mismatches);
      }
      latest, results := Some(result), results + [result];
    }

    /** What the last pass returned, failed or not. */
    method LatestResult() returns (r: Option<Result>)
      requires Current()
      ensures r.None? <==> results == []
      ensures results != [] ==> r == Some(results[|results| - 1])
    {
      r := latest;
    }
  }

  /** What a successful pass reports: a failed snapshot write outranks drift, drift outranks ok. */
  function Conclude(checked: nat, bookPositions: nat, found: Findings, writesFailed: bool): Result {
    Result(
      if writesFailed then Partial else if found.count > 0 then DriftDetected else Ok,
      checked, MaxInt(checked, bookPositions), found,
      found.count > 0,
      if found.count > 0 then "markbook_reconciled" else if writesFailed then "snapshot_write_degraded" else "",
      if writesFailed then "snapshot_write_failed" else "")
  }

  /** What the status, the action and the counts of a fetched pass tell. */
  ghost predicate StatusTells(result: Result, checked: nat, openOrListed: nat, writesFailed: bool) {
    var found := result.findings.mismatches;
    && (result.status == Partial <==> writesFailed)
    && (result.status == DriftDetected <==> !writesFailed && found != [])
    && (result.status == Ok <==> !writesFailed && found == [])
    && (result.recoveryTriggered <==> found != [])
    && result.action == (if found != [] then "markbook_reconciled" else if writesFailed then "snapshot_write_degraded" else "")
    && result.errorText == (if writesFailed then "snapshot_write_failed" else "")
    && result.positionsChecked == checked
    && result.symbolsChecked == (if openOrListed > checked then openOrListed else checked)
  }

  lemma ConcludeTells(checked: nat, openOrListed: nat, found: Findings, writesFailed: bool)
    requires Consistent(found)
    ensures StatusTells(Conclude(checked, openOrListed, found, writesFailed), checked, openOrListed, writesFailed)
  {
    assert found.count == 0 <==> found.mismatches == [];
  }

  /** Book and list agree: each REST symbol is open, with the list's effective basis or a newer one, neither zero,
      and each open symbol is in the list. */
  ghost predicate NothingToRepair(p: Pass, st: State) {
    && (forall s :: s in p.rest ==>
          && s in st.positions && st.positions[s].quantity != "" && st.positions[s].avgOpenPrice != 0.0
          && (st.positions[s].loadedAt >= p.fetchedAt || st.positions[s].avgOpenPrice == EffectiveAvgOpen(p.rest[s])))
    && (forall s :: s in st.positions && st.positions[s].quantity != "" ==> s in p.rest)
  }

  /** A pass finds nothing exactly when there is nothing to repair, and then leaves every position alone. */
  lemma FoundNothingMeans(p: Pass, st: State, st': State, ms: seq<Mismatch>)
    requires Passed(p, st, st') && Reports(p, st, p.rest.Keys + st.positions.Keys, ms)
    ensures ms == [] <==> NothingToRepair(p, st)
    ensures ms == [] ==> st'.positions == st.positions
  {
    if ms == [] {
      forall s ensures !MismatchFor(VerdictOn(p, st, s), s).Some? {
        NoneReported(p, st, s);
      }
      NoneMismatched(p, st, st');
    } else {
      var s := ms[0].symbol;
      assert MismatchFor(VerdictOn(p, st, s), s) == Some(ms[0]);
      MismatchedNeedsRepair(p, st, s);
    }
  }

  lemma NoneReported(p: Pass, st: State, s: string)
    requires Reports(p, st, p.rest.Keys + st.positions.Keys, [])
    ensures MismatchFor(VerdictOn(p, st, s), s).None?
  {
    if s in p.rest.Keys + st.positions.Keys {
      assert s !in SymbolsOf([]);
    }
  }

  lemma NoneMismatched(p: Pass, st: State, st': State)
    requires Passed(p, st, st') && forall s :: MismatchFor(VerdictOn(p, st, s), s).None?
    ensures NothingToRepair(p, st) && st'.positions == st.positions
  {
    forall s ensures MB.Lookup(st'.positions, s) == MB.Lookup(st.positions, s) {
      assert SymbolDone(p, st, st', s) && MismatchFor(VerdictOn(p, st, s), s).None?;
    }
    SamePositions(st.positions, st'.positions);
    forall s | s in p.rest
      ensures s in st.positions && st.positions[s].quantity != "" && st.positions[s].avgOpenPrice != 0.0
      ensures st.positions[s].loadedAt >= p.fetchedAt || st.positions[s].avgOpenPrice == EffectiveAvgOpen(p.rest[s])
    {
      assert MismatchFor(VerdictOn(p, st, s), s).None?;
    }
    forall s | s in st.positions && st.positions[s].quantity != "" ensures s in p.rest {
      assert MismatchFor(VerdictOn(p, st, s), s).None?;
    }
  }

  lemma SamePositions(a: Positions, b: Positions)
    requires forall s :: MB.Lookup(a, s) == MB.Lookup(b, s)
    ensures a == b
  {
    forall s ensures s in a <==> s in b {
      assert MB.Lookup(a, s) == MB.Lookup(b, s);
    }
    forall s | s in a ensures a[s] == b[s] {
      assert MB.Lookup(a, s) == MB.Lookup(b, s);
    }
  }

  lemma MismatchedNeedsRepair(p: Pass, st: State, s: string)
    requires MismatchFor(VerdictOn(p, st, s), s).Some?
    ensures !NothingToRepair(p, st)
  {
  }

  /** Which mismatch is reported for a symbol, and with what action. */
  lemma MismatchMeans(p: Pass, st: State, s: string)
    ensures var (m, isOpen) := (MismatchFor(VerdictOn(p, st, s), s), s in st.positions && st.positions[s].quantity != "");
      && (m == Some(Mismatch(s, MissingInMarkBook, LoadPositionAction)) <==> s in p.rest && !isOpen)
      && (m == Some(Mismatch(s, AvgOpenDrift, LoadPositionAction)) <==> s in p.rest && isOpen && Drifted(p, st.positions[s], s))
      && (m == Some(Mismatch(s, AbsentFromRest, RemovePositionAction)) <==> s !in p.rest && isOpen && Absences(st, s) + 1 >= p.threshold)
      && (m == Some(Mismatch(s, AbsencePending, AwaitConfirmation)) <==> s !in p.rest && isOpen && Absences(st, s) + 1 < p.threshold)
      && (m.Some? ==> m.value.symbol == s)
  {
  }

  /** The entry has no cost basis, or is older than the fetch and has another than the list. */
  predicate Drifted(p: Pass, entry: MB.PositionInfo, s: string)
    requires s in p.rest
  {
    entry.avgOpenPrice == 0.0 || (entry.loadedAt < p.fetchedAt && entry.avgOpenPrice != EffectiveAvgOpen(p.rest[s]))
  }

  function Absences(st: State, s: string): nat {
    if s in st.counts then st.counts[s] else 0
  }

  /** What a pass makes of a symbol's absences: none once listed or removed, one more while open and unlisted. */
  lemma AbsencesMean(p: Pass, st: State, st': State, s: string)
    requires Passed(p, st, st')
    ensures s in p.rest ==> s !in st'.counts
    ensures s !in p.rest && s in st.positions && st.positions[s].quantity != "" ==>
      if Absences(st, s) + 1 >= p.threshold then s !in st'.positions && s !in st'.counts
      else s in st'.counts && st'.counts[s] == Absences(st, s) + 1 && MB.Lookup(st'.positions, s) == Some(st.positions[s])
    ensures s !in p.rest && !(s in st.positions && st.positions[s].quantity != "") ==>
      MB.Lookup(st'.positions, s) == MB.Lookup(st.positions, s) && Absences(st', s) == Absences(st, s)
  {
    assert SymbolDone(p, st, st', s);
  }

  /** What a pass loads is the list's position, with the open price, or the close price when that is zero. */
  lemma LoadedMeans(p: Pass, st: State, st': State, s: string)
    requires Passed(p, st, st') && s in p.rest && MB.Lookup(st'.positions, s) != MB.Lookup(st.positions, s)
    ensures s in st'.positions
    ensures var (e, r) := (st'.positions[s], p.rest[s]);
      && e.accountNumber == r.accountNumber && e.quantity == r.quantity && e.quantityDirection == r.quantityDirection
      && e.loadedAt >= p.fetchedAt
      && (r.averageOpenPrice != 0.0 ==> e.avgOpenPrice == r.averageOpenPrice)
      && (r.averageOpenPrice == 0.0 ==> e.avgOpenPrice == r.closePrice)
  {
    assert SymbolDone(p, st, st', s);
  }

  /** The row recorded for a symbol, made of the same list entry and dated by the fetch. */
  lemma RowMeans(p: Pass, done: set<string>, rows: seq<Row>, i: nat)
    requires RowsFor(p, done, rows) && i < |rows|
    ensures rows[i].symbol in p.rest
    ensures var (row, r) := (rows[i], p.rest[rows[i].symbol]);
      && row == Row(r.symbol, r.accountNumber, r.quantity, r.quantityDirection, row.avgOpenPrice, r.closePrice, p.fetchedAt)
      && row.avgOpenPrice == if r.averageOpenPrice != 0.0 then r.averageOpenPrice else r.closePrice
  {
  }

  /** Of several list entries for one symbol the last counts. */
  lemma {:induction false} RestMapMeans(positions: seq<RestPosition>, i: nat)
    requires i < |positions| && forall j :: i < j < |positions| ==> positions[j].symbol != positions[i].symbol
    ensures positions[i].symbol in RestMap(positions) && RestMap(positions)[positions[i].symbol] == positions[i]
  {
    var n := |positions| - 1;
    if i < n {
      assert positions[..n][i] == positions[i] && forall j :: i < j < n ==> positions[..n][j] == positions[j];
      RestMapMeans(positions[..n], i);
    }
  }

  lemma {:induction false} RestMapHasNoOther(positions: seq<RestPosition>, s: string)
    requires s in RestMap(positions)
    ensures RestMap(positions)[s] in positions && RestMap(positions)[s].symbol == s
  {
    var n := |positions| - 1;
    if positions[n].symbol != s {
      RestMapHasNoOther(positions[..n], s);
    }
  }

  lemma RestLeavesOpen(p: Pass, st: State, mid: State)
    requires Progress(p, st, p.rest.Keys, mid)
    ensures OpenSymbols(mid.positions) == OpenSymbols(st.positions) + p.rest.Keys
  {
    forall s ensures s in OpenSymbols(mid.positions) <==> s in OpenSymbols(st.positions) + p.rest.Keys {
      assert if s in p.rest.Keys then SymbolDone(p, st, mid, s) else SymbolUnchanged(st, mid, s);
      assert s in OpenSymbols(mid.positions) <==> Open(MB.Lookup(mid.positions, s));
      assert s in OpenSymbols(st.positions) <==> Open(MB.Lookup(st.positions, s));
    }
  }

  ghost predicate DistinctSymbols(snaps: seq<MB.Snapshot>) {
    forall j, k :: 0 <= j < k < |snaps| ==> snaps[j].symbol != snaps[k].symbol
  }

  /** The book as the sweep found it. */
  datatype Swept = Swept(positions: Positions, quotes: map<string, MB.QuoteInfo>)

  ghost predicate SweepSoFar(p: Pass, st: State, w: Swept, done: set<string>, now: State, quotes: map<string, MB.QuoteInfo>, ms: seq<Mismatch>) {
    Progress(p, st, done, now) && Reports(p, st, done, ms) && SweptSoFar(p, st, w.positions, w.quotes, done, now.positions, quotes)
  }

  /** The sweep is past these snapshots, having counted the open ones. */
  ghost predicate SweptUpTo(p: Pass, st: State, w: Swept, snaps: seq<MB.Snapshot>, now: State, quotes: map<string, MB.QuoteInfo>,
      ms: seq<Mismatch>, bookPositions: nat)
  {
    && SweepSoFar(p, st, w, p.rest.Keys + MB.Symbols(snaps), now, quotes, ms)
    && bookPositions == |OpenSymbols(w.positions) * MB.Symbols(snaps)|
  }

  /** Positions and quotes while the sweep has reached `done`: those of removed symbols are gone. */
  ghost predicate SweptSoFar(p: Pass, st: State, positions: Positions, quotes: map<string, MB.QuoteInfo>, done: set<string>,
      positions': Positions, quotes': map<string, MB.QuoteInfo>)
  {
    forall s :: var gone := s in done && s !in p.rest && VerdictOn(p, st, s).Removed?;
      && MB.Lookup(positions', s) == (if gone then None else MB.Lookup(positions, s))
      && MB.Lookup(quotes', s) == (if gone then None else MB.Lookup(quotes, s))
  }

  /** The quotes of removed symbols are gone, the others as they were. */
  ghost predicate QuotesSwept(p: Pass, st: State, before: map<string, MB.QuoteInfo>, after: map<string, MB.QuoteInfo>) {
    forall s :: MB.Lookup(after, s) == if s !in p.rest && VerdictOn(p, st, s).Removed? then None else MB.Lookup(before, s)
  }

  /** The snapshots taken are of exactly the symbols in the book, with the book's quantities. */
  lemma SnapshotsMatch(h: seq<MB.Op>, positions: Positions, quotes: map<string, MB.QuoteInfo>, snaps: seq<MB.Snapshot>, parse: MB.Parser)
    requires forall s :: MB.Lookup(positions, s) == MB.PositionOf(h, s)
    requires forall s :: MB.Lookup(quotes, s) == MB.QuoteOf(h, s)
    requires forall i :: 0 <= i < |snaps| ==> snaps[i] == MB.SnapshotFrom(parse, h, snaps[i].symbol)
    requires forall s :: MB.Live(h, s) <==> s in MB.Symbols(snaps)
    ensures MB.Symbols(snaps) == positions.Keys + quotes.Keys
    ensures forall i :: 0 <= i < |snaps| ==> (snaps[i].quantity != "" <==> Open(MB.Lookup(positions, snaps[i].symbol)))
  {
    forall s ensures s in MB.Symbols(snaps) <==> s in positions.Keys + quotes.Keys {
      assert MB.Lookup(positions, s) == MB.PositionOf(h, s) && MB.Lookup(quotes, s) == MB.QuoteOf(h, s);
    }
    forall i | 0 <= i < |snaps| ensures snaps[i].quantity != "" <==> Open(MB.Lookup(positions, snaps[i].symbol)) {
      assert MB.Lookup(positions, snaps[i].symbol) == MB.PositionOf(h, snaps[i].symbol);
    }
  }

  lemma SweptOneMore(p: Pass, st: State, positions: Positions, quotes: map<string, MB.QuoteInfo>, done: set<string>,
      before: Positions, beforeQuotes: map<string, MB.QuoteInfo>, sym: string, after: Positions, afterQuotes: map<string, MB.QuoteInfo>)
    requires SweptSoFar(p, st, positions, quotes, done, before, beforeQuotes)
    requires var gone := sym !in p.rest && VerdictOn(p, st, sym).Removed?;
      && after == (if gone then before - {sym} else before)
      && afterQuotes == (if gone then beforeQuotes - {sym} else beforeQuotes)
    ensures SweptSoFar(p, st, positions, quotes, done + {sym}, after, afterQuotes)
  {
    forall s ensures var gone := s in done + {sym} && s !in p.rest && VerdictOn(p, st, s).Removed?;
      && MB.Lookup(after, s) == (if gone then None else MB.Lookup(positions, s))
      && MB.Lookup(afterQuotes, s) == (if gone then None else MB.Lookup(quotes, s))
    {
      assert MB.Lookup(before, s) == if s in done && s !in p.rest && VerdictOn(p, st, s).Removed? then None else MB.Lookup(positions, s);
    }
  }

  lemma CountOneMore(positions: Positions, seen: set<string>, sym: string)
    requires sym !in seen
    ensures |OpenSymbols(positions) * (seen + {sym})| == |OpenSymbols(positions) * seen| + if Open(MB.Lookup(positions, sym)) then 1 else 0
  {
    var listed := OpenSymbols(positions);
    if Open(MB.Lookup(positions, sym)) {
      assert listed * (seen + {sym}) == listed * seen + {sym};
    } else {
      assert listed * (seen + {sym}) == listed * seen;
    }
  }

  /** What the sweep never saw was neither listed by REST nor in the book, and needs nothing. */
  lemma SweepCoversAll(p: Pass, st: State, mid: State, done: set<string>, now: State, ms: seq<Mismatch>,
      quotes: map<string, MB.QuoteInfo>, quotes': map<string, MB.QuoteInfo>)
    requires done == p.rest.Keys + (mid.positions.Keys + quotes.Keys)
    requires Progress(p, st, p.rest.Keys, mid) && Progress(p, st, done, now) && Reports(p, st, done, ms)
    requires SweptSoFar(p, st, mid.positions, quotes, done, now.positions, quotes')
    ensures Passed(p, st, now) && Reports(p, st, p.rest.Keys + st.positions.Keys, ms) && QuotesSwept(p, st, quotes, quotes')
  {
    UnseenIsDone(p, st, mid, done, now);
    UnseenIsUnreported(p, st, mid, done, ms);
    UnseenHasNoQuote(p, st, mid.positions, done, now.positions, quotes, quotes');
  }

  lemma UnseenIsDone(p: Pass, st: State, mid: State, done: set<string>, now: State)
    requires p.rest.Keys + mid.positions.Keys <= done
    requires Progress(p, st, p.rest.Keys, mid) && Progress(p, st, done, now)
    ensures Passed(p, st, now)
  {
    forall s ensures SymbolDone(p, st, now, s) {
      if s !in done {
        assert SymbolUnchanged(st, mid, s) && SymbolUnchanged(st, now, s);
      }
    }
  }

  lemma UnseenIsUnreported(p: Pass, st: State, mid: State, done: set<string>, ms: seq<Mismatch>)
    requires p.rest.Keys + mid.positions.Keys <= done
    requires Progress(p, st, p.rest.Keys, mid) && Reports(p, st, done, ms)
    ensures Reports(p, st, p.rest.Keys + st.positions.Keys, ms)
  {
    forall s | s !in p.rest ensures s in st.positions <==> s in mid.positions {
      assert SymbolUnchanged(st, mid, s);
    }
  }

  lemma UnseenHasNoQuote(p: Pass, st: State, positions: Positions, done: set<string>, positions': Positions,
      quotes: map<string, MB.QuoteInfo>, quotes': map<string, MB.QuoteInfo>)
    requires quotes.Keys <= done && SweptSoFar(p, st, positions, quotes, done, positions', quotes')
    ensures QuotesSwept(p, st, quotes, quotes')
  {
    forall s ensures MB.Lookup(quotes', s) == if s !in p.rest && VerdictOn(p, st, s).Removed? then None else MB.Lookup(quotes, s) {
      assert s !in done ==> MB.Lookup(quotes, s) == None;
    }
  }

  lemma ProgressOneMore(p: Pass, st: State, done: set<string>, before: State, sym: string, after: State)
    requires Progress(p, st, done, before) && sym !in done
    requires SymbolDone(p, before, after, sym)
    requires before.positions - {sym} == after.positions - {sym} && before.counts - {sym} == after.counts - {sym}
    ensures Progress(p, st, done + {sym}, after)
  {
    assert SymbolUnchanged(st, before, sym);
    forall s ensures if s in done + {sym} then SymbolDone(p, st, after, s) else SymbolUnchanged(st, after, s) {
      if s != sym {
        assert MB.Lookup(before.positions, s) == MB.Lookup(before.positions - {sym}, s) == MB.Lookup(after.positions, s);
        assert MB.Lookup(before.counts, s) == MB.Lookup(before.counts - {sym}, s) == MB.Lookup(after.counts, s);
        assert if s in done then SymbolDone(p, st, before, s) else SymbolUnchanged(st, before, s);
      }
    }
  }

  lemma SkipKeepsAll(p: Pass, st: State, done: set<string>, now: State, ms: seq<Mismatch>, sym: string)
    requires Progress(p, st, done, now) && Reports(p, st, done, ms) && sym !in done
    requires !Open(MB.Lookup(now.positions, sym)) && p.rest.Keys <= done
    ensures Progress(p, st, done + {sym}, now) && Reports(p, st, done + {sym}, ms)
    ensures !VerdictOn(p, st, sym).Removed?
  {
    assert SymbolUnchanged(st, now, sym);
    ProgressOneMore(p, st, done, now, sym, now);
    ReportsOneMore(p, st, done, ms, sym);
    assert ms + [] == ms;
  }

  lemma OneFewer(all: set<string>, todo: set<string>, sym: string)
    requires sym in todo && todo <= all
    ensures all - (todo - {sym}) == all - todo + {sym}
  {
  }

  lemma WithinAll(part: set<string>, all: set<string>)
    requires part <= all
    ensures part * all == part
  {
  }

  lemma SweepBookkeeping(keys: set<string>, snaps: seq<MB.Snapshot>, i: nat)
    requires i < |snaps|
    requires DistinctSymbols(snaps)
    ensures MB.Symbols(snaps[..i + 1]) == MB.Symbols(snaps[..i]) + {snaps[i].symbol}
    ensures keys + MB.Symbols(snaps[..i + 1]) == keys + MB.Symbols(snaps[..i]) + {snaps[i].symbol}
    ensures snaps[i].symbol !in MB.Symbols(snaps[..i])
  {
    assert snaps[..i + 1] == snaps[..i] + [snaps[i]];
    MB.SymbolsPlus(snaps[..i], snaps[i]);
  }

  predicate AnyFails(fails: string -> bool, done: set<string>) {
    exists s :: s in done && fails(s)
  }

  ghost predicate RestSoFar(p: Pass, st: State, done: set<string>, now: State, ms: seq<Mismatch>, rows: seq<Row>) {
    Progress(p, st, done, now) && Reports(p, st, done, ms) && RowsFor(p, done, rows)
  }

  lemma AnyFailsOneMore(fails: string -> bool, done: set<string>, sym: string)
    ensures AnyFails(fails, done + {sym}) <==> AnyFails(fails, done) || fails(sym)
  {
    if AnyFails(fails, done) {
      var s :| s in done && fails(s);
      assert s in done + {sym};
    }
    assert sym in done + {sym};
  }

  /** A REST symbol that the loop had not reached is settled: one round of the first loop. */
  lemma RestOneMore(p: Pass, st: State, done: set<string>, before: State, ms: seq<Mismatch>, rows: seq<Row>, sym: string, after: State)
    requires RestSoFar(p, st, done, before, ms, rows)
    requires sym !in done && sym in p.rest && p.rest[sym].symbol == sym
    requires EntryAfter(Judge(Some(p.rest[sym]), MB.Lookup(before.positions, sym), 0, p.threshold, p.fetchedAt),
                        Some(p.rest[sym]), MB.Lookup(before.positions, sym), p.fetchedAt, MB.Lookup(after.positions, sym))
    requires after.positions - {sym} == before.positions - {sym} && after.counts == before.counts - {sym}
    ensures var m := MismatchFor(Judge(Some(p.rest[sym]), MB.Lookup(before.positions, sym), 0, p.threshold, p.fetchedAt), sym);
      RestSoFar(p, st, done + {sym}, after, ms + if m.Some? then [m.value] else [], rows + [RowFor(p.rest[sym], p.fetchedAt)])
  {
    assert SymbolUnchanged(st, before, sym);
    ProgressOneMore(p, st, done, before, sym, after);
    ReportsOneMore(p, st, done, ms, sym);
    RowsOneMore(p, done, rows, sym);
  }

  lemma RowsOneMore(p: Pass, done: set<string>, rows: seq<Row>, sym: string)
    requires RowsFor(p, done, rows) && sym !in done && sym in p.rest && p.rest[sym].symbol == sym
    ensures RowsFor(p, done + {sym}, rows + [RowFor(p.rest[sym], p.fetchedAt)])
  {
  }
}
