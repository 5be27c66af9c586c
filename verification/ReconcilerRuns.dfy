/** What holds of reconciler passes over time: the outcome does not depend on iteration order, drift
    dies out, and a symbol is removed exactly for staying absent, whatever the streamer does between
    and during passes. */
module ReconcilerRuns {
  import opened Common
  import opened Reconciler
  import MB = MarkBook
  import Ordering

  // ---- One pass ----

  function Undated(entry: Option<MB.PositionInfo>): Option<MB.PositionInfo> {
    if entry.Some? then Some(entry.value.(loadedAt := 0)) else None
  }

  lemma ReportMembers(p: Pass, st: State, done: set<string>, ms: seq<Mismatch>, m: Mismatch)
    requires Reports(p, st, done, ms)
    ensures m in ms <==> m.symbol in done && MismatchFor(VerdictOn(p, st, m.symbol), m.symbol) == Some(m)
  {
    if m.symbol in done && MismatchFor(VerdictOn(p, st, m.symbol), m.symbol) == Some(m) {
      assert m.symbol in SymbolsOf(ms);
      var i :| 0 <= i < |ms| && ms[i].symbol == m.symbol;
      assert ms[i] == m;
    }
  }

  /** Any two ways of walking the maps leave the same book up to load times, the same counts and the
      same mismatches. */
  lemma PassIsDetermined(p: Pass, st: State, a: State, b: State, ms: seq<Mismatch>, ns: seq<Mismatch>, done: set<string>)
    requires Passed(p, st, a) && Passed(p, st, b)
    requires Reports(p, st, done, ms) && Reports(p, st, done, ns)
    ensures forall s :: Undated(MB.Lookup(a.positions, s)) == Undated(MB.Lookup(b.positions, s))
    ensures a.counts == b.counts
    ensures multiset(ms) == multiset(ns)
  {
    forall s ensures Undated(MB.Lookup(a.positions, s)) == Undated(MB.Lookup(b.positions, s))
      && MB.Lookup(a.counts, s) == MB.Lookup(b.counts, s)
    {
      assert SymbolDone(p, st, a, s) && SymbolDone(p, st, b, s);
    }
    SameLookups(a.counts, b.counts);
    forall m: Mismatch ensures multiset(ms)[m] == multiset(ns)[m] {
      ReportMembers(p, st, done, ms, m);
      ReportMembers(p, st, done, ns, m);
      Ordering.OnceEach(ms, m);
      Ordering.OnceEach(ns, m);
    }
  }

  lemma SameLookups(a: Counts, b: Counts)
    requires forall s :: MB.Lookup(a, s) == MB.Lookup(b, s)
    ensures a == b
  {
    forall s ensures s in a <==> s in b {
      assert MB.Lookup(a, s) == MB.Lookup(b, s);
    }
    forall s | s in a ensures a[s] == b[s] {
      assert MB.Lookup(a, s) == MB.Lookup(b, s);
    }
  }

  /** After a pass every REST symbol is open with its effective cost basis, except an entry loaded at
      or after the fetch with a non-zero basis, which is as it was; and its absences are forgotten. */
  lemma RestSymbolsRepaired(p: Pass, st: State, st': State, s: string)
    requires Passed(p, st, st') && s in p.rest
    ensures s in st'.positions && st'.positions[s].quantity != "" && s !in st'.counts
    ensures VerdictOn(p, st, s).Untouched? ==> st'.positions[s] == st.positions[s]
    ensures !VerdictOn(p, st, s).Untouched? ==> st'.positions[s].avgOpenPrice == EffectiveAvgOpen(p.rest[s])
    ensures VerdictOn(p, st, s).Untouched? <==>
      s in st.positions && st.positions[s].quantity != "" && st.positions[s].loadedAt >= p.fetchedAt && st.positions[s].avgOpenPrice != 0.0
  {
    assert SymbolDone(p, st, st', s);
  }

  /** Only cost basis and presence are repaired: a quantity that differs with an equal basis stays. */
  lemma QuantityDriftStays(p: Pass, st: State, st': State, s: string)
    requires Passed(p, st, st') && s in p.rest && s in st.positions && st.positions[s].quantity != ""
    requires st.positions[s].avgOpenPrice == EffectiveAvgOpen(p.rest[s]) && EffectiveAvgOpen(p.rest[s]) != 0.0
    ensures MB.Lookup(st'.positions, s) == Some(st.positions[s])
  {
    assert SymbolDone(p, st, st', s);
  }

  // ---- What becomes of newer streamer events ----

  /** What would have to hold for the pass to leave the symbol's open entry alone, if it is newer. */
  predicate SparesNewer(p: Pass, st: State, s: string)
    requires s in st.positions
  {
    if s in p.rest then st.positions[s].avgOpenPrice != 0.0
    else MB.GetOr(MB.Lookup(st.counts, s), 0) + 1 < p.threshold
  }

  /** The package comment says an entry that the streamer loaded after the fetch began is left intact. It is
      exactly when it has a cost basis, if REST lists the symbol, and exactly when this absence does not
      reach the threshold, if REST does not. Otherwise the fetched position replaces it, or it is removed;
      the two sides can be told apart unless the fetched position says the same. */
  lemma NewerEntryKeptIff(p: Pass, st: State, st': State, s: string)
    requires Passed(p, st, st')
    requires s in st.positions && st.positions[s].quantity != "" && st.positions[s].loadedAt >= p.fetchedAt
    ensures SparesNewer(p, st, s) ==> MB.Lookup(st'.positions, s) == Some(st.positions[s])
    ensures !SparesNewer(p, st, s) ==>
      if s in p.rest then s in st'.positions && st'.positions[s] == Loaded(p.rest[s], st'.positions[s].loadedAt)
      else s !in st'.positions
    ensures (s in p.rest ==> st.positions[s] != Loaded(p.rest[s], st.positions[s].loadedAt)) ==>
      (MB.Lookup(st'.positions, s) == Some(st.positions[s]) <==> SparesNewer(p, st, s))
  {
    assert SymbolDone(p, st, st', s);
    assert Open(MB.Lookup(st.positions, s));
  }

  /** A symbol the streamer closed stays closed exactly when REST does not list it; otherwise the fetched
      position is loaded as if it had been missing. */
  lemma CloseKeptIff(p: Pass, st: State, st': State, s: string)
    requires Passed(p, st, st') && !Open(MB.Lookup(st.positions, s))
    ensures !Open(MB.Lookup(st'.positions, s)) <==> s !in p.rest
    ensures s in p.rest ==> s in st'.positions && st'.positions[s] == Loaded(p.rest[s], st'.positions[s].loadedAt)
  {
    assert SymbolDone(p, st, st', s);
  }

  /** The position consumer always loads a zero basis, so what the streamer loads during a fetch that lists the
      symbol is always replaced by the fetched position. */
  lemma StreamerLoadDuringFetchIsReplaced()
    ensures var rest := RestPosition("SPY", "A", "10", "Long", 0.0, 5.0);
      var newer := MB.PositionInfo("A", "20", "Long", 0.0, 7);
      var p := Pass(map["SPY" := rest], 2, 6);
      forall st' :: Passed(p, State(map["SPY" := newer], map[]), st') ==> "SPY" in st'.positions && st'.positions["SPY"].quantity == "10"
  {
    var rest := RestPosition("SPY", "A", "10", "Long", 0.0, 5.0);
    var newer := MB.PositionInfo("A", "20", "Long", 0.0, 7);
    var (p, st) := (Pass(map["SPY" := rest], 2, 6), State(map["SPY" := newer], map[]));
    forall st' | Passed(p, st, st') ensures "SPY" in st'.positions && st'.positions["SPY"].quantity == "10" {
      NewerEntryKeptIff(p, st, st', "SPY");
    }
  }

  /** And one that a fetch does not list is removed although it is newer, with a basis or without, when an
      absence was counted before the streamer closed and opened it again. */
  lemma StreamerLoadDuringFetchIsRemoved(basis: real)
    ensures var newer := MB.PositionInfo("A", "20", "Long", basis, 7);
      forall st' :: Passed(Pass(map[], 2, 6), State(map["SPY" := newer], map["SPY" := 1]), st') ==> "SPY" !in st'.positions
  {
    var newer := MB.PositionInfo("A", "20", "Long", basis, 7);
    var (p, st) := (Pass(map[], 2, 6), State(map["SPY" := newer], map["SPY" := 1]));
    forall st' | Passed(p, st, st') ensures "SPY" !in st'.positions {
      NewerEntryKeptIff(p, st, st', "SPY");
    }
  }

  // ---- Passes in a row over an unchanging list, with a quiet streamer ----

  ghost predicate Chain(sts: seq<State>, ps: seq<Pass>, rest: map<string, RestPosition>, threshold: nat) {
    && |sts| == |ps| + 1
    && (forall i :: 0 <= i < |ps| ==> ps[i].rest == rest && ps[i].threshold == threshold)
    && (forall i :: 0 <= i < |ps| ==> Passed(ps[i], sts[i], sts[i + 1]))
  }

  ghost predicate Settled(rest: map<string, RestPosition>, st: State) {
    forall s :: s in rest ==>
      s in st.positions && st.positions[s].quantity != "" && st.positions[s].avgOpenPrice == EffectiveAvgOpen(rest[s])
  }

  lemma FirstPassSettles(p: Pass, st: State, st': State)
    requires Passed(p, st, st')
    requires forall s :: s in p.rest && s in st.positions ==> st.positions[s].loadedAt < p.fetchedAt
    ensures Settled(p.rest, st')
  {
    forall s | s in p.rest ensures s in st'.positions && st'.positions[s].quantity != ""
      && st'.positions[s].avgOpenPrice == EffectiveAvgOpen(p.rest[s])
    {
      RestSymbolsRepaired(p, st, st', s);
    }
  }

  ghost predicate NonZeroBases(rest: map<string, RestPosition>) {
    forall s :: s in rest ==> EffectiveAvgOpen(rest[s]) != 0.0
  }

  lemma SettledStays(p: Pass, st: State, st': State)
    requires Passed(p, st, st') && Settled(p.rest, st) && NonZeroBases(p.rest)
    ensures Settled(p.rest, st')
  {
    forall s | s in p.rest ensures s in st'.positions && st'.positions[s].quantity != ""
      && st'.positions[s].avgOpenPrice == EffectiveAvgOpen(p.rest[s])
    {
      QuantityDriftStays(p, st, st', s);
    }
  }

  lemma {:induction false} SettledFrom(sts: seq<State>, ps: seq<Pass>, rest: map<string, RestPosition>, threshold: nat, i: nat)
    requires Chain(sts, ps, rest, threshold) && NonZeroBases(rest) && 1 <= i < |sts|
    requires forall s :: s in rest && s in sts[0].positions ==> sts[0].positions[s].loadedAt < ps[0].fetchedAt
    ensures Settled(rest, sts[i])
  {
    if i == 1 {
      FirstPassSettles(ps[0], sts[0], sts[1]);
    } else {
      SettledFrom(sts, ps, rest, threshold, i - 1);
      SettledStays(ps[i - 1], sts[i - 1], sts[i]);
    }
  }

  function Remaining(st: State, threshold: nat, s: string): int {
    threshold - MB.GetOr(MB.Lookup(st.counts, s), 0)
  }

  /** A book-only symbol still open after `i` passes has used up `i` of its threshold. */
  lemma {:induction false} AbsencesUsedUp(sts: seq<State>, ps: seq<Pass>, rest: map<string, RestPosition>, threshold: nat, i: nat, s: string)
    requires Chain(sts, ps, rest, threshold) && i < |sts| && s !in rest && Open(MB.Lookup(sts[i].positions, s))
    ensures Remaining(sts[i], threshold, s) <= threshold - i
    ensures i > 0 ==> 0 < Remaining(sts[i], threshold, s)
  {
    if i > 0 {
      assert SymbolDone(ps[i - 1], sts[i - 1], sts[i], s);
      AbsencesUsedUp(sts, ps, rest, threshold, i - 1, s);
    }
  }

  /** Pass `threshold + 1` and every later one find nothing to report. */
  lemma DriftDiesOut(sts: seq<State>, ps: seq<Pass>, rest: map<string, RestPosition>, threshold: nat, i: nat, ms: seq<Mismatch>, done: set<string>)
    requires Chain(sts, ps, rest, threshold) && NonZeroBases(rest) && 1 <= threshold <= i < |ps|
    requires forall s :: s in rest && s in sts[0].positions ==> sts[0].positions[s].loadedAt < ps[0].fetchedAt
    requires Reports(ps[i], sts[i], done, ms)
    ensures ms == []
    ensures forall checked, bookPositions, found: Findings ::
      found.mismatches == ms && Consistent(found) ==> Conclude(checked, bookPositions, found, false).status == Ok
  {
    if ms != [] {
      var s := ms[0].symbol;
      if s in rest {
        SettledFrom(sts, ps, rest, threshold, i);
      } else {
        AbsencesUsedUp(sts, ps, rest, threshold, i, s);
      }
      assert false;
    }
  }
}
