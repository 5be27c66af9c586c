/** Reconciler passes interleaved with the account streamer. A pass is a fetch, one step for each REST
    symbol, a snapshot of the book, and one step for each open symbol of that snapshot; opens, changes
    and closes may fall between any two of these steps, and fetches may fail between passes. */
module AbsenceProtocol {
  import opened Common
  import opened Reconciler
  import MB = MarkBook

  /** A finished pass: the REST symbols, the symbols open when the book was snapshotted, those removed. */
  datatype Record = Record(rest: set<string>, open: set<string>, removed: set<string>)

  datatype Phase =
    | Idle
    | Resting(rest: map<string, RestPosition>, fetchedAt: int, todo: set<string>)
    | Sweeping(rest: map<string, RestPosition>, open: set<string>, todo: set<string>, removed: set<string>)

  datatype System = System(st: State, phase: Phase, log: seq<Record>)

  datatype Action =
    | StreamerLoads(symbol: string, position: MB.PositionInfo)
    | StreamerCloses(symbol: string)
    | FetchFails
    | FetchOk(fetched: map<string, RestPosition>, at: int)
    | RestSymbol(symbol: string, after: State)
    | SnapshotBook
    | SweepSymbol(symbol: string)
    | Finish

  function Count(st: State, s: string): nat {
    MB.GetOr(MB.Lookup(st.counts, s), 0)
  }

  ghost predicate Step(y: System, threshold: nat, a: Action, y': System) {
    match a
    case StreamerLoads(s, position) => y' == y.(st := y.st.(positions := y.st.positions[s := position]))
    case StreamerCloses(s) => y' == y.(st := y.st.(positions := y.st.positions - {s}))
    case FetchFails => y.phase.Idle? && y' == y
    case FetchOk(rest, at) => y.phase.Idle? && y' == y.(phase := Resting(rest, at, rest.Keys))
    case RestSymbol(s, after) =>
      && y.phase.Resting? && s in y.phase.todo && s in y.phase.rest
      && SymbolDone(Pass(y.phase.rest, threshold, y.phase.fetchedAt), y.st, after, s)
      && after.positions - {s} == y.st.positions - {s} && after.counts == y.st.counts - {s}
      && y' == y.(st := after, phase := Resting(y.phase.rest, y.phase.fetchedAt, y.phase.todo - {s}))
    case SnapshotBook =>
      && y.phase.Resting? && y.phase.todo == {}
      && var listed := OpenSymbols(y.st.positions);
      y' == y.(phase := Sweeping(y.phase.rest, listed, listed - y.phase.rest.Keys, {}))
    case SweepSymbol(s) =>
      && y.phase.Sweeping? && s in y.phase.todo
      && var count := Count(y.st, s) + 1;
      var removes := count >= threshold;
      y' == System(
        if removes then State(y.st.positions - {s}, y.st.counts - {s}) else State(y.st.positions, y.st.counts[s := count]),
        Sweeping(y.phase.rest, y.phase.open, y.phase.todo - {s}, y.phase.removed + if removes then {s} else {}),
        y.log)
    case Finish =>
      && y.phase.Sweeping? && y.phase.todo == {}
      && y' == System(y.st, Idle, y.log + [Record(y.phase.rest.Keys, y.phase.open, y.phase.removed)])
  }

  // ---- Reading the log of passes ----

  /** How many passes in a row, up to the last, lacked the symbol. */
  ghost function Absences(log: seq<Record>, s: string): nat {
    if log == [] || s in log[|log| - 1].rest then 0 else Absences(log[..|log| - 1], s) + 1
  }

  ghost predicate Spared(r: Record, s: string) {
    s !in r.rest && s in r.open && s !in r.removed
  }

  /** How many passes in a row, up to the last, lacked the symbol, found it open, and left it. */
  ghost function Streak(log: seq<Record>, s: string): nat {
    if log == [] || !Spared(log[|log| - 1], s) then 0 else Streak(log[..|log| - 1], s) + 1
  }

  ghost predicate GoodLog(log: seq<Record>, threshold: nat) {
    && (forall k, s :: 0 <= k < |log| && s in log[k].removed ==> Absences(log[..k + 1], s) >= threshold)
    && (forall k, s :: 0 <= k <= |log| ==> Streak(log[..k], s) < threshold)
  }

  // ---- The invariant ----

  ghost predicate CountOk(y: System, threshold: nat, s: string) {
    var (n, c) := (Absences(y.log, s), Count(y.st, s));
    && (s in y.st.counts ==> 0 < y.st.counts[s] < threshold)
    && match y.phase
       case Idle => c <= n && Streak(y.log, s) <= c
       case Resting(rest, _, todo) =>
         && (s in rest && s !in todo ==> s !in y.st.counts)
         && c <= n && (s !in rest ==> Streak(y.log, s) <= c)
       case Sweeping(rest, open, todo, removed) =>
         && (s in rest ==> s !in y.st.counts)
         && (if s in todo then s !in rest && s in open && s !in removed && c <= n && Streak(y.log, s) <= c
             else
               && c <= n + 1 && (s in removed ==> s !in rest && s in open && threshold <= n + 1)
               && (s !in rest && s in open && s !in removed ==> Streak(y.log, s) + 1 <= c))
  }

  ghost predicate Inv(y: System, threshold: nat) {
    && threshold >= 1
    && GoodLog(y.log, threshold)
    && (forall s :: CountOk(y, threshold, s))
    && (y.phase.Resting? ==> y.phase.todo <= y.phase.rest.Keys)
  }

  lemma FinishKeepsInv(y: System, threshold: nat, y': System)
    requires Inv(y, threshold) && Step(y, threshold, Finish, y')
    ensures Inv(y', threshold)
  {
    var r := Record(y.phase.rest.Keys, y.phase.open, y.phase.removed);
    var log := y.log + [r];
    assert log[..|y.log|] == y.log && log[..|y.log| + 1] == log;
    forall s ensures CountOk(y', threshold, s) && (s in r.removed ==> Absences(log, s) >= threshold) && Streak(log, s) < threshold {
      assert CountOk(y, threshold, s);
    }
    forall k, s | 0 <= k < |log| && s in log[k].removed ensures Absences(log[..k + 1], s) >= threshold {
      if k < |y.log| {
        assert log[..k + 1] == y.log[..k + 1];
      }
    }
    forall k, s | 0 <= k <= |log| ensures Streak(log[..k], s) < threshold {
      if k <= |y.log| {
        assert log[..k] == y.log[..k];
      }
    }
  }

  lemma RestKeepsInv(y: System, threshold: nat, sym: string, after: State, y': System)
    requires Inv(y, threshold) && Step(y, threshold, RestSymbol(sym, after), y')
    ensures Inv(y', threshold)
  {
    forall s ensures CountOk(y', threshold, s) {
      assert CountOk(y, threshold, s);
    }
  }

  lemma SweepKeepsInv(y: System, threshold: nat, sym: string, y': System)
    requires Inv(y, threshold) && Step(y, threshold, SweepSymbol(sym), y')
    ensures Inv(y', threshold)
  {
    forall s ensures CountOk(y', threshold, s) {
      assert CountOk(y, threshold, s);
    }
  }

  lemma OthersKeepInv(y: System, threshold: nat, a: Action, y': System)
    requires Inv(y, threshold) && Step(y, threshold, a, y')
    requires a.StreamerLoads? || a.StreamerCloses? || a.FetchFails? || a.FetchOk? || a.SnapshotBook?
    ensures Inv(y', threshold)
  {
    forall s ensures CountOk(y', threshold, s) {
      assert CountOk(y, threshold, s);
    }
  }

  // ---- Runs ----

  ghost predicate IsRun(run: seq<System>, actions: seq<Action>, threshold: nat) {
    && threshold >= 1
    && |run| == |actions| + 1
    && run[0].phase.Idle? && run[0].st.counts == map[] && run[0].log == []
    && (forall i :: 0 <= i < |actions| ==> Step(run[i], threshold, actions[i], run[i + 1]))
  }

  lemma {:induction false} RunInv(run: seq<System>, actions: seq<Action>, threshold: nat, i: nat)
    requires IsRun(run, actions, threshold) && i < |run|
    ensures Inv(run[i], threshold)
  {
    if i > 0 {
      RunInv(run, actions, threshold, i - 1);
      assert Step(run[i - 1], threshold, actions[i - 1], run[i]);
      match actions[i - 1]
      case Finish => FinishKeepsInv(run[i - 1], threshold, run[i]);
      case RestSymbol(s, after) => RestKeepsInv(run[i - 1], threshold, s, after, run[i]);
      case SweepSymbol(s) => SweepKeepsInv(run[i - 1], threshold, s, run[i]);
      case _ => OthersKeepInv(run[i - 1], threshold, actions[i - 1], run[i]);
    }
  }

  /** Between passes every count lies strictly between zero and the threshold. */
  lemma CountsBetweenPasses(run: seq<System>, actions: seq<Action>, threshold: nat, i: nat, s: string)
    requires IsRun(run, actions, threshold) && i < |run| && run[i].phase.Idle? && s in run[i].st.counts
    ensures 0 < run[i].st.counts[s] < threshold
  {
    RunInv(run, actions, threshold, i);
    assert CountOk(run[i], threshold, s);
  }

  lemma {:induction false} AbsencesMeaning(log: seq<Record>, s: string, j: nat)
    requires |log| - Absences(log, s) <= j < |log|
    ensures s !in log[j].rest
  {
    if j < |log| - 1 {
      AbsencesMeaning(log[..|log| - 1], s, j);
    }
  }

  /** A pass removes a symbol only if the REST list lacked it in each of the last `threshold` passes. */
  lemma RemovedOnlyIfAbsent(run: seq<System>, actions: seq<Action>, threshold: nat, i: nat, k: nat, s: string)
    requires IsRun(run, actions, threshold) && i < |run| && k < |run[i].log| && s in run[i].log[k].removed
    ensures k + 1 >= threshold
    ensures forall j :: k + 1 - threshold <= j <= k ==> s !in run[i].log[j].rest
  {
    RunInv(run, actions, threshold, i);
    var upTo := run[i].log[..k + 1];
    AbsencesBounded(upTo, s);
    forall j | k + 1 - threshold <= j <= k ensures s !in run[i].log[j].rest {
      AbsencesMeaning(upTo, s, j);
    }
  }

  lemma {:induction false} AbsencesBounded(log: seq<Record>, s: string)
    ensures Absences(log, s) <= |log|
  {
    if log != [] {
      AbsencesBounded(log[..|log| - 1], s);
    }
  }

  lemma {:induction false} StreakAtLeast(log: seq<Record>, s: string, k: nat)
    requires k <= |log| && forall j :: k <= j < |log| ==> Spared(log[j], s)
    ensures Streak(log, s) >= |log| - k
  {
    if k < |log| {
      StreakAtLeast(log[..|log| - 1], s, k);
    }
  }

  /** `threshold` passes in a row that lack a symbol they find open remove it in one of them. */
  lemma AbsentIsRemoved(run: seq<System>, actions: seq<Action>, threshold: nat, i: nat, k: nat, s: string)
    requires IsRun(run, actions, threshold) && i < |run| && k + threshold <= |run[i].log|
    requires forall j :: k <= j < k + threshold ==> s !in run[i].log[j].rest && s in run[i].log[j].open
    ensures exists j :: k <= j < k + threshold && s in run[i].log[j].removed
  {
    RunInv(run, actions, threshold, i);
    var log := run[i].log;
    var upTo := log[..k + threshold];
    assert Streak(upTo, s) < threshold;
    if forall j :: k <= j < k + threshold ==> s !in log[j].removed {
      forall j | k <= j < |upTo| ensures Spared(upTo[j], s) {
        assert upTo[j] == log[j];
      }
      StreakAtLeast(upTo, s, k);
    }
  }

  // ---- What the runs include ----

  /** The streamer may load or close any symbol at any point, during a pass too, and a fetch may fail or give any
      list whenever no pass is under way. */
  lemma StreamerAndFetchesAreFree(y: System, threshold: nat, s: string, position: MB.PositionInfo, rest: map<string, RestPosition>, at: int)
    ensures Step(y, threshold, StreamerLoads(s, position), System(State(y.st.positions[s := position], y.st.counts), y.phase, y.log))
    ensures Step(y, threshold, StreamerCloses(s), System(State(y.st.positions - {s}, y.st.counts), y.phase, y.log))
    ensures y.phase.Idle? ==> Step(y, threshold, FetchFails, y)
    ensures y.phase.Idle? ==> Step(y, threshold, FetchOk(rest, at), System(y.st, Resting(rest, at, rest.Keys), y.log))
  {
  }

  /** A pass under way can always go on, with any of the symbols it has yet to deal with. */
  lemma PassGoesOn(y: System, threshold: nat, s: string) returns (a: Action, y': System)
    requires Inv(y, threshold) && !y.phase.Idle? && (y.phase.todo != {} ==> s in y.phase.todo)
    ensures Step(y, threshold, a, y')
    ensures y.phase.todo != {} ==> !y'.phase.Idle? && y'.phase.todo == y.phase.todo - {s}
    ensures y.phase.Resting? && y.phase.todo == {} ==> y'.phase.Sweeping?
    ensures y.phase.Sweeping? && y.phase.todo == {} ==> y'.phase.Idle? && |y'.log| == |y.log| + 1
  {
    match y.phase
    case Resting(rest, fetchedAt, todo) =>
      if todo == {} {
        var listed := OpenSymbols(y.st.positions);
        a, y' := SnapshotBook, y.(phase := Sweeping(rest, listed, listed - rest.Keys, {}));
      } else {
        var after := AfterRest(Pass(rest, threshold, fetchedAt), y.st, s);
        a, y' := RestSymbol(s, after), y.(st := after, phase := Resting(rest, fetchedAt, todo - {s}));
      }
    case Sweeping(rest, open, todo, removed) =>
      if todo == {} {
        a, y' := Finish, System(y.st, Idle, y.log + [Record(rest.Keys, open, removed)]);
      } else {
        var count := Count(y.st, s) + 1;
        a := SweepSymbol(s);
        y' := System(
          if count >= threshold then State(y.st.positions - {s}, y.st.counts - {s}) else State(y.st.positions, y.st.counts[s := count]),
          Sweeping(rest, open, todo - {s}, removed + if count >= threshold then {s} else {}), y.log);
      }
  }

  /** The state after one REST symbol, loaded at the time of the fetch if at all. */
  lemma AfterRest(p: Pass, st: State, s: string) returns (after: State)
    requires s in p.rest
    ensures SymbolDone(p, st, after, s) && after.positions - {s} == st.positions - {s} && after.counts == st.counts - {s}
  {
    var v := VerdictOn(p, st, s);
    after := State(if Loads(v) then st.positions[s := Loaded(p.rest[s], p.fetchedAt)] else st.positions, st.counts - {s});
  }

  // ---- A pass nothing interrupts is the reconciler's pass ----

  predicate OfThePass(a: Action) {
    a.RestSymbol? || a.SnapshotBook? || a.SweepSymbol? || a.Finish?
  }

  /** Where an uninterrupted pass that began in `st` has got to. */
  ghost predicate Midway(p: Pass, st: State, y: System) {
    match y.phase
    case Idle => Passed(p, st, y.st)
    case Resting(rest, fetchedAt, todo) =>
      rest == p.rest && fetchedAt == p.fetchedAt && todo <= rest.Keys && Progress(p, st, rest.Keys - todo, y.st)
    case Sweeping(rest, open, todo, removed) =>
      && rest == p.rest && todo <= open - rest.Keys && todo <= OpenSymbols(y.st.positions)
      && (forall s :: s !in rest && s !in open ==> !Open(MB.Lookup(st.positions, s)))
      && Progress(p, st, rest.Keys + open - todo, y.st)
  }

  lemma RestAdvances(p: Pass, st: State, y: System, s: string, after: State, y': System)
    requires Midway(p, st, y) && y.phase.Resting? && Step(y, p.threshold, RestSymbol(s, after), y')
    ensures Midway(p, st, y')
  {
    ProgressOneMore(p, st, p.rest.Keys - y.phase.todo, y.st, s, after);
    OneFewer(p.rest.Keys, y.phase.todo, s);
  }

  lemma SnapshotAdvances(p: Pass, st: State, y: System, y': System)
    requires Midway(p, st, y) && y.phase.Resting? && Step(y, p.threshold, SnapshotBook, y')
    ensures Midway(p, st, y')
  {
    var listed := OpenSymbols(y.st.positions);
    assert p.rest.Keys - y.phase.todo == p.rest.Keys;
    RestLeavesOpen(p, st, y.st);
    forall s | s !in p.rest && s !in listed ensures !Open(MB.Lookup(st.positions, s)) {
      assert s !in OpenSymbols(st.positions);
    }
    assert p.rest.Keys + listed - (listed - p.rest.Keys) == p.rest.Keys;
  }

  lemma SweepAdvances(p: Pass, st: State, y: System, s: string, y': System)
    requires Midway(p, st, y) && y.phase.Sweeping? && Step(y, p.threshold, SweepSymbol(s), y')
    ensures Midway(p, st, y')
  {
    assert Open(MB.Lookup(y.st.positions, s));
    assert y.st.positions - {s} == y'.st.positions - {s} && y.st.counts - {s} == y'.st.counts - {s};
    ProgressOneMore(p, st, p.rest.Keys + y.phase.open - y.phase.todo, y.st, s, y'.st);
    OneFewer(p.rest.Keys + y.phase.open, y.phase.todo, s);
  }

  lemma FinishPasses(p: Pass, st: State, y: System, y': System)
    requires Midway(p, st, y) && y.phase.Sweeping? && Step(y, p.threshold, Finish, y')
    ensures Midway(p, st, y')
  {
    forall s ensures SymbolDone(p, st, y.st, s) {
      if s !in p.rest.Keys + y.phase.open - y.phase.todo {
        assert SymbolUnchanged(st, y.st, s);
      }
    }
  }

  /** From fetch to finish with no streamer event between, the steps add up to the pass that the
      reconciler's own loops perform. */
  lemma {:induction false} UninterruptedPass(run: seq<System>, actions: seq<Action>, rest: map<string, RestPosition>, at: int, threshold: nat, i: nat)
    requires |run| == |actions| + 1 && forall j :: 0 <= j < |actions| ==> Step(run[j], threshold, actions[j], run[j + 1])
    requires actions != [] && actions[0] == FetchOk(rest, at)
    requires forall j :: 0 < j < |actions| ==> OfThePass(actions[j]) && !run[j].phase.Idle?
    requires 0 < i < |run|
    ensures Midway(Pass(rest, threshold, at), run[0].st, run[i])
    ensures run[i].phase.Idle? ==> Passed(Pass(rest, threshold, at), run[0].st, run[i].st)
  {
    var p := Pass(rest, threshold, at);
    if i == 1 {
      assert Step(run[0], threshold, actions[0], run[1]);
      assert rest.Keys - rest.Keys == {};
    } else {
      UninterruptedPass(run, actions, rest, at, threshold, i - 1);
      assert Step(run[i - 1], threshold, actions[i - 1], run[i]) && OfThePass(actions[i - 1]);
      match actions[i - 1]
      case RestSymbol(s, after) => RestAdvances(p, run[0].st, run[i - 1], s, after, run[i]);
      case SnapshotBook => SnapshotAdvances(p, run[0].st, run[i - 1], run[i]);
      case SweepSymbol(s) => SweepAdvances(p, run[0].st, run[i - 1], s, run[i]);
      case Finish => FinishPasses(p, run[0].st, run[i - 1], run[i]);
      case _ =>
    }
  }
}
