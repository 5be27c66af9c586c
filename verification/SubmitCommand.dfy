/** The submit command: its checks, the reservation, the HTTP call and the mark, in that order. Every
    execution is a piece of a `SubmitProtocol` run whose reservation is of the order given and whose sends are
    the HTTP requests made, so what holds of all runs holds of the command. */
module SubmitCommand {
  import opened Common
  import opened SubmitIdentities
  import opened RegistryLaws
  import opened SubmitProtocol
  import Policy = PreSubmitPolicy
  import Http = HttpRetry

  datatype Gate = Gate(available: bool, blocks: bool)

  /** How the operator acknowledges: `--json` with or without `--yes`, or a typed line (`None` when
      reading it fails). */
  datatype Operator = Json(yes: bool) | Typed(line: Option<string>)

  /** Everything one invocation meets. The gate is read twice; `order` is the order's JSON, nothing when it
      does not marshal; `digest` is hex SHA-256; `decoded` says whether a success body parses. */
  datatype Scene = Scene(
    config: Policy.Config, accountID: string, safetyFailed: bool, gateSeen: Gate, gateEnforced: Gate,
    parsed: bool, order: Option<string>, uuid: string, digest: string -> string,
    approvedAt: int, operator: Operator, confirmedAt: int, checkedAt: int, transportApproved: bool,
    reservedAt: int, reserveLoad: LoadFault, reserveSave: SaveFault,
    call: Http.World, decoded: bool,
    markedAt: int, markLoad: LoadFault, markSave: SaveFault)

  datatype Outcome =
    | NoAccount | NotLive | Unsafe | GateBlocked | BadOrderFile | ApprovalFailed | NotAcknowledged
    | PolicyDenied(reasons: seq<Policy.Reason>) | NoIdentity | DuplicateDenied(result: CheckResult)
    | CallFailed(call: Http.Outcome) | NotAccepted | MarkDenied(result: CheckResult) | Submitted

  /** One HTTP request to submit an order: the account in its path, its body, its idempotency key. */
  datatype Transmission = Transmission(accountID: string, body: string, idempotencyKey: string)

  // ---- Acknowledgement ----

  /** The characters that Go's `ToLower` takes to a letter of "submit". */
  predicate Folds(c: char, letter: char) {
    c == letter || ('a' <= letter <= 'z' && c == letter - 'a' + 'A') || (letter == 'i' && c == '\U{0130}')
  }

  /** Between white space, the line is the word, in any case. */
  ghost predicate SpellsSubmit(line: string) {
    exists i, j :: 0 <= i <= j <= |line| && AllSpace(line[..i]) && AllSpace(line[j..]) && IsTheWord(line[i..j])
  }

  predicate IsTheWord(s: string) {
    && |s| == 6 && Folds(s[0], 's') && Folds(s[1], 'u') && Folds(s[2], 'b')
    && Folds(s[3], 'm') && Folds(s[4], 'i') && Folds(s[5], 't')
  }

  ghost predicate Acknowledges(o: Operator) {
    match o
    case Json(yes) => yes
    case Typed(line) => line.Some? && SpellsSubmit(line.value)
  }

  /** Go's `ToLower` where it can yield a letter of "submit". */
  function Lower(c: char): char {
    if 'A' <= c <= 'Z' then c - 'A' + 'a' else if c == '\U{0130}' then 'i' else c
  }

  function LowerAll(s: string): string {
    seq(|s|, i requires 0 <= i < |s| => Lower(s[i]))
  }

  lemma LowerIsTheWord(s: string)
    ensures LowerAll(s) == "submit" <==> IsTheWord(s)
  {
    if |s| == 6 {
      assert LowerAll(s) == [Lower(s[0]), Lower(s[1]), Lower(s[2]), Lower(s[3]), Lower(s[4]), Lower(s[5])];
      assert "submit" == ['s', 'u', 'b', 'm', 'i', 't'];
    } else {
      assert |LowerAll(s)| == |s| && |"submit"| == 6;
    }
  }

  lemma LowerKeepsSpace(s: string, i: nat, j: nat)
    requires i <= j <= |s|
    ensures AllSpace(LowerAll(s)[..i]) <==> AllSpace(s[..i])
    ensures AllSpace(LowerAll(s)[j..]) <==> AllSpace(s[j..])
    ensures LowerAll(s)[i..j] == LowerAll(s[i..j])
  {
    assert LowerAll(s)[..i] == LowerAll(s[..i]) && LowerAll(s)[j..] == LowerAll(s[j..]);
    LowerSpace(s[..i]);
    LowerSpace(s[j..]);
  }

  lemma LowerSpace(s: string)
    ensures AllSpace(LowerAll(s)) <==> AllSpace(s)
  {
    assert forall k :: 0 <= k < |s| ==> (IsSpace(LowerAll(s)[k]) <==> IsSpace(s[k]));
  }

  /** Lower-casing and trimming finds exactly those lines. */
  lemma TrimsToSubmit(line: string)
    ensures TrimSpace(LowerAll(line)) == "submit" <==> SpellsSubmit(line)
  {
    if TrimSpace(LowerAll(line)) == "submit" {
      var i, j := TrimSplits(LowerAll(line));
      LowerKeepsSpace(line, i, j);
      LowerIsTheWord(line[i..j]);
    }
    if SpellsSubmit(line) {
      var i, j :| 0 <= i <= j <= |line| && AllSpace(line[..i]) && AllSpace(line[j..]) && IsTheWord(line[i..j]);
      SpelledTrims(line, i, j);
    }
  }

  lemma SpelledTrims(line: string, i: nat, j: nat)
    requires i <= j <= |line| && AllSpace(line[..i]) && AllSpace(line[j..]) && IsTheWord(line[i..j])
    ensures TrimSpace(LowerAll(line)) == "submit"
  {
    LowerKeepsSpace(line, i, j);
    LowerIsTheWord(line[i..j]);
    InThree(LowerAll(line), i, j);
    TrimOf(LowerAll(line)[..i], "submit", LowerAll(line)[j..]);
  }

  lemma InThree(s: string, i: nat, j: nat)
    requires i <= j <= |s|
    ensures s == s[..i] + s[i..j] + s[j..]
  {
  }

  method Confirm(s: Scene) returns (ok: bool)
    ensures ok <==> Acknowledges(s.operator)
  {
    match s.operator {
      case Json(yes) =>
        return yes;
      case Typed(line) =>
        if line.None? {
          return false;
        }
        TrimsToSubmit(line.value);
        return TrimSpace(LowerAll(line.value)) == "submit";
    }
  }

  // ---- The policy input ----

  /** The canonical order hash: the digest of the JSON. */
  function OrderHash(s: Scene): Option<string> {
    if s.order.Some? then Some(s.digest(s.order.value)) else None
  }

  /** The policy input the command builds; it gets this far only when the safety check and the enforced
      gate passed. */
  function PolicyInput(s: Scene): Policy.Input
    requires s.order.Some?
  {
    var hash := s.digest(s.order.value);
    Policy.Input(
      Some(s.config), s.accountID, s.uuid, hash, OrderHash(s), s.approvedAt, s.checkedAt,
      false, s.gateSeen.available, false, s.gateSeen.blocks,
      Some(Policy.Approval(s.accountID, s.uuid, hash, s.approvedAt)),
      Some(Policy.Confirmation(s.accountID, s.uuid, hash, true, s.confirmedAt)),
      s.transportApproved)
  }

  /** The configuration is one that `Load` makes of some base URL and live-trading setting. */
  ghost predicate LoadedConfig(config: Policy.Config) {
    exists baseURL, liveEnv :: config == Policy.LoadConfig(baseURL, liveEnv)
  }

  /** What the command has established when it evaluates the policy, given a loaded configuration, a fresh
      intent and a clock that does not run backwards. */
  ghost predicate ReachesPolicy(s: Scene) {
    && s.accountID != "" && s.config.liveTrading && LoadedConfig(s.config)
    && s.order.Some? && !Blank(s.digest(s.order.value)) && !Blank(s.uuid)
    && 0 < s.approvedAt <= s.confirmedAt <= s.checkedAt
  }

  predicate CommandReason(r: Policy.Reason) {
    r in {Policy.MissingAccountID, Policy.TransportNotApproved, Policy.DecisionGateUnavailable,
          Policy.DecisionGateDenied, Policy.ApprovalExpired, Policy.ConfirmationExpired}
  }

  /** Then only six reasons can deny, and a confirmation expires only after its approval. */
  lemma ReasonsTheCommandCanMeet(s: Scene, r: Policy.Reason)
    requires ReachesPolicy(s) && Policy.Applies(PolicyInput(s), r)
    ensures CommandReason(r)
    ensures r == Policy.ConfirmationExpired ==> Policy.Applies(PolicyInput(s), Policy.ApprovalExpired)
  {
    LiveIsProd(s.config);
  }

  /** `Load` enables live trading only against production. */
  lemma LiveIsProd(config: Policy.Config)
    requires LoadedConfig(config) && config.liveTrading
    ensures config.prod
  {
    var baseURL, liveEnv :| config == Policy.LoadConfig(baseURL, liveEnv);
  }

  /** Every check before the reservation passes: the account, the configuration, safety, both readings of the
      gate, the order, the operator, the transport, and a check at most two minutes after the approval, with
      the confirmation between them. */
  ghost predicate ReadyToReserve(s: Scene) {
    && !Blank(s.accountID) && s.config.liveTrading && s.config.prod && !s.safetyFailed
    && !s.gateEnforced.blocks && s.gateSeen.available && !s.gateSeen.blocks
    && s.parsed && s.order.Some? && Acknowledges(s.operator) && s.transportApproved
    && !Blank(s.uuid) && !Blank(s.digest(s.order.value))
    && s.approvedAt != 0 && s.confirmedAt != 0 && s.checkedAt != 0
    && s.approvedAt <= s.confirmedAt <= s.checkedAt <= s.approvedAt + 120_000_000_000
  }

  /** The reasons for which the policy denies this invocation; two minutes in nanoseconds. */
  ghost predicate Denies(s: Scene, r: Policy.Reason)
    requires s.order.Some?
  {
    match r
    case LiveTradingDisabled => !s.config.liveTrading
    case InvalidLiveContext => !s.config.prod
    case MissingAccountID => Blank(s.accountID)
    case UnknownState => Blank(s.uuid) || Blank(s.digest(s.order.value))
    case TransportNotApproved => !s.transportApproved
    case DecisionGateUnavailable => !s.gateSeen.available
    case DecisionGateDenied => s.gateSeen.blocks
    case ApprovalMissing => s.approvedAt == 0
    case ConfirmationMissing => s.confirmedAt == 0
    case ApprovalExpired => s.approvedAt != 0 && s.approvedAt <= s.checkedAt && s.approvedAt + 120_000_000_000 < s.checkedAt
    case ConfirmationExpired => s.confirmedAt != 0 && s.confirmedAt <= s.checkedAt && s.confirmedAt + 120_000_000_000 < s.checkedAt
    case TimeStateInvalid =>
      || s.checkedAt == 0
      || (s.approvedAt != 0 && s.checkedAt < s.approvedAt)
      || (s.confirmedAt != 0 && s.checkedAt < s.confirmedAt)
      || (s.approvedAt != 0 && s.confirmedAt != 0 && s.confirmedAt < s.approvedAt && s.checkedAt <= s.confirmedAt + 120_000_000_000)
    case _ => false  // account, intent and payload are one throughout, and the operator has acknowledged
  }

  /** What the command hands to the policy makes it deny for exactly those reasons. */
  lemma PolicyDenies(s: Scene, r: Policy.Reason)
    requires s.order.Some?
    ensures Policy.Applies(PolicyInput(s), r) <==> Denies(s, r)
  {
    match r
    case TimeStateInvalid =>
    case ApprovalExpired =>
    case ConfirmationExpired =>
    case ApprovalMissing =>
    case ConfirmationMissing =>
    case UnknownState =>
    case _ =>
  }

  /** And pass exactly what is ready, once the checks before it are done. */
  lemma PolicyPasses(s: Scene)
    requires s.accountID != "" && s.config.liveTrading && !s.safetyFailed && !s.gateEnforced.blocks
    requires s.parsed && s.order.Some? && Acknowledges(s.operator)
    ensures Policy.Permitted(PolicyInput(s)) <==> ReadyToReserve(s)
  {
  }

  // ---- What one invocation is, in a run ----

  /** The identity of the account, this invocation's intent, and the order given. */
  function IdentityOf(s: Scene): Identity
    requires s.order.Some?
  {
    var hash := s.digest(s.order.value);
    Identity(s.digest(RawIdentity(s.accountID, s.uuid, hash)), s.accountID, s.uuid, hash)
  }

  /** The sends of a log that these requests are. */
  ghost function SendsOf(id: Identity, sent: seq<Transmission>): seq<Event> {
    seq(|sent|, i requires 0 <= i < |sent| => Sent(id, sent[i].idempotencyKey))
  }

  /** The path begins by reserving `id`; if that is refused nothing follows, and if it is granted the sends
      are exactly the requests. */
  ghost predicate ReservesFirst(id: Identity, now: int, run: seq<System>, actions: seq<Action>, sent: seq<Transmission>) {
    && run != [] && actions != []
    && actions[0].Operate? && actions[0].op == ReserveOp(id, now) && !actions[0].dies
    && (!actions[0].allowed ==> |actions| == 1 && sent == [])
    && Wire(Last(run).log) == Wire(run[0].log) + SendsOf(id, sent)
  }

  /** A path that one invocation of the command makes. */
  ghost predicate Invocation(s: Scene, run: seq<System>, actions: seq<Action>, sent: seq<Transmission>) {
    && Path(run, actions) && run[0].proc.Up? && run[0].proc.pc == Ready
    && (if actions == [] then sent == [] else s.order.Some? && ReservesFirst(IdentityOf(s), s.reservedAt, run, actions, sent))
    && (forall i :: 0 <= i < |sent| ==> s.order.Some? && sent[i] == Transmission(s.accountID, s.order.value, s.uuid))
  }

  /** The path ends with a mark that the registry allowed or refused. */
  predicate EndsInMark(id: Identity, now: int, actions: seq<Action>, allowed: bool) {
    && actions != []
    && var last := actions[|actions| - 1];
    last.Operate? && last.op == MarkOp(id, now) && last.allowed == allowed
  }

  /** The broker's replies end in a success. */
  ghost predicate Accepted(replies: nat -> Http.Reply) {
    exists n: nat :: Http.Attempts(true, replies, n) && replies(n - 1).response in {Http.Status(200), Http.Status(201)}
  }

  /** Nothing fails on the way. */
  ghost predicate GoesWell(s: Scene) {
    && s.reserveSave.SavesFine? && s.markSave.SavesFine?
    && s.call.ensured.Some? && s.call.limiterOk && Accepted(s.call.replies) && s.decoded
  }

  /** How far the checks before the policy got. */
  ghost predicate GateReached(s: Scene) {
    s.accountID != "" && s.config.liveTrading && !s.safetyFailed
  }

  ghost predicate PolicyReached(s: Scene) {
    GateReached(s) && !s.gateEnforced.blocks && s.parsed && s.order.Some? && Acknowledges(s.operator)
  }

  /** A refusal before the reservation names the first check that failed. */
  ghost predicate TrueRefusal(s: Scene, o: Outcome) {
    match o
    case NoAccount => s.accountID == ""
    case NotLive => s.accountID != "" && !s.config.liveTrading
    case Unsafe => s.accountID != "" && s.config.liveTrading && s.safetyFailed
    case GateBlocked => GateReached(s) && s.gateEnforced.blocks
    case BadOrderFile => GateReached(s) && !s.gateEnforced.blocks && !s.parsed
    case ApprovalFailed => GateReached(s) && !s.gateEnforced.blocks && s.parsed && s.order.None?
    case NotAcknowledged =>
      GateReached(s) && !s.gateEnforced.blocks && s.parsed && s.order.Some? && !Acknowledges(s.operator)
    case PolicyDenied(reasons) =>
      && PolicyReached(s) && reasons != [] && Policy.Distinct(reasons)
      && (forall r :: r in reasons <==> Denies(s, r))
      && (ReachesPolicy(s) ==> forall r :: r in reasons ==> CommandReason(r))
    case _ => false
  }

  predicate FromTheRegistryOn(o: Outcome) {
    o.DuplicateDenied? || FromTheCallOn(o)
  }

  predicate FromTheCallOn(o: Outcome) {
    o.CallFailed? || o.NotAccepted? || o.MarkDenied? || o.Submitted?
  }

  /** The registry refused the reservation for this reason. */
  ghost predicate RefusedBy(result: CheckResult, before: Store, id: Identity, s: Scene, after: Store) {
    !result.Allowed? && Reserves(before, id, s.reservedAt, s.reserveLoad, after, result)
  }

  /** The outcome is what became of the call that made `n` sends. */
  ghost predicate CallReported(s: Scene, n: nat, o: Outcome) {
    exists called :: Answers(s.call, called, n) && ReportsCall(s, called, o)
  }

  predicate ReportsCall(s: Scene, called: Http.Outcome, o: Outcome) {
    var accepted := called.Returned? && called.code in {200, 201} && s.decoded;
    match o
    case CallFailed(failure) => failure == called && !called.Returned?
    case NotAccepted => called.Returned? && !accepted
    case MarkDenied(_) => accepted
    case Submitted => accepted
    case _ => false
  }

  /** The last of `n` replies is a 200 or a 201, and its body parses. */
  predicate Succeeded(s: Scene, n: nat) {
    n > 0 && s.decoded && s.call.replies(n - 1).response in {Http.Status(200), Http.Status(201)}
  }

  lemma AnsweredSuccess(s: Scene, called: Http.Outcome, n: nat)
    requires Answers(s.call, called, n)
    ensures Succeeded(s, n) <==> called.Returned? && called.code in {200, 201} && s.decoded
  {
    if n > 0 {
      Http.VerdictMeans(true, s.call.replies, n - 1);
    }
  }

  // ---- The command ----

  /** `log` is what an observer saw before; `run` and `actions` are this invocation as a path. */
  method RunSubmit(s: Scene, registry: Registry, client: Http.Client, ghost log: seq<Event>)
    returns (outcome: Outcome, sent: seq<Transmission>, ghost run: seq<System>, ghost actions: seq<Action>)
    requires registry.Valid() && client.authenticated
    modifies registry, registry.file, client
    ensures registry.Valid()
    ensures Invocation(s, run, actions, sent)
    ensures run[0] == System(old(registry.file.content), Up(old(registry.Mem()), Ready), log)
    ensures Last(run).disk == registry.file.content && Last(run).proc == Up(registry.Mem(), Ready)
    ensures actions != [] <==> ReadyToReserve(s)
    ensures if actions == [] then TrueRefusal(s, outcome) else FromTheRegistryOn(outcome)
    ensures FromTheCallOn(outcome) ==> CallReported(s, |sent|, outcome)
    ensures Succeeded(s, |sent|) <==> outcome.MarkDenied? || outcome.Submitted?
    ensures outcome.DuplicateDenied? ==>
      RefusedBy(outcome.result, old(registry.Contents()), IdentityOf(s), s, registry.Contents())
    ensures outcome.MarkDenied? || outcome.Submitted? ==> sent != [] && s.decoded && EndsInMark(IdentityOf(s), s.markedAt, actions, outcome.Submitted?)
    ensures ReadyToReserve(s) && GoesWell(s) && old(MayReserve(registry.Contents(), IdentityOf(s), s.reserveLoad)) ==>
      outcome.Submitted?
  {
    sent := [];
    run, actions := [System(registry.file.content, Up(registry.Mem(), Ready), log)], [];
    var refused := Checks(s);
    if refused.Some? {
      outcome := refused.value;
      return;
    }
    var identity := DeriveSubmitIdentity(s.digest, s.accountID, s.uuid, s.digest(s.order.value));
    if identity.None? {
      outcome := NoIdentity;
      return;
    }
    outcome, sent, run, actions := ReserveAndSend(s, identity.value, registry, client, run[0]);
  }

  /** Everything up to and with the policy. */
  method Checks(s: Scene) returns (refused: Option<Outcome>)
    ensures refused.None? <==> ReadyToReserve(s)
    ensures refused.Some? ==> TrueRefusal(s, refused.value)
  {
    if s.accountID == "" {
      return Some(NoAccount);
    }
    if !s.config.liveTrading {
      return Some(NotLive);
    }
    if s.safetyFailed {
      return Some(Unsafe);
    }
    if s.gateEnforced.blocks {
      return Some(GateBlocked);
    }
    if !s.parsed {
      return Some(BadOrderFile);
    }
    if s.order.None? {
      return Some(ApprovalFailed);
    }
    var acknowledged := Confirm(s);
    if !acknowledged {
      return Some(NotAcknowledged);
    }
    var allowed, reasons := Policy.Evaluate(PolicyInput(s));
    PolicyPasses(s);
    if !allowed {
      DeniedForCommandReasons(s, reasons);
      return Some(PolicyDenied(reasons));
    }
    return None;
  }

  lemma DeniedForCommandReasons(s: Scene, reasons: seq<Policy.Reason>)
    requires s.order.Some? && forall r :: r in reasons <==> Policy.Applies(PolicyInput(s), r)
    ensures forall r :: r in reasons <==> Denies(s, r)
    ensures ReachesPolicy(s) ==> forall r :: r in reasons ==> CommandReason(r)
  {
    forall r ensures r in reasons <==> Denies(s, r) {
      PolicyDenies(s, r);
    }
    if ReachesPolicy(s) {
      forall r | r in reasons ensures CommandReason(r) {
        ReasonsTheCommandCanMeet(s, r);
      }
    }
  }

  /** From the reservation on. */
  method ReserveAndSend(s: Scene, id: Identity, registry: Registry, client: Http.Client, ghost w: System)
    returns (outcome: Outcome, sent: seq<Transmission>, ghost run: seq<System>, ghost actions: seq<Action>)
    requires registry.Valid() && client.authenticated && s.uuid != "" && s.order.Some? && id.intentID == s.uuid
    requires w.disk == registry.file.content && w.proc == Up(registry.Mem(), Ready)
    modifies registry, registry.file, client
    ensures registry.Valid()
    ensures Path(run, actions) && run[0] == w && ReservesFirst(id, s.reservedAt, run, actions, sent)
    ensures forall i :: 0 <= i < |sent| ==> sent[i] == Transmission(s.accountID, s.order.value, s.uuid)
    ensures Last(run).disk == registry.file.content && Last(run).proc == Up(registry.Mem(), Ready)
    ensures FromTheRegistryOn(outcome)
    ensures FromTheCallOn(outcome) ==> CallReported(s, |sent|, outcome)
    ensures Succeeded(s, |sent|) <==> outcome.MarkDenied? || outcome.Submitted?
    ensures outcome.DuplicateDenied? ==> RefusedBy(outcome.result, old(registry.Contents()), id, s, registry.Contents())
    ensures outcome.MarkDenied? || outcome.Submitted? ==> sent != [] && s.decoded && EndsInMark(id, s.markedAt, actions, outcome.Submitted?)
    ensures GoesWell(s) && old(MayReserve(registry.Contents(), id, s.reserveLoad)) ==> outcome.Submitted?
  {
    sent := [];
    var dup := registry.Reserve(id, s.reservedAt, s.reserveLoad, s.reserveSave);
    run, actions := Reserving(w, id, s, registry.Contents(), dup);
    if !dup.Allowed? {
      outcome := DuplicateDenied(dup);
      return;
    }
    outcome, sent, run, actions := SendAndMark(s, id, registry, client, run, actions);
  }

  /** From the HTTP call on, with the reservation held. */
  method SendAndMark(s: Scene, id: Identity, registry: Registry, client: Http.Client, ghost before: seq<System>, ghost done: seq<Action>)
    returns (outcome: Outcome, sent: seq<Transmission>, ghost run: seq<System>, ghost actions: seq<Action>)
    requires registry.Valid() && client.authenticated && s.uuid != "" && s.order.Some? && id.intentID == s.uuid
    requires Path(before, done) && done != []
    requires Last(before).disk == registry.file.content && Last(before).proc == Up(registry.Mem(), Reserved(id))
    modifies registry, registry.file, client
    ensures registry.Valid()
    ensures Path(run, actions) && run[0] == before[0] && done <= actions
    ensures Wire(Last(run).log) == Wire(Last(before).log) + SendsOf(id, sent)
    ensures forall i :: 0 <= i < |sent| ==> sent[i] == Transmission(s.accountID, s.order.value, s.uuid)
    ensures Last(run).disk == registry.file.content && Last(run).proc == Up(registry.Mem(), Ready)
    ensures FromTheCallOn(outcome) && CallReported(s, |sent|, outcome)
    ensures Succeeded(s, |sent|) <==> outcome.MarkDenied? || outcome.Submitted?
    ensures outcome.MarkDenied? || outcome.Submitted? ==> sent != [] && s.decoded && EndsInMark(id, s.markedAt, actions, outcome.Submitted?)
    ensures GoesWell(s) && old(MayMark(registry.Contents(), id, s.markLoad)) ==> outcome.Submitted?
  {
    var called;
    called, sent := Transmit(client, s.accountID, s.order.value, s.uuid, s.call);
    AcceptedCall(s, called, |sent|);
    AnsweredSuccess(s, called, |sent|);
    run, actions := Calling(before, done, s, registry.Contents(), id, called, sent);
    if !called.Returned? {
      outcome := CallFailed(called);
      assert ReportsCall(s, called, outcome);
      return;
    }
    if called.code !in {200, 201} || !s.decoded {
      outcome := NotAccepted;
      assert ReportsCall(s, called, outcome);
      return;
    }
    var marked := registry.MarkSubmitted(id, s.markedAt, s.markLoad, s.markSave);
    run, actions := Marking(run, actions, id, s, registry.Contents(), marked);
    outcome := if marked.Allowed? then Outcome.Submitted else MarkDenied(marked);
    assert ReportsCall(s, called, outcome);
  }

  /** The exchange's `Submit`: one call with the given key, for the account, with the order as body. */
  method Transmit(client: Http.Client, accountID: string, body: string, key: string, world: Http.World)
    returns (called: Http.Outcome, sent: seq<Transmission>)
    requires client.authenticated && key != ""
    modifies client
    ensures Answers(world, called, |sent|)
    ensures forall i :: 0 <= i < |sent| ==> sent[i] == Transmission(accountID, body, key)
  {
    var request := new Http.Request(Http.Orders, true);
    var headers, refreshes;
    called, headers, refreshes := client.Do(request, key, "", world);
    sent := [];
    for i := 0 to |headers|
      invariant |sent| == i
      invariant forall k :: 0 <= k < i ==> sent[k] == Transmission(accountID, body, key)
    {
      sent := sent + [Transmission(accountID, body, headers[i].idempotencyKey.value)];
    }
  }

  /** `n` sends and this outcome are what the world makes of an authenticated call. */
  ghost predicate Answers(world: Http.World, called: Http.Outcome, n: nat) {
    && (world.ensured.None? ==> called == Http.NoToken)
    && (world.ensured.Some? && !world.limiterOk ==> called == Http.LimiterFailed)
    && (n == 0 <==> called in {Http.NoToken, Http.LimiterFailed})
    && (n == 0 <==> world.ensured.None? || !world.limiterOk)
    && (n > 0 ==> Http.Attempts(true, world.replies, n) && called == Http.Verdict(true, world.replies, n - 1))
  }

  lemma AcceptedCall(s: Scene, called: Http.Outcome, n: nat)
    requires Answers(s.call, called, n)
    ensures GoesWell(s) ==> n > 0 && called.Returned? && called.code in {200, 201}
  {
    if GoesWell(s) {
      var m: nat :| Http.Attempts(true, s.call.replies, m) && s.call.replies(m - 1).response in {Http.Status(200), Http.Status(201)};
      Http.AttemptsUnique(true, s.call.replies, m, n);
      Http.VerdictMeans(true, s.call.replies, n - 1);
    }
  }

  // ---- As a path ----

  lemma Reserving(w: System, id: Identity, s: Scene, after: Store, dup: CheckResult)
    returns (run: seq<System>, actions: seq<Action>)
    requires w.proc.Up? && w.proc.pc == Ready
    requires Reserves(Store(w.proc.mem, w.disk), id, s.reservedAt, s.reserveLoad, after, dup)
    ensures Path(run, actions) && run[0] == w && Wire(Last(run).log) == Wire(w.log)
    ensures actions == [Operate(ReserveOp(id, s.reservedAt), s.reserveLoad, after, dup.Allowed?, false)]
    ensures Last(run).disk == after.disk && Last(run).proc == Up(after.mem, if dup.Allowed? then Reserved(id) else Ready)
  {
    var a := Operate(ReserveOp(id, s.reservedAt), s.reserveLoad, after, dup.Allowed?, false);
    var next := ReserveStep(w, id, s, after, dup);
    assert Path([w], []);
    Extend([w], [], a, next);
    run, actions := [w] + [next], [] + [a];
  }

  lemma ReserveStep(w: System, id: Identity, s: Scene, after: Store, dup: CheckResult) returns (next: System)
    requires w.proc.Up? && w.proc.pc == Ready
    requires Reserves(Store(w.proc.mem, w.disk), id, s.reservedAt, s.reserveLoad, after, dup)
    ensures Step(w, Operate(ReserveOp(id, s.reservedAt), s.reserveLoad, after, dup.Allowed?, false), next)
    ensures next.disk == after.disk && next.proc == Up(after.mem, if dup.Allowed? then Reserved(id) else Ready)
    ensures Wire(next.log) == Wire(w.log)
  {
    var events := if dup.Allowed? then [Granted(id)] else [];
    next := System(after.disk, Up(after.mem, if dup.Allowed? then Reserved(id) else Ready), w.log + events);
    assert Performs(Store(w.proc.mem, w.disk), ReserveOp(id, s.reservedAt), s.reserveLoad, after, dup.Allowed?);
    WireAfterGrant(w.log, id);
    assert w.log + [] == w.log;
  }

  lemma WireAfterGrant(log: seq<Event>, id: Identity)
    ensures Wire(log + [Granted(id)]) == Wire(log)
  {
    assert (log + [Granted(id)])[..|log|] == log;
  }

  lemma Calling(run: seq<System>, actions: seq<Action>, s: Scene, now: Store, id: Identity, called: Http.Outcome, sent: seq<Transmission>)
    returns (run': seq<System>, actions': seq<Action>)
    requires Path(run, actions) && Last(run).proc == Up(now.mem, Reserved(id)) && Last(run).disk == now.disk
    requires id.intentID == s.uuid != "" && Answers(s.call, called, |sent|)
    requires forall i :: 0 <= i < |sent| ==> sent[i].idempotencyKey == s.uuid
    ensures Path(run', actions') && run'[0] == run[0] && actions <= actions'
    ensures Wire(Last(run').log) == Wire(Last(run).log) + SendsOf(id, sent)
    ensures Last(run').disk == now.disk
    ensures Last(run').proc == Up(now.mem, if called.Returned? && called.code in {200, 201} && s.decoded then Acked(id) else Ready)
  {
    var w := Last(run);
    if sent == [] {
      var failed := w.(proc := w.proc.(pc := Ready));
      Extend(run, actions, CallFails, failed);
      run', actions' := run + [failed], actions + [CallFails];
    } else {
      var begun := w.(proc := w.proc.(pc := Sending(id, Http.Call(0, false, s.uuid))));
      Extend(run, actions, BeginCall(""), begun);
      run', actions' := CallIsPath(run + [begun], actions + [BeginCall("")], s.call.replies, s.decoded, 0, |sent|);
      assert seq(|sent| - 0, _ => Sent(id, s.uuid)) == SendsOf(id, sent);
    }
  }

  lemma Marking(run: seq<System>, actions: seq<Action>, id: Identity, s: Scene, after: Store, marked: CheckResult)
    returns (run': seq<System>, actions': seq<Action>)
    requires Path(run, actions) && Last(run).proc.Up? && Last(run).proc.pc == Acked(id)
    requires Marks(Store(Last(run).proc.mem, Last(run).disk), id, s.markedAt, s.markLoad, after, marked)
    ensures Path(run', actions') && run'[0] == run[0] && actions <= actions' && Last(run').log == Last(run).log
    ensures EndsInMark(id, s.markedAt, actions', marked.Allowed?)
    ensures Last(run').disk == after.disk && Last(run').proc == Up(after.mem, Ready)
  {
    var w := Last(run);
    var op := MarkOp(id, s.markedAt);
    var next := System(after.disk, Up(after.mem, Ready), w.log + []);
    Extend(run, actions, Operate(op, s.markLoad, after, marked.Allowed?, false), next);
    run', actions' := run + [next], actions + [Operate(op, s.markLoad, after, marked.Allowed?, false)];
  }
}
