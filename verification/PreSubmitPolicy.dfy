/** The last policy check before a live order is transmitted. It fails closed: the order may go out
    exactly when no deny reason applies. */
module PreSubmitPolicy {
  import opened Common

  datatype Reason =
    | UnknownState | LiveTradingDisabled | InvalidLiveContext | MissingAccountID | AccountMismatch
    | TransportNotApproved | SafetyCheckFailed | DecisionGateUnavailable | DecisionGateDenied
    | ApprovalMissing | ApprovalExpired | ConfirmationMissing | ConfirmationDeclined | ConfirmationExpired
    | TimeStateInvalid | IntentMismatch | PayloadMismatch

  /** Instants are nanoseconds since Go's zero time, so `IsZero` is `== 0`. */
  type Time = int

  const SECOND: int := 1_000_000_000
  const MAX_AGE: int := 120 * SECOND

  ghost predicate Contains(s: string, part: string) {
    exists i :: 0 <= i <= |s| && part <= s[i..]
  }

  datatype Config = Config(liveTrading: bool, prod: bool)

  /** The two facts `config.Load` and `IsProd` derive from the base URL and the environment. */
  ghost function LoadConfig(baseURL: string, liveEnv: bool): Config {
    var prod := Contains(baseURL, "api.tastytrade.com") && !Contains(baseURL, "cert");
    Config(liveEnv && prod, prod)
  }

  datatype Approval = Approval(accountID: string, intentID: string, orderHash: string, approvedAt: Time)

  datatype Confirmation = Confirmation(accountID: string, intentID: string, orderHash: string, acknowledged: bool, confirmedAt: Time)

  /** `currentHash` is the hash of the order as it stands, nothing when it cannot be computed. */
  datatype Input = Input(
    config: Option<Config>, accountID: string, intentID: string, orderHash: string, currentHash: Option<string>,
    approvedAt: Time, now: Time, safetyFailed: bool, gateAvailable: bool, gateFailed: bool, gateBlocks: bool,
    approval: Option<Approval>, confirmation: Option<Confirmation>, transportApproved: bool)

  // ---- When each reason applies ----

  predicate ApprovalDated(i: Input) {
    i.approval.Some? && i.approval.value.approvedAt != 0 && i.approvedAt != 0
  }

  predicate ApprovalMisdated(i: Input) {
    ApprovalDated(i) && (i.approval.value.approvedAt != i.approvedAt || i.approvedAt > i.now)
  }

  predicate ConfirmationMisdated(i: Input) {
    && i.confirmation.Some? && i.confirmation.value.confirmedAt != 0
    && var at := i.confirmation.value.confirmedAt;
    (at > i.now || (i.now - at <= MAX_AGE && i.approvedAt != 0 && at < i.approvedAt))
  }

  predicate SettingsFail(i: Input, r: Reason)
    requires i.config.Some?
  {
    || (r == LiveTradingDisabled && !i.config.value.liveTrading)
    || (r == InvalidLiveContext && !i.config.value.prod)
    || (r == MissingAccountID && Blank(i.accountID))
    || (r == UnknownState && (Blank(i.intentID) || Blank(i.orderHash)))
  }

  predicate RuntimeFails(i: Input, r: Reason) {
    || (r == TransportNotApproved && !i.transportApproved)
    || (r == SafetyCheckFailed && i.safetyFailed)
    || (r == DecisionGateUnavailable && !i.gateAvailable)
    || (r == DecisionGateDenied && (i.gateFailed || i.gateBlocks))
  }

  predicate ApprovalFails(i: Input, r: Reason) {
    if i.approval.None? then r == ApprovalMissing
    else
      var a := i.approval.value;
      || (r == UnknownState && (Blank(a.intentID) || Blank(a.orderHash)))
      || (r == AccountMismatch && a.accountID != i.accountID)
      || (r == IntentMismatch && a.intentID != i.intentID)
      || (r == PayloadMismatch && a.orderHash != i.orderHash)
      || (r == ApprovalMissing && !ApprovalDated(i))
      || (r == TimeStateInvalid && ApprovalMisdated(i))
      || (r == ApprovalExpired && ApprovalDated(i) && !ApprovalMisdated(i) && i.now - i.approvedAt > MAX_AGE)
  }

  predicate ConfirmationFails(i: Input, r: Reason) {
    if i.confirmation.None? then r == ConfirmationMissing
    else
      var c := i.confirmation.value;
      || (r == ConfirmationDeclined && !c.acknowledged)
      || (r == UnknownState && (Blank(c.intentID) || Blank(c.orderHash)))
      || (r == AccountMismatch && c.accountID != i.accountID)
      || (r == IntentMismatch && c.intentID != i.intentID)
      || (r == PayloadMismatch && c.orderHash != i.orderHash)
      || (r == ConfirmationMissing && c.confirmedAt == 0)
      || (r == TimeStateInvalid && ConfirmationMisdated(i))
      || (r == ConfirmationExpired && c.confirmedAt != 0 && c.confirmedAt <= i.now && i.now - c.confirmedAt > MAX_AGE)
  }

  predicate PayloadFails(i: Input, r: Reason) {
    || (r == UnknownState && i.currentHash.None?)
    || (r == PayloadMismatch && i.currentHash.Some? && i.currentHash.value != i.orderHash)
  }

  predicate Applies(i: Input, r: Reason) {
    || (r == TimeStateInvalid && i.now == 0)
    || (if i.config.None? then r == UnknownState
        else
          || SettingsFail(i, r) || RuntimeFails(i, r) || ApprovalFails(i, r) || ConfirmationFails(i, r) || PayloadFails(i, r))
  }

  // ---- The checks, in order ----

  ghost predicate Distinct(s: seq<Reason>) {
    forall r :: multiset(s)[r] <= 1
  }

  /** Records `reason` once if `failed`. */
  method Deny(reasons: seq<Reason>, failed: bool, reason: Reason) returns (out: seq<Reason>)
    requires Distinct(reasons)
    ensures Distinct(out)
    ensures forall x :: x in out <==> x in reasons || (failed && x == reason)
  {
    if !failed {
      return reasons;
    }
    for i := 0 to |reasons|
      invariant reason !in reasons[..i]
    {
      if reasons[i] == reason {
        return reasons;
      }
    }
    assert reasons[..|reasons|] == reasons;
    out := reasons + [reason];
  }

  method CheckSettings(i: Input, before: seq<Reason>) returns (reasons: seq<Reason>)
    requires i.config.Some? && Distinct(before)
    ensures Distinct(reasons)
    ensures forall r :: r in reasons <==> r in before || SettingsFail(i, r)
  {
    reasons := Deny(before, !i.config.value.liveTrading, LiveTradingDisabled);
    reasons := Deny(reasons, !i.config.value.prod, InvalidLiveContext);
    reasons := Deny(reasons, Blank(i.accountID), MissingAccountID);
    reasons := Deny(reasons, Blank(i.intentID) || Blank(i.orderHash), UnknownState);
  }

  method CheckRuntime(i: Input, before: seq<Reason>) returns (reasons: seq<Reason>)
    requires Distinct(before)
    ensures Distinct(reasons)
    ensures forall r :: r in reasons <==> r in before || RuntimeFails(i, r)
  {
    reasons := Deny(before, !i.transportApproved, TransportNotApproved);
    reasons := Deny(reasons, i.safetyFailed, SafetyCheckFailed);
    reasons := Deny(reasons, !i.gateAvailable, DecisionGateUnavailable);
    reasons := Deny(reasons, i.gateFailed || i.gateBlocks, DecisionGateDenied);
  }

  method CheckApproval(i: Input, before: seq<Reason>) returns (reasons: seq<Reason>)
    requires Distinct(before)
    ensures Distinct(reasons)
    ensures forall r :: r in reasons <==> r in before || ApprovalFails(i, r)
  {
    if i.approval.None? {
      reasons := Deny(before, true, ApprovalMissing);
      return;
    }
    var a := i.approval.value;
    reasons := Deny(before, Blank(a.intentID) || Blank(a.orderHash), UnknownState);
    reasons := Deny(reasons, a.accountID != i.accountID, AccountMismatch);
    reasons := Deny(reasons, a.intentID != i.intentID, IntentMismatch);
    reasons := Deny(reasons, a.orderHash != i.orderHash, PayloadMismatch);
    if a.approvedAt == 0 || i.approvedAt == 0 {
      reasons := Deny(reasons, true, ApprovalMissing);
    } else if a.approvedAt != i.approvedAt {
      reasons := Deny(reasons, true, TimeStateInvalid);
    } else if i.approvedAt > i.now {
      reasons := Deny(reasons, true, TimeStateInvalid);
    } else if i.now - i.approvedAt > MAX_AGE {
      reasons := Deny(reasons, true, ApprovalExpired);
    }
  }

  method CheckConfirmation(i: Input, before: seq<Reason>) returns (reasons: seq<Reason>)
    requires Distinct(before)
    ensures Distinct(reasons)
    ensures forall r :: r in reasons <==> r in before || ConfirmationFails(i, r)
  {
    if i.confirmation.None? {
      reasons := Deny(before, true, ConfirmationMissing);
      return;
    }
    var c := i.confirmation.value;
    reasons := Deny(before, !c.acknowledged, ConfirmationDeclined);
    reasons := Deny(reasons, Blank(c.intentID) || Blank(c.orderHash), UnknownState);
    reasons := Deny(reasons, c.accountID != i.accountID, AccountMismatch);
    reasons := Deny(reasons, c.intentID != i.intentID, IntentMismatch);
    reasons := Deny(reasons, c.orderHash != i.orderHash, PayloadMismatch);
    if c.confirmedAt == 0 {
      reasons := Deny(reasons, true, ConfirmationMissing);
    } else if c.confirmedAt > i.now {
      reasons := Deny(reasons, true, TimeStateInvalid);
    } else if i.now - c.confirmedAt > MAX_AGE {
      reasons := Deny(reasons, true, ConfirmationExpired);
    } else if i.approvedAt != 0 && c.confirmedAt < i.approvedAt {
      reasons := Deny(reasons, true, TimeStateInvalid);
    }
  }

  method CheckPayload(i: Input, before: seq<Reason>) returns (reasons: seq<Reason>)
    requires Distinct(before)
    ensures Distinct(reasons)
    ensures forall r :: r in reasons <==> r in before || PayloadFails(i, r)
  {
    if i.currentHash.None? {
      reasons := Deny(before, true, UnknownState);
    } else {
      reasons := Deny(before, i.currentHash.value != i.orderHash, PayloadMismatch);
    }
  }

  // ---- What being allowed means ----

  datatype Freshness = Missing | Invalid | Expired | Fresh

  /** The operator's diagnostic: age in whole seconds when it is known. */
  function FreshnessStatus(now: Time, ts: Time, maxAge: int): (Option<int>, Freshness) {
    if now == 0 || ts == 0 then (None, Missing)
    else if ts > now then (None, Invalid)
    else (Some((now - ts) / SECOND), if now - ts > maxAge then Expired else Fresh)
  }

  /** The conditions under which a live order may go out. */
  predicate Permitted(i: Input) {
    && i.config.Some? && i.config.value.liveTrading && i.config.value.prod
    && !Blank(i.accountID) && !Blank(i.intentID) && !Blank(i.orderHash)
    && i.transportApproved && !i.safetyFailed && i.gateAvailable && !i.gateFailed && !i.gateBlocks
    && i.now != 0 && i.approvedAt != 0
    && i.approval == Some(Approval(i.accountID, i.intentID, i.orderHash, i.approvedAt))
    && i.confirmation.Some? && i.confirmation.value.confirmedAt != 0
    && i.confirmation == Some(Confirmation(i.accountID, i.intentID, i.orderHash, true, i.confirmation.value.confirmedAt))
    && i.approvedAt <= i.confirmation.value.confirmedAt <= i.now <= i.approvedAt + 120_000_000_000
    && i.currentHash == Some(i.orderHash)
  }

  lemma ContextPasses(i: Input)
    requires i.config.Some? && forall r :: !SettingsFail(i, r) && !RuntimeFails(i, r)
    ensures i.config.value == Config(true, true) && !Blank(i.accountID) && !Blank(i.intentID) && !Blank(i.orderHash)
    ensures i.transportApproved && !i.safetyFailed && i.gateAvailable && !i.gateFailed && !i.gateBlocks
  {
    assert !SettingsFail(i, LiveTradingDisabled) && !SettingsFail(i, InvalidLiveContext);
    assert !SettingsFail(i, MissingAccountID) && !SettingsFail(i, UnknownState);
    assert !RuntimeFails(i, TransportNotApproved) && !RuntimeFails(i, SafetyCheckFailed);
    assert !RuntimeFails(i, DecisionGateUnavailable) && !RuntimeFails(i, DecisionGateDenied);
  }

  lemma ApprovalPasses(i: Input)
    requires forall r :: !ApprovalFails(i, r)
    ensures i.approval == Some(Approval(i.accountID, i.intentID, i.orderHash, i.approvedAt))
    ensures i.approvedAt != 0 && i.approvedAt <= i.now <= i.approvedAt + MAX_AGE
  {
    assert !ApprovalFails(i, ApprovalMissing);
    assert !ApprovalFails(i, AccountMismatch) && !ApprovalFails(i, IntentMismatch) && !ApprovalFails(i, PayloadMismatch);
    assert !ApprovalFails(i, TimeStateInvalid) && !ApprovalFails(i, ApprovalExpired);
  }

  lemma ConfirmationPasses(i: Input)
    requires i.approvedAt != 0 && forall r :: !ConfirmationFails(i, r)
    ensures i.confirmation.Some? && i.confirmation.value.confirmedAt != 0
    ensures i.confirmation.value == Confirmation(i.accountID, i.intentID, i.orderHash, true, i.confirmation.value.confirmedAt)
    ensures i.approvedAt <= i.confirmation.value.confirmedAt <= i.now
  {
    assert !ConfirmationFails(i, ConfirmationMissing) && !ConfirmationFails(i, ConfirmationDeclined);
    assert !ConfirmationFails(i, AccountMismatch) && !ConfirmationFails(i, IntentMismatch) && !ConfirmationFails(i, PayloadMismatch);
    assert !ConfirmationFails(i, TimeStateInvalid) && !ConfirmationFails(i, ConfirmationExpired);
  }

  /** No deny reason applies exactly when every condition holds: one account, intent and payload,
      approved, then confirmed, then checked, within two minutes of the approval. */
  lemma AllowedIffPermitted(i: Input)
    ensures (forall r :: !Applies(i, r)) <==> Permitted(i)
  {
    if forall r :: !Applies(i, r) {
      assert !Applies(i, UnknownState) && !Applies(i, TimeStateInvalid) && !Applies(i, PayloadMismatch);
      forall r ensures !SettingsFail(i, r) && !RuntimeFails(i, r) && !ApprovalFails(i, r) && !ConfirmationFails(i, r) {
        assert !Applies(i, r);
      }
      ContextPasses(i);
      ApprovalPasses(i);
      ConfirmationPasses(i);
    }
  }

  // ---- The evaluation as a whole ----

  /** Allowed exactly when every condition holds; the reasons given are those that apply, each once. */
  method Evaluate(i: Input) returns (allowed: bool, reasons: seq<Reason>)
    ensures allowed <==> Permitted(i)
    ensures allowed <==> reasons == []
    ensures forall r :: r in reasons <==> Applies(i, r)
    ensures Distinct(reasons)
  {
    reasons := Deny([], i.now == 0, TimeStateInvalid);
    if i.config.None? {
      reasons := Deny(reasons, true, UnknownState);
      assert UnknownState in reasons;
      return false, reasons;
    }
    reasons := CheckSettings(i, reasons);
    reasons := CheckRuntime(i, reasons);
    reasons := CheckApproval(i, reasons);
    reasons := CheckConfirmation(i, reasons);
    reasons := CheckPayload(i, reasons);
    allowed := reasons == [];
    assert !allowed ==> reasons[0] in reasons && Applies(i, reasons[0]);
    assert forall r :: r in reasons <==> Applies(i, r);
    AllowedIffPermitted(i);
  }

  // ---- The reasons one by one, each over all the checks that can give it ----

  lemma SettingsReasonsMean(i: Input)
    requires i.config.Some?
    ensures Applies(i, LiveTradingDisabled) <==> !i.config.value.liveTrading
    ensures Applies(i, InvalidLiveContext) <==> !i.config.value.prod
    ensures Applies(i, MissingAccountID) <==> Blank(i.accountID)
  {
  }

  lemma RuntimeReasonsMean(i: Input)
    requires i.config.Some?
    ensures Applies(i, TransportNotApproved) <==> !i.transportApproved
    ensures Applies(i, SafetyCheckFailed) <==> i.safetyFailed
    ensures Applies(i, DecisionGateUnavailable) <==> !i.gateAvailable
    ensures Applies(i, DecisionGateDenied) <==> i.gateFailed || i.gateBlocks
  {
  }

  lemma PresenceReasonsMean(i: Input)
    requires i.config.Some?
    ensures Applies(i, ApprovalMissing) <==> i.approval.None? || i.approval.value.approvedAt == 0 || i.approvedAt == 0
    ensures Applies(i, ConfirmationMissing) <==> i.confirmation.None? || i.confirmation.value.confirmedAt == 0
    ensures Applies(i, ConfirmationDeclined) <==> i.confirmation.Some? && !i.confirmation.value.acknowledged
  {
  }

  /** The three facts that approval and confirmation repeat: of either, one is not this input's. */
  lemma MismatchReasonsMean(i: Input)
    requires i.config.Some? && i.approval.Some? && i.confirmation.Some?
    ensures Applies(i, AccountMismatch) <==> !(i.approval.value.accountID == i.confirmation.value.accountID == i.accountID)
    ensures Applies(i, IntentMismatch) <==> !(i.approval.value.intentID == i.confirmation.value.intentID == i.intentID)
    ensures Applies(i, PayloadMismatch) <==>
      || !(i.approval.value.orderHash == i.confirmation.value.orderHash == i.orderHash)
      || (i.currentHash.Some? && i.currentHash.value != i.orderHash)
  {
  }

  lemma UnknownStateMeans(i: Input)
    requires i.config.Some? && i.approval.Some? && i.confirmation.Some?
    ensures Applies(i, UnknownState) <==>
      || i.currentHash.None?
      || Blank(i.intentID) || Blank(i.approval.value.intentID) || Blank(i.confirmation.value.intentID)
      || Blank(i.orderHash) || Blank(i.approval.value.orderHash) || Blank(i.confirmation.value.orderHash)
  {
  }

  /** With approval and confirmation dated; two minutes in nanoseconds. */
  lemma EachTimeReasonMeans(i: Input)
    requires i.config.Some? && i.approval.Some? && i.confirmation.Some?
    requires i.now != 0 && i.approvedAt != 0 && i.approval.value.approvedAt != 0 && i.confirmation.value.confirmedAt != 0
    ensures Applies(i, ApprovalExpired) <==> i.approval.value.approvedAt == i.approvedAt && i.approvedAt + 120_000_000_000 < i.now
    ensures Applies(i, ConfirmationExpired) <==> i.confirmation.value.confirmedAt + 120_000_000_000 < i.now
    ensures Applies(i, TimeStateInvalid) <==>
      || i.approval.value.approvedAt != i.approvedAt || i.now < i.approvedAt || i.now < i.confirmation.value.confirmedAt
      || (i.confirmation.value.confirmedAt < i.approvedAt && i.now <= i.confirmation.value.confirmedAt + 120_000_000_000)
  {
  }

  /** Without a configuration nothing but the clock is looked at. */
  lemma NoConfigMeans(i: Input, r: Reason)
    requires i.config.None?
    ensures Applies(i, r) <==> r == UnknownState || (r == TimeStateInvalid && i.now == 0)
  {
  }

  /** Live trading needs the setting, the production host, and no certification host. */
  lemma LoadedLiveMeans(baseURL: string, liveEnv: bool)
    ensures LoadConfig(baseURL, liveEnv).liveTrading <==>
      && liveEnv && (exists i :: 0 <= i <= |baseURL| && "api.tastytrade.com" <= baseURL[i..])
      && forall i :: 0 <= i <= |baseURL| ==> !("cert" <= baseURL[i..])
    ensures LoadConfig(baseURL, liveEnv).prod == LoadConfig(baseURL, true).liveTrading
  {
  }

  /** The age is in whole seconds, rounded down, and known exactly when the status is fresh or expired. */
  lemma FreshnessMeans(now: Time, ts: Time, maxAge: int)
    ensures var (age, status) := FreshnessStatus(now, ts, maxAge);
      && (status == Missing <==> now == 0 || ts == 0)
      && (status == Invalid <==> now != 0 && ts != 0 && now < ts)
      && (status == Expired <==> now != 0 && ts != 0 && ts <= now && ts + maxAge < now)
      && (age.Some? <==> status == Fresh || status == Expired)
      && (age.Some? ==> age.value * 1_000_000_000 <= now - ts < (age.value + 1) * 1_000_000_000)
  {
  }

  /** And then both of the operator's diagnostics read fresh. */
  lemma PermittedReadsFresh(i: Input)
    requires Permitted(i)
    ensures FreshnessStatus(i.now, i.approvedAt, MAX_AGE).1 == Fresh
    ensures FreshnessStatus(i.now, i.confirmation.value.confirmedAt, MAX_AGE).1 == Fresh
  {
  }

  /** The diagnostics and the deny reasons agree: with a loaded config and matching approval time,
      approval reads expired exactly when the policy denies it as expired. */
  lemma ExpiryAgreesWithDiagnostics(i: Input)
    requires i.config.Some? && i.approval.Some? && i.approval.value.approvedAt == i.approvedAt && i.now != 0
    ensures Applies(i, ApprovalExpired) <==> FreshnessStatus(i.now, i.approvedAt, MAX_AGE).1 == Expired
    ensures i.confirmation.Some? ==>
      (Applies(i, ConfirmationExpired) <==> FreshnessStatus(i.now, i.confirmation.value.confirmedAt, MAX_AGE).1 == Expired)
  {
  }
}
