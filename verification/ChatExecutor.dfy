/** `Stage2ChatExecutor.execute`: the precheck chain, the lease, the sender call and the closing update. */
module ChatExecutor {
  import opened Wrappers
  import opened Text
  import opened HexCodec
  import opened WatchRules
  import opened FundingIntent
  import opened ChatCommand
  import LeaseProtocol

  const REQUIRED_PHRASE: string := "W5G LIVE CHAT CONDITIONAL DEPOSIT APPROVED"
  const MAINNET: string := "mainnet-beta"
  const MIN_AMOUNT_RAW: nat := 100_000
  const MAX_AMOUNT_RAW: nat := 1_000_000

  datatype Config = Config(
    masterGateOn: bool,
    envApprovalPhrase: Option<string>,
    cluster: Option<string>,
    keypairPathPresent: bool,
    rpcUrlPresent: bool)

  datatype ErrorCode =
    | MasterGateMissing | EnvApprovalMismatch | RequestApprovalMismatch | ClusterMismatch
    | KeypairPathMissing | RpcUrlMissing | RuleNotFound | CanonicalHashMismatch | RuleNotExecutable
    | AmountMismatch | MarketDataUnavailable | SaveApyBelowThreshold | NativeAprFetchFailed
    | BudgetInsufficient | RepoUpdateFailed | PollExhausted | TxBuildFailed | TxSizeExceeded
    | BroadcastFailed | OnChainFailure

  /** What the outside world answers while one `execute` call runs. */
  datatype World = World(
    lookupFails: bool,
    saveApyBps: Option<nat>,
    nativeBudgetRaw: Option<nat>,
    nowMs: int,
    leaseFault: Fault,
    report: LeaseProtocol.Report,
    txSignature: string,
    markRuleFault: Fault,
    closeFault: Fault)

  datatype Ready = Ready(ruleId: RuleId, amountRaw: nat)

  type Hasher = WatchRule -> seq<Byte>

  predicate RuleStatusIsExecutable(status: RuleStatus) { status in {Active, ConditionMet} }

  predicate EqualsIgnoreCase(a: string, b: string) { Lower(a) == Lower(b) }

  /** Steps 1 to 5: what the configuration and the request say before any lookup. */
  function GateError(c: Config, request: Request): Option<ErrorCode> {
    if !c.masterGateOn then Some(MasterGateMissing)
    else if c.envApprovalPhrase != Some(REQUIRED_PHRASE) then Some(EnvApprovalMismatch)
    else if request.approvalPhrase != REQUIRED_PHRASE then Some(RequestApprovalMismatch)
    else if c.cluster != Some(MAINNET) then Some(ClusterMismatch)
    else if !c.keypairPathPresent then Some(KeypairPathMissing)
    else if !c.rpcUrlPresent then Some(RpcUrlMissing)
    else None
  }

  /** Steps 7 to 10: what the stored rule and the live readings say. */
  function RuleError(hash: Hasher, request: Request, stored: StoredRule, w: World): Option<ErrorCode> {
    var rule := stored.rule;
    if !EqualsIgnoreCase(Encode(hash(rule)), request.canonicalRuleHashHex) then Some(CanonicalHashMismatch)
    else if !RuleStatusIsExecutable(stored.status) then Some(RuleNotExecutable)
    else if ExtractThreshold(rule.conditions).None? then Some(RuleNotExecutable)
    else if !(MIN_AMOUNT_RAW <= rule.maxInputAmountRaw <= MAX_AMOUNT_RAW) then Some(AmountMismatch)
    else if w.saveApyBps.None? then Some(MarketDataUnavailable)
    else if w.saveApyBps.value <= ExtractThreshold(rule.conditions).value then Some(SaveApyBelowThreshold)
    else if w.nativeBudgetRaw.None? then Some(NativeAprFetchFailed)
    else if w.nativeBudgetRaw.value < rule.maxInputAmountRaw then Some(BudgetInsufficient)
    else None
  }

  function Prechecks(c: Config, hash: Hasher, rules: map<RuleId, StoredRule>, request: Request, w: World)
    : Result<Ready, ErrorCode>
  {
    match GateError(c, request)
    case Some(error) => Failure(error)
    case None =>
      match DecodeRuleId(request.ruleIdHex)
      case None => Failure(RuleNotFound)
      case Some(id) =>
        if w.lookupFails || id !in rules then Failure(RuleNotFound) else
        match RuleError(hash, request, rules[id], w)
        case Some(error) => Failure(error)
        case None => Success(Ready(id, rules[id].rule.maxInputAmountRaw))
  }

  /** Everything the operator is promised to hold before money can move. */
  predicate EveryGateHolds(c: Config, hash: Hasher, rules: map<RuleId, StoredRule>, request: Request, w: World, id: RuleId) {
    && c.masterGateOn && c.keypairPathPresent && c.rpcUrlPresent
    && c.envApprovalPhrase == Some(REQUIRED_PHRASE) && c.cluster == Some(MAINNET)
    && request.approvalPhrase == REQUIRED_PHRASE
    && DecodeRuleId(request.ruleIdHex) == Some(id) && id in rules && !w.lookupFails
    && Lower(request.canonicalRuleHashHex) == Encode(hash(rules[id].rule))
    && rules[id].status in {Active, ConditionMet}
    && ExtractThreshold(rules[id].rule.conditions).Some?
    && w.saveApyBps.Some? && w.saveApyBps.value > ExtractThreshold(rules[id].rule.conditions).value
    && w.nativeBudgetRaw.Some? && MIN_AMOUNT_RAW <= rules[id].rule.maxInputAmountRaw <= MAX_AMOUNT_RAW
    && rules[id].rule.maxInputAmountRaw <= w.nativeBudgetRaw.value
  }

  lemma EncodedIsLowerCase(bytes: seq<Byte>)
    ensures Lower(Encode(bytes)) == Encode(bytes)
  {
  }

  /** The chain of early returns lets a request through exactly when every gate holds, for the stored rule's amount. */
  lemma ReadyIffEveryGateHolds(c: Config, hash: Hasher, rules: map<RuleId, StoredRule>, request: Request, w: World)
    ensures
      var ready := Prechecks(c, hash, rules, request, w);
      && (ready.Success? <==> exists id :: EveryGateHolds(c, hash, rules, request, w, id))
      && (ready.Success? ==>
            && EveryGateHolds(c, hash, rules, request, w, ready.value.ruleId)
            && ready.value.amountRaw == rules[ready.value.ruleId].rule.maxInputAmountRaw)
  {
    var id := DecodeRuleId(request.ruleIdHex);
    if id.Some? && id.value in rules {
      EncodedIsLowerCase(hash(rules[id.value].rule));
      assert Prechecks(c, hash, rules, request, w).Success? <==> EveryGateHolds(c, hash, rules, request, w, id.value);
    }
    assert forall other :: EveryGateHolds(c, hash, rules, request, w, other) ==> id == Some(other);
  }

  /** What a refusal says is wrong with the configuration, the request or the lookup. */
  predicate SetupFails(error: ErrorCode, c: Config, request: Request, w: World, rules: map<RuleId, StoredRule>) {
    match error
    case MasterGateMissing => !c.masterGateOn
    case EnvApprovalMismatch => c.envApprovalPhrase != Some(REQUIRED_PHRASE)
    case RequestApprovalMismatch => request.approvalPhrase != REQUIRED_PHRASE
    case ClusterMismatch => c.cluster != Some(MAINNET)
    case KeypairPathMissing => !c.keypairPathPresent
    case RpcUrlMissing => !c.rpcUrlPresent
    case RuleNotFound => w.lookupFails || forall id :: id in rules ==> DecodeRuleId(request.ruleIdHex) != Some(id)
    case _ => false
  }

  /** What a refusal says is wrong with the stored rule or the live readings. */
  predicate RuleFails(error: ErrorCode, hash: Hasher, request: Request, stored: StoredRule, w: World) {
    var threshold, amount := ExtractThreshold(stored.rule.conditions), stored.rule.maxInputAmountRaw;
    match error
    case CanonicalHashMismatch => Lower(request.canonicalRuleHashHex) != Encode(hash(stored.rule))
    case RuleNotExecutable => stored.status !in {Active, ConditionMet} || threshold.None?
    case AmountMismatch => amount < 100_000 || amount > 1_000_000
    case MarketDataUnavailable => w.saveApyBps.None?
    case SaveApyBelowThreshold => w.saveApyBps.Some? && threshold.Some? && w.saveApyBps.value <= threshold.value
    case NativeAprFetchFailed => w.nativeBudgetRaw.None?
    case BudgetInsufficient => w.nativeBudgetRaw.Some? && w.nativeBudgetRaw.value < amount
    case _ => false
  }

  /** What each refusal says is wrong: the gate it is named after, which does not hold. */
  predicate GateFails(error: ErrorCode, c: Config, hash: Hasher, rules: map<RuleId, StoredRule>, request: Request, w: World) {
    || SetupFails(error, c, request, w, rules)
    || exists id :: id in rules && DecodeRuleId(request.ruleIdHex) == Some(id) && RuleFails(error, hash, request, rules[id], w)
  }

  /** A refusal names a gate that fails. */
  lemma RefusalNamesItsGate(c: Config, hash: Hasher, rules: map<RuleId, StoredRule>, request: Request, w: World)
    ensures
      var ready := Prechecks(c, hash, rules, request, w);
      ready.Failure? ==> GateFails(ready.error, c, hash, rules, request, w)
  {
    var id := DecodeRuleId(request.ruleIdHex);
    if id.Some? && id.value in rules {
      EncodedIsLowerCase(hash(rules[id.value].rule));
    }
  }

  // ── The imperative part ─────────────────────────────────────────────────

  /** The sender boundary; it logs the amounts it was asked to deposit. */
  class Sender {
    var requests: seq<nat>

    constructor ()
      ensures requests == []
    {
      requests := [];
    }

    method BuildSignSendPoll(amountRaw: nat, w: World) returns (report: LeaseProtocol.Report)
      modifies this
      ensures requests == old(requests) + [amountRaw] && report == w.report
    {
      requests := requests + [amountRaw];
      report := w.report;
    }
  }

  datatype ExecuteStatus = PrechecksFailed | Completed | BroadcastedTimeout | ExecutionFailed

  datatype Outcome = Outcome(status: ExecuteStatus, txSignature: Option<string>, error: Option<ErrorCode>)

  function Refused(code: ErrorCode): Outcome { Outcome(PrechecksFailed, None, Some(code)) }

  /** The answer to the caller once the sender has reported. */
  function Reported(w: World, ruleMarked: bool): Outcome {
    match w.report
    case Finalized => Outcome(ExecuteStatus.Completed, Some(w.txSignature), if ruleMarked then None else Some(RepoUpdateFailed))
    case TimedOut => Outcome(BroadcastedTimeout, Some(w.txSignature), Some(PollExhausted))
    case BuildFailed => Outcome(ExecutionFailed, None, Some(TxBuildFailed))
    case SizeExceeded => Outcome(ExecutionFailed, None, Some(TxSizeExceeded))
    case BroadcastFailed => Outcome(ExecutionFailed, None, Some(BroadcastFailed))
    case FailedOnChain => Outcome(ExecutionFailed, Some(w.txSignature), Some(OnChainFailure))
  }

  /** The steps one undisturbed call takes in the lease protocol once its prechecks have passed. */
  function SoloSteps(i: Intent, w: World): seq<LeaseProtocol.Step> {
    [LeaseProtocol.Begin(0), LeaseProtocol.TakeLease(0, w.leaseFault)]
    + if w.leaseFault == Acknowledged && Matches(i, LeaseExecution(w.nowMs)) then
        [LeaseProtocol.Send(0)]
        + LeaseProtocol.LandingOf(w.report, 0)
        + [LeaseProtocol.Answer(0, w.report), LeaseProtocol.Close(0, w.closeFault)]
      else []
  }

  function SoloStart(i: Intent, nowMs: int): LeaseProtocol.State {
    LeaseProtocol.State(i, nowMs, map[], map[], [], 0, LeaseProtocol.Free)
  }

  /** The state the protocol predicts for an undisturbed call. */
  function SoloEnd(i: Intent, w: World): Option<LeaseProtocol.State> {
    LeaseProtocol.Run(LeaseProtocol.Network(true), SoloStart(i, w.nowMs), SoloSteps(i, w))
  }

  /** The row an undisturbed call leaves behind once its prechecks have passed. */
  function SoloRow(i: Intent, w: World): Intent {
    var leased := LeaseProtocol.Written(i, LeaseExecution(w.nowMs), w.leaseFault);
    if w.leaseFault != Acknowledged || !Matches(i, LeaseExecution(w.nowMs)) then leased
    else
      match w.report
      case Finalized => LeaseProtocol.Written(leased, Complete(w.txSignature), w.closeFault)
      case TimedOut => leased
      case FailedOnChain => LeaseProtocol.Written(leased, MarkFailed("on-chain failure"), w.closeFault)
      case _ => LeaseProtocol.Written(leased, ReleaseLease("pre-broadcast failure"), w.closeFault)
  }

  function Blank(text: Option<string>): Option<string> { if text.Some? then Some("") else None }

  /** A row up to the wording of its execution signature and its error, which the protocol leaves open. */
  function Worded(i: Intent): Intent {
    i.(executionSignature := Blank(i.executionSignature), lastError := Blank(i.lastError))
  }

  /** The lease protocol has a run for every undisturbed call, and it ends in the row the call leaves behind. */
  lemma SoloRun(i: Intent, w: World)
    ensures SoloEnd(i, w).Some? && Worded(SoloEnd(i, w).value.intent) == Worded(SoloRow(i, w))
    ensures |SoloEnd(i, w).value.calls| ==
      if w.leaseFault == Acknowledged && Matches(i, LeaseExecution(w.nowMs)) then 1 else 0
  {
    var net := LeaseProtocol.Network(true);
    var s0 := SoloStart(i, w.nowMs);
    if w.leaseFault == Acknowledged && Matches(i, LeaseExecution(w.nowMs)) {
      SoloLeasedRun(i, w);
    } else {
      var steps, s := LeaseProtocol.Extend(net, s0, [], s0, LeaseProtocol.Begin(0));
      steps, s := LeaseProtocol.Extend(net, s0, steps, s, LeaseProtocol.TakeLease(0, w.leaseFault));
      assert steps == SoloSteps(i, w);
    }
  }

  lemma SoloAttempt(i: Intent, w: World) returns (steps: seq<LeaseProtocol.Step>, s: LeaseProtocol.State)
    requires w.leaseFault == Acknowledged && Matches(i, LeaseExecution(w.nowMs))
    ensures steps == SoloSteps(i, w)
    ensures LeaseProtocol.Run(LeaseProtocol.Network(true), SoloStart(i, w.nowMs), steps) == Some(s) && |s.calls| == 1
    ensures
      var leased := i.(status := Executing);
      s.intent == if LeaseProtocol.ClosingUpdate(w.report).None? then leased
                  else LeaseProtocol.Written(leased, LeaseProtocol.ClosingUpdate(w.report).value, w.closeFault)
  {
    var s0 := SoloStart(i, w.nowMs);
    steps, s := LeaseProtocol.AttemptReachesSender(LeaseProtocol.Network(true), s0, [], s0);
    steps, s := LeaseProtocol.AttemptEnds(LeaseProtocol.Network(true), s0, steps, s, w.report, w.closeFault);
  }

  lemma SoloLeasedRun(i: Intent, w: World)
    requires w.leaseFault == Acknowledged && Matches(i, LeaseExecution(w.nowMs))
    ensures SoloEnd(i, w).Some? && Worded(SoloEnd(i, w).value.intent) == Worded(SoloRow(i, w))
    ensures |SoloEnd(i, w).value.calls| == 1
  {
    var steps, s := SoloAttempt(i, w);
  }

  /** Whether a call whose prechecks passed gets to hold the lease. */
  predicate GetsLease(rows: map<string, Intent>, request: Request, w: World) {
    && w.leaseFault == Acknowledged
    && request.ruleIdHex in rows && Matches(rows[request.ruleIdHex], LeaseExecution(w.nowMs))
  }

  class Stage2ChatExecutor {
    const config: Config
    const hash: Hasher
    const rules: RuleRepository
    const intents: IntentRepository
    const sender: Sender

    constructor (config: Config, hash: Hasher, rules: RuleRepository, intents: IntentRepository, sender: Sender)
      ensures this.config == config && this.hash == hash
      ensures this.rules == rules && this.intents == intents && this.sender == sender
    {
      this.config, this.hash, this.rules, this.intents, this.sender := config, hash, rules, intents, sender;
    }

    /**
     One call with nobody else running. Nothing is written and nothing is sent
     before the lease; with it, the sender is asked once, for the rule's own amount.
     */
    method Execute(request: Request, w: World) returns (o: Outcome)
      modifies rules, intents, sender
      ensures Answered(Prechecks(config, hash, old(rules.rows), request, w).Success?,
                       request, w, old(intents.rows), o, intents.rows)
      ensures
        var ready := Prechecks(config, hash, old(rules.rows), request, w);
        if ready.Failure? then
          && o == Refused(ready.error)
          && rules.rows == old(rules.rows) && intents.rows == old(intents.rows) && sender.requests == old(sender.requests)
        else
          RunOutcome(ready.value, request, w, old(rules.rows), old(intents.rows), old(sender.requests),
                     o, rules.rows, intents.rows, sender.requests)
    {
      var ready := CheckRequest(request, w);
      if ready.Failure? {
        return Refused(ready.error);
      }
      o := RunReady(ready.value, request, w);
      RunIsAnswered(ready.value, request, w, old(rules.rows), old(intents.rows), old(sender.requests),
                    o, rules.rows, intents.rows, sender.requests);
    }

    /** Steps 1 to 10 of the call, which only read. */
    method CheckRequest(request: Request, w: World) returns (ready: Result<Ready, ErrorCode>)
      ensures ready == Prechecks(config, hash, rules.rows, request, w)
      ensures ready.Success? ==> ready.value.ruleId in rules.rows
    {
      var gate := GateError(config, request);
      if gate.Some? {
        return Failure(gate.value);
      }
      var id := DecodeRuleIdHex(request.ruleIdHex);
      if id.None? {
        return Failure(RuleNotFound);
      }
      var lookup := rules.Get(id.value, w.lookupFails);
      if lookup.Failure? || lookup.value.None? {
        return Failure(RuleNotFound);
      }
      var stored := lookup.value.value;
      var ruleError := RuleError(hash, request, stored, w);
      if ruleError.Some? {
        return Failure(ruleError.value);
      }
      return Success(Ready(id.value, stored.rule.maxInputAmountRaw));
    }

    /** Steps 11 and 12: the lease, the sender call and the closing updates. */
    method RunReady(ready: Ready, request: Request, w: World) returns (o: Outcome)
      requires ready.ruleId in rules.rows
      modifies rules, intents, sender
      ensures RunOutcome(ready, request, w, old(rules.rows), old(intents.rows), old(sender.requests),
                         o, rules.rows, intents.rows, sender.requests)
    {
      var leased := intents.Apply(request.ruleIdHex, LeaseExecution(w.nowMs), w.leaseFault);
      if leased.Failure? {
        return Refused(RepoUpdateFailed);
      }
      if leased.value != 1 {
        return Refused(RuleNotExecutable);
      }
      var report := sender.BuildSignSendPoll(ready.amountRaw, w);
      var ruleMarked := false;
      match report {
        case Finalized =>
          ruleMarked := rules.MarkCompleted(ready.ruleId, ready.amountRaw, w.markRuleFault);
          var _ := intents.Apply(request.ruleIdHex, Complete(w.txSignature), w.closeFault);
        case TimedOut =>
        case FailedOnChain =>
          var _ := intents.Apply(request.ruleIdHex, MarkFailed("on-chain failure"), w.closeFault);
        case _ =>
          var _ := intents.Apply(request.ruleIdHex, ReleaseLease("pre-broadcast failure"), w.closeFault);
      }
      o := Reported(w, ruleMarked);
    }
  }

  /** How a call whose prechecks passed relates the three stores and the answer. */
  ghost predicate RunOutcome(
    ready: Ready, request: Request, w: World,
    rules: map<RuleId, StoredRule>, intents: map<string, Intent>, requests: seq<nat>,
    o: Outcome,
    rules': map<RuleId, StoredRule>, intents': map<string, Intent>, requests': seq<nat>)
  {
    var id := request.ruleIdHex;
    var leased := GetsLease(intents, request, w);
    && (o == if leased then Reported(w, w.markRuleFault == Acknowledged)
             else Refused(if w.leaseFault == Acknowledged then RuleNotExecutable else RepoUpdateFailed))
    && requests' == requests + (if leased then [ready.amountRaw] else [])
    && intents' == (if id in intents then intents[id := SoloRow(intents[id], w)] else intents)
    && rules' ==
         (if leased && w.report.Finalized? && w.markRuleFault != LostBeforeApply && ready.ruleId in rules
          then rules[ready.ruleId := StoredRule(rules[ready.ruleId].rule, RuleCompleted, ready.amountRaw)]
          else rules)
  }

  // ── What the caller is told ─────────────────────────────────────────────

  /** The prechecks passed and the statement that takes the lease took it, to the caller's knowledge. */
  predicate MayDeposit(ready: bool, request: Request, w: World, intents: map<string, Intent>) {
    && ready && w.leaseFault == Acknowledged && request.ruleIdHex in intents
    && intents[request.ruleIdHex].status == FundingIntent.BudgetReserved
    && w.nowMs < intents[request.ruleIdHex].expiresAtMs
  }

  /** The error that goes with what the sender reported. */
  predicate ErrorTells(w: World, error: Option<ErrorCode>) {
    && (error == None <==> w.report == LeaseProtocol.Finalized && w.markRuleFault == Acknowledged)
    && (error == Some(RepoUpdateFailed) <==> w.report == LeaseProtocol.Finalized && w.markRuleFault != Acknowledged)
    && (error == Some(PollExhausted) <==> w.report == LeaseProtocol.TimedOut)
    && (error == Some(TxBuildFailed) <==> w.report == LeaseProtocol.BuildFailed)
    && (error == Some(TxSizeExceeded) <==> w.report == LeaseProtocol.SizeExceeded)
    && (error == Some(BroadcastFailed) <==> w.report == LeaseProtocol.BroadcastFailed)
    && (error == Some(OnChainFailure) <==> w.report == LeaseProtocol.FailedOnChain)
  }

  /**
   Success is answered for a finalized deposit and for nothing else; a signature is
   answered exactly when the report has one; a refused call answers neither.
   */
  predicate AnswerTells(leased: bool, w: World, o: Outcome) {
    && (o.status == ExecuteStatus.Completed <==> leased && w.report == LeaseProtocol.Finalized)
    && (o.status == BroadcastedTimeout <==> leased && w.report == LeaseProtocol.TimedOut)
    && (o.status == PrechecksFailed <==> !leased)
    && o.txSignature == (if leased && w.report in {LeaseProtocol.Finalized, LeaseProtocol.TimedOut, LeaseProtocol.FailedOnChain}
                         then Some(w.txSignature) else None)
    && (if leased then ErrorTells(w, o.error) else o.error.Some?)
  }

  /** The status the intent row ends in, when the closing write is not lost. */
  predicate RowTells(w: World, o: Outcome, i: Intent) {
    && (i.status == FundingIntent.Completed <==> o.status == ExecuteStatus.Completed)
    && (i.status == FundingIntent.Completed ==> i.executionSignature == o.txSignature)
    && (i.status == FundingIntent.Executing <==> o.status == BroadcastedTimeout)
    && (i.status == FundingIntent.Failed <==> o.status == ExecutionFailed && o.txSignature.Some?)
    && (i.status == FundingIntent.BudgetReserved <==> o.status == ExecutionFailed && o.txSignature.None?)
  }

  /** What an answer says about the call, and about the row the call leaves behind. */
  predicate Answered(ready: bool, request: Request, w: World, intents: map<string, Intent>,
                     o: Outcome, intents': map<string, Intent>)
  {
    var id := request.ruleIdHex;
    var leased := MayDeposit(ready, request, w, intents);
    && AnswerTells(leased, w, o)
    && (ready && !leased ==> (o.error == Some(RepoUpdateFailed) <==> w.leaseFault != Acknowledged)
                             && (o.error == Some(RuleNotExecutable) <==> w.leaseFault == Acknowledged))
    && (leased && w.closeFault != LostBeforeApply ==> id in intents' && RowTells(w, o, intents'[id]))
    && (leased && w.closeFault == LostBeforeApply ==> id in intents' && intents'[id].status == Executing)
    && (forall other :: other in intents && (other != id || (!leased && w.leaseFault != LostAfterApply)) ==>
          other in intents' && intents'[other] == intents[other])
  }

  lemma RunIsAnswered(
    ready: Ready, request: Request, w: World,
    rules: map<RuleId, StoredRule>, intents: map<string, Intent>, requests: seq<nat>,
    o: Outcome,
    rules': map<RuleId, StoredRule>, intents': map<string, Intent>, requests': seq<nat>)
    requires RunOutcome(ready, request, w, rules, intents, requests, o, rules', intents', requests')
    ensures Answered(true, request, w, intents, o, intents')
    ensures requests' == requests + if MayDeposit(true, request, w, intents) then [ready.amountRaw] else []
  {
  }
}
