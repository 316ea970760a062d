/**
 The W5h funding-intent row and its guarded updates.

 Every state change in the repository is one SQL statement
 `UPDATE ... SET <Updated> WHERE intent_id = ? AND <Matches>`, so it is modelled
 as a guard and an assignment that are evaluated together.
 */
module FundingIntent {
  import opened Wrappers

  datatype Status =
    | FundingRequired
    | FundingSubmitted
    | FundingInvalid
    | BudgetReserved
    | Executing
    | Completed
    | Expired
    | Refunding
    | Refunded
    | Failed

  datatype Intent = Intent(
    canonicalRuleHashHex: string,
    thresholdBps: nat,
    amountRaw: nat,
    expiresAtMs: int,
    status: Status,
    fundingSignature: Option<string>,
    executionSignature: Option<string>,
    refundSignature: Option<string>,
    lastError: Option<string>)

  /** The row the bridge inserts. */
  function NewIntent(canonicalRuleHashHex: string, thresholdBps: nat, amountRaw: nat, expiresAtMs: int): Intent {
    Intent(canonicalRuleHashHex, thresholdBps, amountRaw, expiresAtMs, FundingRequired, None, None, None, None)
  }

  /** One constructor for each update statement of the repository. */
  datatype Update =
    | SubmitFunding(signature: string)
    | ReserveBudget(signature: string)
    | InvalidateFunding(signature: string, reason: string)
    | LeaseExecution(nowMs: int)
    | Complete(signature: string)
    | ReleaseLease(reason: string)
    | MarkExpired(nowMs: int)
    | LeaseRefund(nowMs: int)
    | CompleteRefund(signature: string)
    | MarkFailed(reason: string)

  predicate Terminal(status: Status) {
    status in {FundingInvalid, Completed, Refunded, Failed}
  }

  /** The WHERE clause of an update. */
  predicate Matches(i: Intent, u: Update) {
    match u
    case SubmitFunding(sig) =>
      i.status == FundingRequired
      || (i.status == FundingSubmitted && i.fundingSignature in {None, Some(sig)})
    case ReserveBudget(sig) => i.status == FundingSubmitted && i.fundingSignature == Some(sig)
    case InvalidateFunding(sig, _) => i.status == FundingSubmitted && i.fundingSignature == Some(sig)
    case LeaseExecution(now) => i.status == BudgetReserved && i.expiresAtMs > now
    case Complete(_) => i.status == Executing
    case ReleaseLease(_) => i.status == Executing
    case MarkExpired(now) => i.status == BudgetReserved && i.expiresAtMs <= now
    case LeaseRefund(now) => i.status in {BudgetReserved, Expired} && i.expiresAtMs <= now
    case CompleteRefund(_) => i.status == Refunding
    case MarkFailed(_) => !Terminal(i.status)
  }

  /** The SET clause of an update. */
  function Updated(i: Intent, u: Update): Intent {
    match u
    case SubmitFunding(sig) => i.(status := FundingSubmitted, fundingSignature := Some(sig))
    case ReserveBudget(_) => i.(status := BudgetReserved)
    case InvalidateFunding(_, reason) => i.(status := FundingInvalid, lastError := Some(reason))
    case LeaseExecution(_) => i.(status := Executing)
    case Complete(sig) => i.(status := Completed, executionSignature := Some(sig))
    case ReleaseLease(reason) => i.(status := BudgetReserved, lastError := Some(reason))
    case MarkExpired(_) => i.(status := Expired)
    case LeaseRefund(_) => i.(status := Refunding)
    case CompleteRefund(sig) => i.(status := Refunded, refundSignature := Some(sig))
    case MarkFailed(reason) => i.(status := Failed, lastError := Some(reason))
  }

  /** What one statement does to the row it names. */
  function Cas(i: Intent, u: Update): Intent {
    if Matches(i, u) then Updated(i, u) else i
  }

  function CasAll(i: Intent, us: seq<Update>): Intent
    decreases |us|
  {
    if us == [] then i else CasAll(Cas(i, us[0]), us[1..])
  }

  // ── Every sequence of updates, by anybody, in any order ────────────────

  /** The statuses from which a refund lease has been, or can no longer be, taken back. */
  predicate OnRefundPath(status: Status) {
    status in {Refunding, Refunded, Failed}
  }

  /**
   Once a refund lease has matched, no later sequence of updates ever lets an
   execution lease match or the row become `completed`.
   */
  lemma {:induction false} RefundLeaseIsForGood(i: Intent, now: int, us: seq<Update>, now': int)
    requires Matches(i, LeaseRefund(now))
    ensures
      var after := CasAll(Updated(i, LeaseRefund(now)), us);
      && !Matches(after, LeaseExecution(now'))
      && !Matches(after, LeaseRefund(now'))
      && after.status != Completed
  {
    StaysOnRefundPath(Updated(i, LeaseRefund(now)), us);
  }

  lemma {:induction false} StaysOnRefundPath(i: Intent, us: seq<Update>)
    requires OnRefundPath(i.status)
    ensures OnRefundPath(CasAll(i, us).status)
    decreases |us|
  {
    if us != [] {
      StaysOnRefundPath(Cas(i, us[0]), us[1..]);
    }
  }

  /** A terminal row is never written again: not its status, not its signatures, not its error. */
  lemma {:induction false} TerminalRowIsFrozen(i: Intent, us: seq<Update>)
    requires Terminal(i.status)
    ensures CasAll(i, us) == i
    decreases |us|
  {
    if us != [] {
      TerminalRowIsFrozen(Cas(i, us[0]), us[1..]);
    }
  }

  /**
   Budget is only ever reserved for the funding signature that was submitted
   first, whatever later submissions or verifications arrive.
   */
  lemma {:induction false} FundingSignatureIsPinned(i: Intent, us: seq<Update>)
    requires i.status != FundingRequired && i.fundingSignature.Some?
    ensures CasAll(i, us).status != FundingRequired
    ensures CasAll(i, us).fundingSignature == i.fundingSignature
    decreases |us|
  {
    if us != [] {
      FundingSignatureIsPinned(Cas(i, us[0]), us[1..]);
    }
  }

  // ── The lifecycle ───────────────────────────────────────────────────────

  /** What has to come true for a row to enter a status: from where, by whose word, at which clock reading. */
  predicate MayEnter(i: Intent, u: Update, to: Status) {
    match to
    case FundingRequired => false
    case FundingSubmitted => i.status == FundingRequired && u.SubmitFunding?
    case FundingInvalid =>
      i.status == FundingSubmitted && u.InvalidateFunding? && Some(u.signature) == i.fundingSignature
    case BudgetReserved =>
      || (i.status == FundingSubmitted && u.ReserveBudget? && Some(u.signature) == i.fundingSignature)
      || (i.status == Executing && u.ReleaseLease?)
    case Executing => i.status == BudgetReserved && u.LeaseExecution? && u.nowMs < i.expiresAtMs
    case Completed => i.status == Executing && u.Complete?
    case Expired => i.status == BudgetReserved && u.MarkExpired? && i.expiresAtMs <= u.nowMs
    case Refunding => (i.status == BudgetReserved || i.status == Expired) && u.LeaseRefund? && i.expiresAtMs <= u.nowMs
    case Refunded => i.status == Refunding && u.CompleteRefund?
    case Failed =>
      u.MarkFailed? && i.status != FundingInvalid && i.status != Completed && i.status != Refunded && i.status != Failed
  }

  /**
   A statement moves a row into a new status exactly when the lifecycle allows it,
   and it is counted as affecting the row exactly then, or for a funding signature
   that is submitted again.
   */
  lemma EntersIff(i: Intent, u: Update, to: Status)
    requires to != i.status
    ensures Cas(i, u).status == to <==> MayEnter(i, u, to)
    ensures Matches(i, u) <==>
      Cas(i, u).status != i.status
      || (i.status == FundingSubmitted && u.SubmitFunding? && i.fundingSignature in {None, Some(u.signature)})
  {
  }

  /** What a statement writes beside the status; the order, its amount and its expiry are never written. */
  lemma EntersWith(i: Intent, u: Update)
    ensures
      var after := Cas(i, u);
      && after.canonicalRuleHashHex == i.canonicalRuleHashHex && after.thresholdBps == i.thresholdBps
      && after.amountRaw == i.amountRaw && after.expiresAtMs == i.expiresAtMs
      && (after.fundingSignature != i.fundingSignature ==>
            after.status == FundingSubmitted && u.SubmitFunding? && after.fundingSignature == Some(u.signature))
      && (after.executionSignature != i.executionSignature ==> i.status == Executing && after.status == Completed)
      && (after.refundSignature != i.refundSignature ==> i.status == Refunding && after.status == Refunded)
      && (after.lastError != i.lastError ==>
            after.status == FundingInvalid || (i.status == Executing && after.status == BudgetReserved)
            || after.status == Failed)
    ensures Cas(i, u).status != i.status ==>
      match Cas(i, u).status
      case FundingSubmitted => Cas(i, u).fundingSignature == Some(u.signature)
      case Completed => Cas(i, u).executionSignature == Some(u.signature)
      case Refunded => Cas(i, u).refundSignature == Some(u.signature)
      case FundingInvalid => Cas(i, u).lastError == Some(u.reason)
      case Failed => Cas(i, u).lastError == Some(u.reason)
      case _ => true
  {
  }

  /** Paid statuses: the ones behind a reserved budget. */
  predicate Funded(status: Status) {
    status in {BudgetReserved, Executing, Completed, Expired, Refunding, Refunded}
  }

  predicate FundingConfirmed(i: Intent, us: seq<Update>) {
    Funded(i.status) ==> i.fundingSignature.Some? && ReserveBudget(i.fundingSignature.value) in us
  }

  lemma {:induction false} FundingStaysConfirmed(i: Intent, done: seq<Update>, us: seq<Update>)
    requires FundingConfirmed(i, done)
    ensures FundingConfirmed(CasAll(i, us), done + us)
    decreases |us|
  {
    if us == [] {
      assert done + us == done;
    } else {
      FundingStaysConfirmed(Cas(i, us[0]), done + [us[0]], us[1..]);
      assert done + [us[0]] + us[1..] == done + us;
    }
  }

  /**
   Whatever statements are issued, in any order: a row that got as far as a reserved
   budget, or further, carries the very funding signature that was confirmed for it.
   */
  lemma BudgetNeedsItsFunding(i: Intent, us: seq<Update>)
    requires i.status == FundingRequired
    ensures
      var after := CasAll(i, us);
      Funded(after.status) ==> after.fundingSignature.Some? && ReserveBudget(after.fundingSignature.value) in us
  {
    FundingStaysConfirmed(i, [], us);
    assert [] + us == us;
  }

  // ── The repository ──────────────────────────────────────────────────────

  function InsertedInto(rows: map<string, Intent>, intentId: string, intent: Intent, fault: Fault): map<string, Intent> {
    if intentId in rows || fault == LostBeforeApply then rows else rows[intentId := intent]
  }

  class IntentRepository {
    var rows: map<string, Intent>

    constructor ()
      ensures rows == map[]
    {
      rows := map[];
    }

    /** A second insert under the same id violates the primary key; the answer is lost when the call faults. */
    method Insert(intentId: string, intent: Intent, fault: Fault) returns (ok: bool)
      modifies this
      ensures ok <==> intentId !in old(rows) && fault == Acknowledged
      ensures rows == InsertedInto(old(rows), intentId, intent, fault)
    {
      ok := false;
      if intentId !in rows && fault != LostBeforeApply {
        rows := rows[intentId := intent];
        ok := fault == Acknowledged;
      }
    }

    method Get(intentId: string, fails: bool) returns (r: Result<Option<Intent>, ()>)
      ensures r == if fails then Failure(())
                   else Success(if intentId in rows then Some(rows[intentId]) else None)
    {
      if fails {
        return Failure(());
      }
      r := Success(if intentId in rows then Some(rows[intentId]) else None);
    }

    /** One update statement; the result is the number of affected rows, when the caller gets to see it. */
    method Apply(intentId: string, u: Update, fault: Fault) returns (affected: Result<nat, ()>)
      modifies this
      ensures affected.Success? <==> fault == Acknowledged
      ensures affected.Success? ==>
        affected.value == if intentId in old(rows) && Matches(old(rows)[intentId], u) then 1 else 0
      ensures rows ==
        if intentId in old(rows) && fault != LostBeforeApply
        then old(rows)[intentId := Cas(old(rows)[intentId], u)]
        else old(rows)
    {
      var count := 0;
      if fault != LostBeforeApply && intentId in rows {
        if Matches(rows[intentId], u) {
          rows := rows[intentId := Updated(rows[intentId], u)];
          count := 1;
        } else {
          assert rows == rows[intentId := rows[intentId]];
        }
      }
      affected := if fault == Acknowledged then Success(count) else Failure(());
    }
  }
}
