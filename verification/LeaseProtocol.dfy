/**
 The execution lease as a protocol: any number of executors (the operator's
 approval command and the background watcher both call `execute`), refund
 workers, a moving clock, lost repository writes and daemon crashes, all
 interleaved over one funding intent.

 A step is one awaited call. `lease` is a history variable that says whose lease
 the `executing` status stands for.
 */
module LeaseProtocol {
  import opened Wrappers
  import opened FundingIntent

  /** What the sender can answer. */
  datatype Report = Finalized | TimedOut | BuildFailed | SizeExceeded | BroadcastFailed | FailedOnChain

  predicate CarriesSignature(r: Report) {
    r in {Finalized, TimedOut, FailedOnChain}
  }

  /** The update `execute` issues after a report; a timeout issues none and keeps the lease. */
  function ClosingUpdate(r: Report): Option<Update> {
    match r
    case Finalized => Some(Complete("signature"))
    case TimedOut => None
    case FailedOnChain => Some(MarkFailed("on-chain failure"))
    case BuildFailed => Some(ReleaseLease("tx build failed"))
    case SizeExceeded => Some(ReleaseLease("tx size exceeded"))
    case BroadcastFailed => Some(ReleaseLease("broadcast failed"))
  }

  /** One call of the sender: what it reported, and whether its deposit landed on chain. */
  datatype Call = Call(report: Option<Report>, landed: bool)

  /** Where an executor is: prechecks passed with a clock reading, lease taken, sender called, sender answered. */
  datatype Pc = Checked(nowMs: int) | Leased | Sending(call: nat) | Reported(call: nat)

  datatype RefundPc = RefundLeased | RefundPaid

  datatype Lease = Free | Held(holder: nat) | Abandoned

  datatype State = State(
    intent: Intent,
    clockMs: int,
    executors: map<nat, Pc>,
    refunders: map<nat, RefundPc>,
    calls: seq<Call>,
    refundsPaid: nat,
    lease: Lease)

  datatype Step =
    | Tick(ms: nat)
    | Fund(update: Update)
    | Expire(nowMs: int)
    | Begin(e: nat)
    | TakeLease(e: nat, fault: Fault)
    | Send(e: nat)
    | Land(call: nat)
    | Answer(e: nat, report: Report)
    | Close(e: nat, fault: Fault)
    | Crash
    | TakeRefundLease(r: nat, nowMs: int, fault: Fault)
    | PayRefund(r: nat)
    | CloseRefund(r: nat, update: Update, fault: Fault)

  /** `cleanRejections`: a failed `sendTransaction` call never leaves a transaction behind. */
  datatype Network = Network(cleanRejections: bool)

  /** Whether a call whose deposit has not landed may still see it land. */
  predicate MayLand(net: Network, c: Call) {
    && !c.landed
    && match c.report
       case None => true
       case Some(r) => r == TimedOut || (r == BroadcastFailed && !net.cleanRejections)
  }

  /** Whether a report agrees with the chain at the moment it is given. */
  predicate Truthful(net: Network, c: Call, r: Report) {
    match r
    case Finalized => c.landed
    case TimedOut => true
    case BroadcastFailed => net.cleanRejections ==> !c.landed
    case _ => !c.landed
  }

  function Drop<T>(m: map<nat, T>, k: nat): map<nat, T> { m - {k} }

  function Written(i: Intent, u: Update, fault: Fault): Intent {
    if fault == LostBeforeApply then i else Cas(i, u)
  }

  function NextLease(s: State, e: nat, now: int, fault: Fault): State {
    var intent := Written(s.intent, LeaseExecution(now), fault);
    var matched := fault != LostBeforeApply && Matches(s.intent, LeaseExecution(now));
    if matched && fault == Acknowledged then
      s.(intent := intent, executors := s.executors[e := Leased], lease := Held(e))
    else
      s.(intent := intent, executors := Drop(s.executors, e), lease := if matched then Abandoned else s.lease)
  }

  function NextClose(s: State, e: nat, r: Report, fault: Fault): State {
    match ClosingUpdate(r)
    case None => s.(executors := Drop(s.executors, e), lease := Abandoned)
    case Some(u) =>
      s.(intent := Written(s.intent, u, fault),
         executors := Drop(s.executors, e),
         lease := if fault == LostBeforeApply then Abandoned else Free)
  }

  function NextRefundLease(s: State, r: nat, now: int, fault: Fault): State {
    var intent := Written(s.intent, LeaseRefund(now), fault);
    if fault == Acknowledged && Matches(s.intent, LeaseRefund(now)) then
      s.(intent := intent, refunders := s.refunders[r := RefundLeased])
    else
      s.(intent := intent)
  }

  predicate IsFunding(u: Update) { u.SubmitFunding? || u.ReserveBudget? || u.InvalidateFunding? }

  /** The state after a step, or nothing when the step cannot be taken. */
  function Next(net: Network, s: State, step: Step): Option<State> {
    match step
    case Tick(ms) => Some(s.(clockMs := s.clockMs + ms))
    case Fund(u) => if IsFunding(u) then Some(s.(intent := Cas(s.intent, u))) else None
    case Expire(now) => if now <= s.clockMs then Some(s.(intent := Cas(s.intent, MarkExpired(now)))) else None
    case Begin(e) =>
      if e !in s.executors then Some(s.(executors := s.executors[e := Checked(s.clockMs)])) else None
    case TakeLease(e, fault) =>
      if e in s.executors && s.executors[e].Checked? then Some(NextLease(s, e, s.executors[e].nowMs, fault)) else None
    case Send(e) =>
      if e in s.executors && s.executors[e].Leased?
      then Some(s.(calls := s.calls + [Call(None, false)], executors := s.executors[e := Sending(|s.calls|)]))
      else None
    case Land(k) =>
      if k < |s.calls| && MayLand(net, s.calls[k])
      then Some(s.(calls := s.calls[k := s.calls[k].(landed := true)]))
      else None
    case Answer(e, r) =>
      if e in s.executors && s.executors[e].Sending? && s.executors[e].call < |s.calls|
         && Truthful(net, s.calls[s.executors[e].call], r)
      then
        var k := s.executors[e].call;
        Some(s.(calls := s.calls[k := s.calls[k].(report := Some(r))], executors := s.executors[e := Reported(k)]))
      else None
    case Close(e, fault) =>
      if e in s.executors && s.executors[e].Reported? && s.executors[e].call < |s.calls|
         && s.calls[s.executors[e].call].report.Some?
      then Some(NextClose(s, e, s.calls[s.executors[e].call].report.value, fault))
      else None
    case Crash =>
      Some(s.(executors := map[], refunders := map[], lease := if s.lease.Held? then Abandoned else s.lease))
    case TakeRefundLease(r, now, fault) =>
      if r !in s.refunders && now <= s.clockMs then Some(NextRefundLease(s, r, now, fault)) else None
    case PayRefund(r) =>
      if r in s.refunders && s.refunders[r].RefundLeased?
      then Some(s.(refunders := s.refunders[r := RefundPaid], refundsPaid := s.refundsPaid + 1))
      else None
    case CloseRefund(r, u, fault) =>
      if r in s.refunders && (u.CompleteRefund? || u.MarkFailed?)
      then Some(s.(intent := Written(s.intent, u, fault), refunders := Drop(s.refunders, r)))
      else None
  }

  /** The state after a whole interleaving, or nothing when some step cannot be taken. */
  function Run(net: Network, s: State, steps: seq<Step>): Option<State>
    decreases |steps|
  {
    if steps == [] then Some(s) else
    match Next(net, s, steps[0])
    case None => None
    case Some(s') => Run(net, s', steps[1..])
  }

  predicate Initial(s: State) {
    && s.intent.status == FundingRequired
    && s.executors == map[] && s.refunders == map[] && s.calls == []
    && s.refundsPaid == 0 && s.lease == Free
  }

  // ── The invariant ───────────────────────────────────────────────────────

  predicate Holding(s: State, e: nat) {
    e in s.executors && !s.executors[e].Checked?
  }

  /** A finished call that let go of the lease; only a broadcast error can hide a landed deposit. */
  predicate Harmless(c: Call) {
    c.report.Some? && ClosingUpdate(c.report.value).Some? && ClosingUpdate(c.report.value).value.ReleaseLease?
    && (c.landed ==> c.report == Some(BroadcastFailed))
  }

  predicate AllHarmless(calls: seq<Call>) {
    forall k :: 0 <= k < |calls| ==> Harmless(calls[k])
  }

  ghost predicate LeaseInv(s: State) {
    && (forall e :: Holding(s, e) <==> s.lease == Held(e))
    && (s.intent.status == Executing <==> s.lease != Free)
  }

  /** Every call but the last was let go of; the last one was, or the status shows it. */
  ghost predicate CallInv(s: State) {
    && (|s.calls| > 0 ==> AllHarmless(s.calls[..|s.calls| - 1]))
    && (AllHarmless(s.calls) || s.intent.status in {Executing, Completed, Failed})
  }

  /** What the lease holder's position says about the calls. */
  ghost predicate HolderInv(net: Network, s: State) {
    s.lease.Held? && s.lease.holder in s.executors ==>
      match s.executors[s.lease.holder]
      case Checked(_) => true
      case Leased => AllHarmless(s.calls)
      case Sending(k) => k == |s.calls| - 1 && s.calls[k].report.None?
      case Reported(k) =>
        k == |s.calls| - 1 && s.calls[k].report.Some? && Truthful(net, s.calls[k], s.calls[k].report.value)
  }

  ghost predicate RejectionInv(net: Network, s: State) {
    net.cleanRejections ==>
      forall k :: 0 <= k < |s.calls| && s.calls[k].report == Some(BroadcastFailed) ==> !s.calls[k].landed
  }

  ghost predicate RefundInv(s: State) {
    && s.refundsPaid <= 1
    && (s.refundsPaid > 0 ==> OnRefundPath(s.intent.status) && AllHarmless(s.calls))
    && (forall r :: r in s.refunders ==> s.intent.status == Refunding)
    && (forall r :: r in s.refunders && s.refunders[r].RefundLeased? ==> s.refundsPaid == 0)
    && (forall r, r' :: r in s.refunders && r' in s.refunders ==> r == r')
  }

  ghost predicate Inv(net: Network, s: State) {
    LeaseInv(s) && CallInv(s) && HolderInv(net, s) && RejectionInv(net, s) && RefundInv(s)
  }

  lemma LeaseInvPreserved(net: Network, s: State, step: Step, s': State)
    requires LeaseInv(s) && RefundInv(s) && Next(net, s, step) == Some(s')
    ensures LeaseInv(s')
  {
    forall e ensures Holding(s', e) <==> s'.lease == Held(e) {
      assert Holding(s, e) <==> s.lease == Held(e);
      if step.Close? { assert Holding(s, step.e); }
    }
    assert step.Close? ==> Holding(s, step.e);
  }

  /** The parts of the call invariant that only look at calls. */
  lemma CallsStayOrdered(net: Network, s: State, step: Step, s': State)
    requires LeaseInv(s) && CallInv(s) && HolderInv(net, s) && Next(net, s, step) == Some(s')
    ensures |s'.calls| > 0 ==> AllHarmless(s'.calls[..|s'.calls| - 1])
    ensures AllHarmless(s.calls) && !step.Send? ==> AllHarmless(s'.calls)
  {
    match step
    case Send(e) =>
      assert Holding(s, e);
      assert s'.calls[..|s'.calls| - 1] == s.calls;
    case Answer(e, _) => assert Holding(s, e);
    case Land(k) =>
      forall j | 0 <= j < |s'.calls| && Harmless(s.calls[j]) ensures Harmless(s'.calls[j]) {}
      forall j | 0 <= j < |s'.calls| - 1 ensures Harmless(s'.calls[j]) {
        assert Harmless(s.calls[..|s.calls| - 1][j]);
      }
    case _ =>
  }

  lemma CallInvPreserved(net: Network, s: State, step: Step, s': State)
    requires LeaseInv(s) && CallInv(s) && HolderInv(net, s) && Next(net, s, step) == Some(s')
    ensures CallInv(s')
  {
    CallsStayOrdered(net, s, step, s');
    match step
    case Send(e) => assert Holding(s, e);
    case Close(e, _) =>
      assert Holding(s, e);
      if s'.intent.status !in {Executing, Completed, Failed} {
        var last := |s.calls| - 1;
        assert Harmless(s.calls[last]);
        forall k | 0 <= k < |s.calls| ensures Harmless(s.calls[k]) {
          if k < last { assert Harmless(s.calls[..last][k]); }
        }
      }
    case _ =>
  }

  lemma HolderInvPreserved(net: Network, s: State, step: Step, s': State)
    requires LeaseInv(s) && CallInv(s) && HolderInv(net, s) && Next(net, s, step) == Some(s')
    ensures HolderInv(net, s')
  {
    CallsStayOrdered(net, s, step, s');
    match step
    case Send(e) => assert Holding(s, e);
    case Answer(e, _) => assert Holding(s, e);
    case Close(e, _) => assert Holding(s, e);
    case _ =>
  }

  lemma RejectionInvPreserved(net: Network, s: State, step: Step, s': State)
    requires LeaseInv(s) && HolderInv(net, s) && RejectionInv(net, s) && Next(net, s, step) == Some(s')
    ensures RejectionInv(net, s')
  {
    if step.Answer? {
      assert Holding(s, step.e);
    }
  }

  lemma RefundInvPreserved(net: Network, s: State, step: Step, s': State)
    requires LeaseInv(s) && CallInv(s) && HolderInv(net, s) && RefundInv(s) && Next(net, s, step) == Some(s')
    ensures RefundInv(s')
  {
    CallsStayOrdered(net, s, step, s');
    match step
    case TakeLease(e, _) =>
    case Send(e) => assert Holding(s, e);
    case Answer(e, _) => assert Holding(s, e);
    case Close(e, _) => assert Holding(s, e);
    case _ =>
  }

  lemma InvPreserved(net: Network, s: State, step: Step, s': State)
    requires Inv(net, s) && Next(net, s, step) == Some(s')
    ensures Inv(net, s')
  {
    LeaseInvPreserved(net, s, step, s');
    CallInvPreserved(net, s, step, s');
    HolderInvPreserved(net, s, step, s');
    RejectionInvPreserved(net, s, step, s');
    RefundInvPreserved(net, s, step, s');
  }

  lemma {:induction false} InvAlways(net: Network, s: State, steps: seq<Step>, s': State)
    requires Inv(net, s) && Run(net, s, steps) == Some(s')
    ensures Inv(net, s')
    decreases |steps|
  {
    if steps != [] {
      var next := Next(net, s, steps[0]).value;
      InvPreserved(net, s, steps[0], next);
      InvAlways(net, next, steps[1..], s');
    }
  }

  /** Every state an interleaving can reach satisfies the invariant. */
  lemma Reachable(net: Network, s0: State, steps: seq<Step>, s: State)
    requires Initial(s0) && Run(net, s0, steps) == Some(s)
    ensures Inv(net, s)
  {
    InvAlways(net, s0, steps, s);
  }

  // ── Lease exclusion ─────────────────────────────────────────────────────

  /**
   `executing` means exactly one thing: a single executor is between its lease
   and its closing update, or a run that nobody will close was left behind.
   Whoever calls the sender is that executor.
   */
  lemma ExecutingHasOneOwner(net: Network, s0: State, steps: seq<Step>, s: State)
    requires Initial(s0) && Run(net, s0, steps) == Some(s)
    ensures s.intent.status == Executing <==> (exists e :: Holding(s, e)) || s.lease == Abandoned
    ensures (exists e :: Holding(s, e)) ==> s.lease != Abandoned
    ensures forall e, e' :: Holding(s, e) && Holding(s, e') ==> e == e'
    ensures forall e :: Next(net, s, Send(e)).Some? ==> s.lease == Held(e) && AllHarmless(s.calls)
  {
    Reachable(net, s0, steps, s);
    if s.lease.Held? {
      assert Holding(s, s.lease.holder);
    }
    forall e | Next(net, s, Send(e)).Some? ensures s.lease == Held(e) {
      assert Holding(s, e);
    }
  }

  /**
   In every reachable state an executor whose lease statement is acknowledged gets
   the lease exactly when the budget is reserved and its clock reading is before
   the expiry; otherwise nothing moves.
   */
  lemma LeaseIsTakenIff(net: Network, s0: State, steps: seq<Step>, s: State, e: nat, s': State)
    requires Initial(s0) && Run(net, s0, steps) == Some(s)
    requires e in s.executors && s.executors[e].Checked? && Next(net, s, TakeLease(e, Acknowledged)) == Some(s')
    ensures s'.lease == Held(e) <==> s.intent.status == BudgetReserved && s.executors[e].nowMs < s.intent.expiresAtMs
    ensures
      if s'.lease == Held(e)
      then s'.intent == s.intent.(status := Executing) && e in s'.executors && s'.executors[e] == Leased
      else s'.intent == s.intent && s'.lease == s.lease && e !in s'.executors
  {
    Reachable(net, s0, steps, s);
    assert !Holding(s, e);
  }

  /** A refund has been leased only after the expiry. */
  ghost predicate RefundsAreDue(s: State) {
    (s.refundsPaid > 0 || exists r :: r in s.refunders) ==> s.intent.expiresAtMs <= s.clockMs
  }

  lemma RefundsStayDue(net: Network, s: State, step: Step, s': State)
    requires RefundsAreDue(s) && Next(net, s, step) == Some(s')
    ensures RefundsAreDue(s') && s'.intent.expiresAtMs == s.intent.expiresAtMs && s'.clockMs >= s.clockMs
  {
  }

  lemma {:induction false} RefundsAlwaysDue(net: Network, s: State, steps: seq<Step>, s': State)
    requires RefundsAreDue(s) && Run(net, s, steps) == Some(s')
    ensures RefundsAreDue(s')
    decreases |steps|
  {
    if steps != [] {
      var next := Next(net, s, steps[0]).value;
      RefundsStayDue(net, s, steps[0], next);
      RefundsAlwaysDue(net, next, steps[1..], s');
    }
  }

  /** No interleaving pays a refund, or lets a worker lease one, before the intent has expired. */
  lemma NoEarlyRefund(net: Network, s0: State, steps: seq<Step>, s: State)
    requires Initial(s0) && Run(net, s0, steps) == Some(s)
    ensures s.refundsPaid > 0 ==> s.intent.expiresAtMs <= s.clockMs
    ensures s.refunders != map[] ==> s.intent.expiresAtMs <= s.clockMs
  {
    RefundsAlwaysDue(net, s0, steps, s);
    if s.refunders != map[] {
      var r :| r in s.refunders;
    }
  }

  /**
   What leaves a run behind: a lease whose acknowledgement was lost, a timed-out
   broadcast, a closing update that was lost, or a crash of the holder. Nothing
   else does, so without these every failed attempt gives the budget back.
   */
  lemma WhatAbandonsALease(net: Network, s: State, step: Step, s': State)
    requires Inv(net, s) && s.lease != Abandoned && Next(net, s, step) == Some(s')
    ensures s'.lease == Abandoned <==>
      || (step.TakeLease? && step.fault == LostAfterApply
          && s.intent.status == BudgetReserved && s.executors[step.e].nowMs < s.intent.expiresAtMs)
      || (step.Close? && (step.fault == LostBeforeApply || s.calls[s.executors[step.e].call].report == Some(TimedOut)))
      || (step.Crash? && s.lease.Held?)
  {
  }

  /**
   A failure before the broadcast puts the intent back to `budget_reserved`; a
   finalized deposit completes it and a failed one ends it. A timeout, or a lost
   write, leaves it as it is.
   */
  lemma ReleaseReturnsBudget(net: Network, s: State, e: nat, fault: Fault, s': State)
    requires Inv(net, s) && Next(net, s, Close(e, fault)) == Some(s')
    ensures s.calls[s.executors[e].call].report.value in {BuildFailed, SizeExceeded, BroadcastFailed} ==>
      if fault == LostBeforeApply then s'.intent == s.intent && s'.lease == Abandoned
      else s'.intent.status == BudgetReserved && s'.lease == Free
    ensures s.calls[s.executors[e].call].report.value == Finalized && fault != LostBeforeApply ==>
      s'.intent.status == Completed && s'.intent.executionSignature.Some? && s'.lease == Free
    ensures s.calls[s.executors[e].call].report.value == FailedOnChain && fault != LostBeforeApply ==>
      s'.intent.status == Failed && s'.intent.lastError.Some? && s'.lease == Free
    ensures s.calls[s.executors[e].call].report.value == TimedOut || fault == LostBeforeApply ==>
      s'.intent == s.intent && s'.lease == Abandoned
  {
    assert Holding(s, e);
  }

  lemma AbandonedStep(net: Network, s: State, step: Step, s': State)
    requires Inv(net, s) && s.lease == Abandoned && Next(net, s, step) == Some(s')
    ensures s'.intent == s.intent && s'.lease == Abandoned
    ensures |s'.calls| == |s.calls| && s'.refundsPaid == s.refundsPaid
  {
    assert step.Close? ==> Holding(s, step.e);
    assert step.Send? ==> Holding(s, step.e);
  }

  /** An abandoned lease is permanent: no later step reads, pays or refunds that budget again. */
  lemma {:induction false} AbandonedForever(net: Network, s: State, steps: seq<Step>, s': State)
    requires Inv(net, s) && s.lease == Abandoned && Run(net, s, steps) == Some(s')
    ensures s'.intent == s.intent && s'.lease == Abandoned
    ensures |s'.calls| == |s.calls| && s'.refundsPaid == s.refundsPaid
    decreases |steps|
  {
    if steps != [] {
      var next := Next(net, s, steps[0]).value;
      AbandonedStep(net, s, steps[0], next);
      InvPreserved(net, s, steps[0], next);
      AbandonedForever(net, next, steps[1..], s');
    }
  }

  // ── Safety of the budget ────────────────────────────────────────────────

  /** At most one sender call per intent ever reports a transaction signature. */
  lemma AtMostOneSignature(net: Network, s0: State, steps: seq<Step>, s: State, i: nat, j: nat)
    requires Initial(s0) && Run(net, s0, steps) == Some(s)
    requires i < |s.calls| && s.calls[i].report.Some? && CarriesSignature(s.calls[i].report.value)
    requires j < |s.calls| && s.calls[j].report.Some? && CarriesSignature(s.calls[j].report.value)
    ensures i == j == |s.calls| - 1
  {
    Reachable(net, s0, steps, s);
    var settled := s.calls[..|s.calls| - 1];
    forall k | 0 <= k < |settled| ensures Harmless(s.calls[k]) {
      assert Harmless(settled[k]);
    }
  }

  /** After a signature was reported neither an execution nor a refund lease can be taken, at any clock reading. */
  lemma SignatureBlocksBothLeases(net: Network, s0: State, steps: seq<Step>, s: State, k: nat, now: int)
    requires Initial(s0) && Run(net, s0, steps) == Some(s)
    requires k < |s.calls| && s.calls[k].report.Some? && CarriesSignature(s.calls[k].report.value)
    ensures s.intent.status in {Executing, Completed, Failed} && s.refundsPaid == 0
    ensures !Matches(s.intent, LeaseExecution(now)) && !Matches(s.intent, LeaseRefund(now))
  {
    Reachable(net, s0, steps, s);
    assert !Harmless(s.calls[k]);
  }

  function Deposits(calls: seq<Call>): nat {
    if calls == [] then 0
    else Deposits(calls[..|calls| - 1]) + if calls[|calls| - 1].landed then 1 else 0
  }

  /** Deposits that landed although `sendTransaction` reported an error. */
  function HiddenDeposits(calls: seq<Call>): nat {
    if calls == [] then 0
    else HiddenDeposits(calls[..|calls| - 1])
         + if calls[|calls| - 1] == Call(Some(BroadcastFailed), true) then 1 else 0
  }

  /** How often the budget left the controlled wallet. */
  function Payments(s: State): nat { Deposits(s.calls) + s.refundsPaid }

  lemma {:induction false} HarmlessDepositsAreHidden(calls: seq<Call>)
    requires AllHarmless(calls)
    ensures Deposits(calls) == HiddenDeposits(calls)
  {
    if calls != [] {
      var init := calls[..|calls| - 1];
      assert forall k :: 0 <= k < |init| ==> init[k] == calls[k];
      HarmlessDepositsAreHidden(init);
      assert Harmless(calls[|calls| - 1]);
    }
  }

  /**
   Conservation over every interleaving: beyond the one payment the budget is
   for, each further payment is a deposit whose broadcast was reported as failed.
   */
  lemma PaymentsBound(net: Network, s0: State, steps: seq<Step>, s: State)
    requires Initial(s0) && Run(net, s0, steps) == Some(s)
    ensures Payments(s) <= 1 + HiddenDeposits(s.calls)
    ensures s.intent.status in {BudgetReserved, Expired} ==> Payments(s) == HiddenDeposits(s.calls)
  {
    Reachable(net, s0, steps, s);
    if AllHarmless(s.calls) {
      HarmlessDepositsAreHidden(s.calls);
    } else {
      HarmlessDepositsAreHidden(s.calls[..|s.calls| - 1]);
    }
  }

  lemma {:induction false} NothingHidden(calls: seq<Call>)
    requires forall k :: 0 <= k < |calls| && calls[k].report == Some(BroadcastFailed) ==> !calls[k].landed
    ensures HiddenDeposits(calls) == 0
  {
    if calls != [] {
      NothingHidden(calls[..|calls| - 1]);
    }
  }

  lemma {:induction false} RunAppend(net: Network, s: State, steps: seq<Step>, s': State, last: Step)
    requires Run(net, s, steps) == Some(s')
    ensures Run(net, s, steps + [last]) == Next(net, s', last)
    decreases |steps|
  {
    if steps == [] {
      assert ([last])[1..] == [];
      assert steps + [last] == [last];
    } else {
      assert (steps + [last])[1..] == steps[1..] + [last];
      RunAppend(net, Next(net, s, steps[0]).value, steps[1..], s', last);
    }
  }

  lemma Extend(net: Network, s: State, steps: seq<Step>, s': State, last: Step)
    returns (steps': seq<Step>, s'': State)
    requires Run(net, s, steps) == Some(s') && Next(net, s', last).Some?
    ensures Next(net, s', last) == Some(s'') && Run(net, s, steps') == Some(s'') && steps' == steps + [last]
  {
    RunAppend(net, s, steps, s', last);
    steps', s'' := steps + [last], Next(net, s', last).value;
  }

  /** A reserved, unexpired budget lets an executor get as far as its sender call. */
  lemma AttemptReachesSender(net: Network, s0: State, steps: seq<Step>, s: State)
    returns (steps': seq<Step>, s': State)
    requires Run(net, s0, steps) == Some(s)
    requires s.executors == map[] && s.intent.status == BudgetReserved && s.clockMs < s.intent.expiresAtMs
    ensures steps' == steps + [Begin(0), TakeLease(0, Acknowledged), Send(0)] && Run(net, s0, steps') == Some(s')
    ensures s' == s.(intent := s.intent.(status := Executing), lease := Held(0),
                     executors := map[0 := Sending(|s.calls|)], calls := s.calls + [Call(None, false)])
  {
    steps', s' := Extend(net, s0, steps, s, Begin(0));
    steps', s' := Extend(net, s0, steps', s', TakeLease(0, Acknowledged));
    steps', s' := Extend(net, s0, steps', s', Send(0));
  }

  function LandingOf(r: Report, call: nat): seq<Step> {
    if r.Finalized? then [Land(call)] else []
  }

  /** A fresh sender call can be answered in any way and then closed. */
  lemma AttemptEnds(net: Network, s0: State, steps: seq<Step>, s: State, r: Report, fault: Fault)
    returns (steps': seq<Step>, s': State)
    requires Run(net, s0, steps) == Some(s) && |s.calls| > 0
    requires s.executors == map[0 := Sending(|s.calls| - 1)] && s.calls[|s.calls| - 1] == Call(None, false)
    ensures steps' == steps + LandingOf(r, |s.calls| - 1) + [Answer(0, r), Close(0, fault)]
    ensures Run(net, s0, steps') == Some(s') && |s'.calls| == |s.calls|
    ensures s'.intent ==
      if ClosingUpdate(r).None? then s.intent else Written(s.intent, ClosingUpdate(r).value, fault)
  {
    steps', s' := steps, s;
    if r.Finalized? {
      steps', s' := Extend(net, s0, steps', s', Land(|s.calls| - 1));
    }
    steps', s' := Extend(net, s0, steps', s', Answer(0, r));
    steps', s' := Extend(net, s0, steps', s', Close(0, fault));
  }

  lemma ReservedBudget(net: Network) returns (s0: State, steps: seq<Step>, s: State)
    ensures Initial(s0) && Run(net, s0, steps) == Some(s)
    ensures s == s0.(intent := s0.intent.(status := BudgetReserved, fundingSignature := Some("funding")))
    ensures s0.clockMs < s0.intent.expiresAtMs
  {
    s0 := State(NewIntent("", 100, 250_000, 180_000), 0, map[], map[], [], 0, Free);
    steps, s := Extend(net, s0, [], s0, Fund(SubmitFunding("funding")));
    steps, s := Extend(net, s0, steps, s, Fund(ReserveBudget("funding")));
  }

  /** An attempt that is told its broadcast failed: the budget is reserved again, the transaction is out. */
  lemma RejectedAttempt(net: Network) returns (s0: State, steps: seq<Step>, s: State)
    ensures Initial(s0) && Run(net, s0, steps) == Some(s)
    ensures s.intent.status == BudgetReserved && s.clockMs < s.intent.expiresAtMs
    ensures s.executors == map[] && s.refundsPaid == 0
    ensures s.calls == [Call(Some(BroadcastFailed), false)]
  {
    s0, steps, s := ReservedBudget(net);
    steps, s := AttemptReachesSender(net, s0, steps, s);
    steps, s := Extend(net, s0, steps, s, Answer(0, BroadcastFailed));
    steps, s := Extend(net, s0, steps, s, Close(0, Acknowledged));
  }

  /** The rejected attempt is retried, the retry deposits, and the first transaction lands after all. */
  lemma DoubleDeposit(net: Network) returns (s0: State, steps: seq<Step>, s: State)
    requires !net.cleanRejections
    ensures Initial(s0) && Run(net, s0, steps) == Some(s) && Payments(s) == 2
  {
    s0, steps, s := RejectedAttempt(net);
    steps, s := AttemptReachesSender(net, s0, steps, s);
    steps, s := Extend(net, s0, steps, s, Land(0));
    steps, s := Extend(net, s0, steps, s, Land(1));
    var first := s.calls[..|s.calls| - 1];
    assert first == [Call(Some(BroadcastFailed), true)];
    assert Deposits(first) == 1 by { assert first[..0] == []; }
  }

  /**
   The budget is paid out at most once in every interleaving exactly when a
   rejected broadcast never lands.
   */
  lemma ConservationIffCleanRejections(net: Network)
    ensures net.cleanRejections <==>
      forall s0, steps :: Initial(s0) && Run(net, s0, steps).Some? ==> Payments(Run(net, s0, steps).value) <= 1
  {
    if net.cleanRejections {
      forall s0, steps | Initial(s0) && Run(net, s0, steps).Some?
        ensures Payments(Run(net, s0, steps).value) <= 1
      {
        var s := Run(net, s0, steps).value;
        Reachable(net, s0, steps, s);
        PaymentsBound(net, s0, steps, s);
        NothingHidden(s.calls);
      }
    } else {
      var s0, steps, s := DoubleDeposit(net);
    }
  }
}
