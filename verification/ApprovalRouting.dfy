/**
 What follows a decision: an audit row, then routing to the parked task. Any
 number of decision calls are in flight at once; each runs decide, audit, route.
 */
module ApprovalRouting {
  import opened Wrappers
  import opened ApprovalWorkflow
  import opened ApprovalStore
  import opened PendingSigning

  datatype EventType =
    | HumanApproved
    | HumanRejected
    | ApprovalLeaseExpired
    | ApprovalRoleMismatch
    | ApprovalStageAdvanced
    | ApprovalQuorumProgress

  datatype AuditRow = AuditRow(requestId: nat, eventType: EventType, sessionId: Option<string>)

  datatype RoutingAction = Signaled(state: WorkflowState) | NoSignal | Refused

  predicate IsHuman(e: EventType) { e.HumanApproved? || e.HumanRejected? }

  /** The row a decision call writes; the human rows take their kind from the vote, not from the workflow. */
  function AuditOf(id: nat, v: Vote, o: Outcome, request: Option<Request>): Option<AuditRow> {
    match o
    case RoleMismatch => Some(AuditRow(id, ApprovalRoleMismatch, None))
    case StageAdvanced(_, _, _) => Some(AuditRow(id, ApprovalStageAdvanced, None))
    case QuorumProgress(_, _, _) => Some(AuditRow(id, ApprovalQuorumProgress, None))
    case LeaseExpired => Some(AuditRow(id, ApprovalLeaseExpired, None))
    case WasApproved => HumanRow(id, v, request)
    case WasRejected => HumanRow(id, v, request)
    case _ => None
  }

  function HumanRow(id: nat, v: Vote, request: Option<Request>): Option<AuditRow> {
    if request.None? then None
    else Some(AuditRow(id, if v.approved then HumanApproved else HumanRejected, Some(request.value.sessionId)))
  }

  function RowsOf(id: nat, v: Vote, o: Outcome, request: Option<Request>, stored: bool): seq<AuditRow> {
    if AuditOf(id, v, o, request).Some? && stored then [AuditOf(id, v, o, request).value] else []
  }

  function ActionOf(o: Outcome): RoutingAction {
    match o
    case StageAdvanced(_, _, _) => NoSignal
    case QuorumProgress(_, _, _) => NoSignal
    case LeaseExpired => Signaled(Expired)
    case WasApproved => Signaled(Approved)
    case WasRejected => Signaled(Rejected)
    case _ => Refused
  }

  class AuditLog {
    var rows: seq<AuditRow>

    constructor ()
      ensures rows == []
    {
      rows := [];
    }

    /** Appends what the decision implies; a failed append is ignored, so `stored` says whether it took. */
    method EmitDecideAudit(id: nat, v: Vote, outcome: Outcome, request: Option<Request>, stored: bool)
      modifies this
      ensures rows == old(rows) + RowsOf(id, v, outcome, request, stored)
    {
      match outcome {
        case RoleMismatch => Append(AuditRow(id, ApprovalRoleMismatch, None), stored);
        case StageAdvanced(_, _, _) => Append(AuditRow(id, ApprovalStageAdvanced, None), stored);
        case QuorumProgress(_, _, _) => Append(AuditRow(id, ApprovalQuorumProgress, None), stored);
        case LeaseExpired => Append(AuditRow(id, ApprovalLeaseExpired, None), stored);
        case _ =>
      }
      if (outcome.WasApproved? || outcome.WasRejected?) && request.Some? {
        var eventType := if v.approved then HumanApproved else HumanRejected;
        Append(AuditRow(id, eventType, Some(request.value.sessionId)), stored);
      }
    }

    method Append(row: AuditRow, stored: bool)
      modifies this
      ensures rows == old(rows) + if stored then [row] else []
    {
      if stored {
        rows := rows + [row];
      }
    }
  }

  /** The four stores that park work for approval; a request is parked in at most one of them. */
  class ParkStores {
    const signing: PendingSigningStore
    const jupiter: PendingSigningStore
    const solend: PendingSigningStore
    const solendWithdraw: PendingSigningStore

    predicate Distinct() {
      && signing != jupiter && signing != solend && signing != solendWithdraw
      && jupiter != solend && jupiter != solendWithdraw && solend != solendWithdraw
    }

    ghost predicate Valid()
      reads signing, jupiter, solend, solendWithdraw
    {
      Distinct() && signing.Valid() && jupiter.Valid() && solend.Valid() && solendWithdraw.Valid()
    }

    constructor ()
      ensures Valid() && fresh(signing) && fresh(jupiter) && fresh(solend) && fresh(solendWithdraw)
      ensures signing.Model() == jupiter.Model() == solend.Model() == solendWithdraw.Model() == EMPTY_PARKING
    {
      signing := new PendingSigningStore();
      jupiter := new PendingSigningStore();
      solend := new PendingSigningStore();
      solendWithdraw := new PendingSigningStore();
    }

    method SignalAll(id: nat, state: WorkflowState)
      requires Valid()
      modifies signing, jupiter, solend, solendWithdraw
      ensures Valid()
      ensures signing.Model() == AfterSignal(old(signing.Model()), id, state)
      ensures jupiter.Model() == AfterSignal(old(jupiter.Model()), id, state)
      ensures solend.Model() == AfterSignal(old(solend.Model()), id, state)
      ensures solendWithdraw.Model() == AfterSignal(old(solendWithdraw.Model()), id, state)
    {
      var _ := signing.Signal(id, state);
      var _ := jupiter.Signal(id, state);
      var _ := solend.Signal(id, state);
      var _ := solendWithdraw.Signal(id, state);
    }

    /** Wakes the parked task on a terminal outcome, and only then. */
    method RouteApprovalOutcome(outcome: Outcome, id: nat) returns (action: RoutingAction)
      requires Valid()
      modifies signing, jupiter, solend, solendWithdraw
      ensures Valid() && action == ActionOf(outcome)
      ensures signing.Model() == AfterRoute(old(signing.Model()), id, action)
      ensures jupiter.Model() == AfterRoute(old(jupiter.Model()), id, action)
      ensures solend.Model() == AfterRoute(old(solend.Model()), id, action)
      ensures solendWithdraw.Model() == AfterRoute(old(solendWithdraw.Model()), id, action)
    {
      match outcome {
        case StageAdvanced(_, _, _) => action := NoSignal;
        case QuorumProgress(_, _, _) => action := NoSignal;
        case LeaseExpired =>
          SignalAll(id, Expired);
          action := Signaled(Expired);
        case WasApproved =>
          SignalAll(id, Approved);
          action := Signaled(Approved);
        case WasRejected =>
          SignalAll(id, Rejected);
          action := Signaled(Rejected);
        case _ => action := Refused;
      }
    }
  }

  function AfterRoute(p: Parking, id: nat, action: RoutingAction): Parking {
    if action.Signaled? then AfterSignal(p, id, action.state) else p
  }

  function RoutedIf(reached: bool, p: Parking, id: nat, o: Outcome): Parking {
    if reached then AfterRoute(p, id, ActionOf(o)) else p
  }

  // ── Many decisions in flight ────────────────────────────────────────────

  datatype Phase = Decided | Audited | Routed

  datatype Flight = Flight(requestId: nat, vote: Vote, outcome: Outcome, request: Option<Request>, phase: Phase)

  datatype Wakeup = Wakeup(requestId: nat, state: WorkflowState)

  datatype System = System(
    registry: Registry,
    parking: Parking,
    flights: seq<Flight>,
    rows: seq<AuditRow>,
    signals: seq<Wakeup>)

  datatype Step =
    | RegisterStep(request: Request, workflow: Workflow)
    | ParkStep(op: ParkOp)
    | DecideStep(requestId: nat, vote: Vote, nowMs: int)
    | AuditStep(flight: nat, stored: bool)
    | RouteStep(flight: nat)

  const START := System(EMPTY_REGISTRY, EMPTY_PARKING, [], [], [])

  function NextDecide(s: System, id: nat, v: Vote, nowMs: int): System
    requires AllIndexed(s.registry)
  {
    var o := OutcomeOf(s.registry, id, v, nowMs);
    s.(registry := AfterDecide(s.registry, id, v, nowMs),
       flights := s.flights + [Flight(id, v, o, ReturnedRequest(s.registry, id, o), Decided)])
  }

  function NextAudit(s: System, f: nat, stored: bool): System
    requires f < |s.flights|
  {
    var flight := s.flights[f];
    s.(flights := s.flights[f := flight.(phase := Audited)],
       rows := s.rows + RowsOf(flight.requestId, flight.vote, flight.outcome, flight.request, stored))
  }

  function NextRoute(s: System, f: nat): System
    requires f < |s.flights|
  {
    var id, action := s.flights[f].requestId, ActionOf(s.flights[f].outcome);
    s.(flights := s.flights[f := s.flights[f].(phase := Routed)],
       parking := AfterRoute(s.parking, id, action),
       signals := s.signals + if action.Signaled? then [Wakeup(id, action.state)] else [])
  }

  /** Request ids are never reused, and signals come from routing alone. */
  ghost predicate Enabled(s: System, step: Step) {
    && RegistryInv(s.registry)
    && match step
       case RegisterStep(request, w) => request.id !in s.registry.workflows && Untouched(w)
       case ParkStep(op) => !op.SignalOp?
       case DecideStep(_, _, _) => true
       case AuditStep(f, _) => f < |s.flights| && s.flights[f].phase == Decided
       case RouteStep(f) => f < |s.flights| && s.flights[f].phase == Audited
  }

  ghost function Next(s: System, step: Step): System
    requires Enabled(s, step)
  {
    match step
    case RegisterStep(request, w) => s.(registry := AfterRegister(s.registry, request, w))
    case ParkStep(op) => s.(parking := PendingSigning.Apply(s.parking, op))
    case DecideStep(id, v, now) => NextDecide(s, id, v, now)
    case AuditStep(f, stored) => NextAudit(s, f, stored)
    case RouteStep(f) => NextRoute(s, f)
  }

  /** A run: every step is enabled where it is taken. */
  ghost predicate Runs(s: System, steps: seq<Step>, s': System)
    decreases |steps|
  {
    if steps == [] then s' == s
    else Enabled(s, steps[0]) && Runs(Next(s, steps[0]), steps[1..], s')
  }

  // ── The invariant ───────────────────────────────────────────────────────

  /** A settling flight is the only one of its request, and the workflow is in the state it answered with. */
  predicate SettledBy(s: System, f: nat)
    requires f < |s.flights|
  {
    var flight := s.flights[f];
    Settles(flight.outcome) ==>
      && flight.requestId in s.registry.workflows
      && s.registry.workflows[flight.requestId].state == SettledState(flight.outcome)
      && (flight.outcome.WasApproved? ==> flight.vote.approved)
      && (flight.outcome.WasRejected? ==> !flight.vote.approved)
  }

  predicate FlightsInv(s: System) {
    && (forall f :: 0 <= f < |s.flights| ==> SettledBy(s, f))
    && (forall f, g :: 0 <= f < g < |s.flights| && Settles(s.flights[f].outcome) && Settles(s.flights[g].outcome) ==>
          s.flights[f].requestId != s.flights[g].requestId)
  }

  /** `by` settled the request and went past the given phase. */
  predicate SettledPast(s: System, f: nat, id: nat, phase: Phase) {
    && f < |s.flights| && s.flights[f].requestId == id && Settles(s.flights[f].outcome)
    && s.flights[f].phase != Decided && (phase == Routed ==> s.flights[f].phase == Routed)
  }

  ghost predicate SignalEvidence(s: System, signal: Wakeup) {
    exists f: nat :: SettledPast(s, f, signal.requestId, Routed)
                     && signal.state == SettledState(s.flights[f].outcome)
  }

  ghost predicate SignalsInv(s: System) {
    && (forall k :: 0 <= k < |s.signals| ==> SignalEvidence(s, s.signals[k]))
    && (forall k, l :: 0 <= k < l < |s.signals| ==> s.signals[k].requestId != s.signals[l].requestId)
  }

  predicate HumanRowAgrees(r: AuditRow, f: Flight) {
    && (r.eventType.HumanApproved? ==> f.outcome.WasApproved?)
    && (r.eventType.HumanRejected? ==> f.outcome.WasRejected?)
  }

  ghost predicate RowEvidence(s: System, row: AuditRow) {
    exists f: nat :: SettledPast(s, f, row.requestId, Audited) && HumanRowAgrees(row, s.flights[f])
  }

  ghost predicate RowsInv(s: System) {
    && (forall k :: 0 <= k < |s.rows| && IsHuman(s.rows[k].eventType) ==> RowEvidence(s, s.rows[k]))
    && (forall k, l :: 0 <= k < l < |s.rows| && IsHuman(s.rows[k].eventType) && IsHuman(s.rows[l].eventType) ==>
          s.rows[k].requestId != s.rows[l].requestId)
  }

  /** Whatever reached a receiver is the state of a signal that was sent. */
  predicate DeliveriesInv(s: System) {
    forall c :: 0 <= c < |s.parking.channels| && s.parking.channels[c].sent.Some? ==>
      Wakeup(s.parking.channels[c].requestId, s.parking.channels[c].sent.value) in s.signals
  }

  ghost predicate SystemInv(s: System) {
    RegistryInv(s.registry) && ParkingInv(s.parking) && FlightsInv(s) && SignalsInv(s) && RowsInv(s) && DeliveriesInv(s)
  }

  lemma VoteMatchesVerdict(w: Workflow, v: Vote, nowMs: int)
    requires WorkflowInv(w)
    ensures
      var o := ApprovalWorkflow.Decide(w, v, nowMs).0;
      && (o.WasApproved? ==> v.approved) && (o.WasRejected? ==> !v.approved)
  {
    OutcomeMeaning(w, v, nowMs);
    CountingAnswersRecord(w, v, nowMs);
    if ApprovalWorkflow.Decide(w, v, nowMs).1.stages != w.stages {
      var i := VoteLands(w, v, nowMs);
    }
  }

  lemma FlightsAfterDecide(s: System, id: nat, v: Vote, nowMs: int)
    requires SystemInv(s)
    ensures FlightsInv(NextDecide(s, id, v, nowMs))
  {
    var s' := NextDecide(s, id, v, nowMs);
    if id in s.registry.workflows {
      SettledMeansTerminal(s.registry.workflows[id], v, nowMs);
      VoteMatchesVerdict(s.registry.workflows[id], v, nowMs);
    }
    forall f | 0 <= f < |s'.flights| ensures SettledBy(s', f) {
      if f < |s.flights| { assert SettledBy(s, f); }
    }
    forall f | 0 <= f < |s.flights| && Settles(s.flights[f].outcome) && s.flights[f].requestId == id
      ensures !Settles(OutcomeOf(s.registry, id, v, nowMs))
    {
      assert SettledBy(s, f);
    }
  }

  lemma FlightsInvPreserved(s: System, step: Step)
    requires SystemInv(s) && Enabled(s, step)
    ensures FlightsInv(Next(s, step))
  {
    var s' := Next(s, step);
    match step
    case DecideStep(id, v, now) => FlightsAfterDecide(s, id, v, now);
    case _ =>
      forall f | 0 <= f < |s'.flights| ensures SettledBy(s', f) {
        assert SettledBy(s, f);
      }
  }

  /** Evidence for a signal or row survives every step. */
  lemma EvidenceSurvives(s: System, step: Step, f: nat, id: nat, phase: Phase)
    requires Enabled(s, step) && SettledPast(s, f, id, phase)
    ensures SettledPast(Next(s, step), f, id, phase) && Next(s, step).flights[f].outcome == s.flights[f].outcome
  {
  }

  lemma SignalEvidenceSurvives(s: System, step: Step, signal: Wakeup)
    requires Enabled(s, step) && SignalEvidence(s, signal)
    ensures SignalEvidence(Next(s, step), signal)
  {
    var f: nat :| SettledPast(s, f, signal.requestId, Routed) && signal.state == SettledState(s.flights[f].outcome);
    EvidenceSurvives(s, step, f, signal.requestId, Routed);
  }

  lemma RowEvidenceSurvives(s: System, step: Step, row: AuditRow)
    requires Enabled(s, step) && RowEvidence(s, row)
    ensures RowEvidence(Next(s, step), row)
  {
    var f: nat :| SettledPast(s, f, row.requestId, Audited) && HumanRowAgrees(row, s.flights[f]);
    EvidenceSurvives(s, step, f, row.requestId, Audited);
    assert HumanRowAgrees(row, Next(s, step).flights[f]);
  }

  /** A settling flight that has not got this far is for a request nobody took this far. */
  lemma NoEarlierEvidence(s: System, f: nat, g: nat, id: nat, phase: Phase)
    requires FlightsInv(s) && f < |s.flights| && Settles(s.flights[f].outcome)
    requires SettledPast(s, g, id, phase) && !SettledPast(s, f, s.flights[f].requestId, phase)
    ensures id != s.flights[f].requestId
  {
  }

  lemma SignalsInvPreserved(s: System, step: Step)
    requires SystemInv(s) && Enabled(s, step)
    ensures SignalsInv(Next(s, step))
  {
    var s' := Next(s, step);
    forall k | 0 <= k < |s.signals| ensures SignalEvidence(s', s.signals[k]) {
      SignalEvidenceSurvives(s, step, s.signals[k]);
    }
    if step.RouteStep? && Settles(s.flights[step.flight].outcome) {
      assert SettledPast(s', step.flight, s.flights[step.flight].requestId, Routed);
      forall k | 0 <= k < |s.signals| ensures s.signals[k].requestId != s.flights[step.flight].requestId {
        assert SignalEvidence(s, s.signals[k]);
        var g: nat :| SettledPast(s, g, s.signals[k].requestId, Routed);
        NoEarlierEvidence(s, step.flight, g, s.signals[k].requestId, Routed);
      }
    }
  }

  lemma RowsInvPreserved(s: System, step: Step)
    requires SystemInv(s) && Enabled(s, step)
    ensures RowsInv(Next(s, step))
  {
    var s' := Next(s, step);
    forall k | 0 <= k < |s.rows| && IsHuman(s.rows[k].eventType) ensures RowEvidence(s', s.rows[k]) {
      RowEvidenceSurvives(s, step, s.rows[k]);
    }
    if step.AuditStep? && Settles(s.flights[step.flight].outcome) {
      assert SettledBy(s, step.flight);
      assert SettledPast(s', step.flight, s.flights[step.flight].requestId, Audited);
      forall k | 0 <= k < |s.rows| && IsHuman(s.rows[k].eventType)
        ensures s.rows[k].requestId != s.flights[step.flight].requestId
      {
        assert RowEvidence(s, s.rows[k]);
        var g: nat :| SettledPast(s, g, s.rows[k].requestId, Audited);
        NoEarlierEvidence(s, step.flight, g, s.rows[k].requestId, Audited);
      }
    }
  }

  lemma DeliveriesAfterSignal(s: System, id: nat, state: WorkflowState, s': System)
    requires SystemInv(s) && s'.parking == AfterSignal(s.parking, id, state)
    requires s'.signals == s.signals + [Wakeup(id, state)]
    ensures DeliveriesInv(s')
  {
    if Armed(s.parking, id) {
      assert Unused(s.parking, id, s.parking.entries[id].parking, s.parking.entries[id].decisionTx.value);
    }
    forall c | 0 <= c < |s'.parking.channels| && s'.parking.channels[c].sent.Some?
      ensures Wakeup(s'.parking.channels[c].requestId, s'.parking.channels[c].sent.value) in s'.signals
    {
      if s'.parking.channels[c] == s.parking.channels[c] {
        assert Wakeup(s.parking.channels[c].requestId, s.parking.channels[c].sent.value) in s.signals;
      } else {
        assert s'.signals[|s.signals|] == Wakeup(id, state);
      }
    }
  }

  lemma DeliveriesInvPreserved(s: System, step: Step)
    requires SystemInv(s) && Enabled(s, step)
    ensures DeliveriesInv(Next(s, step))
  {
    if step.RouteStep? && ActionOf(s.flights[step.flight].outcome).Signaled? {
      var flight := s.flights[step.flight];
      DeliveriesAfterSignal(s, flight.requestId, ActionOf(flight.outcome).state, Next(s, step));
    }
  }

  lemma PartsPreserved(s: System, step: Step)
    requires SystemInv(s) && Enabled(s, step)
    ensures RegistryInv(Next(s, step).registry) && ParkingInv(Next(s, step).parking)
  {
    match step
    case RegisterStep(request, w) => RegistryInvPreserved(s.registry, RegisterOp(request, w));
    case ParkStep(op) => ParkingInvPreserved(s.parking, op);
    case DecideStep(id, v, now) => DecideKeepsInv(s.registry, id, v, now);
    case AuditStep(_, _) =>
    case RouteStep(f) =>
      var action := ActionOf(s.flights[f].outcome);
      if action.Signaled? {
        ParkingInvPreserved(s.parking, SignalOp(s.flights[f].requestId, action.state));
      }
  }

  lemma SystemInvPreserved(s: System, step: Step)
    requires SystemInv(s) && Enabled(s, step)
    ensures SystemInv(Next(s, step))
  {
    PartsPreserved(s, step);
    FlightsInvPreserved(s, step);
    SignalsInvPreserved(s, step);
    RowsInvPreserved(s, step);
    DeliveriesInvPreserved(s, step);
  }

  lemma {:induction false} SystemInvAlways(s: System, steps: seq<Step>, s': System)
    requires SystemInv(s) && Runs(s, steps, s')
    ensures SystemInv(s')
    decreases |steps|
  {
    if steps != [] {
      SystemInvPreserved(s, steps[0]);
      SystemInvAlways(Next(s, steps[0]), steps[1..], s');
    }
  }

  // ── Composition ─────────────────────────────────────────────────────────

  /** A signal carries the state its workflow ended in. */
  lemma SignalMatchesWorkflow(s: System, signal: Wakeup)
    requires FlightsInv(s) && SignalEvidence(s, signal)
    ensures signal.requestId in s.registry.workflows
    ensures s.registry.workflows[signal.requestId].state == signal.state && IsTerminal(signal.state)
  {
    var f: nat :| SettledPast(s, f, signal.requestId, Routed) && signal.state == SettledState(s.flights[f].outcome);
    assert SettledBy(s, f);
  }

  lemma HumanRowMatchesWorkflow(s: System, row: AuditRow)
    requires FlightsInv(s) && RowEvidence(s, row) && IsHuman(row.eventType)
    ensures row.requestId in s.registry.workflows
    ensures s.registry.workflows[row.requestId].state == if row.eventType.HumanApproved? then Approved else Rejected
  {
    var f: nat :| SettledPast(s, f, row.requestId, Audited) && HumanRowAgrees(row, s.flights[f]);
    assert SettledBy(s, f);
  }

  /**
   Over every interleaving of registrations, parkings, decisions, audits and
   routings, with any audit write lost: a request gets at most one terminal
   signal, and it is the state its workflow ended in.
   */
  lemma OneSignalPerRequest(steps: seq<Step>, s: System, k: nat, l: nat)
    requires Runs(START, steps, s) && k < |s.signals| && l < |s.signals|
    ensures s.signals[k].requestId == s.signals[l].requestId ==> k == l
    ensures s.signals[k].requestId in s.registry.workflows
    ensures s.registry.workflows[s.signals[k].requestId].state == s.signals[k].state && IsTerminal(s.signals[k].state)
  {
    SystemInvAlways(START, steps, s);
    assert SignalEvidence(s, s.signals[k]);
    SignalMatchesWorkflow(s, s.signals[k]);
  }

  /**
   Likewise at most one `human_approved` or `human_rejected` row. Its kind comes
   from the vote and still always names the state the workflow ended in, hence
   the state signalled; an expired request gets no such row.
   */
  lemma OneHumanRowPerRequest(steps: seq<Step>, s: System, k: nat, l: nat)
    requires Runs(START, steps, s) && k < |s.rows| && l < |s.rows|
    requires IsHuman(s.rows[k].eventType) && IsHuman(s.rows[l].eventType)
    ensures s.rows[k].requestId == s.rows[l].requestId ==> k == l
    ensures s.rows[k].requestId in s.registry.workflows
    ensures s.registry.workflows[s.rows[k].requestId].state ==
              if s.rows[k].eventType.HumanApproved? then Approved else Rejected
    ensures forall m :: 0 <= m < |s.signals| && s.signals[m].requestId == s.rows[k].requestId ==>
              s.signals[m].state == if s.rows[k].eventType.HumanApproved? then Approved else Rejected
    ensures s.rows[k].sessionId.Some? && RegisteredWith(steps, s.rows[k].requestId, s.rows[k].sessionId.value)
  {
    RowsTellTheTruth(steps, s, k);
    SystemInvAlways(START, steps, s);
    assert RowEvidence(s, s.rows[k]);
    HumanRowMatchesWorkflow(s, s.rows[k]);
    forall m | 0 <= m < |s.signals| && s.signals[m].requestId == s.rows[k].requestId
      ensures s.signals[m].state == s.registry.workflows[s.rows[k].requestId].state
    {
      assert SignalEvidence(s, s.signals[m]);
      SignalMatchesWorkflow(s, s.signals[m]);
    }
  }

  // ── What a row tells ────────────────────────────────────────────────────

  /** The kind of a row names the answer it was written for; a human row names the verdict. */
  predicate KindTells(e: EventType, o: Outcome) {
    && (e.HumanApproved? <==> o.WasApproved?) && (e.HumanRejected? <==> o.WasRejected?)
    && (e.ApprovalLeaseExpired? <==> o.LeaseExpired?) && (e.ApprovalRoleMismatch? <==> o.RoleMismatch?)
    && (e.ApprovalStageAdvanced? <==> o.StageAdvanced?) && (e.ApprovalQuorumProgress? <==> o.QuorumProgress?)
  }

  /** The request was registered with this session. */
  predicate RegisteredWith(done: seq<Step>, id: nat, sessionId: string) {
    exists k :: 0 <= k < |done| && done[k].RegisterStep? && done[k].request.id == id && done[k].request.sessionId == sessionId
  }

  /** A human row names the session its request was registered with; no other row names one. */
  predicate SessionTells(done: seq<Step>, row: AuditRow) {
    if IsHuman(row.eventType) then row.sessionId.Some? && RegisteredWith(done, row.requestId, row.sessionId.value)
    else row.sessionId.None?
  }

  ghost predicate WrittenFor(s: System, row: AuditRow) {
    exists f: nat :: f < |s.flights| && s.flights[f].phase != Decided && s.flights[f].requestId == row.requestId
                     && KindTells(row.eventType, s.flights[f].outcome)
  }

  ghost predicate Traced(s: System, done: seq<Step>) {
    && (forall id :: id in s.registry.pending ==> RegisteredWith(done, id, s.registry.pending[id].sessionId))
    && (forall f :: 0 <= f < |s.flights| && s.flights[f].request.Some? ==>
          RegisteredWith(done, s.flights[f].requestId, s.flights[f].request.value.sessionId))
    && (forall k :: 0 <= k < |s.rows| ==> SessionTells(done, s.rows[k]) && WrittenFor(s, s.rows[k]))
  }

  lemma MoreIsRegistered(done: seq<Step>, step: Step, id: nat, sessionId: string)
    requires RegisteredWith(done, id, sessionId)
    ensures RegisteredWith(done + [step], id, sessionId)
  {
    var k :| 0 <= k < |done| && done[k].RegisterStep? && done[k].request.id == id && done[k].request.sessionId == sessionId;
    assert (done + [step])[k] == done[k];
  }

  lemma RegistrationIsTraced(done: seq<Step>, step: Step)
    requires step.RegisterStep?
    ensures RegisteredWith(done + [step], step.request.id, step.request.sessionId)
  {
    assert (done + [step])[|done|] == step;
  }

  lemma WrittenForStays(s: System, step: Step, row: AuditRow)
    requires Enabled(s, step) && WrittenFor(s, row)
    ensures WrittenFor(Next(s, step), row)
  {
    var f: nat :| f < |s.flights| && s.flights[f].phase != Decided && s.flights[f].requestId == row.requestId
                  && KindTells(row.eventType, s.flights[f].outcome);
    var flight := Next(s, step).flights[f];
    assert flight.phase != Decided && flight.requestId == row.requestId && KindTells(row.eventType, flight.outcome);
  }

  lemma NewRowTells(s: System, f: nat, row: AuditRow)
    requires FlightsInv(s) && f < |s.flights|
    requires
      var flight := s.flights[f];
      AuditOf(flight.requestId, flight.vote, flight.outcome, flight.request) == Some(row)
    ensures row.requestId == s.flights[f].requestId && KindTells(row.eventType, s.flights[f].outcome)
    ensures IsHuman(row.eventType) ==>
      s.flights[f].request.Some? && row.sessionId == Some(s.flights[f].request.value.sessionId)
    ensures !IsHuman(row.eventType) ==> row.sessionId.None?
  {
    assert SettledBy(s, f);
  }

  lemma RequestsAreTraced(s: System, done: seq<Step>, step: Step)
    requires Traced(s, done) && Enabled(s, step)
    ensures
      var s' := Next(s, step);
      && (forall id :: id in s'.registry.pending ==> RegisteredWith(done + [step], id, s'.registry.pending[id].sessionId))
      && (forall f :: 0 <= f < |s'.flights| && s'.flights[f].request.Some? ==>
            RegisteredWith(done + [step], s'.flights[f].requestId, s'.flights[f].request.value.sessionId))
  {
    var s' := Next(s, step);
    forall id | id in s'.registry.pending
      ensures RegisteredWith(done + [step], id, s'.registry.pending[id].sessionId)
    {
      if id in s.registry.pending && s'.registry.pending[id] == s.registry.pending[id] {
        MoreIsRegistered(done, step, id, s.registry.pending[id].sessionId);
      } else {
        RegistrationIsTraced(done, step);
      }
    }
    forall f | 0 <= f < |s'.flights| && s'.flights[f].request.Some?
      ensures RegisteredWith(done + [step], s'.flights[f].requestId, s'.flights[f].request.value.sessionId)
    {
      MoreIsRegistered(done, step, s'.flights[f].requestId, s'.flights[f].request.value.sessionId);
    }
  }

  lemma RowsAreTraced(s: System, done: seq<Step>, step: Step, k: nat)
    requires SystemInv(s) && Traced(s, done) && Enabled(s, step) && k < |Next(s, step).rows|
    ensures SessionTells(done + [step], Next(s, step).rows[k]) && WrittenFor(Next(s, step), Next(s, step).rows[k])
  {
    var s' := Next(s, step);
    var row := s'.rows[k];
    if k < |s.rows| {
      WrittenForStays(s, step, row);
      if IsHuman(row.eventType) {
        MoreIsRegistered(done, step, row.requestId, row.sessionId.value);
      }
    } else {
      var f := step.flight;
      NewRowTells(s, f, row);
      assert s'.flights[f].phase != Decided && s'.flights[f].requestId == row.requestId;
      if IsHuman(row.eventType) {
        MoreIsRegistered(done, step, row.requestId, row.sessionId.value);
      }
    }
  }

  lemma {:induction false} TracedAlways(s: System, done: seq<Step>, steps: seq<Step>, s': System)
    requires SystemInv(s) && Traced(s, done) && Runs(s, steps, s')
    ensures Traced(s', done + steps)
    decreases |steps|
  {
    if steps == [] {
      assert done + steps == done;
    } else {
      RequestsAreTraced(s, done, steps[0]);
      forall k: nat | k < |Next(s, steps[0]).rows|
        ensures SessionTells(done + [steps[0]], Next(s, steps[0]).rows[k])
        ensures WrittenFor(Next(s, steps[0]), Next(s, steps[0]).rows[k])
      {
        RowsAreTraced(s, done, steps[0], k);
      }
      SystemInvPreserved(s, steps[0]);
      TracedAlways(Next(s, steps[0]), done + [steps[0]], steps[1..], s');
      assert done + [steps[0]] + steps[1..] == done + steps;
    }
  }

  /**
   Over every interleaving, each row of the log was written for a decision call on
   its request and its kind names what that call answered; a human row also names
   the session the request was registered with.
   */
  lemma RowsTellTheTruth(steps: seq<Step>, s: System, k: nat)
    requires Runs(START, steps, s) && k < |s.rows|
    ensures
      var row := s.rows[k];
      && (exists f: nat :: f < |s.flights| && s.flights[f].phase != Decided && s.flights[f].requestId == row.requestId
                           && KindTells(row.eventType, s.flights[f].outcome))
      && (if IsHuman(row.eventType) then row.sessionId.Some? && RegisteredWith(steps, row.requestId, row.sessionId.value)
          else row.sessionId.None?)
  {
    TracedAlways(START, [], steps, s);
    assert [] + steps == steps;
    assert WrittenFor(s, s.rows[k]);
  }

  // ── Nothing is forgotten ────────────────────────────────────────────────

  ghost predicate SettledByFlight(s: System, id: nat) {
    exists f: nat :: f < |s.flights| && s.flights[f].requestId == id && Settles(s.flights[f].outcome)
  }

  /** Every verdict has a decision call behind it, and every such call that was routed has signalled. */
  ghost predicate NothingForgotten(s: System) {
    && (forall id :: id in s.registry.workflows && IsTerminal(s.registry.workflows[id].state) ==> SettledByFlight(s, id))
    && (forall f :: 0 <= f < |s.flights| && Settles(s.flights[f].outcome) && s.flights[f].phase == Routed ==>
          Wakeup(s.flights[f].requestId, SettledState(s.flights[f].outcome)) in s.signals)
  }

  lemma VerdictHasFlight(s: System, step: Step, id: nat)
    requires Enabled(s, step)
    requires id in s.registry.workflows && IsTerminal(s.registry.workflows[id].state) ==> SettledByFlight(s, id)
    requires id in Next(s, step).registry.workflows && IsTerminal(Next(s, step).registry.workflows[id].state)
    ensures SettledByFlight(Next(s, step), id)
  {
    var s' := Next(s, step);
    if id in s.registry.workflows && IsTerminal(s.registry.workflows[id].state) {
      var f: nat :| f < |s.flights| && s.flights[f].requestId == id && Settles(s.flights[f].outcome);
      assert s'.flights[f].requestId == id && Settles(s'.flights[f].outcome);
    } else {
      SettledMeansTerminal(s.registry.workflows[id], step.vote, step.nowMs);
      assert s'.flights[|s.flights|].requestId == id;
    }
  }

  lemma NothingForgottenPreserved(s: System, step: Step)
    requires SystemInv(s) && NothingForgotten(s) && Enabled(s, step)
    ensures NothingForgotten(Next(s, step))
  {
    var s' := Next(s, step);
    forall id | id in s'.registry.workflows && IsTerminal(s'.registry.workflows[id].state)
      ensures SettledByFlight(s', id)
    {
      VerdictHasFlight(s, step, id);
    }
    if step.RouteStep? && Settles(s.flights[step.flight].outcome) {
      assert s'.signals[|s.signals|].requestId == s.flights[step.flight].requestId;
    }
  }

  lemma {:induction false} NothingForgottenAlways(s: System, steps: seq<Step>, s': System)
    requires SystemInv(s) && NothingForgotten(s) && Runs(s, steps, s')
    ensures NothingForgotten(s')
    decreases |steps|
  {
    if steps != [] {
      NothingForgottenPreserved(s, steps[0]);
      SystemInvPreserved(s, steps[0]);
      NothingForgottenAlways(Next(s, steps[0]), steps[1..], s');
    }
  }

  /** When every decision call has come to its end, exactly the settled requests have been signalled. */
  lemma SignalledIffSettled(steps: seq<Step>, s: System, id: nat, state: WorkflowState)
    requires Runs(START, steps, s)
    requires forall f :: 0 <= f < |s.flights| ==> s.flights[f].phase == Routed
    ensures Wakeup(id, state) in s.signals <==>
      id in s.registry.workflows && s.registry.workflows[id].state == state && IsTerminal(state)
  {
    SystemInvAlways(START, steps, s);
    NothingForgottenAlways(START, steps, s);
    if Wakeup(id, state) in s.signals {
      assert SignalEvidence(s, Wakeup(id, state));
      SignalMatchesWorkflow(s, Wakeup(id, state));
    }
    if id in s.registry.workflows && s.registry.workflows[id].state == state && IsTerminal(state) {
      assert SettledByFlight(s, id);
      var f: nat :| f < |s.flights| && s.flights[f].requestId == id && Settles(s.flights[f].outcome);
      assert SettledBy(s, f);
    }
  }

  // ── The record comes first ──────────────────────────────────────────────

  predicate IsVerdict(o: Outcome) { o.WasApproved? || o.WasRejected? }

  predicate StoresEveryRow(steps: seq<Step>) {
    forall k :: 0 <= k < |steps| && steps[k].AuditStep? ==> steps[k].stored
  }

  /** Every human verdict carries its request, and from its audit on it has its row. */
  predicate Recorded(s: System) {
    forall f :: 0 <= f < |s.flights| && IsVerdict(s.flights[f].outcome) ==>
      && s.flights[f].request.Some?
      && (s.flights[f].phase != Decided ==>
            HumanRow(s.flights[f].requestId, s.flights[f].vote, s.flights[f].request).value in s.rows)
  }

  lemma RecordedPreserved(s: System, step: Step)
    requires Recorded(s) && Enabled(s, step) && (step.AuditStep? ==> step.stored)
    ensures Recorded(Next(s, step))
  {
    match step
    case DecideStep(id, v, now) => DecisionEffects(s.registry, id, v, now);
    case AuditStep(f, _) =>
      if IsVerdict(s.flights[f].outcome) {
        assert Next(s, step).rows[|s.rows|] in Next(s, step).rows;
      }
    case _ =>
  }

  lemma {:induction false} RecordedAlways(s: System, steps: seq<Step>, s': System)
    requires SystemInv(s) && Recorded(s) && Runs(s, steps, s') && StoresEveryRow(steps)
    ensures Recorded(s')
    decreases |steps|
  {
    if steps != [] {
      RecordedPreserved(s, steps[0]);
      SystemInvPreserved(s, steps[0]);
      assert forall k :: 0 <= k < |steps[1..]| ==> steps[1..][k] == steps[k + 1];
      RecordedAlways(Next(s, steps[0]), steps[1..], s');
    }
  }

  /** As long as the audit log takes its rows, no verdict is signalled before its human row is in the log. */
  lemma AuditPrecedesSignal(steps: seq<Step>, s: System, k: nat)
    requires Runs(START, steps, s) && StoresEveryRow(steps)
    requires k < |s.signals| && s.signals[k].state != Expired
    ensures exists row :: row in s.rows && row.requestId == s.signals[k].requestId
                          && row.eventType == if s.signals[k].state == Approved then HumanApproved else HumanRejected
  {
    SystemInvAlways(START, steps, s);
    RecordedAlways(START, steps, s);
    var signal := s.signals[k];
    assert SignalEvidence(s, signal);
    var f: nat :| SettledPast(s, f, signal.requestId, Routed) && signal.state == SettledState(s.flights[f].outcome);
    assert SettledBy(s, f);
    var row := HumanRow(signal.requestId, s.flights[f].vote, s.flights[f].request).value;
    assert row in s.rows;
  }

  /** The answers that leave a trace in the log: all but a refusal that tells nothing new. */
  predicate Audible(o: Outcome) { !o.AlreadyDecided? && !o.NotFound? && !o.DuplicateOperator? }

  predicate HasRow(rows: seq<AuditRow>, id: nat, o: Outcome) {
    exists k :: 0 <= k < |rows| && rows[k].requestId == id && KindTells(rows[k].eventType, o)
  }

  /** From its audit on, an audible answer has its row. */
  predicate Logged(s: System) {
    forall f :: 0 <= f < |s.flights| && s.flights[f].phase != Decided && Audible(s.flights[f].outcome) ==>
      HasRow(s.rows, s.flights[f].requestId, s.flights[f].outcome)
  }

  lemma HasRowStays(rows: seq<AuditRow>, more: seq<AuditRow>, id: nat, o: Outcome)
    requires HasRow(rows, id, o)
    ensures HasRow(rows + more, id, o)
  {
    var k :| 0 <= k < |rows| && rows[k].requestId == id && KindTells(rows[k].eventType, o);
    assert (rows + more)[k] == rows[k];
  }

  lemma AuditWritesTheRow(s: System, f: nat)
    requires FlightsInv(s) && Recorded(s) && f < |s.flights| && Audible(s.flights[f].outcome)
    ensures
      var flight := s.flights[f];
      HasRow(s.rows + RowsOf(flight.requestId, flight.vote, flight.outcome, flight.request, true),
             flight.requestId, flight.outcome)
  {
    assert SettledBy(s, f);
    var flight := s.flights[f];
    var row := AuditOf(flight.requestId, flight.vote, flight.outcome, flight.request);
    assert row.Some?;
    NewRowTells(s, f, row.value);
    assert (s.rows + [row.value])[|s.rows|] == row.value;
  }

  lemma LoggedPreserved(s: System, step: Step)
    requires SystemInv(s) && Recorded(s) && Logged(s) && Enabled(s, step) && (step.AuditStep? ==> step.stored)
    ensures Logged(Next(s, step))
  {
    var s' := Next(s, step);
    if step.AuditStep? {
      var flight := s.flights[step.flight];
      var more := RowsOf(flight.requestId, flight.vote, flight.outcome, flight.request, true);
      forall f | 0 <= f < |s'.flights| && s'.flights[f].phase != Decided && Audible(s'.flights[f].outcome)
        ensures HasRow(s'.rows, s'.flights[f].requestId, s'.flights[f].outcome)
      {
        if f == step.flight {
          AuditWritesTheRow(s, f);
        } else {
          HasRowStays(s.rows, more, s.flights[f].requestId, s.flights[f].outcome);
        }
      }
    }
  }

  lemma {:induction false} LoggedAlways(s: System, steps: seq<Step>, s': System)
    requires SystemInv(s) && Recorded(s) && Logged(s) && Runs(s, steps, s') && StoresEveryRow(steps)
    ensures Logged(s')
    decreases |steps|
  {
    if steps != [] {
      LoggedPreserved(s, steps[0]);
      RecordedPreserved(s, steps[0]);
      SystemInvPreserved(s, steps[0]);
      assert forall k :: 0 <= k < |steps[1..]| ==> steps[1..][k] == steps[k + 1];
      LoggedAlways(Next(s, steps[0]), steps[1..], s');
    }
  }

  /**
   As long as the log takes its rows, every audited decision is in it under its own
   kind, unless it was refused as unknown, already decided or a second vote.
   */
  lemma EveryDecisionIsLogged(steps: seq<Step>, s: System, f: nat)
    requires Runs(START, steps, s) && StoresEveryRow(steps) && f < |s.flights| && s.flights[f].phase != Decided
    ensures !s.flights[f].outcome.AlreadyDecided? && !s.flights[f].outcome.NotFound? && !s.flights[f].outcome.DuplicateOperator?
            ==> HasRow(s.rows, s.flights[f].requestId, s.flights[f].outcome)
  {
    LoggedAlways(START, steps, s);
  }

  /** A value that reached a receiver is the terminal state of the workflow of that receiver's request. */
  lemma DeliveredVerdict(s: System, c: nat)
    requires SystemInv(s) && c < |s.parking.channels| && s.parking.channels[c].sent.Some?
    ensures
      var id, state := s.parking.channels[c].requestId, s.parking.channels[c].sent.value;
      id in s.registry.workflows && s.registry.workflows[id].state == state && IsTerminal(state)
  {
    var sig := Wakeup(s.parking.channels[c].requestId, s.parking.channels[c].sent.value);
    assert SignalEvidence(s, sig);
    SignalMatchesWorkflow(s, sig);
  }

  /**
   What wakes a parked task is the verdict on its own request: every value that
   reached any receiver is the terminal state of that request's workflow, so a
   transaction resumes as approved only if every quorum was met.
   */
  lemma WokenWithTheVerdict(steps: seq<Step>, s: System, c: nat)
    requires Runs(START, steps, s)
    requires c < |s.parking.channels| && s.parking.channels[c].sent.Some?
    ensures
      var id, state := s.parking.channels[c].requestId, s.parking.channels[c].sent.value;
      && id in s.registry.workflows && s.registry.workflows[id].state == state && IsTerminal(state)
      && (state == Approved ==> AllQuorumsMet(s.registry.workflows[id].stages))
      && (state == Rejected ==> AnyRejection(s.registry.workflows[id].stages))
  {
    SystemInvAlways(START, steps, s);
    DeliveredVerdict(s, c);
    assert WorkflowInv(s.registry.workflows[s.parking.channels[c].requestId]);
  }

  // ── One decision call ───────────────────────────────────────────────────

  /** What one call of the handler below does is a run of the three steps of one flight. */
  lemma HandlerCallIsAFlight(s: System, id: nat, v: Vote, nowMs: int, stored: bool) returns (s': System)
    requires SystemInv(s)
    ensures
      var f := |s.flights|;
      Runs(s, [DecideStep(id, v, nowMs), AuditStep(f, stored), RouteStep(f)], s')
    ensures
      var o := OutcomeOf(s.registry, id, v, nowMs);
      var request := ReturnedRequest(s.registry, id, o);
      && s'.registry == AfterDecide(s.registry, id, v, nowMs)
      && s'.rows == s.rows + RowsOf(id, v, o, request, stored)
      && s'.parking == AfterRoute(s.parking, id, ActionOf(o))
      && s'.flights == s.flights + [Flight(id, v, o, request, Routed)]
  {
    var f := |s.flights|;
    var decide, audit, route := DecideStep(id, v, nowMs), AuditStep(f, stored), RouteStep(f);
    DecideKeepsInv(s.registry, id, v, nowMs);
    var s1 := Next(s, decide);
    var s2 := Next(s1, audit);
    s' := Next(s2, route);
    assert Runs(s2, [route], s') by { assert [route][1..] == []; }
    assert Runs(s1, [audit, route], s') by { assert [audit, route][1..] == [route]; }
    assert [decide, audit, route][1..] == [audit, route];
  }

  class GatewayApprovalHandler {
    const store: ApprovalStore
    const audit: AuditLog
    const parks: ParkStores

    constructor (store: ApprovalStore, audit: AuditLog, parks: ParkStores)
      ensures this.store == store && this.audit == audit && this.parks == parks
    {
      this.store, this.audit, this.parks := store, audit, parks;
    }

    /** Decide, audit, route: the three steps of one flight, the first `diesAfter` of them when the daemon dies. */
    method DecideInner(id: nat, v: Vote, nowMs: int, stored: bool, diesAfter: nat)
      returns (outcome: Outcome, request: Option<Request>)
      requires store.Valid() && parks.Valid()
      modifies store, audit, parks.signing, parks.jupiter, parks.solend, parks.solendWithdraw
      ensures store.Valid() && parks.Valid()
      ensures outcome == OutcomeOf(old(store.Model()), id, v, nowMs)
      ensures request == ReturnedRequest(old(store.Model()), id, outcome)
      ensures store.Model() == AfterDecide(old(store.Model()), id, v, nowMs)
      ensures audit.rows == old(audit.rows) + (if diesAfter >= 2 then RowsOf(id, v, outcome, request, stored) else [])
      ensures parks.signing.Model() == RoutedIf(diesAfter >= 3, old(parks.signing.Model()), id, outcome)
      ensures parks.jupiter.Model() == RoutedIf(diesAfter >= 3, old(parks.jupiter.Model()), id, outcome)
      ensures parks.solend.Model() == RoutedIf(diesAfter >= 3, old(parks.solend.Model()), id, outcome)
      ensures parks.solendWithdraw.Model() == RoutedIf(diesAfter >= 3, old(parks.solendWithdraw.Model()), id, outcome)
    {
      outcome, request := store.Decide(id, v, nowMs);
      if diesAfter < 2 {
        return;
      }
      audit.EmitDecideAudit(id, v, outcome, request, stored);
      if diesAfter < 3 {
        return;
      }
      var _ := parks.RouteApprovalOutcome(outcome, id);
    }
  }
}
