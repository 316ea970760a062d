/**
 Approval across daemon lifetimes: a request is persisted, parked and registered;
 decisions are audited and routed; the task that waits for the verdict marks the
 durable row, takes the parked transaction and hands it over. The daemon may die
 between any two awaited calls, and a restart rebuilds what its rows say is
 pending. One lifetime is a system of decide, audit and route; the log and the rows
 outlive it.
 */
module ApprovalCustody {
  import opened Wrappers
  import opened ApprovalWorkflow
  import opened ApprovalStore
  import opened PendingSigning
  import opened DurableRecovery
  import Routing = ApprovalRouting

  datatype DurableRow = DurableRow(opening: Opening, createdAtMs: int, isPending: bool)

  /** The task that resumes a parked transaction: anything but an approval is a refusal to it. */
  datatype Task =
    | Waiting(receiver: nat)
    | Woken(approved: bool)
    | Marked(approved: bool)
    | Holding
    | Ended

  datatype State = State(
    clockMs: int,
    up: bool,
    sys: Routing.System,
    past: seq<Routing.AuditRow>,
    durable: map<nat, DurableRow>,
    openers: set<nat>,
    toRecover: set<nat>,
    tasks: map<nat, Task>,
    handed: multiset<nat>)

  /**
   `marksStick`: the terminal mark of an approval row is never lost. `windowSafe`:
   the daemon never dies while a human verdict is in the log and its row is not
   marked yet.
   */
  datatype Env = Env(marksStick: bool, windowSafe: bool)

  datatype Step =
    | Tick(ms: nat)
    | Persist(o: Opening)
    | Launch(id: nat)
    | Inner(step: Routing.Step)
    | Wake(id: nat)
    | GiveUp(id: nat)
    | Mark(id: nat, lost: bool)
    | Close(id: nat)
    | TakeParked(id: nat)
    | Submit(id: nat)
    | Crash
    | Restart(staleWriteFails: bool, loadFails: bool)
    | RecoverRow(id: nat)

  const MAX_AGE_MS := 120_000

  // ── One lifetime's stores ───────────────────────────────────────────────

  function WithOp(sys: Routing.System, op: ParkOp): Routing.System {
    sys.(parking := PendingSigning.Apply(sys.parking, op))
  }

  function WithRequest(sys: Routing.System, request: Request, w: Workflow): Routing.System {
    sys.(registry := AfterRegister(sys.registry, request, w))
  }

  function Launched(sys: Routing.System, o: Opening): Routing.System {
    var park := ParkOp(o.request.id, Parked(o.proposal, o.txBytes, o.lastValidBlockHeight));
    WithRequest(WithOp(sys, park), o.request, WorkflowOf(o))
  }

  function RebuiltOf(o: Opening): Workflow { RebuiltWorkflow(o.verdict, o.request.requiredRole) }

  /** Recovery registers, parks, and replaces the channel for the task it spawns. */
  function Relaunched(sys: Routing.System, o: Opening): Routing.System {
    var park := ParkOp(o.request.id, Parked(o.proposal, o.txBytes, 0));
    WithOp(WithOp(WithRequest(sys, o.request, RebuiltOf(o)), park), TakeDecisionRxOp(o.request.id))
  }

  function Dropped(sys: Routing.System, id: nat): Routing.System { WithOp(sys, TakeOp(id)) }

  // ── The log ─────────────────────────────────────────────────────────────

  /** How many human verdicts on a request a stretch of the log holds. */
  function HumanCount(rows: seq<Routing.AuditRow>, id: nat): nat {
    if rows == [] then 0
    else
      var last := rows[|rows| - 1];
      HumanCount(rows[..|rows| - 1], id) + if last.requestId == id && Routing.IsHuman(last.eventType) then 1 else 0
  }

  function HumanRows(s: State, id: nat): nat { HumanCount(s.past, id) + HumanCount(s.sys.rows, id) }

  /** A verdict is in the log and a restart would still revive its request. */
  predicate Exposed(s: State, id: nat) {
    HumanRows(s, id) > 0 && id in s.durable && s.durable[id].isPending
  }

  // ── Steps ───────────────────────────────────────────────────────────────

  predicate HasMessage(s: State, receiver: nat) {
    receiver < |s.sys.parking.channels| && s.sys.parking.channels[receiver].sent.Some?
  }

  predicate InPhase(s: State, id: nat, task: Task) { id in s.tasks && s.tasks[id] == task }

  /** A row that nobody in this lifetime has brought to life yet. */
  predicate Unstarted(s: State, id: nat) {
    id in s.durable && id !in s.sys.registry.workflows && id !in s.tasks
  }

  ghost predicate Enabled(env: Env, s: State, step: Step) {
    match step
    case Tick(_) => true
    case Persist(o) => s.up && o.request.id !in s.durable && DurableRecovery.WellFormed(o)
    case Launch(id) => s.up && id in s.openers && Unstarted(s, id)
    case Inner(step) => s.up && (step.DecideStep? || step.AuditStep? || step.RouteStep?) && Routing.Enabled(s.sys, step)
    case Wake(id) => id in s.tasks && s.tasks[id].Waiting? && HasMessage(s, s.tasks[id].receiver)
    case GiveUp(id) => id in s.tasks && s.tasks[id].Waiting? && !HasMessage(s, s.tasks[id].receiver)
    case Mark(id, lost) => id in s.tasks && s.tasks[id].Woken? && (env.marksStick ==> !lost)
    case Close(id) => InPhase(s, id, Marked(false))
    case TakeParked(id) => InPhase(s, id, Marked(true))
    case Submit(id) => InPhase(s, id, Holding)
    case Crash => s.up && (env.windowSafe ==> forall id :: !Exposed(s, id))
    case Restart(_, _) => !s.up
    case RecoverRow(id) => s.up && id in s.toRecover && Unstarted(s, id)
  }

  function MarkedRow(row: DurableRow, lost: bool): DurableRow {
    if lost then row else row.(isPending := false)
  }

  function AfterCrash(s: State): State {
    s.(up := false, sys := Routing.START, past := s.past + s.sys.rows, openers := {}, toRecover := {}, tasks := map[])
  }

  function WithoutStale(durable: map<nat, DurableRow>, nowMs: int, staleWriteFails: bool): map<nat, DurableRow> {
    map id | id in durable ::
      durable[id].(isPending := durable[id].isPending
                                && (staleWriteFails || durable[id].createdAtMs > nowMs - MAX_AGE_MS))
  }

  function AfterRestart(s: State, staleWriteFails: bool, loadFails: bool): State {
    var durable := WithoutStale(s.durable, s.clockMs, staleWriteFails);
    s.(up := true, durable := durable,
       toRecover := if loadFails then {} else set id | id in durable && durable[id].isPending)
  }

  ghost function Next(env: Env, s: State, step: Step): State
    requires Enabled(env, s, step)
  {
    match step
    case Tick(ms) => s.(clockMs := s.clockMs + ms)
    case Persist(o) =>
      s.(durable := s.durable[o.request.id := DurableRow(o, s.clockMs, true)], openers := s.openers + {o.request.id})
    case Launch(id) =>
      s.(sys := Launched(s.sys, s.durable[id].opening), openers := s.openers - {id},
         tasks := s.tasks[id := Waiting(|s.sys.parking.channels|)])
    case Inner(step) => s.(sys := Routing.Next(s.sys, step))
    case Wake(id) =>
      var verdict := s.sys.parking.channels[s.tasks[id].receiver].sent.value;
      s.(tasks := s.tasks[id := Woken(verdict == Approved)])
    case GiveUp(id) => s.(tasks := s.tasks[id := Woken(false)])
    case Mark(id, lost) =>
      s.(durable := if id in s.durable then s.durable[id := MarkedRow(s.durable[id], lost)] else s.durable,
         tasks := s.tasks[id := Marked(s.tasks[id].approved)])
    case Close(id) => s.(sys := Dropped(s.sys, id), tasks := s.tasks[id := Ended])
    case TakeParked(id) =>
      s.(sys := Dropped(s.sys, id), tasks := s.tasks[id := if id in s.sys.parking.entries then Holding else Ended])
    case Submit(id) => s.(handed := s.handed + multiset{id}, tasks := s.tasks[id := Ended])
    case Crash => AfterCrash(s)
    case Restart(staleWriteFails, loadFails) => AfterRestart(s, staleWriteFails, loadFails)
    case RecoverRow(id) =>
      s.(sys := Relaunched(s.sys, s.durable[id].opening), toRecover := s.toRecover - {id},
         tasks := s.tasks[id := Waiting(|s.sys.parking.channels| + 1)])
  }

  ghost predicate Runs(env: Env, s: State, steps: seq<Step>, s': State)
    decreases |steps|
  {
    if steps == [] then s' == s
    else Enabled(env, s, steps[0]) && Runs(env, Next(env, s, steps[0]), steps[1..], s')
  }

  ghost predicate Reaches(env: Env, s: State, s': State) { exists steps :: Runs(env, s, steps, s') }

  function Start(clockMs: int): State {
    State(clockMs, true, Routing.START, [], map[], {}, {}, map[], multiset{})
  }

  // ── What every state keeps ──────────────────────────────────────────────

  predicate DurableInv(s: State) {
    forall id :: id in s.durable ==> s.durable[id].opening.request.id == id && DurableRecovery.WellFormed(s.durable[id].opening)
  }

  /** Whatever this lifetime knows has a row; a daemon that is down knows nothing. */
  ghost predicate KeysInv(s: State) {
    && (forall id :: id in s.tasks || id in s.openers || id in s.toRecover ==> id in s.durable)
    && (!s.up ==> s.sys == Routing.START && s.tasks == map[] && s.openers == {} && s.toRecover == {})
  }

  /** The stages a request asks for, the same before and after a crash. */
  function StagesOf(o: Opening): seq<Stage> { RebuiltOf(o).stages }

  /** The workflow under an id is a continuation of the one its row describes. */
  ghost predicate Continues(o: Opening, w: Workflow) {
    SinceStart(WorkflowOf(o), w) || SinceStart(RebuiltOf(o), w)
  }

  ghost predicate Chained(durable: map<nat, DurableRow>, workflows: map<nat, Workflow>) {
    forall id :: id in workflows ==> id in durable && Continues(durable[id].opening, workflows[id])
  }

  /** A task listens on its own request's channel and is approved only with its workflow. */
  predicate TaskSound(sys: Routing.System, id: nat, t: Task) {
    match t
    case Waiting(c) => c < |sys.parking.channels| && sys.parking.channels[c].requestId == id
    case Woken(approved) => approved ==> Verdict(sys, id, Approved)
    case Marked(approved) => approved ==> Verdict(sys, id, Approved)
    case Holding => Verdict(sys, id, Approved)
    case Ended => true
  }

  predicate Verdict(sys: Routing.System, id: nat, state: WorkflowState) {
    id in sys.registry.workflows && sys.registry.workflows[id].state == state
  }

  predicate TasksSound(sys: Routing.System, tasks: map<nat, Task>) {
    forall id :: id in tasks ==> TaskSound(sys, id, tasks[id])
  }

  ghost predicate BaseInv(s: State) {
    && Routing.SystemInv(s.sys) && DurableInv(s) && KeysInv(s)
    && Chained(s.durable, s.sys.registry.workflows) && TasksSound(s.sys, s.tasks)
  }

  lemma StagesAgree(o: Opening)
    requires DurableRecovery.WellFormed(o)
    ensures WorkflowOf(o).stages == StagesOf(o) && Untouched(WorkflowOf(o)) && Untouched(RebuiltOf(o))
  {
    BuildersAgreeIff(o.verdict, o.request.requiredRole, o.leaseUntilMs);
    BothAreUntouched(o.verdict, o.request.requiredRole, o.leaseUntilMs);
  }

  /**
   Opening and reviving a request here is what the stores do: opening as the tool
   opens, reviving as recovery treats the persisted row, with the channel replaced.
   */
  lemma LifetimesMatchTheStores(sys: Routing.System, o: Opening, key: string, createdAtMs: int)
    ensures Launched(sys, o).registry == AfterRegister(sys.registry, o.request, WorkflowOf(o))
    ensures Launched(sys, o).parking ==
              AfterPark(sys.parking, o.request.id, Parked(o.proposal, o.txBytes, o.lastValidBlockHeight))
    ensures
      var loaded := [Loaded(key, PersistedRow(o, createdAtMs))];
      && Relaunched(sys, o).registry == RegistryAfter(sys.registry, loaded)
      && Relaunched(sys, o).parking == AfterTakeDecisionRx(ParkingAfter(sys.parking, loaded), o.request.id)
    ensures Relaunched(sys, o) == sys.(registry := Relaunched(sys, o).registry, parking := Relaunched(sys, o).parking)
  {
    var loaded := [Loaded(key, PersistedRow(o, createdAtMs))];
    assert loaded[..0] == [];
    FaultTells(PersistedRow(o, createdAtMs));
  }

  /**
   What a restart without failing statements brings back: exactly the requests whose
   row is pending and younger than two minutes. Every other row is no longer pending.
   */
  lemma FreshRowsComeBack(env: Env, s: State, id: nat)
    requires !s.up
    ensures
      var s' := Next(env, s, Restart(false, false));
      && (id in s'.toRecover <==> id in s.durable && s.durable[id].isPending && s.clockMs - s.durable[id].createdAtMs < 120_000)
      && (id in s'.durable <==> id in s.durable)
      && (id in s.durable ==> (s'.durable[id].isPending <==> id in s'.toRecover) && s'.durable[id].opening == s.durable[id].opening)
  {
  }

  // ── The stores of a lifetime stay sound ─────────────────────────────────

  lemma ParkingStaysSound(sys: Routing.System, op: ParkOp)
    requires Routing.SystemInv(sys) && !op.SignalOp?
    ensures Routing.SystemInv(WithOp(sys, op))
  {
    Routing.SystemInvPreserved(sys, Routing.ParkStep(op));
    assert WithOp(sys, op) == Routing.Next(sys, Routing.ParkStep(op));
  }

  lemma RegisteringStaysSound(sys: Routing.System, request: Request, w: Workflow)
    requires Routing.SystemInv(sys) && request.id !in sys.registry.workflows && Untouched(w)
    ensures Routing.SystemInv(WithRequest(sys, request, w))
  {
    Routing.SystemInvPreserved(sys, Routing.RegisterStep(request, w));
    assert WithRequest(sys, request, w) == Routing.Next(sys, Routing.RegisterStep(request, w));
  }

  lemma LaunchedIsSound(sys: Routing.System, o: Opening)
    requires Routing.SystemInv(sys) && DurableRecovery.WellFormed(o) && o.request.id !in sys.registry.workflows
    ensures Routing.SystemInv(Launched(sys, o))
  {
    StagesAgree(o);
    var park := ParkOp(o.request.id, Parked(o.proposal, o.txBytes, o.lastValidBlockHeight));
    ParkingStaysSound(sys, park);
    RegisteringStaysSound(WithOp(sys, park), o.request, WorkflowOf(o));
  }

  lemma RelaunchedIsSound(sys: Routing.System, o: Opening)
    requires Routing.SystemInv(sys) && DurableRecovery.WellFormed(o) && o.request.id !in sys.registry.workflows
    ensures Routing.SystemInv(Relaunched(sys, o))
  {
    StagesAgree(o);
    RegisteringStaysSound(sys, o.request, RebuiltOf(o));
    var park := ParkOp(o.request.id, Parked(o.proposal, o.txBytes, 0));
    ParkingStaysSound(WithRequest(sys, o.request, RebuiltOf(o)), park);
    ParkingStaysSound(WithOp(WithRequest(sys, o.request, RebuiltOf(o)), park), TakeDecisionRxOp(o.request.id));
  }

  lemma DroppedIsSound(sys: Routing.System, id: nat)
    requires Routing.SystemInv(sys)
    ensures Routing.SystemInv(Dropped(sys, id))
  {
    ParkingStaysSound(sys, TakeOp(id));
  }

  lemma SystemStaysSound(env: Env, s: State, step: Step)
    requires Routing.SystemInv(s.sys) && DurableInv(s) && Enabled(env, s, step)
    ensures Routing.SystemInv(Next(env, s, step).sys)
  {
    match step
    case Launch(id) => LaunchedIsSound(s.sys, s.durable[id].opening);
    case RecoverRow(id) => RelaunchedIsSound(s.sys, s.durable[id].opening);
    case Inner(step) => Routing.SystemInvPreserved(s.sys, step);
    case Close(id) => DroppedIsSound(s.sys, id);
    case TakeParked(id) => DroppedIsSound(s.sys, id);
    case _ =>
  }

  lemma RowsStaySound(env: Env, s: State, step: Step)
    requires DurableInv(s) && Enabled(env, s, step)
    ensures DurableInv(Next(env, s, step))
  {
  }

  lemma KeysStay(env: Env, s: State, step: Step)
    requires KeysInv(s) && Enabled(env, s, step)
    ensures KeysInv(Next(env, s, step))
  {
  }

  // ── Workflows continue what their rows describe ─────────────────────────

  lemma ChainedAfterOne(durable: map<nat, DurableRow>, workflows: map<nat, Workflow>, id: nat, w: Workflow)
    requires Chained(durable, workflows) && id in durable && Continues(durable[id].opening, w)
    ensures Chained(durable, workflows[id := w])
  {
  }

  predicate SameOpenings(durable: map<nat, DurableRow>, durable': map<nat, DurableRow>) {
    forall id :: id in durable ==> id in durable' && durable'[id].opening == durable[id].opening
  }

  lemma ChainedWithSameOpenings(durable: map<nat, DurableRow>, durable': map<nat, DurableRow>,
                                workflows: map<nat, Workflow>)
    requires Chained(durable, workflows) && SameOpenings(durable, durable')
    ensures Chained(durable', workflows)
  {
  }

  lemma OpeningsStay(env: Env, s: State, step: Step)
    requires Enabled(env, s, step)
    ensures SameOpenings(s.durable, Next(env, s, step).durable)
  {
  }

  lemma FirstWorkflowsContinue(o: Opening)
    requires DurableRecovery.WellFormed(o)
    ensures Continues(o, WorkflowOf(o)) && Continues(o, RebuiltOf(o))
  {
    StagesAgree(o);
    UntouchedIsSound(WorkflowOf(o));
    UntouchedIsSound(RebuiltOf(o));
  }

  lemma VoteContinues(o: Opening, w: Workflow, v: Vote, nowMs: int)
    requires DurableRecovery.WellFormed(o) && Indexed(w) && Continues(o, w)
    ensures Continues(o, ApprovalWorkflow.Decide(w, v, nowMs).1)
  {
    StagesAgree(o);
    if SinceStart(WorkflowOf(o), w) {
      SinceStartPreserved(WorkflowOf(o), w, v, nowMs);
    } else {
      SinceStartPreserved(RebuiltOf(o), w, v, nowMs);
    }
  }

  lemma DecideStaysChained(durable: map<nat, DurableRow>, sys: Routing.System, step: Routing.Step)
    requires Routing.Enabled(sys, step) && step.DecideStep? && step.requestId in sys.registry.workflows
    requires Chained(durable, sys.registry.workflows)
    requires DurableRecovery.WellFormed(durable[step.requestId].opening)
    ensures Chained(durable, Routing.Next(sys, step).registry.workflows)
  {
    var id, w := step.requestId, sys.registry.workflows[step.requestId];
    VoteContinues(durable[id].opening, w, step.vote, step.nowMs);
    ChainedAfterOne(durable, sys.registry.workflows, id, ApprovalWorkflow.Decide(w, step.vote, step.nowMs).1);
  }

  lemma ChainStays(env: Env, s: State, step: Step)
    requires DurableInv(s) && Enabled(env, s, step) && Chained(s.durable, s.sys.registry.workflows)
    ensures Chained(Next(env, s, step).durable, Next(env, s, step).sys.registry.workflows)
  {
    match step
    case Launch(id) =>
      FirstWorkflowsContinue(s.durable[id].opening);
      ChainedAfterOne(s.durable, s.sys.registry.workflows, id, WorkflowOf(s.durable[id].opening));
    case RecoverRow(id) =>
      FirstWorkflowsContinue(s.durable[id].opening);
      ChainedAfterOne(s.durable, s.sys.registry.workflows, id, RebuiltOf(s.durable[id].opening));
    case Inner(step) =>
      if step.DecideStep? && step.requestId in s.sys.registry.workflows {
        DecideStaysChained(s.durable, s.sys, step);
      }
    case Crash =>
    case _ =>
      OpeningsStay(env, s, step);
      ChainedWithSameOpenings(s.durable, Next(env, s, step).durable, s.sys.registry.workflows);
  }

  // ── Tasks hold what their lifetime decided ──────────────────────────────

  /** Channels keep their request, and a verdict once given stays. */
  ghost predicate Carries(sys: Routing.System, sys': Routing.System) {
    && |sys.parking.channels| <= |sys'.parking.channels|
    && (forall c :: 0 <= c < |sys.parking.channels| ==>
          sys'.parking.channels[c].requestId == sys.parking.channels[c].requestId)
    && (forall id :: Verdict(sys, id, Approved) ==> Verdict(sys', id, Approved))
  }

  lemma TasksCarry(sys: Routing.System, sys': Routing.System, tasks: map<nat, Task>)
    requires Carries(sys, sys') && TasksSound(sys, tasks)
    ensures TasksSound(sys', tasks)
  {
    forall id | id in tasks ensures TaskSound(sys', id, tasks[id]) {
      assert TaskSound(sys, id, tasks[id]);
    }
  }

  lemma TasksPlusOne(sys: Routing.System, tasks: map<nat, Task>, id: nat, t: Task)
    requires TasksSound(sys, tasks) && TaskSound(sys, id, t)
    ensures TasksSound(sys, tasks[id := t])
  {
  }

  lemma LaunchCarries(sys: Routing.System, o: Opening)
    requires o.request.id !in sys.registry.workflows
    ensures Carries(sys, Launched(sys, o)) && Carries(sys, Relaunched(sys, o))
    ensures TaskSound(Launched(sys, o), o.request.id, Waiting(|sys.parking.channels|))
    ensures TaskSound(Relaunched(sys, o), o.request.id, Waiting(|sys.parking.channels| + 1))
  {
  }

  lemma InnerCarries(sys: Routing.System, step: Routing.Step)
    requires Routing.Enabled(sys, step)
    requires step.DecideStep? || step.AuditStep? || step.RouteStep?
    ensures Carries(sys, Routing.Next(sys, step))
  {
    var sys' := Routing.Next(sys, step);
    forall id | Verdict(sys, id, Approved) ensures Verdict(sys', id, Approved) {
      if step.DecideStep? && step.requestId == id {
        SettledMeansTerminal(sys.registry.workflows[id], step.vote, step.nowMs);
      }
    }
  }

  /** The stores move on and one task takes a sound place; the others are untouched. */
  lemma OneTaskMoves(sys: Routing.System, sys': Routing.System, tasks: map<nat, Task>, id: nat, t: Task)
    requires Carries(sys, sys') && TasksSound(sys, tasks) && TaskSound(sys', id, t)
    ensures TasksSound(sys', tasks[id := t])
  {
    TasksCarry(sys, sys', tasks);
    TasksPlusOne(sys', tasks, id, t);
  }

  lemma DroppingCarries(sys: Routing.System, id: nat)
    ensures Carries(sys, Dropped(sys, id))
  {
  }

  lemma WokenIsSound(s: State, id: nat)
    requires Routing.SystemInv(s.sys) && TasksSound(s.sys, s.tasks)
    requires id in s.tasks && s.tasks[id].Waiting? && HasMessage(s, s.tasks[id].receiver)
    ensures TaskSound(s.sys, id, Woken(s.sys.parking.channels[s.tasks[id].receiver].sent.value == Approved))
  {
    assert TaskSound(s.sys, id, s.tasks[id]);
    Routing.DeliveredVerdict(s.sys, s.tasks[id].receiver);
  }

  lemma TasksStay(env: Env, s: State, step: Step)
    requires Routing.SystemInv(s.sys) && DurableInv(s) && TasksSound(s.sys, s.tasks) && Enabled(env, s, step)
    ensures TasksSound(Next(env, s, step).sys, Next(env, s, step).tasks)
  {
    var s' := Next(env, s, step);
    match step
    case Launch(id) =>
      LaunchCarries(s.sys, s.durable[id].opening);
      OneTaskMoves(s.sys, s'.sys, s.tasks, id, s'.tasks[id]);
    case RecoverRow(id) =>
      LaunchCarries(s.sys, s.durable[id].opening);
      OneTaskMoves(s.sys, s'.sys, s.tasks, id, s'.tasks[id]);
    case Inner(step) =>
      InnerCarries(s.sys, step);
      TasksCarry(s.sys, s'.sys, s.tasks);
    case Wake(id) =>
      WokenIsSound(s, id);
      TasksPlusOne(s.sys, s.tasks, id, s'.tasks[id]);
    case Close(id) =>
      DroppingCarries(s.sys, id);
      OneTaskMoves(s.sys, s'.sys, s.tasks, id, Ended);
    case TakeParked(id) =>
      assert TaskSound(s.sys, id, s.tasks[id]);
      DroppingCarries(s.sys, id);
      OneTaskMoves(s.sys, s'.sys, s.tasks, id, s'.tasks[id]);
    case _ =>
  }

  lemma BaseInvPreserved(env: Env, s: State, step: Step)
    requires BaseInv(s) && Enabled(env, s, step)
    ensures BaseInv(Next(env, s, step))
  {
    SystemStaysSound(env, s, step);
    RowsStaySound(env, s, step);
    KeysStay(env, s, step);
    ChainStays(env, s, step);
    TasksStay(env, s, step);
  }

  lemma {:induction false} BaseInvAlways(env: Env, s: State, steps: seq<Step>, s': State)
    requires BaseInv(s) && Runs(env, s, steps, s')
    ensures BaseInv(s')
    decreases |steps|
  {
    if steps != [] {
      BaseInvPreserved(env, s, steps[0]);
      BaseInvAlways(env, Next(env, s, steps[0]), steps[1..], s');
    }
  }

  lemma ApprovedMeetsItsRow(o: Opening, w: Workflow)
    requires DurableRecovery.WellFormed(o) && Continues(o, w) && w.state == Approved
    ensures AllQuorumsMet(w.stages) && Missing(StagesOf(o)) > 0 && SameButForVotes(StagesOf(o), w.stages)
  {
    StagesAgree(o);
  }

  predicate SameButForVotes(stages: seq<Stage>, stages': seq<Stage>) {
    |stages| == |stages'| && forall i :: 0 <= i < |stages| ==> stages'[i].(decisions := []) == stages[i]
  }

  /** What a task hands over was approved in this lifetime, by every quorum its row asks for. */
  lemma HandedOnlyWhenApproved(env: Env, clockMs: int, s: State, id: nat)
    requires Reaches(env, Start(clockMs), s) && Enabled(env, s, Submit(id))
    ensures id in s.durable && Verdict(s.sys, id, Approved)
    ensures
      var asked, w := StagesOf(s.durable[id].opening), s.sys.registry.workflows[id];
      AllQuorumsMet(w.stages) && Missing(asked) > 0 && SameButForVotes(asked, w.stages)
  {
    ReachableIsSound(env, clockMs, s);
    assert TaskSound(s.sys, id, s.tasks[id]);
    ApprovedMeetsItsRow(s.durable[id].opening, s.sys.registry.workflows[id]);
  }

  lemma StartIsSound(clockMs: int)
    ensures BaseInv(Start(clockMs))
  {
  }

  lemma {:induction false} RunsAppend(env: Env, s: State, steps: seq<Step>, m: State, more: seq<Step>, s': State)
    requires Runs(env, s, steps, m) && Runs(env, m, more, s')
    ensures Runs(env, s, steps + more, s')
    decreases |steps|
  {
    if steps == [] {
      assert steps + more == more;
    } else {
      RunsAppend(env, Next(env, s, steps[0]), steps[1..], m, more, s');
      assert (steps + more)[1..] == steps[1..] + more;
    }
  }

  lemma ReachesThrough(env: Env, s: State, m: State, s': State)
    requires Reaches(env, s, m) && Reaches(env, m, s')
    ensures Reaches(env, s, s')
  {
    var steps :| Runs(env, s, steps, m);
    var more :| Runs(env, m, more, s');
    RunsAppend(env, s, steps, m, more, s');
  }

  lemma ReachesNext(env: Env, s: State, step: Step)
    requires Enabled(env, s, step)
    ensures Reaches(env, s, Next(env, s, step))
  {
    assert [step][1..] == [];
    assert Runs(env, s, [step], Next(env, s, step));
  }

  lemma ReachesItself(env: Env, s: State)
    ensures Reaches(env, s, s)
  {
    assert Runs(env, s, [], s);
  }

  lemma SoundAfter(env: Env, s: State, s': State)
    requires BaseInv(s) && Reaches(env, s, s')
    ensures BaseInv(s')
  {
    var steps :| Runs(env, s, steps, s');
    BaseInvAlways(env, s, steps, s');
  }

  lemma ReachableIsSound(env: Env, clockMs: int, s: State)
    requires Reaches(env, Start(clockMs), s)
    ensures BaseInv(s)
  {
    StartIsSound(clockMs);
    SoundAfter(env, Start(clockMs), s);
  }

  // ── One task, one decision ──────────────────────────────────────────────

  /** What the task of a request will read from its channel, if anything was sent. */
  function Message(s: State, id: nat): Option<WorkflowState>
    requires id in s.tasks && s.tasks[id].Waiting?
  {
    var c := s.tasks[id].receiver;
    if c < |s.sys.parking.channels| then s.sys.parking.channels[c].sent else None
  }

  /** What one undisturbed resumption does, whatever it was woken with. */
  function Resumed(s: State, id: nat, lost: bool): State
    requires id in s.tasks && s.tasks[id].Waiting? && id in s.durable
  {
    var goes := Message(s, id) == Some(Approved) && id in s.sys.parking.entries;
    s.(sys := Dropped(s.sys, id),
       durable := s.durable[id := MarkedRow(s.durable[id], lost)],
       tasks := s.tasks[id := Ended],
       handed := s.handed + if goes then multiset{id} else multiset{})
  }

  lemma MessageWakes(env: Env, s: State, id: nat)
    requires id in s.tasks && s.tasks[id].Waiting?
    ensures Reaches(env, s, s.(tasks := s.tasks[id := Woken(Message(s, id) == Some(Approved))]))
  {
    ReachesNext(env, s, if HasMessage(s, s.tasks[id].receiver) then Wake(id) else GiveUp(id));
  }

  lemma TaskIsWokenAndMarks(env: Env, s: State, id: nat, lost: bool)
    requires id in s.tasks && s.tasks[id].Waiting? && id in s.durable && (env.marksStick ==> !lost)
    ensures
      Reaches(env, s, s.(durable := s.durable[id := MarkedRow(s.durable[id], lost)],
                         tasks := s.tasks[id := Marked(Message(s, id) == Some(Approved))]))
  {
    var approved := Message(s, id) == Some(Approved);
    var woken := s.(tasks := s.tasks[id := Woken(approved)]);
    MessageWakes(env, s, id);
    ReachesNext(env, woken, Mark(id, lost));
    ReachesThrough(env, s, woken, Next(env, woken, Mark(id, lost)));
    assert woken.tasks[id := Marked(approved)] == s.tasks[id := Marked(approved)];
  }

  lemma MarkedTaskEnds(env: Env, s: State, id: nat)
    requires id in s.tasks && s.tasks[id].Marked?
    ensures
      var goes := s.tasks[id].approved && id in s.sys.parking.entries;
      Reaches(env, s, s.(sys := Dropped(s.sys, id), tasks := s.tasks[id := Ended],
                         handed := s.handed + if goes then multiset{id} else multiset{}))
  {
    var first := if s.tasks[id].approved then TakeParked(id) else Close(id);
    var s1 := Next(env, s, first);
    ReachesNext(env, s, first);
    if s.tasks[id].approved && id in s.sys.parking.entries {
      ReachesNext(env, s1, Submit(id));
      ReachesThrough(env, s, s1, Next(env, s1, Submit(id)));
      assert s1.tasks[id := Ended] == s.tasks[id := Ended];
    } else {
      assert s.handed + multiset{} == s.handed;
    }
  }

  /** An undisturbed resumption is a run of the task's steps. */
  lemma ResumptionIsARun(env: Env, s: State, id: nat, lost: bool)
    requires id in s.tasks && s.tasks[id].Waiting? && id in s.durable && (env.marksStick ==> !lost)
    ensures Reaches(env, s, Resumed(s, id, lost))
  {
    var m := s.(durable := s.durable[id := MarkedRow(s.durable[id], lost)],
                tasks := s.tasks[id := Marked(Message(s, id) == Some(Approved))]);
    TaskIsWokenAndMarks(env, s, id, lost);
    MarkedTaskEnds(env, m, id);
    assert m.tasks[id := Ended] == s.tasks[id := Ended];
    ReachesThrough(env, s, m, Resumed(s, id, lost));
  }

  /** The steps of a decision call, inside a lifetime. */
  predicate IsCall(steps: seq<Routing.Step>) {
    forall k :: 0 <= k < |steps| ==> steps[k].DecideStep? || steps[k].AuditStep? || steps[k].RouteStep?
  }

  lemma {:induction false} CallIsARun(env: Env, s: State, call: seq<Routing.Step>, sys: Routing.System)
    requires s.up && IsCall(call) && Routing.Runs(s.sys, call, sys)
    ensures Reaches(env, s, s.(sys := sys))
    decreases |call|
  {
    if call == [] {
      ReachesItself(env, s);
    } else {
      assert forall k :: 0 <= k < |call[1..]| ==> call[1..][k] == call[k + 1];
      var s1 := Next(env, s, Inner(call[0]));
      ReachesNext(env, s, Inner(call[0]));
      CallIsARun(env, s1, call[1..], sys);
      ReachesThrough(env, s, s1, s.(sys := sys));
    }
  }

  /** So is an undisturbed decision call. */
  lemma DecisionIsARun(env: Env, s: State, id: nat, v: Vote, stored: bool) returns (sys: Routing.System)
    requires BaseInv(s) && s.up
    ensures Reaches(env, s, s.(sys := sys))
    ensures
      var o := OutcomeOf(s.sys.registry, id, v, s.clockMs);
      && sys.registry == AfterDecide(s.sys.registry, id, v, s.clockMs)
      && sys.rows == s.sys.rows + Routing.RowsOf(id, v, o, ReturnedRequest(s.sys.registry, id, o), stored)
      && sys.parking == Routing.AfterRoute(s.sys.parking, id, Routing.ActionOf(o))
  {
    sys := Routing.HandlerCallIsAFlight(s.sys, id, v, s.clockMs, stored);
    FlightIsARun(env, s, id, v, stored, sys);
  }

  lemma FlightIsARun(env: Env, s: State, id: nat, v: Vote, stored: bool, sys: Routing.System)
    requires s.up
    requires
      var f := |s.sys.flights|;
      Routing.Runs(s.sys, [Routing.DecideStep(id, v, s.clockMs), Routing.AuditStep(f, stored), Routing.RouteStep(f)], sys)
    ensures Reaches(env, s, s.(sys := sys))
  {
    var f := |s.sys.flights|;
    CallIsARun(env, s, [Routing.DecideStep(id, v, s.clockMs), Routing.AuditStep(f, stored), Routing.RouteStep(f)], sys);
  }
}
