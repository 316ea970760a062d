/** How often an approved transaction is handed over to the signing plane, over all lifetimes of the daemon. */
module ApprovalHandover {
  import opened Wrappers
  import opened ApprovalWorkflow
  import opened ApprovalStore
  import opened PendingSigning
  import opened DurableRecovery
  import opened ApprovalCustody
  import Routing = ApprovalRouting

  // ── Handed over at most once ────────────────────────────────────────────

  /** Nothing in this lifetime or a later one starts this request any more. */
  predicate Spent(s: State, id: nat) {
    id in s.durable && !s.durable[id].isPending && id !in s.openers && id !in s.toRecover
  }

  /** A request has a task, or is still to be started in one of two ways. */
  predicate Apart(s: State, id: nat) {
    && (id in s.tasks || id in s.toRecover ==> id !in s.openers)
    && (id in s.tasks ==> id !in s.toRecover)
  }

  predicate Custody(s: State, id: nat) {
    && s.handed[id] <= 1
    && (s.handed[id] == 1 ==> Spent(s, id) && (id in s.tasks ==> s.tasks[id].Ended?))
    && (id in s.tasks && (s.tasks[id].Marked? || s.tasks[id].Holding?) ==> Spent(s, id) && s.handed[id] == 0)
  }

  lemma ApartPreserved(env: Env, s: State, step: Step, id: nat)
    requires KeysInv(s) && DurableInv(s) && Apart(s, id) && Enabled(env, s, step)
    ensures Apart(Next(env, s, step), id)
  {
  }

  lemma SpentStays(env: Env, s: State, step: Step, id: nat)
    requires DurableInv(s) && Spent(s, id) && Enabled(env, s, step)
    ensures Spent(Next(env, s, step), id)
  {
  }

  lemma MarkSpends(env: Env, s: State, id: nat)
    requires Apart(s, id) && KeysInv(s) && Enabled(env, s, Mark(id, false))
    ensures Spent(Next(env, s, Mark(id, false)), id)
  {
  }

  lemma CustodyPreserved(env: Env, s: State, step: Step, id: nat)
    requires env.marksStick && KeysInv(s) && DurableInv(s) && Apart(s, id) && Custody(s, id) && Enabled(env, s, step)
    ensures Custody(Next(env, s, step), id)
  {
    if Spent(s, id) {
      SpentStays(env, s, step, id);
    }
    if step == Mark(id, false) {
      MarkSpends(env, s, id);
    }
  }

  lemma {:induction false} CustodyAlways(env: Env, s: State, steps: seq<Step>, s': State, id: nat)
    requires env.marksStick && KeysInv(s) && DurableInv(s) && Apart(s, id) && Custody(s, id) && Runs(env, s, steps, s')
    ensures Custody(s', id)
    decreases |steps|
  {
    if steps != [] {
      CustodyPreserved(env, s, steps[0], id);
      ApartPreserved(env, s, steps[0], id);
      RowsStaySound(env, s, steps[0]);
      KeysStay(env, s, steps[0]);
      CustodyAlways(env, Next(env, s, steps[0]), steps[1..], s', id);
    }
  }

  ghost predicate HandsOverOnce(env: Env) {
    forall clockMs, s, id :: Reaches(env, Start(clockMs), s) ==> s.handed[id] <= 1
  }

  /** The system of a lifetime with a live request that one approval settles, its task listening on channel `c`. */
  predicate Ready(sys: Routing.System, id: nat, c: nat) {
    && id in sys.registry.workflows && sys.registry.workflows[id] == SingleStage(None)
    && id in sys.parking.entries && sys.parking.entries[id].decisionTx == Some(c)
    && c < |sys.parking.channels|
  }

  const APPROVAL := Vote(true, None, None)

  lemma OneApprovalSettles(nowMs: int)
    ensures Indexed(SingleStage(None)) && ApprovalWorkflow.Decide(SingleStage(None), APPROVAL, nowMs).0 == WasApproved
    ensures Missing(SingleStage(None).stages) == 1
  {
    var w := SingleStage(None);
    OneIsMissing(w.stages);
    UntouchedIsSound(w);
    VoteIsCountedIff(w, APPROVAL, nowMs, 0);
    ApprovalReducesMissing(w, APPROVAL, 0);
  }

  lemma OneIsMissing(stages: seq<Stage>)
    requires |stages| == 1 && stages[0].decisions == [] && stages[0].minApprovals == 1
    ensures Missing(stages) == 1 && CurrentStage(stages) == Some(0)
  {
    assert Missing(stages[1..]) == 0;
  }

  lemma SignalArrives(sys: Routing.System, id: nat, c: nat, state: WorkflowState)
    requires Ready(sys, id, c)
    ensures
      var p := Routing.AfterRoute(sys.parking, id, Routing.Signaled(state));
      id in p.entries && c < |p.channels| && p.channels[c].sent == Some(state)
  {
  }

  lemma VerdictIsLogged(r: Registry, id: nat, v: Vote, o: Outcome, stored: bool)
    requires RegistryInv(r) && id in r.pending && (o.WasApproved? || o.WasRejected?)
    ensures
      var rows := Routing.RowsOf(id, v, o, ReturnedRequest(r, id, o), stored);
      if stored then |rows| == 1 && IsRow(rows[0], id, if v.approved then Routing.HumanApproved else Routing.HumanRejected)
      else rows == []
  {
  }

  /** The approval is signalled; its audit append may be lost. */
  lemma ApprovalArrives(env: Env, s: State, id: nat, c: nat, stored: bool) returns (sys: Routing.System)
    requires BaseInv(s) && s.up && Ready(s.sys, id, c)
    ensures Reaches(env, s, s.(sys := sys))
    ensures id in sys.parking.entries && c < |sys.parking.channels| && sys.parking.channels[c].sent == Some(Approved)
    ensures !stored ==> sys.rows == s.sys.rows
    ensures stored ==> |sys.rows| == |s.sys.rows| + 1 && IsRow(sys.rows[|s.sys.rows|], id, Routing.HumanApproved)
  {
    OneApprovalSettles(s.clockMs);
    sys := DecisionIsARun(env, s, id, APPROVAL, stored);
    VerdictIsLogged(s.sys.registry, id, APPROVAL, WasApproved, stored);
    SignalArrives(s.sys, id, c, Approved);
  }

  predicate IsRow(row: Routing.AuditRow, id: nat, kind: Routing.EventType) {
    row.requestId == id && row.eventType == kind
  }

  /** A resumption that was approved but whose mark was lost changes no row. */
  lemma LostMarkLeavesTheRow(s: State, id: nat)
    requires id in s.tasks && s.tasks[id].Waiting? && id in s.durable
    requires Message(s, id) == Some(Approved) && id in s.sys.parking.entries
    ensures
      var s' := Resumed(s, id, true);
      && s'.durable == s.durable && s'.handed == s.handed + multiset{id}
      && s'.up == s.up && s'.past == s.past && s'.sys.rows == s.sys.rows
  {
  }

  /** Then a lost mark and the hand-over leave the row pending. */
  lemma HandOver(env: Env, s: State, id: nat, c: nat) returns (s': State)
    requires BaseInv(s) && s.up && id in s.durable && InPhase(s, id, Waiting(c)) && Ready(s.sys, id, c)
    requires !env.marksStick
    ensures Reaches(env, s, s') && s'.up && s'.durable == s.durable && s'.past == s.past && s'.sys.rows == s.sys.rows
    ensures s'.handed == s.handed + multiset{id}
  {
    var sys := ApprovalArrives(env, s, id, c, false);
    var m := s.(sys := sys);
    ResumptionIsARun(env, m, id, true);
    s' := Resumed(m, id, true);
    ReachesThrough(env, s, m, s');
    LostMarkLeavesTheRow(m, id);
  }

  const REQUEST := Request(0, "session", 0, 0, None)
  const OPENING := Opening(REQUEST, "", OtherVerdict, "", [], 0, None)

  /** A request that needs one approval, just opened. */
  lemma OpenOne(env: Env) returns (s: State)
    ensures Reaches(env, Start(0), s) && BaseInv(s) && s.up
    ensures Ready(s.sys, 0, 0) && InPhase(s, 0, Waiting(0)) && s.sys.rows == []
    ensures s.durable == map[0 := DurableRow(OPENING, 0, true)] && s.past == [] && s.handed == multiset{}
  {
    var s1 := Next(env, Start(0), Persist(OPENING));
    s := Next(env, s1, Launch(0));
    ReachesNext(env, Start(0), Persist(OPENING));
    ReachesNext(env, s1, Launch(0));
    ReachesThrough(env, Start(0), s1, s);
    ReachableIsSound(env, 0, s);
  }

  /** A row that is pending when the daemon is down comes back with a task that listens for its verdict. */
  lemma RowComesBack(env: Env, s: State, id: nat) returns (s': State)
    requires BaseInv(s) && !s.up && id in s.durable && s.durable[id].isPending
    ensures Reaches(env, s, s')
    ensures s'.up && s'.durable == s.durable && s'.past == s.past && s'.handed == s.handed
    ensures s'.sys == Relaunched(Routing.START, s.durable[id].opening) && InPhase(s', id, Waiting(1))
  {
    var s1 := Next(env, s, Restart(true, false));
    assert s1.durable == s.durable;
    s' := Next(env, s1, RecoverRow(id));
    ReachesNext(env, s, Restart(true, false));
    ReachesNext(env, s1, RecoverRow(id));
    ReachesThrough(env, s, s1, s');
  }

  lemma RelaunchedIsArmed(o: Opening)
    ensures
      var sys := Relaunched(Routing.START, o);
      && sys.registry.workflows == map[o.request.id := RebuiltOf(o)] && sys.rows == []
      && o.request.id in sys.parking.entries && sys.parking.entries[o.request.id].decisionTx == Some(1)
      && |sys.parking.channels| == 2
  {
  }

  /** A crash, and the request that needs one approval is back. */
  lemma OneComesBack(env: Env, s: State) returns (s': State)
    requires BaseInv(s) && s.up && s.durable == map[0 := DurableRow(OPENING, 0, true)] && Enabled(env, s, Crash)
    ensures Reaches(env, s, s') && BaseInv(s') && s'.up && s'.handed == s.handed
    ensures Ready(s'.sys, 0, 1) && InPhase(s', 0, Waiting(1)) && s'.durable == s.durable
  {
    var down := AfterCrash(s);
    ReachesNext(env, s, Crash);
    SoundAfter(env, s, down);
    s' := RowComesBack(env, down, 0);
    ReachesThrough(env, s, down, s');
    SoundAfter(env, s, s');
    RelaunchedIsArmed(OPENING);
  }

  lemma SilentLogIsSafe(s: State)
    requires s.past == [] && s.sys.rows == []
    ensures forall id :: !Exposed(s, id)
  {
  }

  /** Two lost marks around a crash: the transaction is handed over in both lifetimes. */
  lemma HandedOverTwice(env: Env) returns (s: State)
    requires !env.marksStick
    ensures Reaches(env, Start(0), s) && s.handed[0] == 2
  {
    var s1 := OpenOne(env);
    var s2 := HandOver(env, s1, 0, 0);
    ReachesThrough(env, Start(0), s1, s2);
    ReachableIsSound(env, 0, s2);
    SilentLogIsSafe(s2);
    var s3 := OneComesBack(env, s2);
    ReachesThrough(env, Start(0), s2, s3);
    s := HandOver(env, s3, 0, 1);
    ReachesThrough(env, Start(0), s3, s);
  }

  /** An approved transaction is handed over at most once in every run exactly when the terminal mark is never lost. */
  lemma HandedOverOnceIff(env: Env)
    ensures HandsOverOnce(env) <==> env.marksStick
  {
    if env.marksStick {
      forall clockMs, s, id | Reaches(env, Start(clockMs), s) ensures s.handed[id] <= 1 {
        var steps :| Runs(env, Start(clockMs), steps, s);
        CustodyAlways(env, Start(clockMs), steps, s, id);
      }
    } else {
      var s := HandedOverTwice(env);
      assert s.handed[0] == 2;
    }
  }

  // ── The task ────────────────────────────────────────────────────────────

  /** How the wait for a verdict ends. */
  datatype Wait = Decided(state: WorkflowState) | ChannelDropped | LeaseTimeout

  /** The state the row is marked with: every refusal keeps the name it came under. */
  function MarkOf(wait: Wait): RowState {
    match wait
    case Decided(Approved) => Consumed
    case Decided(Rejected) => RowRejected
    case _ => TtlExpired
  }

  /**
   The durable mark comes first, then the parked entry goes, and only an approval
   hands it over; the daemon may die after any of the three.
   */
  method ResumeAfterApproval(wait: Wait, id: nat, key: string, durable: DurablePendingState, markLost: bool,
                             signing: PendingSigningStore, diesAfter: nat)
    returns (handed: Option<Parked>)
    requires signing.Valid()
    modifies durable, signing
    ensures signing.Valid()
    ensures diesAfter >= 1 && !markLost && key in old(durable.rows) && old(durable.rows)[key].state == Live ==>
      && key in durable.rows
      && (durable.rows[key].state == Consumed <==> wait == Decided(Approved))
      && (durable.rows[key].state == RowRejected <==> wait == Decided(Rejected))
      && durable.rows[key].state != Live
    ensures durable.rows ==
      if diesAfter >= 1 then DurableRecovery.Marked(old(durable.rows), key, MarkOf(wait), markLost) else old(durable.rows)
    ensures signing.Model() ==
      if diesAfter >= 2 then PendingSigning.Apply(old(signing.Model()), TakeOp(id)) else old(signing.Model())
    ensures handed ==
      if wait == Decided(Approved) && diesAfter >= 3 && id in old(signing.entries)
      then Some(old(signing.entries)[id].parked) else None
  {
    handed := None;
    if diesAfter < 1 { return; }
    if wait != Decided(Approved) {
      durable.MarkApprovalTerminal(key, MarkOf(wait), markLost);
      if diesAfter < 2 { return; }
      var _ := signing.Take(id);
      return;
    }
    durable.MarkApprovalTerminal(key, Consumed, markLost);
    if diesAfter < 2 { return; }
    var parked := signing.Take(id);
    if diesAfter < 3 { return; }
    handed := parked;
  }
}
