/** The in-memory approval store: undecided requests beside the workflow of every request ever registered. */
module ApprovalStore {
  import opened Wrappers
  import opened ApprovalWorkflow

  datatype Request = Request(
    id: nat,
    sessionId: string,
    transactionId: nat,
    requestedAtMs: int,
    requiredRole: Option<string>)

  datatype Registry = Registry(pending: map<nat, Request>, workflows: map<nat, Workflow>)

  datatype StoreOp =
    | RegisterOp(request: Request, workflow: Workflow)
    | DecideOp(requestId: nat, vote: Vote, nowMs: int)

  const EMPTY_REGISTRY := Registry(map[], map[])

  /** The answers after which a request is no longer undecided. */
  predicate Settles(o: Outcome) { o.WasApproved? || o.WasRejected? || o.LeaseExpired? }

  /** The state a settling answer leaves the workflow in. */
  function SettledState(o: Outcome): WorkflowState
    requires Settles(o)
  {
    match o
    case WasApproved => Approved
    case WasRejected => Rejected
    case LeaseExpired => Expired
  }

  function AfterRegister(r: Registry, request: Request, w: Workflow): Registry {
    Registry(r.pending[request.id := request], r.workflows[request.id := w])
  }

  predicate AllIndexed(r: Registry) {
    forall id :: id in r.workflows ==> Indexed(r.workflows[id])
  }

  function OutcomeOf(r: Registry, id: nat, v: Vote, nowMs: int): Outcome
    requires AllIndexed(r)
  {
    if id in r.workflows then ApprovalWorkflow.Decide(r.workflows[id], v, nowMs).0 else NotFound
  }

  function AfterDecide(r: Registry, id: nat, v: Vote, nowMs: int): Registry
    requires AllIndexed(r)
  {
    if id !in r.workflows then r else
    Registry(if Settles(OutcomeOf(r, id, v, nowMs)) then r.pending - {id} else r.pending,
             r.workflows[id := ApprovalWorkflow.Decide(r.workflows[id], v, nowMs).1])
  }

  /** The request goes back to the caller only with a human decision; an expiry never carries it. */
  function ReturnedRequest(r: Registry, id: nat, o: Outcome): Option<Request> {
    if (o.WasApproved? || o.WasRejected?) && id in r.pending then Some(r.pending[id]) else None
  }

  function Apply(r: Registry, op: StoreOp): Registry
    requires AllIndexed(r)
  {
    match op
    case RegisterOp(request, w) => AfterRegister(r, request, w)
    case DecideOp(id, v, now) => AfterDecide(r, id, v, now)
  }

  // ── Agreement between the two maps ──────────────────────────────────────

  /** A request is undecided exactly when its workflow is not terminal. */
  ghost predicate RegistryInv(r: Registry) {
    && (forall id :: id in r.workflows ==> WorkflowInv(r.workflows[id]))
    && (forall id :: id in r.pending <==> id in r.workflows && !IsTerminal(r.workflows[id].state))
    && (forall id :: id in r.pending ==> r.pending[id].id == id)
  }

  predicate WellFormed(op: StoreOp) { op.RegisterOp? ==> Untouched(op.workflow) }

  lemma SettledMeansTerminal(w: Workflow, v: Vote, nowMs: int)
    requires WorkflowInv(w)
    ensures
      var (o, w') := ApprovalWorkflow.Decide(w, v, nowMs);
      && (Settles(o) ==> w.state == Pending && w'.state == SettledState(o))
      && (!Settles(o) ==> w'.state == w.state)
  {
    OutcomeMeaning(w, v, nowMs);
  }

  /** Replacing one workflow keeps the maps in agreement when the request leaves exactly as its workflow ends. */
  lemma ReplaceKeepsInv(r: Registry, id: nat, w: Workflow, settled: bool)
    requires RegistryInv(r) && id in r.workflows && WorkflowInv(w)
    requires settled ==> IsTerminal(w.state)
    requires !settled ==> w.state == r.workflows[id].state
    ensures RegistryInv(Registry(if settled then r.pending - {id} else r.pending, r.workflows[id := w]))
  {
  }

  lemma DecideKeepsInv(r: Registry, id: nat, v: Vote, nowMs: int)
    requires RegistryInv(r)
    ensures RegistryInv(AfterDecide(r, id, v, nowMs))
  {
    if id in r.workflows {
      SettledMeansTerminal(r.workflows[id], v, nowMs);
      WorkflowInvPreserved(r.workflows[id], v, nowMs);
      var (o, w) := ApprovalWorkflow.Decide(r.workflows[id], v, nowMs);
      ReplaceKeepsInv(r, id, w, Settles(o));
    }
  }

  lemma RegistryInvPreserved(r: Registry, op: StoreOp)
    requires RegistryInv(r) && WellFormed(op)
    ensures RegistryInv(Apply(r, op))
  {
    match op
    case RegisterOp(_, w) => UntouchedIsSound(w);
    case DecideOp(id, v, now) => DecideKeepsInv(r, id, v, now);
  }

  ghost predicate AllWellFormed(ops: seq<StoreOp>) { forall k :: 0 <= k < |ops| ==> WellFormed(ops[k]) }

  ghost function ApplyAll(r: Registry, ops: seq<StoreOp>): (r': Registry)
    requires RegistryInv(r) && AllWellFormed(ops)
    ensures RegistryInv(r')
    decreases |ops|
  {
    if ops == [] then r else
    RegistryInvPreserved(r, ops[0]);
    ApplyAll(Apply(r, ops[0]), ops[1..])
  }

  /**
   Between any two operations of any run, the undecided requests are exactly the
   ones whose workflow is live; a settled request stays as it was settled.
   */
  lemma {:induction false} SettledForGood(r: Registry, ops: seq<StoreOp>, id: nat)
    requires RegistryInv(r) && AllWellFormed(ops)
    requires id in r.workflows && IsTerminal(r.workflows[id].state)
    requires forall k :: 0 <= k < |ops| && ops[k].RegisterOp? ==> ops[k].request.id != id
    ensures
      var r' := ApplyAll(r, ops);
      id in r'.workflows && r'.workflows[id] == r.workflows[id] && id !in r'.pending
    decreases |ops|
  {
    if ops != [] {
      var r' := Apply(r, ops[0]);
      RegistryInvPreserved(r, ops[0]);
      assert r'.workflows[id] == r.workflows[id];
      assert forall k :: 0 <= k < |ops[1..]| ==> ops[1..][k] == ops[k + 1];
      SettledForGood(r', ops[1..], id);
    }
  }

  /**
   One decision in any reachable store. Only the named request can change. A
   human verdict hands back the request that was pending; nothing else does.
   A progress answer leaves the request pending with one approval fewer missing.
   */
  lemma DecisionEffects(r: Registry, id: nat, v: Vote, nowMs: int)
    requires RegistryInv(r)
    ensures
      var o, r' := OutcomeOf(r, id, v, nowMs), AfterDecide(r, id, v, nowMs);
      && r'.workflows.Keys == r.workflows.Keys
      && (forall other :: other in r.workflows && other != id ==> r'.workflows[other] == r.workflows[other])
      && r.pending.Keys - r'.pending.Keys == (if Settles(o) then {id} else {})
      && (forall other :: other in r'.pending ==> other in r.pending && r'.pending[other] == r.pending[other])
      && (ReturnedRequest(r, id, o).Some? <==> o.WasApproved? || o.WasRejected?)
      && (ReturnedRequest(r, id, o).Some? ==> id in r.pending && ReturnedRequest(r, id, o).value == r.pending[id])
      && (o.NotFound? <==> id !in r.workflows)
      && (o.QuorumProgress? || o.StageAdvanced? ==>
            Missing(r'.workflows[id].stages) + 1 == Missing(r.workflows[id].stages))
      && (!Settles(o) && !o.QuorumProgress? && !o.StageAdvanced? ==> r' == r)
  {
    if id in r.workflows {
      OutcomeMeaning(r.workflows[id], v, nowMs);
      SettledMeansTerminal(r.workflows[id], v, nowMs);
    }
  }

  // ── The store ───────────────────────────────────────────────────────────

  /** Oldest first, and no request twice. */
  predicate Listing(requests: seq<Request>) {
    forall i, j :: 0 <= i < j < |requests| ==>
      requests[i].requestedAtMs <= requests[j].requestedAtMs && requests[i].id != requests[j].id
  }

  function InsertByTime(requests: seq<Request>, r: Request): (s: seq<Request>)
    requires Listing(requests) && forall q :: q in requests ==> q.id != r.id
    ensures Listing(s)
    ensures forall q :: q in s <==> q in requests || q == r
  {
    if requests == [] || requests[|requests| - 1].requestedAtMs <= r.requestedAtMs then requests + [r]
    else
      var init, last := requests[..|requests| - 1], requests[|requests| - 1];
      assert requests == init + [last];
      var s := InsertByTime(init, r);
      assert forall i :: 0 <= i < |s| ==> s[i] in s;
      s + [last]
  }

  class ApprovalStore {
    var pending: map<nat, Request>
    var workflows: map<nat, Workflow>

    function Model(): Registry reads this { Registry(pending, workflows) }

    ghost predicate Valid() reads this { RegistryInv(Model()) }

    constructor ()
      ensures Valid() && Model() == EMPTY_REGISTRY
    {
      pending, workflows := map[], map[];
    }

    method Register(request: Request, workflow: Workflow) returns (id: nat)
      requires Valid() && Untouched(workflow)
      modifies this
      ensures Valid() && Model() == AfterRegister(old(Model()), request, workflow) && id == request.id
    {
      RegistryInvPreserved(Model(), RegisterOp(request, workflow));
      id := request.id;
      pending := pending[id := request];
      workflows := workflows[id := workflow];
    }

    /** One operator decision. */
    method Decide(requestId: nat, v: Vote, nowMs: int) returns (outcome: Outcome, request: Option<Request>)
      requires Valid()
      modifies this
      ensures Valid()
      ensures outcome == OutcomeOf(old(Model()), requestId, v, nowMs)
      ensures request == ReturnedRequest(old(Model()), requestId, outcome)
      ensures Model() == AfterDecide(old(Model()), requestId, v, nowMs)
    {
      DecideKeepsInv(Model(), requestId, v, nowMs);
      request := None;
      if requestId !in workflows {
        return NotFound, None;
      }
      var workflow;
      outcome, workflow := CastVote(workflows[requestId], v, nowMs);
      workflows := workflows[requestId := workflow];
      if outcome.LeaseExpired? {
        pending := pending - {requestId};
      } else if outcome.WasApproved? || outcome.WasRejected? {
        request := if requestId in pending then Some(pending[requestId]) else None;
        pending := pending - {requestId};
      }
    }

    /** The undecided requests of one session, oldest first: each exactly once. */
    method PendingForSession(sessionId: string) returns (results: seq<Request>)
      requires Valid()
      ensures Listing(results)
      ensures forall q :: q in results <==> q.id in pending && pending[q.id] == q && q.sessionId == sessionId
      ensures forall q :: q in results ==> q.id in workflows && !IsTerminal(workflows[q.id].state)
    {
      results := [];
      var rest := pending.Keys;
      while rest != {}
        invariant rest <= pending.Keys && Listing(results)
        invariant forall q :: q in results <==>
                    q.id in pending && q.id !in rest && pending[q.id] == q && q.sessionId == sessionId
        decreases |rest|
      {
        var id :| id in rest;
        rest := rest - {id};
        if pending[id].sessionId == sessionId {
          results := InsertByTime(results, pending[id]);
        }
      }
    }

    function SessionForRequest(requestId: nat): (sessionId: Option<string>)
      requires Valid()
      reads this
      ensures sessionId.Some? <==> requestId in workflows && !IsTerminal(workflows[requestId].state)
    {
      if requestId in pending then Some(pending[requestId].sessionId) else None
    }
  }
}
