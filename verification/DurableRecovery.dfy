/**
 Startup recovery of pending approvals: durable rows become live requests and
 parked transactions again, or are counted corrupt and rejected.
 */
module DurableRecovery {
  import opened Wrappers
  import opened ApprovalWorkflow
  import opened ApprovalStore
  import opened PendingSigning

  datatype ChainStage = ChainStage(role: string, minApprovals: nat)

  datatype Verdict =
    | RequiresHumanApproval(requiredRole: Option<string>, approvalChain: Option<seq<ChainStage>>)
    | OtherVerdict

  datatype RowState = Live | Consumed | TtlExpired | RowRejected

  /** A durable row; an absent field is text or bytes that do not decode. */
  datatype ApprovalRow = ApprovalRow(
    approval: Option<Request>,
    simulation: Option<string>,
    verdict: Option<Verdict>,
    txBytes: Option<seq<bv8>>,
    requestId: Option<nat>,
    txDecodes: bool,
    proposal: string,
    createdAtMs: int,
    state: RowState)

  datatype RowFault = BadApproval | BadSimulation | BadVerdict | BadHex | BadRequestId | BadTransaction

  datatype RecoveryReport = RecoveryReport(expired: nat, recovered: nat, corrupt: nat)

  datatype Loaded = Loaded(key: string, row: ApprovalRow)

  // ── The workflow of a request, before and after a crash ─────────────────

  /** `ApprovalWorkflow::single_stage` */
  function SingleStage(requiredRole: Option<string>): Workflow {
    Workflow(Pending, [Stage(0, if requiredRole.Some? then [requiredRole.value] else [], 1, [])], None)
  }

  /** `with_lease_seconds`, with the instant the lease ends; none for zero seconds. */
  function WithLease(w: Workflow, leaseUntilMs: Option<int>): Workflow {
    if leaseUntilMs.Some? then w.(expiresAtMs := leaseUntilMs) else w
  }

  /** What the signing tool takes out of the verdict: a role and a chain, or neither. */
  function RoleOf(verdict: Verdict): Option<string> {
    match verdict
    case RequiresHumanApproval(role, _) => role
    case OtherVerdict => None
  }

  function ChainOf(verdict: Verdict): Option<seq<ChainStage>> {
    match verdict
    case RequiresHumanApproval(_, chain) => chain
    case OtherVerdict => None
  }

  function ToolStages(chain: seq<ChainStage>): seq<Stage> {
    seq(|chain|, i requires 0 <= i < |chain| => Stage(i, [chain[i].role], chain[i].minApprovals, []))
  }

  /** The workflow the signing tool builds. */
  function OpenedWorkflow(verdict: Verdict, leaseUntilMs: Option<int>): Workflow {
    match ChainOf(verdict)
    case Some(chain) => WithLease(Workflow(Pending, ToolStages(chain), None), leaseUntilMs)
    case None => WithLease(SingleStage(RoleOf(verdict)), leaseUntilMs)
  }

  /** Recovery numbers the stages as it goes through the persisted chain. */
  function RebuiltStages(chain: seq<ChainStage>): seq<Stage> {
    if chain == [] then []
    else
      var n := |chain| - 1;
      RebuiltStages(chain[..n]) + [Stage(n, [chain[n].role], chain[n].minApprovals, [])]
  }

  /** The workflow recovery builds, from the persisted verdict and the role on the persisted request. */
  function RebuiltWorkflow(verdict: Verdict, requestRole: Option<string>): Workflow {
    match verdict
    case RequiresHumanApproval(_, Some(chain)) => Workflow(Pending, RebuiltStages(chain), None)
    case _ => SingleStage(requestRole)
  }

  lemma {:induction false} SameStages(chain: seq<ChainStage>)
    ensures RebuiltStages(chain) == ToolStages(chain)
  {
    if chain != [] {
      var n := |chain| - 1;
      SameStages(chain[..n]);
      assert ToolStages(chain) == ToolStages(chain[..n]) + [Stage(n, [chain[n].role], chain[n].minApprovals, [])];
    }
  }

  /**
   Recovery builds the workflow the tool had opened, without its lease, exactly
   when a chain decides or the request carries the verdict's role.
   */
  lemma BuildersAgreeIff(verdict: Verdict, requestRole: Option<string>, leaseUntilMs: Option<int>)
    ensures RebuiltWorkflow(verdict, requestRole) == OpenedWorkflow(verdict, leaseUntilMs).(expiresAtMs := None) <==>
              ChainOf(verdict).Some? || requestRole == RoleOf(verdict)
  {
    if ChainOf(verdict).Some? {
      SameStages(ChainOf(verdict).value);
    } else {
      var before, after := OpenedWorkflow(verdict, leaseUntilMs), RebuiltWorkflow(verdict, requestRole);
      assert before.stages[0].allowedRoles == after.stages[0].allowedRoles <==> requestRole == RoleOf(verdict);
    }
  }

  lemma BothAreUntouched(verdict: Verdict, requestRole: Option<string>, leaseUntilMs: Option<int>)
    ensures Untouched(OpenedWorkflow(verdict, leaseUntilMs)) && Untouched(RebuiltWorkflow(verdict, requestRole))
    ensures OpenedWorkflow(verdict, leaseUntilMs).expiresAtMs == leaseUntilMs
    ensures RebuiltWorkflow(verdict, requestRole).expiresAtMs == None
  {
    if ChainOf(verdict).Some? {
      SameStages(ChainOf(verdict).value);
    }
  }

  /**
   Both ask for what the verdict asks for: each stage of a chain for its role and its
   number of approvals; without a chain one approval, by the role if there is one.
   */
  lemma BothAskForTheVerdict(verdict: Verdict, requestRole: Option<string>, leaseUntilMs: Option<int>)
    ensures
      var before, after := OpenedWorkflow(verdict, leaseUntilMs).stages, RebuiltWorkflow(verdict, requestRole).stages;
      match verdict
      case RequiresHumanApproval(_, Some(chain)) =>
        |before| == |after| == |chain| && forall i :: 0 <= i < |chain| ==>
          before[i].allowedRoles == after[i].allowedRoles == [chain[i].role]
          && before[i].minApprovals == after[i].minApprovals == chain[i].minApprovals
      case RequiresHumanApproval(role, None) =>
        && |before| == |after| == 1 && before[0].minApprovals == after[0].minApprovals == 1
        && (forall r :: r in before[0].allowedRoles <==> role == Some(r))
        && (forall r :: r in after[0].allowedRoles <==> requestRole == Some(r))
      case OtherVerdict =>
        && |before| == |after| == 1 && before[0].minApprovals == after[0].minApprovals == 1
        && before[0].allowedRoles == [] && (forall r :: r in after[0].allowedRoles <==> requestRole == Some(r))
  {
    if ChainOf(verdict).Some? {
      SameStages(ChainOf(verdict).value);
    }
  }

  /**
   A crash never lowers the number of approvals still needed: the rebuilt
   workflow keeps the chain with its roles and quorums, holds no vote, and so
   misses at least as many approvals as the old one did after any votes.
   */
  lemma CrashNeverLowersTheBar(verdict: Verdict, leaseUntilMs: Option<int>, ds: seq<(Vote, int)>)
    ensures Untouched(OpenedWorkflow(verdict, leaseUntilMs))
    ensures
      var before := DecideAll(OpenedWorkflow(verdict, leaseUntilMs), ds);
      var after := RebuiltWorkflow(verdict, RoleOf(verdict));
      && Untouched(after)
      && |after.stages| == |before.stages|
      && (forall i :: 0 <= i < |after.stages| ==> after.stages[i] == before.stages[i].(decisions := []))
      && Missing(after.stages) >= Missing(before.stages)
  {
    var w := OpenedWorkflow(verdict, leaseUntilMs);
    BothAreUntouched(verdict, RoleOf(verdict), leaseUntilMs);
    BuildersAgreeIff(verdict, RoleOf(verdict), leaseUntilMs);
    UntouchedIsSound(w);
    SinceStartAlways(w, w, ds);
    MissingNeverGrows(w, ds);
  }

  ghost predicate JudgeAlike(w: Workflow, w': Workflow)
    requires Indexed(w) && Indexed(w')
  {
    forall ds :: DecideAll(w, ds).state == DecideAll(w', ds).state
  }

  lemma LateDecision(w: Workflow, w': Workflow, leaseUntilMs: int)
    requires Indexed(w) && Indexed(w') && w.state == Pending && w'.state == Pending
    requires w.expiresAtMs == Some(leaseUntilMs) && w'.expiresAtMs == None
    ensures !JudgeAlike(w, w')
  {
    var vote := Vote(true, None, None);
    var late: seq<(Vote, int)> := [(vote, leaseUntilMs + 1)];
    assert late[1..] == [];
    DecideKeepsShape(w, vote, leaseUntilMs + 1);
    DecideKeepsShape(w', vote, leaseUntilMs + 1);
    assert DecideAll(w, late) == ApprovalWorkflow.Decide(w, vote, leaseUntilMs + 1).1;
    assert DecideAll(w', late) == ApprovalWorkflow.Decide(w', vote, leaseUntilMs + 1).1;
    assert DecideAll(w, late).state != DecideAll(w', late).state;
  }

  /** The rebuilt workflow has no lease, so it judges every sequence of decisions as before exactly when there was none. */
  lemma CrashLiftsTheLease(verdict: Verdict, leaseUntilMs: Option<int>)
    ensures Untouched(OpenedWorkflow(verdict, leaseUntilMs)) && Untouched(RebuiltWorkflow(verdict, RoleOf(verdict)))
    ensures leaseUntilMs == None <==>
              JudgeAlike(OpenedWorkflow(verdict, leaseUntilMs), RebuiltWorkflow(verdict, RoleOf(verdict)))
  {
    BothAreUntouched(verdict, RoleOf(verdict), leaseUntilMs);
    BuildersAgreeIff(verdict, RoleOf(verdict), leaseUntilMs);
    if leaseUntilMs.Some? {
      LateDecision(OpenedWorkflow(verdict, leaseUntilMs), RebuiltWorkflow(verdict, RoleOf(verdict)), leaseUntilMs.value);
    }
  }

  // ── One row ─────────────────────────────────────────────────────────────

  /** The first thing that stops a row from being recovered. */
  function FaultOf(row: ApprovalRow): Option<RowFault> {
    if row.approval.None? then Some(BadApproval)
    else if row.simulation.None? then Some(BadSimulation)
    else if row.verdict.None? then Some(BadVerdict)
    else if row.txBytes.None? then Some(BadHex)
    else if row.requestId.None? then Some(BadRequestId)
    else if !row.txDecodes then Some(BadTransaction)
    else None
  }

  /** A request is registered before its transaction is decoded. */
  predicate Registers(row: ApprovalRow) { FaultOf(row) in {None, Some(BadTransaction)} }

  function RegistryAfter(r: Registry, loaded: seq<Loaded>): Registry {
    if loaded == [] then r else
    var before, row := RegistryAfter(r, loaded[..|loaded| - 1]), loaded[|loaded| - 1].row;
    if Registers(row)
    then AfterRegister(before, row.approval.value,
                       RebuiltWorkflow(row.verdict.value, row.approval.value.requiredRole))
    else before
  }

  function ParkingAfter(p: Parking, loaded: seq<Loaded>): Parking {
    if loaded == [] then p else
    var before, row := ParkingAfter(p, loaded[..|loaded| - 1]), loaded[|loaded| - 1].row;
    if FaultOf(row).None?
    then AfterPark(before, row.requestId.value, Parked(row.proposal, row.txBytes.value, 0))
    else before
  }

  function CorruptCount(loaded: seq<Loaded>): nat {
    if loaded == [] then 0
    else CorruptCount(loaded[..|loaded| - 1]) + if FaultOf(loaded[|loaded| - 1].row).Some? then 1 else 0
  }

  /** The rows after recovery: stale ones expired, corrupt ones rejected unless that write was lost. */
  function ExpiredRows(rows: map<string, ApprovalRow>, cutoffMs: int): map<string, ApprovalRow> {
    map k | k in rows ::
      if rows[k].state == Live && rows[k].createdAtMs <= cutoffMs then rows[k].(state := TtlExpired) else rows[k]
  }

  function Marked(rows: map<string, ApprovalRow>, key: string, state: RowState, lost: bool): map<string, ApprovalRow> {
    if !lost && key in rows && rows[key].state == Live then rows[key := rows[key].(state := state)] else rows
  }

  /** The first mark that is written decides the row; it is never overwritten, and no other row changes. */
  lemma FirstMarkStays(rows: map<string, ApprovalRow>, key: string, state: RowState, other: RowState, lost: bool)
    requires key in rows && rows[key].state == Live && state != Live
    ensures
      var after := Marked(rows, key, state, false);
      && after.Keys == rows.Keys && after[key] == rows[key].(state := state)
      && (forall k :: k in rows && k != key ==> after[k] == rows[k])
      && Marked(after, key, other, lost) == after
    ensures Marked(rows, key, state, true) == rows
  {
  }

  function RowsAfter(rows: map<string, ApprovalRow>, loaded: seq<Loaded>, lost: set<string>): map<string, ApprovalRow> {
    if loaded == [] then rows else
    var before, last := RowsAfter(rows, loaded[..|loaded| - 1], lost), loaded[|loaded| - 1];
    if FaultOf(last.row).Some? then Marked(before, last.key, RowRejected, last.key in lost) else before
  }

  predicate IsCorrupt(loaded: seq<Loaded>, key: string) {
    exists i :: 0 <= i < |loaded| && loaded[i].key == key && !DecodesFully(loaded[i].row)
  }

  /** Every field of the row reads, and its bytes are a transaction. */
  predicate DecodesFully(row: ApprovalRow) {
    && row.approval.Some? && row.simulation.Some? && row.verdict.Some? && row.txBytes.Some? && row.requestId.Some?
    && row.txDecodes
  }

  /** Every field reads, and only the bytes are no transaction. */
  predicate DecodesToTransaction(row: ApprovalRow) {
    && row.approval.Some? && row.simulation.Some? && row.verdict.Some? && row.txBytes.Some? && row.requestId.Some?
    && !row.txDecodes
  }

  /** A row is recovered exactly when all of it decodes; its fault names the part that does not. */
  lemma FaultTells(row: ApprovalRow)
    ensures FaultOf(row) == None <==> DecodesFully(row)
    ensures Registers(row) <==> DecodesFully(row) || DecodesToTransaction(row)
    ensures
      match FaultOf(row)
      case Some(BadApproval) => row.approval.None?
      case Some(BadSimulation) => row.simulation.None?
      case Some(BadVerdict) => row.verdict.None?
      case Some(BadHex) => row.txBytes.None?
      case Some(BadRequestId) => row.requestId.None?
      case Some(BadTransaction) => DecodesToTransaction(row)
      case None => true
  {
  }

  // ── Which requests come back ────────────────────────────────────────────

  predicate RegisteredBy(loaded: seq<Loaded>, id: nat) {
    exists i :: 0 <= i < |loaded| && (DecodesFully(loaded[i].row) || DecodesToTransaction(loaded[i].row))
                && loaded[i].row.approval.value.id == id
  }

  predicate ParkedBy(loaded: seq<Loaded>, id: nat) {
    exists i :: 0 <= i < |loaded| && DecodesFully(loaded[i].row) && loaded[i].row.requestId.value == id
  }

  lemma {:induction false} RegisteredAfter(loaded: seq<Loaded>)
    ensures
      var r := RegistryAfter(EMPTY_REGISTRY, loaded);
      && RegistryInv(r)
      && (forall id :: id in r.pending <==> RegisteredBy(loaded, id))
      && (forall id :: id in r.workflows ==> Untouched(r.workflows[id]) && r.workflows[id].expiresAtMs == None)
  {
    if loaded != [] {
      var init, row := loaded[..|loaded| - 1], loaded[|loaded| - 1].row;
      RegisteredAfter(init);
      if Registers(row) {
        var w := RebuiltWorkflow(row.verdict.value, row.approval.value.requiredRole);
        BothAreUntouched(row.verdict.value, row.approval.value.requiredRole, None);
        RegistryInvPreserved(RegistryAfter(EMPTY_REGISTRY, init), RegisterOp(row.approval.value, w));
      }
      forall id ensures RegisteredBy(loaded, id) <==>
                        RegisteredBy(init, id) || (Registers(row) && row.approval.value.id == id)
      {
        if RegisteredBy(init, id) {
          var i :| 0 <= i < |init| && Registers(init[i].row) && init[i].row.approval.value.id == id;
          assert loaded[i] == init[i];
        }
      }
    }
  }

  lemma {:induction false} ParkedAfter(loaded: seq<Loaded>)
    ensures
      var p := ParkingAfter(EMPTY_PARKING, loaded);
      && ParkingInv(p)
      && (forall id :: id in p.entries <==> ParkedBy(loaded, id))
      && (forall id :: id in p.entries ==> p.entries[id].decisionTx.Some?)
  {
    if loaded != [] {
      var init, row := loaded[..|loaded| - 1], loaded[|loaded| - 1].row;
      ParkedAfter(init);
      if FaultOf(row).None? {
        var parked := Parked(row.proposal, row.txBytes.value, 0);
        ParkingInvPreserved(ParkingAfter(EMPTY_PARKING, init), ParkOp(row.requestId.value, parked));
      }
      forall id ensures ParkedBy(loaded, id) <==>
                        ParkedBy(init, id) || (FaultOf(row).None? && row.requestId.value == id)
      {
        if ParkedBy(init, id) {
          var i :| 0 <= i < |init| && FaultOf(init[i].row).None? && init[i].row.requestId.value == id;
          assert loaded[i] == init[i];
        }
      }
    }
  }

  /** Rows are written with one id in both places. */
  predicate IdsAgree(loaded: seq<Loaded>) {
    forall i :: 0 <= i < |loaded| && loaded[i].row.approval.Some? && loaded[i].row.requestId.Some? ==>
      loaded[i].row.approval.value.id == loaded[i].row.requestId.value
  }

  predicate UndecodableBy(loaded: seq<Loaded>, id: nat) {
    exists i :: 0 <= i < |loaded| && DecodesToTransaction(loaded[i].row) && loaded[i].row.requestId.value == id
  }

  lemma RegisteredSplits(loaded: seq<Loaded>, id: nat)
    requires IdsAgree(loaded)
    ensures RegisteredBy(loaded, id) <==> ParkedBy(loaded, id) || UndecodableBy(loaded, id)
  {
    if RegisteredBy(loaded, id) {
      var i :| 0 <= i < |loaded| && (DecodesFully(loaded[i].row) || DecodesToTransaction(loaded[i].row))
               && loaded[i].row.approval.value.id == id;
      assert loaded[i].row.requestId.value == id;
    }
  }

  /**
   After recovery into empty stores every parked transaction is a live, undecided
   request. The converse fails for exactly one kind of row: a request is live
   with nothing parked for it if and only if its row decodes up to the
   transaction bytes, those do not decode, and no sound row carries its id. The
   row is counted corrupt and rejected, yet an operator can still decide it.
   */
  lemma OrphanIff(loaded: seq<Loaded>, id: nat)
    requires IdsAgree(loaded)
    ensures
      var r, p := RegistryAfter(EMPTY_REGISTRY, loaded), ParkingAfter(EMPTY_PARKING, loaded);
      && (id in p.entries ==> id in r.pending)
      && (id in r.pending && id !in p.entries <==> UndecodableBy(loaded, id) && !ParkedBy(loaded, id))
  {
    RegisteredAfter(loaded);
    ParkedAfter(loaded);
    RegisteredSplits(loaded, id);
  }

  /** Such a row exists: everything on it decodes but the transaction, and its request is live with nothing parked. */
  lemma OrphanExists(request: Request, verdict: Verdict, txBytes: seq<bv8>) returns (loaded: seq<Loaded>)
    ensures IdsAgree(loaded) && CorruptCount(loaded) == 1
    ensures request.id in RegistryAfter(EMPTY_REGISTRY, loaded).pending
    ensures request.id !in ParkingAfter(EMPTY_PARKING, loaded).entries
  {
    var row := ApprovalRow(Some(request), Some(""), Some(verdict), Some(txBytes), Some(request.id), false, "", 0, Live);
    loaded := [Loaded("", row)];
    assert loaded[..0] == [];
    assert FaultOf(loaded[0].row) == Some(BadTransaction);
  }

  // ── Opening a request ───────────────────────────────────────────────────

  /** What the signing tool has at hand when a transaction needs approval. */
  datatype Opening = Opening(
    request: Request,
    simulation: string,
    verdict: Verdict,
    proposal: string,
    txBytes: seq<bv8>,
    lastValidBlockHeight: nat,
    leaseUntilMs: Option<int>)

  /** The tool puts the verdict's role on the request. */
  predicate WellFormed(o: Opening) { o.request.requiredRole == RoleOf(o.verdict) }

  function PersistedRow(o: Opening, nowMs: int): ApprovalRow {
    ApprovalRow(Some(o.request), Some(o.simulation), Some(o.verdict), Some(o.txBytes), Some(o.request.id), true,
                o.proposal, nowMs, Live)
  }

  function WorkflowOf(o: Opening): Workflow { OpenedWorkflow(o.verdict, o.leaseUntilMs) }

  /** One request persisted under its key. */
  datatype Saved = Saved(key: string, opening: Opening, nowMs: int)

  function LoadOf(saved: seq<Saved>): (loaded: seq<Loaded>)
    ensures |loaded| == |saved|
  {
    if saved == [] then []
    else
      var last := saved[|saved| - 1];
      LoadOf(saved[..|saved| - 1]) + [Loaded(last.key, PersistedRow(last.opening, last.nowMs))]
  }

  /** Each was opened by the tool, under an id of its own. */
  predicate OpenedApart(saved: seq<Saved>) {
    && (forall i :: 0 <= i < |saved| ==> WellFormed(saved[i].opening))
    && (forall i, j :: 0 <= i < j < |saved| ==> saved[i].opening.request.id != saved[j].opening.request.id)
  }

  /** The request, its transaction and its workflow are as first opened, but for the lease and the block height. */
  predicate BackAsOpened(r: Registry, p: Parking, o: Opening) {
    var id := o.request.id;
    && id in r.pending && r.pending[id] == o.request
    && id in r.workflows && r.workflows[id] == WorkflowOf(o).(expiresAtMs := None)
    && id in p.entries && p.entries[id].parked == Parked(o.proposal, o.txBytes, 0)
  }

  predicate IsSaved(saved: seq<Saved>, id: nat) {
    exists i :: 0 <= i < |saved| && saved[i].opening.request.id == id
  }

  predicate AllBack(r: Registry, p: Parking, saved: seq<Saved>) {
    forall i :: 0 <= i < |saved| ==> BackAsOpened(r, p, saved[i].opening)
  }

  ghost predicate NothingElse(r: Registry, p: Parking, saved: seq<Saved>) {
    forall id :: id in r.pending || id in r.workflows || id in p.entries ==> IsSaved(saved, id)
  }

  function WithRow(r: Registry, p: Parking, o: Opening): (Registry, Parking) {
    (AfterRegister(r, o.request, RebuiltWorkflow(o.verdict, o.request.requiredRole)),
     AfterPark(p, o.request.id, Parked(o.proposal, o.txBytes, 0)))
  }

  lemma LoadOneMore(saved: seq<Saved>)
    requires saved != []
    ensures
      var init, o := saved[..|saved| - 1], saved[|saved| - 1].opening;
      (RegistryAfter(EMPTY_REGISTRY, LoadOf(saved)), ParkingAfter(EMPTY_PARKING, LoadOf(saved))) ==
      WithRow(RegistryAfter(EMPTY_REGISTRY, LoadOf(init)), ParkingAfter(EMPTY_PARKING, LoadOf(init)), o)
  {
    var init, last := saved[..|saved| - 1], saved[|saved| - 1];
    var loaded := LoadOf(saved);
    assert loaded[..|loaded| - 1] == LoadOf(init);
    assert loaded[|loaded| - 1].row == PersistedRow(last.opening, last.nowMs);
    assert FaultOf(PersistedRow(last.opening, last.nowMs)) == None;
  }

  lemma OneMoreIsBack(r: Registry, p: Parking, o: Opening)
    requires WellFormed(o)
    ensures BackAsOpened(WithRow(r, p, o).0, WithRow(r, p, o).1, o)
  {
    BuildersAgreeIff(o.verdict, o.request.requiredRole, o.leaseUntilMs);
  }

  lemma OthersStayBack(r: Registry, p: Parking, o: Opening, other: Opening)
    requires BackAsOpened(r, p, other) && o.request.id != other.request.id
    ensures BackAsOpened(WithRow(r, p, o).0, WithRow(r, p, o).1, other)
  {
  }

  lemma AllBackWithOneMore(r: Registry, p: Parking, init: seq<Saved>, last: Saved)
    requires AllBack(r, p, init) && OpenedApart(init + [last])
    ensures AllBack(WithRow(r, p, last.opening).0, WithRow(r, p, last.opening).1, init + [last])
  {
    var saved := init + [last];
    var r', p' := WithRow(r, p, last.opening).0, WithRow(r, p, last.opening).1;
    assert saved[|init|] == last;
    OneMoreIsBack(r, p, last.opening);
    forall i | 0 <= i < |init| ensures BackAsOpened(r', p', saved[i].opening) {
      assert saved[i] == init[i];
      OthersStayBack(r, p, last.opening, init[i].opening);
    }
  }

  lemma NothingElseWithOneMore(r: Registry, p: Parking, init: seq<Saved>, last: Saved)
    requires NothingElse(r, p, init)
    ensures NothingElse(WithRow(r, p, last.opening).0, WithRow(r, p, last.opening).1, init + [last])
  {
    var saved := init + [last];
    assert saved[|init|] == last;
    forall id | IsSaved(init, id) ensures IsSaved(saved, id) {
      var i :| 0 <= i < |init| && init[i].opening.request.id == id;
      assert saved[i] == init[i];
    }
  }

  lemma ApartWithoutLast(saved: seq<Saved>)
    requires saved != [] && OpenedApart(saved)
    ensures OpenedApart(saved[..|saved| - 1])
  {
  }

  /**
   Recovering any number of persisted requests gives back each of them as first
   opened, but for the lease and the block height, and nothing else.
   */
  lemma {:induction false} PersistRecoverRoundTrip(saved: seq<Saved>)
    requires OpenedApart(saved)
    ensures
      var r, p := RegistryAfter(EMPTY_REGISTRY, LoadOf(saved)), ParkingAfter(EMPTY_PARKING, LoadOf(saved));
      AllBack(r, p, saved) && NothingElse(r, p, saved)
  {
    if saved != [] {
      var init, last := saved[..|saved| - 1], saved[|saved| - 1];
      assert saved == init + [last];
      ApartWithoutLast(saved);
      PersistRecoverRoundTrip(init);
      LoadOneMore(saved);
      var r, p := RegistryAfter(EMPTY_REGISTRY, LoadOf(init)), ParkingAfter(EMPTY_PARKING, LoadOf(init));
      AllBackWithOneMore(r, p, init, last);
      NothingElseWithOneMore(r, p, init, last);
    }
  }

  // ── Recovery ────────────────────────────────────────────────────────────

  /** The live rows, oldest first, each once. */
  predicate IsLoadOf(rows: map<string, ApprovalRow>, loaded: seq<Loaded>) {
    && (forall i :: 0 <= i < |loaded| ==>
          loaded[i].key in rows && rows[loaded[i].key] == loaded[i].row && loaded[i].row.state == Live)
    && (forall k :: k in rows && rows[k].state == Live ==> exists i :: 0 <= i < |loaded| && loaded[i].key == k)
    && Sequenced(loaded)
  }

  predicate Sequenced(loaded: seq<Loaded>) {
    forall i, j :: 0 <= i < j < |loaded| ==>
      loaded[i].key != loaded[j].key && loaded[i].row.createdAtMs <= loaded[j].row.createdAtMs
  }

  function InsertByAge(loaded: seq<Loaded>, e: Loaded): (s: seq<Loaded>)
    requires Sequenced(loaded) && forall q :: q in loaded ==> q.key != e.key
    ensures Sequenced(s)
    ensures forall q :: q in s <==> q in loaded || q == e
  {
    if loaded == [] || loaded[|loaded| - 1].row.createdAtMs <= e.row.createdAtMs then
      LastIsLatest(loaded, e.row.createdAtMs);
      loaded + [e]
    else
      var init, last := loaded[..|loaded| - 1], loaded[|loaded| - 1];
      assert loaded == init + [last];
      var s := InsertByAge(init, e);
      YoungerAtTheEnd(s, last);
      s + [last]
  }

  lemma LastIsLatest(loaded: seq<Loaded>, createdAtMs: int)
    requires Sequenced(loaded)
    requires loaded != [] ==> loaded[|loaded| - 1].row.createdAtMs <= createdAtMs
    ensures forall q :: q in loaded ==> q.row.createdAtMs <= createdAtMs
  {
  }

  lemma YoungerAtTheEnd(s: seq<Loaded>, last: Loaded)
    requires Sequenced(s)
    requires forall q :: q in s ==> q.key != last.key && q.row.createdAtMs <= last.row.createdAtMs
    ensures Sequenced(s + [last])
  {
    assert forall i :: 0 <= i < |s| ==> s[i] in s;
  }

  lemma IsCorruptSplits(loaded: seq<Loaded>, key: string)
    requires loaded != []
    ensures
      var init, last := loaded[..|loaded| - 1], loaded[|loaded| - 1];
      IsCorrupt(loaded, key) <==> IsCorrupt(init, key) || (last.key == key && FaultOf(last.row).Some?)
  {
    var init := loaded[..|loaded| - 1];
    if IsCorrupt(init, key) {
      var i :| 0 <= i < |init| && init[i].key == key && FaultOf(init[i].row).Some?;
      assert loaded[i] == init[i];
    }
  }

  /** Recovery rejects exactly the corrupt rows whose mark is not lost, and touches no other row. */
  lemma {:induction false} RejectedIffCorrupt(rows: map<string, ApprovalRow>, loaded: seq<Loaded>, lost: set<string>,
                                              key: string)
    requires key in rows
    requires forall i :: 0 <= i < |loaded| ==> loaded[i].row.state == Live
    requires forall i :: 0 <= i < |loaded| && loaded[i].key == key ==> rows[key] == loaded[i].row
    ensures
      var after := RowsAfter(rows, loaded, lost);
      && key in after
      && after[key] == if IsCorrupt(loaded, key) && key !in lost then rows[key].(state := RowRejected) else rows[key]
  {
    if loaded != [] {
      var init := loaded[..|loaded| - 1];
      assert forall i :: 0 <= i < |init| ==> init[i] == loaded[i];
      RejectedIffCorrupt(rows, init, lost, key);
      IsCorruptSplits(loaded, key);
    }
  }

  lemma {:induction false} RowsKeepKeys(rows: map<string, ApprovalRow>, loaded: seq<Loaded>, lost: set<string>)
    ensures RowsAfter(rows, loaded, lost).Keys == rows.Keys
  {
    if loaded != [] {
      RowsKeepKeys(rows, loaded[..|loaded| - 1], lost);
    }
  }

  function StaleKeys(rows: map<string, ApprovalRow>, cutoffMs: int): set<string> {
    set k | k in rows && rows[k].state == Live && rows[k].createdAtMs <= cutoffMs
  }

  // ── What recovery promises of each row ──────────────────────────────────

  function NewlyExpired(before: map<string, ApprovalRow>, after: map<string, ApprovalRow>): set<string> {
    set k | k in before && k in after && before[k].state != TtlExpired && after[k].state == TtlExpired
  }

  /** The rows that expired in this recovery are the live ones that had reached the cutoff, and they are counted. */
  predicate StaleRowsExpire(before: map<string, ApprovalRow>, after: map<string, ApprovalRow>, cutoffMs: int, expired: nat) {
    && after.Keys == before.Keys
    && (forall k :: k in before ==>
          (before[k].state != TtlExpired && after[k].state == TtlExpired
           <==> before[k].state == Live && before[k].createdAtMs <= cutoffMs))
    && expired == |NewlyExpired(before, after)|
  }

  /** The rows that are loaded are exactly the live ones created after the cutoff, as they were. */
  predicate FreshRowsLoaded(before: map<string, ApprovalRow>, cutoffMs: int, loaded: seq<Loaded>) {
    && (forall i :: 0 <= i < |loaded| ==>
          && loaded[i].key in before && loaded[i].row == before[loaded[i].key]
          && loaded[i].row.state == Live && loaded[i].row.createdAtMs > cutoffMs)
    && (forall k :: k in before && before[k].state == Live && before[k].createdAtMs > cutoffMs ==>
          exists i :: 0 <= i < |loaded| && loaded[i].key == k)
  }

  /** Every live row created after the cutoff that decodes is a pending request with its transaction parked. */
  predicate FreshRowsAreBack(before: map<string, ApprovalRow>, cutoffMs: int, r: Registry, p: Parking) {
    forall k :: k in before && before[k].state == Live && before[k].createdAtMs > cutoffMs && DecodesFully(before[k]) ==>
      before[k].approval.value.id in r.pending && before[k].requestId.value in p.entries
  }

  lemma ExpiryIsLiteral(before: map<string, ApprovalRow>, cutoffMs: int, after: map<string, ApprovalRow>)
    requires after.Keys == before.Keys
    requires forall k :: k in before ==>
      after[k] == ExpiredRows(before, cutoffMs)[k]
      || (ExpiredRows(before, cutoffMs)[k].state == Live && after[k].state == RowRejected)
    ensures StaleRowsExpire(before, after, cutoffMs, |StaleKeys(before, cutoffMs)|)
  {
    forall k | k in before
      ensures before[k].state != TtlExpired && after[k].state == TtlExpired
              <==> before[k].state == Live && before[k].createdAtMs <= cutoffMs
    {
    }
    assert NewlyExpired(before, after) == StaleKeys(before, cutoffMs);
  }

  lemma LoadIsLiteral(before: map<string, ApprovalRow>, cutoffMs: int, current: map<string, ApprovalRow>,
                      loaded: seq<Loaded>)
    requires current == ExpiredRows(before, cutoffMs) && IsLoadOf(current, loaded)
    ensures FreshRowsLoaded(before, cutoffMs, loaded)
  {
    forall k | k in before && before[k].state == Live && before[k].createdAtMs > cutoffMs
      ensures exists i :: 0 <= i < |loaded| && loaded[i].key == k
    {
      assert current[k].state == Live;
    }
  }

  /** Where the loaded rows are those of the table, recovery rejects the corrupt ones among them and nothing else. */
  lemma RowsAfterLoad(rows: map<string, ApprovalRow>, loaded: seq<Loaded>, lost: set<string>)
    requires LoadedFrom(rows, loaded)
    ensures RowsAfter(rows, loaded, lost).Keys == rows.Keys
    ensures forall k :: k in rows ==>
      RowsAfter(rows, loaded, lost)[k] ==
      if IsCorrupt(loaded, k) && k !in lost then rows[k].(state := RowRejected) else rows[k]
    ensures forall k :: k in rows && IsCorrupt(loaded, k) ==> rows[k].state == Live
  {
    RowsKeepKeys(rows, loaded, lost);
    forall k | k in rows
      ensures RowsAfter(rows, loaded, lost)[k] ==
              if IsCorrupt(loaded, k) && k !in lost then rows[k].(state := RowRejected) else rows[k]
    {
      RejectedIffCorrupt(rows, loaded, lost, k);
    }
  }

  /** The loaded rows are live rows of the table. */
  predicate LoadedFrom(rows: map<string, ApprovalRow>, loaded: seq<Loaded>) {
    forall i :: 0 <= i < |loaded| ==>
      loaded[i].key in rows && rows[loaded[i].key] == loaded[i].row && loaded[i].row.state == Live
  }

  lemma ExpiryOutlastsRecovery(before: map<string, ApprovalRow>, cutoffMs: int, current: map<string, ApprovalRow>,
                               loaded: seq<Loaded>, lost: set<string>, after: map<string, ApprovalRow>)
    requires current == ExpiredRows(before, cutoffMs) && LoadedFrom(current, loaded)
    requires after == RowsAfter(current, loaded, lost)
    ensures StaleRowsExpire(before, after, cutoffMs, |StaleKeys(before, cutoffMs)|)
  {
    RowsAfterLoad(current, loaded, lost);
    ExpiryIsLiteral(before, cutoffMs, after);
  }

  lemma {:induction false} RegisteredStays(r: Registry, loaded: seq<Loaded>, i: nat)
    requires i < |loaded| && Registers(loaded[i].row)
    ensures loaded[i].row.approval.value.id in RegistryAfter(r, loaded).pending
  {
    if i < |loaded| - 1 {
      RegisteredStays(r, loaded[..|loaded| - 1], i);
    }
  }

  lemma {:induction false} ParkedStays(p: Parking, loaded: seq<Loaded>, i: nat)
    requires i < |loaded| && FaultOf(loaded[i].row).None?
    ensures loaded[i].row.requestId.value in ParkingAfter(p, loaded).entries
  {
    if i < |loaded| - 1 {
      ParkedStays(p, loaded[..|loaded| - 1], i);
    }
  }

  lemma LoadedRowsAreBack(before: map<string, ApprovalRow>, cutoffMs: int, loaded: seq<Loaded>, r: Registry, p: Parking)
    requires FreshRowsLoaded(before, cutoffMs, loaded)
    ensures FreshRowsAreBack(before, cutoffMs, RegistryAfter(r, loaded), ParkingAfter(p, loaded))
  {
    forall k | k in before && before[k].state == Live && before[k].createdAtMs > cutoffMs && DecodesFully(before[k])
      ensures before[k].approval.value.id in RegistryAfter(r, loaded).pending
      ensures before[k].requestId.value in ParkingAfter(p, loaded).entries
    {
      var i :| 0 <= i < |loaded| && loaded[i].key == k;
      RegisteredStays(r, loaded, i);
      ParkedStays(p, loaded, i);
    }
  }

  class DurablePendingState {
    var rows: map<string, ApprovalRow>

    /**
     Opens a request: row, parked transaction, registration, in this order and
     only as far as `diesAfter` when the daemon dies. `persistence` is absent when
     no durable state is wired, else it says whether the row is written. Where it
     is wired nothing is opened without its row, so whatever is in memory can be
     recovered.
     */
    method OpenApproval(o: Opening, key: string, nowMs: int, persistence: Option<bool>, diesAfter: nat,
                        store: ApprovalStore, signing: PendingSigningStore)
      returns (live: bool)
      requires store.Valid() && signing.Valid()
      modifies this, store, signing
      ensures store.Valid() && signing.Valid()
      ensures
        var goesOn := persistence != Some(false);
        && (live <==> goesOn && diesAfter >= 3)
        && rows == (if persistence == Some(true) && diesAfter >= 1
                    then old(rows)[key := PersistedRow(o, nowMs)] else old(rows))
        && signing.Model() == (if goesOn && diesAfter >= 2
                               then AfterPark(old(signing.Model()), o.request.id,
                                              Parked(o.proposal, o.txBytes, o.lastValidBlockHeight))
                               else old(signing.Model()))
        && store.Model() == (if goesOn && diesAfter >= 3
                             then AfterRegister(old(store.Model()), o.request, WorkflowOf(o))
                             else old(store.Model()))
    {
      live := false;
      if diesAfter < 1 { return; }
      if persistence.Some? {
        if !persistence.value { return; }
        rows := rows[key := PersistedRow(o, nowMs)];
      }
      if diesAfter < 2 { return; }
      var _ := signing.Park(o.request.id, Parked(o.proposal, o.txBytes, o.lastValidBlockHeight));
      if diesAfter < 3 { return; }
      BothAreUntouched(o.verdict, None, o.leaseUntilMs);
      var _ := store.Register(o.request, WorkflowOf(o));
      live := true;
    }

    method LoadPendingApprovals() returns (loaded: seq<Loaded>)
      ensures IsLoadOf(rows, loaded)
    {
      loaded := [];
      var rest := rows.Keys;
      while rest != {}
        invariant rest <= rows.Keys && Sequenced(loaded)
        invariant forall q :: q in loaded ==> q.key in rows && q.key !in rest && rows[q.key] == q.row && q.row.state == Live
        invariant forall k :: k in rows && k !in rest && rows[k].state == Live ==> Loaded(k, rows[k]) in loaded
        decreases |rest|
      {
        var k :| k in rest;
        rest := rest - {k};
        if rows[k].state == Live {
          loaded := InsertByAge(loaded, Loaded(k, rows[k]));
        }
      }
      forall k | k in rows && rows[k].state == Live ensures exists i :: 0 <= i < |loaded| && loaded[i].key == k {
        assert Loaded(k, rows[k]) in loaded;
      }
    }

    /** Only a live row is marked; the row stays for correlation. A lost write leaves it live. */
    method MarkApprovalTerminal(key: string, state: RowState, lost: bool)
      requires state != Live
      modifies this
      ensures rows == Marked(old(rows), key, state, lost)
    {
      if !lost && key in rows && rows[key].state == Live {
        rows := rows[key := rows[key].(state := state)];
      }
    }

    method RecoverApprovalRow(row: ApprovalRow, store: ApprovalStore, signing: PendingSigningStore)
      returns (fault: Option<RowFault>)
      requires store.Valid() && signing.Valid()
      modifies store, signing
      ensures store.Valid() && signing.Valid()
      ensures fault == FaultOf(row)
      ensures store.Model() ==
        if Registers(row)
        then AfterRegister(old(store.Model()), row.approval.value,
                           RebuiltWorkflow(row.verdict.value, row.approval.value.requiredRole))
        else old(store.Model())
      ensures signing.Model() ==
        if FaultOf(row).None?
        then AfterPark(old(signing.Model()), row.requestId.value, Parked(row.proposal, row.txBytes.value, 0))
        else old(signing.Model())
    {
      if row.approval.None? { return Some(BadApproval); }
      if row.simulation.None? { return Some(BadSimulation); }
      if row.verdict.None? { return Some(BadVerdict); }
      if row.txBytes.None? { return Some(BadHex); }
      if row.requestId.None? { return Some(BadRequestId); }
      var workflow := RebuiltWorkflow(row.verdict.value, row.approval.value.requiredRole);
      BothAreUntouched(row.verdict.value, row.approval.value.requiredRole, None);
      var _ := store.Register(row.approval.value, workflow);
      if !row.txDecodes { return Some(BadTransaction); }
      var _ := signing.Park(row.requestId.value, Parked(row.proposal, row.txBytes.value, 0));
      fault := None;
    }

    method RecoverApprovalRows(loaded: seq<Loaded>, store: ApprovalStore, signing: PendingSigningStore, lost: set<string>)
      returns (recovered: nat, corrupt: nat)
      requires store.Valid() && signing.Valid()
      modifies this, store, signing
      ensures store.Valid() && signing.Valid()
      ensures recovered + corrupt == |loaded| && corrupt == CorruptCount(loaded)
      ensures store.Model() == RegistryAfter(old(store.Model()), loaded)
      ensures signing.Model() == ParkingAfter(old(signing.Model()), loaded)
      ensures rows == RowsAfter(old(rows), loaded, lost)
    {
      recovered, corrupt := 0, 0;
      var i := 0;
      while i < |loaded|
        invariant i <= |loaded| && store.Valid() && signing.Valid()
        invariant recovered + corrupt == i && corrupt == CorruptCount(loaded[..i])
        invariant store.Model() == RegistryAfter(old(store.Model()), loaded[..i])
        invariant signing.Model() == ParkingAfter(old(signing.Model()), loaded[..i])
        invariant rows == RowsAfter(old(rows), loaded[..i], lost)
      {
        assert loaded[..i + 1][..i] == loaded[..i];
        var fault := RecoverApprovalRow(loaded[i].row, store, signing);
        if fault.None? {
          recovered := recovered + 1;
        } else {
          MarkApprovalTerminal(loaded[i].key, RowRejected, loaded[i].key in lost);
          corrupt := corrupt + 1;
        }
        i := i + 1;
      }
      assert loaded[..i] == loaded;
    }

    /** The first two statements of recovery: stale rows expire, the live ones are read. */
    method ExpireAndLoad(nowMs: int, maxAgeMs: nat, staleWriteFails: bool, loadFails: bool)
      returns (expired: nat, loaded: seq<Loaded>)
      modifies this
      ensures rows == if staleWriteFails then old(rows) else ExpiredRows(old(rows), nowMs - maxAgeMs)
      ensures expired == if staleWriteFails then 0 else |StaleKeys(old(rows), nowMs - maxAgeMs)|
      ensures LoadedFrom(rows, loaded) && if loadFails then loaded == [] else IsLoadOf(rows, loaded)
      ensures !staleWriteFails && !loadFails ==> FreshRowsLoaded(old(rows), nowMs - maxAgeMs, loaded)
    {
      expired := 0;
      ghost var before := rows;
      if !staleWriteFails {
        expired := |StaleKeys(rows, nowMs - maxAgeMs)|;
        rows := ExpiredRows(rows, nowMs - maxAgeMs);
      }
      loaded := [];
      if !loadFails {
        loaded := LoadPendingApprovals();
        if !staleWriteFails {
          LoadIsLiteral(before, nowMs - maxAgeMs, rows, loaded);
        }
      }
    }

    /**
     Startup recovery. `staleWriteFails` and `loadFails` are the two statements
     whose errors are logged and passed over; `lost` says which corrupt rows fail
     to be marked.
     */
    method Recover(store: ApprovalStore, signing: PendingSigningStore, nowMs: int, maxAgeMs: nat,
                   staleWriteFails: bool, loadFails: bool, lost: set<string>)
      returns (report: RecoveryReport, loaded: seq<Loaded>)
      requires store.Valid() && signing.Valid()
      modifies this, store, signing
      ensures store.Valid() && signing.Valid()
      ensures
        var current := if staleWriteFails then old(rows) else ExpiredRows(old(rows), nowMs - maxAgeMs);
        && (if loadFails then loaded == [] else IsLoadOf(current, loaded))
        && rows.Keys == old(rows).Keys
        && (forall k :: k in rows ==>
              rows[k] == if IsCorrupt(loaded, k) && k !in lost then current[k].(state := RowRejected) else current[k])
      ensures report.recovered + report.corrupt == |loaded| && report.corrupt == CorruptCount(loaded)
      ensures report.expired == if staleWriteFails then 0 else |StaleKeys(old(rows), nowMs - maxAgeMs)|
      ensures store.Model() == RegistryAfter(old(store.Model()), loaded)
      ensures signing.Model() == ParkingAfter(old(signing.Model()), loaded)
      ensures !staleWriteFails ==> StaleRowsExpire(old(rows), rows, nowMs - maxAgeMs, report.expired)
      ensures !staleWriteFails && !loadFails ==>
        && FreshRowsLoaded(old(rows), nowMs - maxAgeMs, loaded)
        && FreshRowsAreBack(old(rows), nowMs - maxAgeMs, store.Model(), signing.Model())
    {
      ghost var before := rows;
      var expired;
      expired, loaded := ExpireAndLoad(nowMs, maxAgeMs, staleWriteFails, loadFails);
      ghost var current := rows;
      RowsAfterLoad(current, loaded, lost);
      if !staleWriteFails {
        ExpiryOutlastsRecovery(before, nowMs - maxAgeMs, current, loaded, lost, RowsAfter(current, loaded, lost));
        if !loadFails {
          LoadedRowsAreBack(before, nowMs - maxAgeMs, loaded, store.Model(), signing.Model());
        }
      }
      var recovered, corrupt := RecoverApprovalRows(loaded, store, signing, lost);
      report := RecoveryReport(expired, recovered, corrupt);
    }
  }
}
