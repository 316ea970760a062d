/** Staged approval with role sets and quorums: what one vote does, and what any sequence of votes amounts to. */
module ApprovalWorkflow {
  import opened Wrappers

  datatype WorkflowState = Pending | Approved | Rejected | Expired

  datatype Vote = Vote(approved: bool, operatorId: Option<string>, approverRole: Option<string>)

  datatype Stage = Stage(index: nat, allowedRoles: seq<string>, minApprovals: nat, decisions: seq<Vote>)

  datatype Workflow = Workflow(state: WorkflowState, stages: seq<Stage>, expiresAtMs: Option<int>)

  datatype Outcome =
    | WasApproved
    | WasRejected
    | AlreadyDecided
    | NotFound
    | RoleMismatch
    | StageAdvanced(completedStage: nat, nextStage: nat, nextRequiredRole: Option<string>)
    | QuorumProgress(stage: nat, approvalsSoFar: nat, approvalsRequired: nat)
    | DuplicateOperator(operatorId: string, stage: nat)
    | LeaseExpired

  predicate IsTerminal(s: WorkflowState) { s != Pending }

  function ApprovalCount(votes: seq<Vote>): nat {
    if votes == [] then 0
    else ApprovalCount(votes[..|votes| - 1]) + if votes[|votes| - 1].approved then 1 else 0
  }

  predicate QuorumMet(s: Stage) { ApprovalCount(s.decisions) >= s.minApprovals }

  predicate HasRejection(s: Stage) { exists i :: 0 <= i < |s.decisions| && !s.decisions[i].approved }

  predicate IsPending(s: Stage) { !QuorumMet(s) && !HasRejection(s) }

  predicate HasOperatorVoted(s: Stage, operatorId: string) {
    exists i :: 0 <= i < |s.decisions| && s.decisions[i].operatorId == Some(operatorId)
  }

  /** The first stage that still needs votes. */
  function CurrentStage(stages: seq<Stage>): (r: Option<nat>)
    ensures r.Some? ==> r.value < |stages| && IsPending(stages[r.value])
    ensures r.Some? ==> forall i :: 0 <= i < r.value ==> !IsPending(stages[i])
    ensures r.None? ==> forall i :: 0 <= i < |stages| ==> !IsPending(stages[i])
  {
    if stages == [] then None
    else if IsPending(stages[0]) then Some(0)
    else
      match CurrentStage(stages[1..])
      case None => None
      case Some(i) => Some(i + 1)
  }

  predicate AllQuorumsMet(stages: seq<Stage>) {
    forall i :: 0 <= i < |stages| ==> QuorumMet(stages[i])
  }

  function WithVote(s: Stage, v: Vote): Stage { s.(decisions := s.decisions + [v]) }

  function ApplyDecision(w: Workflow, v: Vote): Workflow {
    if IsTerminal(w.state) || CurrentStage(w.stages).None? then w else
    var i := CurrentStage(w.stages).value;
    var stages := w.stages[i := WithVote(w.stages[i], v)];
    w.(stages := stages,
       state := if !v.approved then Rejected
                else if QuorumMet(stages[i]) && AllQuorumsMet(stages) then Approved
                else w.state)
  }

  predicate IsExpired(w: Workflow, nowMs: int) {
    w.expiresAtMs.Some? && nowMs > w.expiresAtMs.value
  }

  predicate RoleAllowed(s: Stage, role: Option<string>) {
    s.allowedRoles == [] || (role.Some? && role.value in s.allowedRoles)
  }

  /** Stages carry their own position; every constructor numbers them. */
  predicate Indexed(w: Workflow) {
    forall i :: 0 <= i < |w.stages| ==> w.stages[i].index == i
  }

  /** What a recorded approval or rejection reports. */
  function VoteOutcome(before: nat, w: Workflow): Outcome
    requires before < |w.stages|
  {
    match w.state
    case Approved => WasApproved
    case Pending =>
      var next := CurrentStage(w.stages);
      var nextIndex := if next.Some? then w.stages[next.value].index else 0;
      if nextIndex == before then
        QuorumProgress(before, ApprovalCount(w.stages[before].decisions), w.stages[before].minApprovals)
      else
        var roles := if next.Some? then w.stages[next.value].allowedRoles else [];
        StageAdvanced(before, nextIndex, if roles == [] then None else Some(roles[0]))
    case _ => WasRejected
  }

  /** One operator decision on one workflow. */
  function Decide(w: Workflow, v: Vote, nowMs: int): (Outcome, Workflow)
    requires Indexed(w)
  {
    if IsTerminal(w.state) then (AlreadyDecided, w)
    else if IsExpired(w, nowMs) then (LeaseExpired, w.(state := Expired))
    else if CurrentStage(w.stages).None? then (AlreadyDecided, w)
    else
      var stage := w.stages[CurrentStage(w.stages).value];
      if !RoleAllowed(stage, v.approverRole) then (RoleMismatch, w)
      else if v.operatorId.Some? && HasOperatorVoted(stage, v.operatorId.value) then
        (DuplicateOperator(v.operatorId.value, stage.index), w)
      else
        var w' := ApplyDecision(w, v);
        (VoteOutcome(stage.index, w'), w')
  }

  /** The decision as the store runs it, branch for branch, on the workflow it holds. */
  method CastVote(w: Workflow, v: Vote, nowMs: int) returns (outcome: Outcome, after: Workflow)
    requires Indexed(w)
    ensures (outcome, after) == Decide(w, v, nowMs)
  {
    if IsTerminal(w.state) {
      return AlreadyDecided, w;
    }
    if IsExpired(w, nowMs) {
      return LeaseExpired, w.(state := Expired);
    }
    var current := CurrentStage(w.stages);
    if current.None? {
      return AlreadyDecided, w;
    }
    var stage := w.stages[current.value];
    if stage.allowedRoles != [] && !(v.approverRole.Some? && v.approverRole.value in stage.allowedRoles) {
      return RoleMismatch, w;
    }
    if v.operatorId.Some? && HasOperatorVoted(stage, v.operatorId.value) {
      return DuplicateOperator(v.operatorId.value, stage.index), w;
    }
    after := ApplyDecision(w, v);
    if IsTerminal(after.state) {
      outcome := if after.state == Approved then WasApproved else WasRejected;
      return;
    }
    var next := CurrentStage(after.stages);
    var nextIndex := if next.Some? then after.stages[next.value].index else 0;
    if nextIndex == stage.index {
      var voted := after.stages[stage.index];
      outcome := QuorumProgress(stage.index, ApprovalCount(voted.decisions), voted.minApprovals);
    } else {
      var roles := if next.Some? then after.stages[next.value].allowedRoles else [];
      outcome := StageAdvanced(stage.index, nextIndex, if roles == [] then None else Some(roles[0]));
    }
  }

  function DecideAll(w: Workflow, ds: seq<(Vote, int)>): Workflow
    requires Indexed(w)
    decreases |ds|
  {
    if ds == [] then w
    else
      DecideKeepsShape(w, ds[0].0, ds[0].1);
      DecideAll(Decide(w, ds[0].0, ds[0].1).1, ds[1..])
  }

  /** Two workflows over the same chain: same roles, same quorums, same lease. */
  predicate SameChain(w: Workflow, w': Workflow) {
    && |w'.stages| == |w.stages| && w'.expiresAtMs == w.expiresAtMs
    && forall i :: 0 <= i < |w.stages| ==> w'.stages[i].(decisions := []) == w.stages[i].(decisions := [])
  }

  lemma DecideKeepsShape(w: Workflow, v: Vote, nowMs: int)
    requires Indexed(w)
    ensures Indexed(Decide(w, v, nowMs).1) && SameChain(w, Decide(w, v, nowMs).1)
  {
    var w' := Decide(w, v, nowMs).1;
    assert forall i :: 0 <= i < |w.stages| ==> w'.stages[i].index == w.stages[i].index;
  }

  // ── What votes amount to ────────────────────────────────────────────────

  function MissingInStage(s: Stage): nat {
    if QuorumMet(s) then 0 else s.minApprovals - ApprovalCount(s.decisions)
  }

  /** How many approvals are still needed in all. */
  function Missing(stages: seq<Stage>): nat {
    if stages == [] then 0 else MissingInStage(stages[0]) + Missing(stages[1..])
  }

  lemma {:induction false} MissingAfterUpdate(stages: seq<Stage>, i: nat, s: Stage)
    requires i < |stages|
    ensures Missing(stages[i := s]) + MissingInStage(stages[i]) == Missing(stages) + MissingInStage(s)
  {
    if i > 0 {
      assert stages[i := s][1..] == stages[1..][i - 1 := s];
      MissingAfterUpdate(stages[1..], i - 1, s);
    } else {
      assert stages[0 := s][1..] == stages[1..];
    }
  }

  lemma {:induction false} NothingMissing(stages: seq<Stage>)
    ensures Missing(stages) == 0 <==> AllQuorumsMet(stages)
  {
    if stages != [] {
      NothingMissing(stages[1..]);
      assert AllQuorumsMet(stages) <==> QuorumMet(stages[0]) && AllQuorumsMet(stages[1..]) by {
        if AllQuorumsMet(stages) {
          assert forall i :: 0 <= i < |stages| - 1 ==> stages[1..][i] == stages[i + 1];
        }
        if QuorumMet(stages[0]) && AllQuorumsMet(stages[1..]) {
          forall i | 0 <= i < |stages| ensures QuorumMet(stages[i]) {
            if i > 0 { assert stages[i] == stages[1..][i - 1]; }
          }
        }
      }
    }
  }

  lemma CountAfterVote(votes: seq<Vote>, v: Vote)
    ensures ApprovalCount(votes + [v]) == ApprovalCount(votes) + if v.approved then 1 else 0
  {
    assert (votes + [v])[..|votes|] == votes;
  }

  /** Votes came from allowed roles and no named operator was counted twice. */
  predicate ProperVotes(s: Stage) {
    && (forall i :: 0 <= i < |s.decisions| ==> RoleAllowed(s, s.decisions[i].approverRole))
    && (forall i, j :: 0 <= i < j < |s.decisions| && s.decisions[i].operatorId.Some? ==>
          s.decisions[i].operatorId != s.decisions[j].operatorId)
  }

  /** Votes are proper, no quorum is exceeded, and a stage holds votes only when all stages before it are complete. */
  predicate StagesSound(stages: seq<Stage>) {
    && (forall i :: 0 <= i < |stages| ==> ProperVotes(stages[i]))
    && (forall i :: 0 <= i < |stages| ==> ApprovalCount(stages[i].decisions) <= stages[i].minApprovals)
    && (forall i, j :: 0 <= i < j < |stages| && stages[j].decisions != [] ==> QuorumMet(stages[i]))
  }

  predicate AnyRejection(stages: seq<Stage>) {
    exists i :: 0 <= i < |stages| && HasRejection(stages[i])
  }

  predicate VerdictSound(w: Workflow) {
    && (w.state == Rejected <==> AnyRejection(w.stages))
    && (w.state == Approved ==> AllQuorumsMet(w.stages))
  }

  ghost predicate WorkflowInv(w: Workflow) {
    Indexed(w) && StagesSound(w.stages) && VerdictSound(w)
  }

  predicate Untouched(w: Workflow) {
    w.state == Pending && Indexed(w) && forall i :: 0 <= i < |w.stages| ==> w.stages[i].decisions == []
  }

  /** The position of the stage a recorded vote lands in, with the facts the proofs need. */
  lemma VoteLands(w: Workflow, v: Vote, nowMs: int) returns (i: nat)
    requires Indexed(w) && Decide(w, v, nowMs).1.stages != w.stages
    ensures i < |w.stages| && IsPending(w.stages[i]) && CurrentStage(w.stages) == Some(i) && w.state == Pending
    ensures RoleAllowed(w.stages[i], v.approverRole)
    ensures v.operatorId.Some? ==> !HasOperatorVoted(w.stages[i], v.operatorId.value)
    ensures Decide(w, v, nowMs).1 == ApplyDecision(w, v)
    ensures Decide(w, v, nowMs).0 == VoteOutcome(i, ApplyDecision(w, v))
  {
    i := CurrentStage(w.stages).value;
  }

  lemma ProperVoteAdded(s: Stage, v: Vote)
    requires ProperVotes(s) && RoleAllowed(s, v.approverRole)
    requires v.operatorId.Some? ==> !HasOperatorVoted(s, v.operatorId.value)
    ensures ProperVotes(WithVote(s, v))
  {
  }

  lemma RejectionAfterVote(s: Stage, v: Vote)
    ensures HasRejection(WithVote(s, v)) <==> HasRejection(s) || !v.approved
  {
    var votes := s.decisions + [v];
    assert votes[|s.decisions|] == v;
    assert forall i :: 0 <= i < |s.decisions| ==> votes[i] == s.decisions[i];
  }

  /** Stages before the current one of a live workflow are complete, and nothing was rejected. */
  lemma EarlierStagesAreMet(w: Workflow, i: nat)
    requires WorkflowInv(w) && w.state == Pending && CurrentStage(w.stages) == Some(i)
    ensures forall j :: 0 <= j < i ==> QuorumMet(w.stages[j])
    ensures forall j :: 0 <= j < |w.stages| ==> !HasRejection(w.stages[j])
  {
    forall j | 0 <= j < i ensures QuorumMet(w.stages[j]) {
      assert !IsPending(w.stages[j]);
    }
  }

  lemma VoteKeepsStages(w: Workflow, v: Vote, i: nat)
    requires WorkflowInv(w) && w.state == Pending && CurrentStage(w.stages) == Some(i)
    requires RoleAllowed(w.stages[i], v.approverRole)
    requires v.operatorId.Some? ==> !HasOperatorVoted(w.stages[i], v.operatorId.value)
    ensures StagesSound(w.stages[i := WithVote(w.stages[i], v)])
  {
    ProperVoteAdded(w.stages[i], v);
    CountAfterVote(w.stages[i].decisions, v);
    EarlierStagesAreMet(w, i);
  }

  lemma VoteKeepsVerdict(w: Workflow, v: Vote, i: nat)
    requires WorkflowInv(w) && w.state == Pending && CurrentStage(w.stages) == Some(i)
    ensures VerdictSound(ApplyDecision(w, v))
    ensures ApplyDecision(w, v).state != Approved && v.approved ==> !AllQuorumsMet(ApplyDecision(w, v).stages)
  {
    var w' := ApplyDecision(w, v);
    RejectionAfterVote(w.stages[i], v);
    EarlierStagesAreMet(w, i);
    assert w'.stages[i] == WithVote(w.stages[i], v);
    if AnyRejection(w'.stages) {
      var j :| 0 <= j < |w'.stages| && HasRejection(w'.stages[j]);
      assert j == i;
    }
    assert !v.approved ==> HasRejection(w'.stages[i]);
  }

  lemma WorkflowInvPreserved(w: Workflow, v: Vote, nowMs: int)
    requires WorkflowInv(w)
    ensures WorkflowInv(Decide(w, v, nowMs).1)
  {
    if Decide(w, v, nowMs).1.stages != w.stages {
      var i := VoteLands(w, v, nowMs);
      VoteKeepsStages(w, v, i);
      VoteKeepsVerdict(w, v, i);
      DecideKeepsShape(w, v, nowMs);
    }
  }

  /** What the start of a run fixes about every later state. */
  ghost predicate SinceStart(w0: Workflow, w: Workflow) {
    WorkflowInv(w) && SameChain(w0, w) && Undecided(w0, w)
  }

  /** Short of a verdict some approval is missing, or none was ever asked for and none was given. */
  predicate Undecided(w0: Workflow, w: Workflow) {
    if Missing(w0.stages) == 0
    then w.stages == w0.stages && w.state in {Pending, Expired}
    else w.state in {Pending, Expired} ==> !AllQuorumsMet(w.stages)
  }

  lemma ChainsCompose(w0: Workflow, w: Workflow, w': Workflow)
    requires SameChain(w0, w) && SameChain(w, w')
    ensures SameChain(w0, w')
  {
  }

  lemma NothingAskedNoVote(w0: Workflow, w: Workflow, v: Vote, nowMs: int)
    requires Untouched(w0) && Missing(w0.stages) == 0 && Indexed(w) && Undecided(w0, w)
    ensures Undecided(w0, Decide(w, v, nowMs).1)
  {
    NothingMissing(w0.stages);
    if Decide(w, v, nowMs).1.stages != w.stages {
      var i := VoteLands(w, v, nowMs);
    }
  }

  lemma UndecidedStays(w0: Workflow, w: Workflow, v: Vote, nowMs: int)
    requires Missing(w0.stages) > 0 && WorkflowInv(w) && Undecided(w0, w)
    ensures Undecided(w0, Decide(w, v, nowMs).1)
  {
    if Decide(w, v, nowMs).1.stages != w.stages {
      var i := VoteLands(w, v, nowMs);
      VoteKeepsVerdict(w, v, i);
    }
  }

  lemma SinceStartPreserved(w0: Workflow, w: Workflow, v: Vote, nowMs: int)
    requires Untouched(w0) && SinceStart(w0, w)
    ensures SinceStart(w0, Decide(w, v, nowMs).1)
  {
    WorkflowInvPreserved(w, v, nowMs);
    DecideKeepsShape(w, v, nowMs);
    ChainsCompose(w0, w, Decide(w, v, nowMs).1);
    if Missing(w0.stages) == 0 {
      NothingAskedNoVote(w0, w, v, nowMs);
    } else {
      UndecidedStays(w0, w, v, nowMs);
    }
  }

  lemma {:induction false} SinceStartAlways(w0: Workflow, w: Workflow, ds: seq<(Vote, int)>)
    requires Untouched(w0) && SinceStart(w0, w)
    ensures SinceStart(w0, DecideAll(w, ds))
    decreases |ds|
  {
    if ds != [] {
      SinceStartPreserved(w0, w, ds[0].0, ds[0].1);
      SinceStartAlways(w0, Decide(w, ds[0].0, ds[0].1).1, ds[1..]);
    }
  }

  lemma UntouchedIsSound(w0: Workflow)
    requires Untouched(w0)
    ensures SinceStart(w0, w0)
  {
    NothingMissing(w0.stages);
  }

  /**
   Whatever sequence of decisions arrives, by whomever and whenever: the workflow
   is approved exactly when every stage holds precisely its quorum of approvals
   and no rejection, unless the chain asked for no approval to begin with. Such a
   chain has no current stage, so no decision ever reaches it.
   */
  lemma ApprovedIff(w0: Workflow, ds: seq<(Vote, int)>)
    requires Untouched(w0)
    ensures
      var w := DecideAll(w0, ds);
      w.state == Approved <==>
        && Missing(w0.stages) > 0
        && forall i :: 0 <= i < |w.stages| ==>
             ApprovalCount(w.stages[i].decisions) == w.stages[i].minApprovals && !HasRejection(w.stages[i])
  {
    UntouchedIsSound(w0);
    SinceStartAlways(w0, w0, ds);
    var w := DecideAll(w0, ds);
    if w.state != Approved && forall i :: 0 <= i < |w.stages| ==>
      ApprovalCount(w.stages[i].decisions) == w.stages[i].minApprovals && !HasRejection(w.stages[i])
    {
      assert AllQuorumsMet(w.stages);
    }
  }

  /** Every recorded vote is from an allowed role, counted once per operator, and stages fill strictly in order. */
  lemma VotesAreProper(w0: Workflow, ds: seq<(Vote, int)>)
    requires Untouched(w0)
    ensures
      var w := DecideAll(w0, ds);
      && SameChain(w0, w)
      && StagesSound(w.stages)
      && (w.state == Rejected <==> AnyRejection(w.stages))
  {
    UntouchedIsSound(w0);
    SinceStartAlways(w0, w0, ds);
  }

  /** The vote a recorded approval adds is one fewer that is missing. */
  lemma ApprovalReducesMissing(w: Workflow, v: Vote, i: nat)
    requires WorkflowInv(w) && w.state == Pending && CurrentStage(w.stages) == Some(i)
    ensures Missing(ApplyDecision(w, v).stages) + (if v.approved then 1 else 0) == Missing(w.stages)
    ensures v.approved ==> (ApplyDecision(w, v).state == Approved <==> Missing(ApplyDecision(w, v).stages) == 0)
  {
    var s := WithVote(w.stages[i], v);
    CountAfterVote(w.stages[i].decisions, v);
    MissingAfterUpdate(w.stages, i, s);
    VoteKeepsVerdict(w, v, i);
    NothingMissing(ApplyDecision(w, v).stages);
  }

  /** After an approval that leaves the workflow live, the next stage is a real one, at or after the voted stage. */
  lemma NextStageExists(w: Workflow, v: Vote, i: nat)
    requires WorkflowInv(w) && w.state == Pending && CurrentStage(w.stages) == Some(i)
    requires v.approved && ApplyDecision(w, v).state == Pending
    ensures
      var next := CurrentStage(ApplyDecision(w, v).stages);
      next.Some? && i <= next.value && (i == next.value <==> !QuorumMet(ApplyDecision(w, v).stages[i]))
  {
    var w' := ApplyDecision(w, v);
    VoteKeepsVerdict(w, v, i);
    EarlierStagesAreMet(w, i);
    var j :| 0 <= j < |w'.stages| && !QuorumMet(w'.stages[j]);
    assert IsPending(w'.stages[j]);
    assert forall k :: 0 <= k < i ==> QuorumMet(w'.stages[k]);
  }

  predicate CountsVote(o: Outcome) {
    o.WasApproved? || o.WasRejected? || o.StageAdvanced? || o.QuorumProgress?
  }

  lemma CountingAnswersRecord(w: Workflow, v: Vote, nowMs: int)
    requires Indexed(w)
    ensures CountsVote(Decide(w, v, nowMs).0) ==> Decide(w, v, nowMs).1.stages != w.stages
  {
    if CountsVote(Decide(w, v, nowMs).0) {
      var i := CurrentStage(w.stages).value;
      assert Decide(w, v, nowMs).1.stages[i] == WithVote(w.stages[i], v);
      assert |WithVote(w.stages[i], v).decisions| == |w.stages[i].decisions| + 1;
    }
  }

  /** What an answer says about the workflow before and after. */
  predicate Means(o: Outcome, w: Workflow, w': Workflow, v: Vote) {
    match o
    case WasApproved => w.state == Pending && w'.state == Approved && Missing(w'.stages) == 0 && Missing(w.stages) == 1
    case StageAdvanced(done, next, role) =>
      && w'.state == Pending && Missing(w'.stages) + 1 == Missing(w.stages) && done < next
      && CurrentStage(w.stages) == Some(done) && CurrentStage(w'.stages) == Some(next)
      && (role.None? <==> w'.stages[next].allowedRoles == [])
      && (role.Some? ==> role.value == w'.stages[next].allowedRoles[0])
    case QuorumProgress(stage, soFar, required) =>
      && w'.state == Pending && Missing(w'.stages) + 1 == Missing(w.stages)
      && CurrentStage(w.stages) == Some(stage) && CurrentStage(w'.stages) == Some(stage)
      && required == w.stages[stage].minApprovals && soFar + MissingInStage(w'.stages[stage]) == required && soFar < required
    case WasRejected =>
      w.state == Pending && w'.state == Rejected && !v.approved && Missing(w'.stages) == Missing(w.stages)
    case LeaseExpired => w.state == Pending && w' == w.(state := Expired)
    case _ => w' == w
  }

  lemma RecordedVoteMeans(w: Workflow, v: Vote, i: nat)
    requires WorkflowInv(w) && w.state == Pending && CurrentStage(w.stages) == Some(i)
    requires Indexed(ApplyDecision(w, v))
    ensures Means(VoteOutcome(i, ApplyDecision(w, v)), w, ApplyDecision(w, v), v)
  {
    ApprovalReducesMissing(w, v, i);
    if v.approved && ApplyDecision(w, v).state == Pending {
      NextStageExists(w, v, i);
    }
  }

  /**
   What each answer to a decision means. A progress answer is worth exactly one
   missing approval; a refusal leaves the workflow as it was; expiry counts no
   vote. The stage named as next is always the stage that is current afterwards.
   */
  lemma OutcomeMeaning(w: Workflow, v: Vote, nowMs: int)
    requires WorkflowInv(w)
    ensures Means(Decide(w, v, nowMs).0, w, Decide(w, v, nowMs).1, v)
  {
    CountingAnswersRecord(w, v, nowMs);
    if Decide(w, v, nowMs).1.stages != w.stages {
      var i := VoteLands(w, v, nowMs);
      DecideKeepsShape(w, v, nowMs);
      RecordedVoteMeans(w, v, i);
    }
  }

  // ── Which votes count ───────────────────────────────────────────────────

  /** The lease of the workflow ended before the decision. */
  predicate TooLate(w: Workflow, nowMs: int) {
    w.expiresAtMs.Some? && w.expiresAtMs.value < nowMs
  }

  predicate WrongRole(s: Stage, v: Vote) {
    s.allowedRoles != [] && forall r :: r in s.allowedRoles ==> v.approverRole != Some(r)
  }

  predicate SameOperatorAgain(s: Stage, v: Vote) {
    v.operatorId.Some? && exists k :: 0 <= k < |s.decisions| && s.decisions[k].operatorId == v.operatorId
  }

  /**
   A live workflow refuses a vote for one of three reasons, in this order, and
   records every other vote in its current stage, as the last one.
   */
  lemma VoteIsCountedIff(w: Workflow, v: Vote, nowMs: int, i: nat)
    requires WorkflowInv(w) && w.state == Pending && CurrentStage(w.stages) == Some(i)
    ensures
      var (o, w') := Decide(w, v, nowMs);
      var late, misfit := TooLate(w, nowMs), WrongRole(w.stages[i], v);
      var again := SameOperatorAgain(w.stages[i], v);
      && (o.LeaseExpired? <==> late)
      && (o.RoleMismatch? <==> !late && misfit)
      && (o.DuplicateOperator? <==> !late && !misfit && again)
      && (o.DuplicateOperator? ==> Some(o.operatorId) == v.operatorId && o.stage == i)
      && (!late && !misfit && !again ==>
            && w'.stages == w.stages[i := w.stages[i].(decisions := w.stages[i].decisions + [v])]
            && (o.WasRejected? <==> !v.approved) && (o.WasApproved? <==> w'.state == Approved))
      && !o.AlreadyDecided? && !o.NotFound?
  {
    VoteMatchesAnswer(w, v, i);
  }

  lemma VoteMatchesAnswer(w: Workflow, v: Vote, i: nat)
    requires WorkflowInv(w) && w.state == Pending && CurrentStage(w.stages) == Some(i)
    ensures VoteOutcome(i, ApplyDecision(w, v)).WasRejected? <==> !v.approved
    ensures VoteOutcome(i, ApplyDecision(w, v)).WasApproved? <==> ApplyDecision(w, v).state == Approved
  {
  }

  /** The stage the k-th further approval goes to. */
  function SeatOf(stages: seq<Stage>, k: nat): nat
    requires k < Missing(stages)
    ensures SeatOf(stages, k) < |stages|
  {
    if k < MissingInStage(stages[0]) then 0 else 1 + SeatOf(stages[1..], k - MissingInStage(stages[0]))
  }

  /** Approvals whose roles the stages in turn take. */
  predicate InSeats(stages: seq<Stage>, vs: seq<Vote>) {
    && |vs| == Missing(stages)
    && forall k :: 0 <= k < |vs| ==> vs[k].approved && !WrongRole(stages[SeatOf(stages, k)], vs[k])
  }

  /** Different named operators, none of whom has voted yet. */
  predicate Newcomers(stages: seq<Stage>, vs: seq<Vote>) {
    && (forall k :: 0 <= k < |vs| ==> vs[k].operatorId.Some?)
    && (forall k, l :: 0 <= k < l < |vs| ==> vs[k].operatorId != vs[l].operatorId)
    && (forall k, i :: 0 <= k < |vs| && 0 <= i < |stages| ==> !SameOperatorAgain(stages[i], vs[k]))
  }

  lemma {:induction false} FirstSeatIsCurrent(stages: seq<Stage>)
    requires Missing(stages) > 0 && forall i :: 0 <= i < |stages| ==> !HasRejection(stages[i])
    ensures CurrentStage(stages) == Some(SeatOf(stages, 0))
  {
    if QuorumMet(stages[0]) {
      FirstSeatIsCurrent(stages[1..]);
    }
  }

  /** An approval in the current stage moves everybody up by one seat. */
  lemma {:induction false} SeatsMoveUp(stages: seq<Stage>, v: Vote, i: nat, k: nat)
    requires v.approved && k + 1 < Missing(stages) && i == SeatOf(stages, 0)
    ensures Missing(stages[i := WithVote(stages[i], v)]) + 1 == Missing(stages)
    ensures SeatOf(stages[i := WithVote(stages[i], v)], k) == SeatOf(stages, k + 1)
  {
    CountAfterVote(stages[i].decisions, v);
    if i > 0 {
      assert stages[i := WithVote(stages[i], v)][1..] == stages[1..][i - 1 := WithVote(stages[i], v)];
      SeatsMoveUp(stages[1..], v, i - 1, k);
    } else {
      assert stages[0 := WithVote(stages[0], v)][1..] == stages[1..];
    }
  }

  lemma OthersMoveUp(stages: seq<Stage>, vs: seq<Vote>, i: nat)
    requires |vs| > 1 && InSeats(stages, vs) && i == SeatOf(stages, 0)
    ensures InSeats(stages[i := WithVote(stages[i], vs[0])], vs[1..])
  {
    var stages' := stages[i := WithVote(stages[i], vs[0])];
    SeatsMoveUp(stages, vs[0], i, 0);
    forall k | 0 <= k < |vs[1..]| ensures vs[1..][k].approved && !WrongRole(stages'[SeatOf(stages', k)], vs[1..][k]) {
      SeatsMoveUp(stages, vs[0], i, k);
      assert vs[1..][k] == vs[k + 1];
    }
  }

  lemma StillNew(s: Stage, v: Vote, other: Vote)
    requires !SameOperatorAgain(s, other) && v.operatorId != other.operatorId
    ensures !SameOperatorAgain(WithVote(s, v), other)
  {
  }

  lemma OthersStayNew(stages: seq<Stage>, vs: seq<Vote>, i: nat)
    requires |vs| > 0 && Newcomers(stages, vs) && i < |stages|
    ensures Newcomers(stages[i := WithVote(stages[i], vs[0])], vs[1..])
  {
    var stages', rest := stages[i := WithVote(stages[i], vs[0])], vs[1..];
    assert forall k :: 0 <= k < |rest| ==> rest[k] == vs[k + 1];
    forall k, j | 0 <= k < |rest| && 0 <= j < |stages| ensures !SameOperatorAgain(stages'[j], rest[k]) {
      assert !SameOperatorAgain(stages[j], vs[k + 1]);
      if j == i { StillNew(stages[i], vs[0], vs[k + 1]); }
    }
  }

  function At(vs: seq<Vote>, nowMs: int): seq<(Vote, int)> { seq(|vs|, k requires 0 <= k < |vs| => (vs[k], nowMs)) }

  lemma FirstHasASeat(w: Workflow, vs: seq<Vote>)
    requires WorkflowInv(w) && w.state == Pending && Missing(w.stages) > 0
    requires InSeats(w.stages, vs) && Newcomers(w.stages, vs)
    ensures
      var i := SeatOf(w.stages, 0);
      && CurrentStage(w.stages) == Some(i) && vs[0].approved
      && !WrongRole(w.stages[i], vs[0]) && !SameOperatorAgain(w.stages[i], vs[0])
  {
    EarlierRejectionsNone(w);
    FirstSeatIsCurrent(w.stages);
  }

  /** Such an approval is recorded in its stage, and the last one that is missing approves. */
  lemma ApprovalIsRecorded(w: Workflow, v: Vote, nowMs: int, i: nat)
    requires WorkflowInv(w) && w.state == Pending && w.expiresAtMs == None && CurrentStage(w.stages) == Some(i)
    requires v.approved && !WrongRole(w.stages[i], v) && !SameOperatorAgain(w.stages[i], v)
    ensures
      var w' := Decide(w, v, nowMs).1;
      && WorkflowInv(w') && w'.stages == w.stages[i := WithVote(w.stages[i], v)] && w'.expiresAtMs == None
      && w'.state == if Missing(w.stages) == 1 then Approved else Pending
  {
    VoteIsCountedIff(w, v, nowMs, i);
    WorkflowInvPreserved(w, v, nowMs);
    DecideKeepsShape(w, v, nowMs);
    assert Decide(w, v, nowMs).1 == ApplyDecision(w, v);
    ApprovalReducesMissing(w, v, i);
  }

  /** Once the first of them has voted, the others are in the same position. */
  lemma OthersAreNext(w: Workflow, vs: seq<Vote>, nowMs: int)
    requires WorkflowInv(w) && w.state == Pending && Missing(w.stages) > 0 && w.expiresAtMs == None
    requires InSeats(w.stages, vs) && Newcomers(w.stages, vs) && |vs| > 1
    ensures
      var w' := Decide(w, vs[0], nowMs).1;
      && WorkflowInv(w') && w'.state == Pending && Missing(w'.stages) > 0 && w'.expiresAtMs == None
      && InSeats(w'.stages, vs[1..]) && Newcomers(w'.stages, vs[1..])
  {
    FirstHasASeat(w, vs);
    var i := SeatOf(w.stages, 0);
    ApprovalIsRecorded(w, vs[0], nowMs, i);
    OthersMoveUp(w.stages, vs, i);
    OthersStayNew(w.stages, vs, i);
  }

  lemma LastOneApproves(w: Workflow, vs: seq<Vote>, nowMs: int)
    requires WorkflowInv(w) && w.state == Pending && Missing(w.stages) > 0 && w.expiresAtMs == None
    requires InSeats(w.stages, vs) && Newcomers(w.stages, vs) && |vs| == 1
    ensures Decide(w, vs[0], nowMs).1.state == Approved
  {
    FirstHasASeat(w, vs);
    ApprovalIsRecorded(w, vs[0], nowMs, SeatOf(w.stages, 0));
  }

  lemma {:induction false} NewcomersInSeatsApprove(w: Workflow, vs: seq<Vote>, nowMs: int)
    requires WorkflowInv(w) && w.state == Pending && Missing(w.stages) > 0 && w.expiresAtMs == None
    requires InSeats(w.stages, vs) && Newcomers(w.stages, vs)
    ensures DecideAll(w, At(vs, nowMs)).state == Approved
    decreases |vs|
  {
    assert At(vs, nowMs)[1..] == At(vs[1..], nowMs);
    if |vs| > 1 {
      OthersAreNext(w, vs, nowMs);
      NewcomersInSeatsApprove(Decide(w, vs[0], nowMs).1, vs[1..], nowMs);
    } else {
      LastOneApproves(w, vs, nowMs);
    }
  }

  lemma EarlierRejectionsNone(w: Workflow)
    requires WorkflowInv(w) && w.state == Pending
    ensures forall i :: 0 <= i < |w.stages| ==> !HasRejection(w.stages[i])
  {
  }

  /**
   An approval can be had: on a fresh workflow without a lease, as many approvals
   as its quorums ask for, by different operators in the roles of the stages in
   turn, approve it. No stage waits for anything else.
   */
  lemma ApprovalIsWithinReach(w0: Workflow, vs: seq<Vote>, nowMs: int)
    requires Untouched(w0) && w0.expiresAtMs == None && Missing(w0.stages) > 0
    requires |vs| == Missing(w0.stages)
    requires forall k :: 0 <= k < |vs| ==>
      vs[k].approved && vs[k].operatorId.Some? && !WrongRole(w0.stages[SeatOf(w0.stages, k)], vs[k])
    requires forall k, l :: 0 <= k < l < |vs| ==> vs[k].operatorId != vs[l].operatorId
    ensures DecideAll(w0, At(vs, nowMs)).state == Approved
  {
    UntouchedIsSound(w0);
    NewcomersInSeatsApprove(w0, vs, nowMs);
  }

  /** A chain that asks for no approval is stuck: whatever arrives it takes no vote, and only its lease can end it. */
  lemma NothingAskedNothingSettled(w0: Workflow, ds: seq<(Vote, int)>)
    requires Untouched(w0) && Missing(w0.stages) == 0
    ensures DecideAll(w0, ds).stages == w0.stages && DecideAll(w0, ds).state in {Pending, Expired}
    ensures w0.expiresAtMs == None ==> DecideAll(w0, ds) == w0
  {
    UntouchedIsSound(w0);
    SinceStartAlways(w0, w0, ds);
    if w0.expiresAtMs == None {
      NoLeaseNoExpiry(w0, ds);
    }
  }

  lemma {:induction false} NoLeaseNoExpiry(w: Workflow, ds: seq<(Vote, int)>)
    requires Indexed(w) && w.expiresAtMs == None && w.state == Pending
    ensures DecideAll(w, ds).expiresAtMs == None && DecideAll(w, ds).state != Expired
    decreases |ds|
  {
    if ds != [] {
      var w' := Decide(w, ds[0].0, ds[0].1).1;
      DecideKeepsShape(w, ds[0].0, ds[0].1);
      if w'.state == Pending {
        NoLeaseNoExpiry(w', ds[1..]);
      } else {
        TerminalWorkflowIsFrozen(w', ds[1..]);
      }
    }
  }

  /** The empty chain is such: every decision is answered `AlreadyDecided` while it stays pending. */
  lemma EmptyChainIsStuck(v: Vote, nowMs: int)
    ensures
      var w := Workflow(Pending, [], None);
      Untouched(w) && Decide(w, v, nowMs) == (AlreadyDecided, w)
  {
  }

  /** A terminal workflow never changes again. */
  lemma {:induction false} TerminalWorkflowIsFrozen(w: Workflow, ds: seq<(Vote, int)>)
    requires Indexed(w) && IsTerminal(w.state)
    ensures DecideAll(w, ds) == w
    decreases |ds|
  {
    if ds != [] {
      TerminalWorkflowIsFrozen(w, ds[1..]);
    }
  }

  /** Decisions never add to what is missing. */
  lemma {:induction false} MissingNeverGrows(w: Workflow, ds: seq<(Vote, int)>)
    requires WorkflowInv(w)
    ensures Missing(DecideAll(w, ds).stages) <= Missing(w.stages)
    decreases |ds|
  {
    if ds != [] {
      OutcomeMeaning(w, ds[0].0, ds[0].1);
      WorkflowInvPreserved(w, ds[0].0, ds[0].1);
      MissingNeverGrows(Decide(w, ds[0].0, ds[0].1).1, ds[1..]);
    }
  }
}
