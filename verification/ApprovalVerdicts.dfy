/** How many human verdicts on one request the audit log can hold, over all lifetimes of the daemon. */
module ApprovalVerdicts {
  import opened Wrappers
  import opened ApprovalWorkflow
  import opened ApprovalStore
  import opened PendingSigning
  import opened DurableRecovery
  import opened ApprovalCustody
  import opened ApprovalHandover
  import Routing = ApprovalRouting

  // ── Human verdicts in the log ───────────────────────────────────────────

  lemma {:induction false} CountsAdd(rows: seq<Routing.AuditRow>, more: seq<Routing.AuditRow>, id: nat)
    ensures HumanCount(rows + more, id) == HumanCount(rows, id) + HumanCount(more, id)
  {
    if more == [] {
      assert rows + more == rows;
    } else {
      assert (rows + more)[..|rows + more| - 1] == rows + more[..|more| - 1];
      CountsAdd(rows, more[..|more| - 1], id);
    }
  }

  predicate IsVerdictOn(row: Routing.AuditRow, id: nat) { row.requestId == id && Routing.IsHuman(row.eventType) }

  lemma {:induction false} CountedIsThere(rows: seq<Routing.AuditRow>, id: nat) returns (k: nat)
    requires HumanCount(rows, id) > 0
    ensures k < |rows| && IsVerdictOn(rows[k], id)
  {
    k := |rows| - 1;
    if !IsVerdictOn(rows[k], id) {
      k := CountedIsThere(rows[..k], id);
    }
  }

  predicate OneVerdictEach(rows: seq<Routing.AuditRow>) {
    forall k, l :: 0 <= k < l < |rows| && Routing.IsHuman(rows[k].eventType) && Routing.IsHuman(rows[l].eventType) ==>
      rows[k].requestId != rows[l].requestId
  }

  lemma {:induction false} CountedOnce(rows: seq<Routing.AuditRow>, id: nat)
    requires OneVerdictEach(rows)
    ensures HumanCount(rows, id) <= 1
  {
    if rows != [] {
      var init := rows[..|rows| - 1];
      CountedOnce(init, id);
      if HumanCount(init, id) > 0 {
        var k := CountedIsThere(init, id);
        assert rows[k] == init[k];
      }
    }
  }

  lemma VerdictWasAskedFor(o: Opening, w: Workflow)
    requires DurableRecovery.WellFormed(o) && Continues(o, w) && w.state in {Approved, Rejected}
    ensures Missing(StagesOf(o)) > 0
  {
    StagesAgree(o);
  }

  /** A verdict of this lifetime is on a registered request whose row asks for an approval. */
  lemma VerdictHasItsRow(s: State, id: nat)
    requires BaseInv(s) && HumanCount(s.sys.rows, id) > 0
    ensures id in s.sys.registry.workflows && id in s.durable && Missing(StagesOf(s.durable[id].opening)) > 0
  {
    var k := CountedIsThere(s.sys.rows, id);
    assert Routing.RowEvidence(s.sys, s.sys.rows[k]);
    Routing.HumanRowMatchesWorkflow(s.sys, s.sys.rows[k]);
    VerdictWasAskedFor(s.durable[id].opening, s.sys.registry.workflows[id]);
  }

  predicate AsksForApproval(durable: map<nat, DurableRow>, id: nat) {
    id in durable && Missing(StagesOf(durable[id].opening)) > 0
  }

  ghost predicate LogInv(s: State) {
    forall id :: HumanCount(s.past, id) > 0 ==> AsksForApproval(s.durable, id)
  }

  lemma LogInvPreserved(env: Env, s: State, step: Step)
    requires BaseInv(s) && LogInv(s) && Enabled(env, s, step)
    ensures LogInv(Next(env, s, step))
  {
    var s' := Next(env, s, step);
    OpeningsStay(env, s, step);
    forall id | HumanCount(s'.past, id) > 0 ensures AsksForApproval(s'.durable, id) {
      if step.Crash? {
        CountsAdd(s.past, s.sys.rows, id);
        if HumanCount(s.sys.rows, id) > 0 {
          VerdictHasItsRow(s, id);
        }
      }
    }
  }

  lemma {:induction false} LogInvAlways(env: Env, s: State, steps: seq<Step>, s': State)
    requires BaseInv(s) && LogInv(s) && Runs(env, s, steps, s')
    ensures LogInv(s')
    decreases |steps|
  {
    if steps != [] {
      LogInvPreserved(env, s, steps[0]);
      BaseInvPreserved(env, s, steps[0]);
      LogInvAlways(env, Next(env, s, steps[0]), steps[1..], s');
    }
  }

  // ── A second human verdict ──────────────────────────────────────────────

  /** Spent before this lifetime began. */
  predicate Buried(s: State, id: nat) { Spent(s, id) && id !in s.sys.registry.workflows }

  lemma BuriedHasNoVerdict(s: State, id: nat)
    requires BaseInv(s) && Buried(s, id)
    ensures HumanCount(s.sys.rows, id) == 0
  {
    if HumanCount(s.sys.rows, id) > 0 {
      VerdictHasItsRow(s, id);
    }
  }

  lemma BuriedStays(env: Env, s: State, step: Step, id: nat)
    requires KeysInv(s) && DurableInv(s) && Buried(s, id) && Enabled(env, s, step)
    ensures Buried(Next(env, s, step), id)
  {
  }

  lemma CrashKeepsTheLog(s: State, id: nat)
    ensures HumanCount(AfterCrash(s).past, id) == HumanRows(s, id) && HumanCount(AfterCrash(s).sys.rows, id) == 0
  {
    CountsAdd(s.past, s.sys.rows, id);
  }

  lemma LogGrowsInside(env: Env, s: State, step: Step, id: nat)
    requires Enabled(env, s, step) && HumanCount(s.sys.rows, id) == 0 && HumanCount(Next(env, s, step).sys.rows, id) == 0
    ensures HumanRows(Next(env, s, step), id) == HumanRows(s, id)
  {
    if step.Crash? {
      CrashKeepsTheLog(s, id);
    }
  }

  lemma BuriedIsSilent(env: Env, s: State, step: Step, id: nat)
    requires BaseInv(s) && Buried(s, id) && Enabled(env, s, step)
    ensures BaseInv(Next(env, s, step)) && Buried(Next(env, s, step), id)
    ensures HumanRows(Next(env, s, step), id) == HumanRows(s, id)
  {
    BaseInvPreserved(env, s, step);
    BuriedStays(env, s, step, id);
    BuriedHasNoVerdict(s, id);
    BuriedHasNoVerdict(Next(env, s, step), id);
    LogGrowsInside(env, s, step, id);
  }

  lemma {:induction false} BuriedForGood(env: Env, s: State, steps: seq<Step>, s': State, id: nat)
    requires BaseInv(s) && Buried(s, id) && Runs(env, s, steps, s')
    ensures HumanRows(s', id) == HumanRows(s, id)
    decreases |steps|
  {
    if steps != [] {
      BuriedIsSilent(env, s, steps[0], id);
      BuriedForGood(env, Next(env, s, steps[0]), steps[1..], s', id);
    }
  }

  /** A role the first unmet stage accepts. */
  function RoleFor(stages: seq<Stage>): Option<string> {
    if CurrentStage(stages).None? then None else
    var roles := stages[CurrentStage(stages).value].allowedRoles;
    if roles == [] then None else Some(roles[0])
  }

  lemma RejectionSettles(w: Workflow, nowMs: int)
    requires Untouched(w) && Missing(w.stages) > 0 && w.expiresAtMs == None
    ensures ApprovalWorkflow.Decide(w, Vote(false, None, RoleFor(w.stages)), nowMs).0 == WasRejected
  {
    NothingMissing(w.stages);
    var i :| 0 <= i < |w.stages| && !QuorumMet(w.stages[i]);
    assert IsPending(w.stages[i]);
  }

  /** The revived request is undecided again, and a rejection of it enters the log. */
  lemma RevivedIsRejected(env: Env, s: State, id: nat) returns (s': State)
    requires BaseInv(s) && !s.up && AsksForApproval(s.durable, id) && s.durable[id].isPending
    ensures Reaches(env, s, s') && s'.past == s.past
    ensures |s'.sys.rows| == 1 && IsRow(s'.sys.rows[0], id, Routing.HumanRejected)
  {
    var o := s.durable[id].opening;
    var m := RowComesBack(env, s, id);
    SoundAfter(env, s, m);
    StagesAgree(o);
    BothAreUntouched(o.verdict, o.request.requiredRole, None);
    RelaunchedIsArmed(o);
    var vote := Vote(false, None, RoleFor(StagesOf(o)));
    RejectionSettles(RebuiltOf(o), m.clockMs);
    var sys := DecisionIsARun(env, m, id, vote, true);
    s' := m.(sys := sys);
    ReachesThrough(env, s, m, s');
  }

  ghost predicate GetsAnotherVerdict(env: Env, s: State, id: nat) {
    exists s' :: Reaches(env, s, s') && HumanRows(s', id) > HumanRows(s, id)
  }

  /**
   A request on which the log holds a human verdict can get another one, in any
   later lifetime, exactly when its row is still pending while the daemon is down.
   The other verdict may be the opposite one.
   */
  lemma AnotherVerdictIff(env: Env, clockMs: int, s: State, id: nat)
    requires Reaches(env, Start(clockMs), s) && !s.up && HumanRows(s, id) > 0
    ensures id in s.durable
    ensures GetsAnotherVerdict(env, s, id) <==> s.durable[id].isPending
  {
    ReachableIsSound(env, clockMs, s);
    LogIsSound(env, clockMs, s);
    assert AsksForApproval(s.durable, id);
    if s.durable[id].isPending {
      var s' := RevivedIsRejected(env, s, id);
      CountOfOne(s'.sys.rows, id);
    } else if GetsAnotherVerdict(env, s, id) {
      var s' :| Reaches(env, s, s') && HumanRows(s', id) > HumanRows(s, id);
      var more :| Runs(env, s, more, s');
      BuriedForGood(env, s, more, s', id);
    }
  }

  lemma CountOfOne(rows: seq<Routing.AuditRow>, id: nat)
    requires |rows| == 1 && IsVerdictOn(rows[0], id)
    ensures HumanCount(rows, id) == 1
  {
    assert rows[..0] == [];
  }

  lemma LogIsSound(env: Env, clockMs: int, s: State)
    requires Reaches(env, Start(clockMs), s)
    ensures LogInv(s)
  {
    var steps :| Runs(env, Start(clockMs), steps, s);
    StartIsSound(clockMs);
    LogInvAlways(env, Start(clockMs), steps, s);
  }

  /** At most one verdict; one from an earlier lifetime is on a buried request. */
  predicate WindowInv(s: State, id: nat) {
    HumanRows(s, id) <= 1 && (HumanCount(s.past, id) > 0 ==> Buried(s, id))
  }

  lemma OneVerdictPerLifetime(s: State, id: nat)
    requires BaseInv(s)
    ensures HumanCount(s.sys.rows, id) <= 1
  {
    assert OneVerdictEach(s.sys.rows);
    CountedOnce(s.sys.rows, id);
  }

  lemma CrashKeepsTheWindow(env: Env, s: State, id: nat)
    requires env.windowSafe && BaseInv(s) && WindowInv(s, id) && Enabled(env, s, Crash)
    ensures WindowInv(AfterCrash(s), id)
  {
    CrashKeepsTheLog(s, id);
    if HumanRows(s, id) > 0 {
      assert !Exposed(s, id);
      if HumanCount(s.past, id) == 0 {
        VerdictHasItsRow(s, id);
      }
    }
  }

  lemma WindowInvPreserved(env: Env, s: State, step: Step, id: nat)
    requires env.windowSafe && BaseInv(s) && WindowInv(s, id) && Enabled(env, s, step)
    ensures BaseInv(Next(env, s, step)) && WindowInv(Next(env, s, step), id)
  {
    BaseInvPreserved(env, s, step);
    if step.Crash? {
      CrashKeepsTheWindow(env, s, id);
    } else if HumanCount(s.past, id) > 0 {
      BuriedIsSilent(env, s, step, id);
    } else {
      OneVerdictPerLifetime(Next(env, s, step), id);
    }
  }

  lemma {:induction false} WindowInvAlways(env: Env, s: State, steps: seq<Step>, s': State, id: nat)
    requires env.windowSafe && BaseInv(s) && WindowInv(s, id) && Runs(env, s, steps, s')
    ensures WindowInv(s', id)
    decreases |steps|
  {
    if steps != [] {
      WindowInvPreserved(env, s, steps[0], id);
      WindowInvAlways(env, Next(env, s, steps[0]), steps[1..], s', id);
    }
  }

  /** Approved, audited, and the daemon dies before the mark: the next lifetime's rejection is logged beside it. */
  lemma ApprovedThenRejected(env: Env) returns (s: State)
    requires !env.windowSafe
    ensures Reaches(env, Start(0), s) && |s.past| == 1 && |s.sys.rows| == 1
    ensures IsRow(s.past[0], 0, Routing.HumanApproved) && IsRow(s.sys.rows[0], 0, Routing.HumanRejected)
  {
    var s1 := OpenOne(env);
    var sys := ApprovalArrives(env, s1, 0, 0, true);
    var s2 := s1.(sys := sys);
    ReachesThrough(env, Start(0), s1, s2);
    var s3 := AfterCrash(s2);
    ReachesNext(env, s2, Crash);
    ReachesThrough(env, Start(0), s2, s3);
    ReachableIsSound(env, 0, s3);
    OneApprovalSettles(0);
    s := RevivedIsRejected(env, s3, 0);
    ReachesThrough(env, Start(0), s3, s);
  }

  ghost predicate LogsOneVerdict(env: Env) {
    forall clockMs, s, id :: Reaches(env, Start(clockMs), s) ==> HumanRows(s, id) <= 1
  }

  /**
   Over all lifetimes a request gets at most one human verdict in the log exactly
   when the daemon never dies between the audit append and the durable mark.
   */
  lemma OneVerdictIff(env: Env)
    ensures LogsOneVerdict(env) <==> env.windowSafe
  {
    if env.windowSafe {
      forall clockMs, s, id | Reaches(env, Start(clockMs), s) ensures HumanRows(s, id) <= 1 {
        var steps :| Runs(env, Start(clockMs), steps, s);
        StartIsSound(clockMs);
        WindowInvAlways(env, Start(clockMs), steps, s, id);
      }
    } else {
      var s := ApprovedThenRejected(env);
      CountOfOne(s.past, 0);
      CountOfOne(s.sys.rows, 0);
      assert HumanRows(s, 0) == 2;
    }
  }
}
