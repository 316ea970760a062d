/**
 Waiting for finality: a polling loop with doubling, capped sleeps, an overall
 deadline, and a tolerance for consecutive transport errors.
 */
module SignaturePoller {
  import opened Wrappers

  datatype Schedule = Schedule(initialBackoffMs: nat, backoffCapMs: nat, totalTimeoutMs: nat, errTolerance: nat)

  const DEFAULT_SCHEDULE := Schedule(2_000, 8_000, 120_000, 3)
  const U64_MAX: nat := 0xFFFF_FFFF_FFFF_FFFF
  const U32_MAX: nat := 0xFFFF_FFFF

  /** The fields have the source's widths. */
  predicate Fits(s: Schedule) {
    && s.initialBackoffMs <= U64_MAX && s.backoffCapMs <= U64_MAX && s.totalTimeoutMs <= U64_MAX
    && s.errTolerance <= U32_MAX
  }

  /** What one `getSignatureStatuses` call brings back. */
  datatype Reply =
    | TransportError(message: string)
    | NoStatus
    | Status(err: Option<string>, confirmationStatus: Option<string>, slot: Option<nat>)

  datatype SigStatus =
    | NotFound
    | Pending(confirmation: string)
    | Failed(reason: string)
    | Succeeded(slot: nat, confirmation: string)

  /** What the last reply was, as the timeout reports it. */
  datatype LastStatus = SaidNotFound | SaidPending(confirmation: string) | SaidSucceeded(confirmation: string) | SaidError(message: string)

  datatype Outcome = Finalized(slot: nat) | Timeout(lastStatus: Option<LastStatus>) | OnChainFailure(reason: string)

  /** The k-th query: how late its sleep ends, how long it takes, what it says. */
  datatype Env = Env(lagMs: nat -> nat, delayMs: nat -> nat, reply: nat -> Reply)

  datatype Poll =
    | Polling(queries: nat, nowMs: nat, backoffMs: nat, consecutiveErrs: nat, lastStatus: Option<LastStatus>)
    | Done(outcome: Outcome, queries: nat, tooManyErrors: bool)

  function Min(a: nat, b: nat): nat { if a < b then a else b }

  function SatDouble(x: nat): nat { Min(2 * x, U64_MAX) }

  /** Only `finalized` counts as success; a missing confirmation reads as `processed`. */
  function StatusOf(r: Reply): Result<SigStatus, string> {
    match r
    case TransportError(e) => Failure(e)
    case NoStatus => Success(NotFound)
    case Status(err, confirmation, slot) =>
      if err.Some? then Success(Failed(err.value)) else
      var conf := if confirmation.Some? then confirmation.value else "processed";
      if conf == "finalized" then Success(Succeeded(if slot.Some? then slot.value else 0, conf))
      else Success(Pending(conf))
  }

  function NextBackoff(s: Schedule, backoffMs: nat): nat { Min(SatDouble(backoffMs), s.backoffCapMs) }

  /** What the loop makes of a reply. */
  function Heard(s: Schedule, p: Poll, nowMs: nat, reply: Result<SigStatus, string>): Poll
    requires p.Polling?
  {
    var n, backoffMs := p.queries + 1, NextBackoff(s, p.backoffMs);
    match reply
    case Success(NotFound) => Polling(n, nowMs, backoffMs, 0, Some(SaidNotFound))
    case Success(Pending(conf)) => Polling(n, nowMs, backoffMs, 0, Some(SaidPending(conf)))
    case Success(Failed(err)) => Done(OnChainFailure(err), n, false)
    case Success(Succeeded(slot, conf)) =>
      if conf == "finalized" then Done(Finalized(slot), n, false)
      else Polling(n, nowMs, backoffMs, p.consecutiveErrs, Some(SaidSucceeded(conf)))
    case Failure(e) =>
      var errs := Min(p.consecutiveErrs + 1, U32_MAX);
      if errs > s.errTolerance then Done(Timeout(Some(SaidError(e))), n, true)
      else Polling(n, nowMs, backoffMs, errs, Some(SaidError(e)))
  }

  /** One turn of the loop. */
  function Turn(s: Schedule, env: Env, p: Poll): Poll {
    if p.Done? then p else
    if p.nowMs >= s.totalTimeoutMs then Done(Timeout(p.lastStatus), p.queries, false) else
    var wokenMs := p.nowMs + Min(p.backoffMs, s.backoffCapMs) + env.lagMs(p.queries);
    if wokenMs >= s.totalTimeoutMs then Done(Timeout(p.lastStatus), p.queries, false)
    else Heard(s, p, wokenMs + env.delayMs(p.queries), StatusOf(env.reply(p.queries)))
  }

  function After(s: Schedule, env: Env, turns: nat): Poll {
    if turns == 0 then Polling(0, 0, s.initialBackoffMs, 0, None) else Turn(s, env, After(s, env, turns - 1))
  }

  // ── The sleeps ──────────────────────────────────────────────────────────

  function Pow2(k: nat): nat { if k == 0 then 1 else 2 * Pow2(k - 1) }

  function Doubled(x: nat, k: nat): nat { if k == 0 then x else 2 * Doubled(x, k - 1) }

  lemma {:induction false} DoubledIsPower(x: nat, k: nat)
    ensures Doubled(x, k) == x * Pow2(k)
  {
    if k > 0 {
      DoubledIsPower(x, k - 1);
    }
  }

  /** The sleep before query k, counted from zero. */
  function Sleep(s: Schedule, k: nat): nat { Min(Doubled(s.initialBackoffMs, k), s.backoffCapMs) }

  lemma SleepIsCappedPower(s: Schedule, k: nat)
    ensures Sleep(s, k) == Min(s.initialBackoffMs * Pow2(k), s.backoffCapMs)
  {
    DoubledIsPower(s.initialBackoffMs, k);
  }

  function SleepSum(s: Schedule, k: nat): nat { if k == 0 then 0 else SleepSum(s, k - 1) + Sleep(s, k - 1) }

  /** The clock, the backoff and the count are where k sleeps put them. */
  predicate OnSchedule(s: Schedule, p: Poll, k: nat) {
    && p.Polling? && p.queries == k && p.nowMs >= SleepSum(s, k)
    && Min(p.backoffMs, s.backoffCapMs) == Sleep(s, k)
  }

  /** Saturation is invisible under the cap. */
  lemma CappedDoubling(s: Schedule, backoffMs: nat)
    requires Fits(s)
    ensures Min(NextBackoff(s, backoffMs), s.backoffCapMs) == Min(2 * Min(backoffMs, s.backoffCapMs), s.backoffCapMs)
  {
  }

  lemma SleepDoubles(s: Schedule, k: nat)
    ensures Sleep(s, k + 1) == Min(2 * Sleep(s, k), s.backoffCapMs)
  {
  }

  lemma HeardGoesOn(s: Schedule, p: Poll, nowMs: nat, reply: Result<SigStatus, string>)
    requires p.Polling? && Heard(s, p, nowMs, reply).Polling?
    ensures
      var p' := Heard(s, p, nowMs, reply);
      p'.queries == p.queries + 1 && p'.nowMs == nowMs && p'.backoffMs == NextBackoff(s, p.backoffMs)
  {
  }

  lemma TurnStaysOnSchedule(s: Schedule, env: Env, p: Poll, k: nat)
    requires Fits(s) && OnSchedule(s, p, k) && Turn(s, env, p).Polling?
    ensures OnSchedule(s, Turn(s, env, p), k + 1)
  {
    var wokenMs := p.nowMs + Min(p.backoffMs, s.backoffCapMs) + env.lagMs(p.queries);
    HeardGoesOn(s, p, wokenMs + env.delayMs(p.queries), StatusOf(env.reply(p.queries)));
    CappedDoubling(s, p.backoffMs);
    SleepDoubles(s, k);
  }

  lemma StartsOnSchedule(s: Schedule, env: Env)
    ensures OnSchedule(s, After(s, env, 0), 0)
  {
  }

  lemma {:induction false} AlwaysOnSchedule(s: Schedule, env: Env, turns: nat)
    requires Fits(s) && After(s, env, turns).Polling?
    ensures OnSchedule(s, After(s, env, turns), turns)
  {
    if turns == 0 {
      StartsOnSchedule(s, env);
    } else {
      AlwaysOnSchedule(s, env, turns - 1);
      TurnStaysOnSchedule(s, env, After(s, env, turns - 1), turns - 1);
    }
  }

  /**
   As long as the loop runs, each turn made one query, the next sleep is
   `min(initial * 2^k, cap)` although the doubling saturates, and at least the
   sum of the sleeps has passed.
   */
  lemma SleepSchedule(s: Schedule, env: Env, turns: nat)
    requires Fits(s) && After(s, env, turns).Polling?
    ensures
      var p := After(s, env, turns);
      && p.queries == turns
      && Min(p.backoffMs, s.backoffCapMs) == Sleep(s, turns) == Min(s.initialBackoffMs * Pow2(turns), s.backoffCapMs)
      && p.nowMs >= SleepSum(s, turns)
  {
    AlwaysOnSchedule(s, env, turns);
    SleepIsCappedPower(s, turns);
  }

  lemma {:induction false} PollingBefore(s: Schedule, env: Env, turns: nat, earlier: nat)
    requires After(s, env, turns).Polling? && earlier <= turns
    ensures After(s, env, earlier).Polling?
    decreases turns
  {
    if earlier < turns {
      PollingBefore(s, env, turns - 1, earlier);
    }
  }

  predicate QueriedInTime(s: Schedule, queries: nat) {
    queries > 0 ==> SleepSum(s, queries) < s.totalTimeoutMs
  }

  lemma HeardCounts(s: Schedule, p: Poll, nowMs: nat, reply: Result<SigStatus, string>)
    requires p.Polling?
    ensures Heard(s, p, nowMs, reply).queries == p.queries + 1
  {
  }

  /** A turn that queries does so after its sleep and before the deadline. */
  lemma TurnQueriesInTime(s: Schedule, env: Env, p: Poll, k: nat)
    requires OnSchedule(s, p, k) && QueriedInTime(s, k)
    ensures QueriedInTime(s, Turn(s, env, p).queries)
  {
    var wokenMs := p.nowMs + Min(p.backoffMs, s.backoffCapMs) + env.lagMs(p.queries);
    HeardCounts(s, p, wokenMs + env.delayMs(p.queries), StatusOf(env.reply(p.queries)));
  }

  /** Every query, the last one included, is sent before the deadline and after all the sleeps up to it. */
  lemma {:induction false} QueriesBeforeDeadline(s: Schedule, env: Env, turns: nat)
    requires Fits(s)
    ensures QueriedInTime(s, After(s, env, turns).queries)
  {
    if turns > 0 {
      QueriesBeforeDeadline(s, env, turns - 1);
      var before := After(s, env, turns - 1);
      if before.Polling? {
        AlwaysOnSchedule(s, env, turns - 1);
        TurnQueriesInTime(s, env, before, turns - 1);
      }
    }
  }

  // ── The default schedule ────────────────────────────────────────────────

  lemma {:induction false} DefaultSleeps(k: nat)
    requires k >= 2
    ensures Sleep(DEFAULT_SCHEDULE, k) == 8_000 && Doubled(2_000, k) >= 8_000
    ensures SleepSum(DEFAULT_SCHEDULE, k) == 8_000 * k - 10_000
  {
    if k > 2 {
      DefaultSleeps(k - 1);
    } else {
      assert Doubled(2_000, 0) == 2_000 && Doubled(2_000, 1) == 4_000;
      assert SleepSum(DEFAULT_SCHEDULE, 1) == 2_000;
    }
  }

  /** The default schedule never asks more than 16 times, whatever the network does. */
  lemma AtMostSixteenQueries(env: Env, turns: nat)
    ensures After(DEFAULT_SCHEDULE, env, turns).queries <= 16
  {
    var n := After(DEFAULT_SCHEDULE, env, turns).queries;
    if n > 16 {
      QueriesBeforeDeadline(DEFAULT_SCHEDULE, env, turns);
      DefaultSleeps(n);
    }
  }

  function Idle(): Env { Env(_ => 0, _ => 0, _ => NoStatus) }

  lemma IdleTurn(s: Schedule, p: Poll)
    requires p.Polling? && p.nowMs + Min(p.backoffMs, s.backoffCapMs) < s.totalTimeoutMs
    ensures
      var nowMs := p.nowMs + Min(p.backoffMs, s.backoffCapMs);
      Turn(s, Idle(), p) == Polling(p.queries + 1, nowMs, NextBackoff(s, p.backoffMs), 0, Some(SaidNotFound))
  {
  }

  lemma {:induction false} IdleTurns(s: Schedule, turns: nat)
    requires Fits(s) && SleepSum(s, turns) < s.totalTimeoutMs
    ensures
      var p := After(s, Idle(), turns);
      && p.Polling? && p.queries == turns && p.nowMs == SleepSum(s, turns)
      && (turns > 0 ==> p.lastStatus == Some(SaidNotFound))
  {
    if turns > 0 {
      IdleTurns(s, turns - 1);
      SleepSchedule(s, Idle(), turns - 1);
      IdleTurn(s, After(s, Idle(), turns - 1));
    }
  }

  /** Sixteen is reached: a network that answers at once and knows nothing is asked sixteen times. */
  lemma SixteenQueriesHappen(s: Schedule, turns: nat)
    requires s == DEFAULT_SCHEDULE && turns == 16
    ensures After(s, Idle(), turns + 1) == Done(Timeout(Some(SaidNotFound)), 16, false)
  {
    DefaultSleeps(turns);
    IdleTurns(s, turns);
    SleepSchedule(s, Idle(), turns);
  }

  // ── The error exit ──────────────────────────────────────────────────────

  /** How many of the first n replies, counted back from the last, are transport errors in a row. */
  function TrailingErrors(env: Env, n: nat): nat {
    if n > 0 && env.reply(n - 1).TransportError? then 1 + TrailingErrors(env, n - 1) else 0
  }

  lemma {:induction false} ErrorsAreCounted(s: Schedule, env: Env, turns: nat)
    requires Fits(s) && After(s, env, turns).Polling?
    ensures
      var p := After(s, env, turns);
      p.queries == turns && p.consecutiveErrs == Min(TrailingErrors(env, turns), U32_MAX) <= s.errTolerance
  {
    if turns > 0 {
      ErrorsAreCounted(s, env, turns - 1);
    }
  }

  /**
   The poller gives up on errors exactly when the last query completes a row of
   `tolerance + 1` transport errors, never later and never for a shorter row. A
   tolerance of the full 32 bits is never exceeded.
   */
  lemma ErrorExitIff(s: Schedule, env: Env, turns: nat)
    requires Fits(s) && After(s, env, turns).Polling?
    ensures
      var p, p' := After(s, env, turns), After(s, env, turns + 1);
      p'.Done? && p'.tooManyErrors <==>
        p'.queries == turns + 1 && TrailingErrors(env, turns + 1) == s.errTolerance + 1 && s.errTolerance < U32_MAX
  {
    ErrorsAreCounted(s, env, turns);
  }

  // ── What the replies decide ─────────────────────────────────────────────

  /** The network reports the transaction as finalized, in the slot it names, or slot 0. */
  predicate SaysFinalized(r: Reply, slot: nat) {
    r.Status? && r.err.None? && r.confirmationStatus == Some("finalized")
    && slot == if r.slot.Some? then r.slot.value else 0
  }

  predicate SaysFailed(r: Reply, reason: string) { r.Status? && r.err == Some(reason) }

  predicate Inconclusive(r: Reply) {
    r.TransportError? || r.NoStatus? || (r.Status? && r.err.None? && r.confirmationStatus != Some("finalized"))
  }

  /** How a timeout describes the last reply. */
  predicate Describes(said: LastStatus, r: Reply) {
    match said
    case SaidNotFound => r.NoStatus?
    case SaidPending(confirmation) =>
      r.Status? && r.err.None? && r.confirmationStatus != Some("finalized")
      && (r.confirmationStatus == Some(confirmation) || (r.confirmationStatus.None? && confirmation == "processed"))
    case SaidSucceeded(_) => false
    case SaidError(message) => r == TransportError(message)
  }

  predicate LastDescribed(env: Env, queries: nat, lastStatus: Option<LastStatus>) {
    if queries == 0 then lastStatus.None? else lastStatus.Some? && Describes(lastStatus.value, env.reply(queries - 1))
  }

  lemma TurnDescribes(s: Schedule, env: Env, p: Poll)
    requires p.Polling? && LastDescribed(env, p.queries, p.lastStatus)
    ensures
      match Turn(s, env, p)
      case Polling(n, _, _, _, last) => n == p.queries + 1 && Inconclusive(env.reply(p.queries)) && LastDescribed(env, n, last)
      case Done(Finalized(slot), n, _) => n == p.queries + 1 && SaysFinalized(env.reply(p.queries), slot)
      case Done(OnChainFailure(reason), n, _) => n == p.queries + 1 && SaysFailed(env.reply(p.queries), reason)
      case Done(Timeout(last), n, _) =>
        && (n == p.queries || (n == p.queries + 1 && env.reply(p.queries).TransportError?))
        && LastDescribed(env, n, last)
  {
  }

  /** While the loop runs no reply was conclusive, and it remembers the last one. */
  lemma {:induction false} StillOpen(s: Schedule, env: Env, turns: nat)
    requires After(s, env, turns).Polling?
    ensures
      var p := After(s, env, turns);
      && p.queries == turns && LastDescribed(env, turns, p.lastStatus)
      && forall k :: 0 <= k < turns ==> Inconclusive(env.reply(k))
  {
    if turns > 0 {
      StillOpen(s, env, turns - 1);
      TurnDescribes(s, env, After(s, env, turns - 1));
    }
  }

  /**
   What the final answer says about the replies themselves: success and failure are
   the last reply's own, and a timeout means that no reply was conclusive and
   reports the last one.
   */
  lemma OutcomeMeansLastReply(s: Schedule, env: Env, turns: nat)
    requires After(s, env, turns).Polling? && After(s, env, turns + 1).Done?
    ensures
      var done := After(s, env, turns + 1);
      match done.outcome
      case Finalized(slot) => done.queries == turns + 1 && SaysFinalized(env.reply(turns), slot)
      case OnChainFailure(reason) => done.queries == turns + 1 && SaysFailed(env.reply(turns), reason)
      case Timeout(lastStatus) =>
        && done.queries <= turns + 1 && LastDescribed(env, done.queries, lastStatus)
        && forall k :: 0 <= k < done.queries ==> Inconclusive(env.reply(k))
  {
    StillOpen(s, env, turns);
    TurnDescribes(s, env, After(s, env, turns));
  }

  /** A conclusive reply to a query that is made in time ends the loop with what it says, and nothing else does so. */
  lemma ConclusiveReplyEnds(s: Schedule, env: Env, turns: nat, slot: nat, reason: string)
    requires After(s, env, turns).Polling? && After(s, env, turns + 1).queries == turns + 1
    ensures SaysFinalized(env.reply(turns), slot) <==> After(s, env, turns + 1) == Done(Finalized(slot), turns + 1, false)
    ensures SaysFailed(env.reply(turns), reason) <==>
              After(s, env, turns + 1) == Done(OnChainFailure(reason), turns + 1, false)
  {
    StillOpen(s, env, turns);
    TurnDescribes(s, env, After(s, env, turns));
  }

  /** The loop stops before query `turns` exactly when the deadline has come before or during its sleep. */
  lemma NoQueryIff(s: Schedule, env: Env, turns: nat)
    requires Fits(s) && After(s, env, turns).Polling?
    ensures
      var p := After(s, env, turns);
      After(s, env, turns + 1).queries == turns <==> p.nowMs + Sleep(s, turns) + env.lagMs(turns) >= s.totalTimeoutMs
  {
    SleepSchedule(s, env, turns);
    StillOpen(s, env, turns);
    TurnDescribes(s, env, After(s, env, turns));
  }

  // ── Termination ─────────────────────────────────────────────────────────

  /** Some sleep makes progress towards the deadline, or there is none to reach. */
  predicate Terminates(s: Schedule) {
    (s.initialBackoffMs > 0 && s.backoffCapMs > 0) || s.totalTimeoutMs == 0
  }

  lemma {:induction false} SleepsAddUp(s: Schedule, k: nat)
    requires s.initialBackoffMs > 0 && s.backoffCapMs > 0
    ensures SleepSum(s, k) >= k && Doubled(s.initialBackoffMs, k) >= 1
  {
    if k > 0 {
      SleepsAddUp(s, k - 1);
    }
  }

  lemma DoneInTime(s: Schedule, env: Env)
    requires Fits(s) && Terminates(s)
    ensures After(s, env, s.totalTimeoutMs + 1).Done?
  {
    var n := s.totalTimeoutMs;
    if After(s, env, n).Polling? {
      SleepSchedule(s, env, n);
      if n > 0 {
        SleepsAddUp(s, n);
      }
    }
  }

  lemma {:induction false} NeverDone(s: Schedule, turns: nat)
    requires Fits(s) && !Terminates(s)
    ensures
      var p := After(s, Idle(), turns);
      p.Polling? && p.nowMs == 0 && Min(p.backoffMs, s.backoffCapMs) == 0
  {
    if turns > 0 {
      NeverDone(s, turns - 1);
    }
  }

  ghost predicate Ends(s: Schedule, env: Env) { exists turns: nat :: After(s, env, turns).Done? }

  /**
   Polling comes to an end on every network exactly when both the first sleep and
   the cap are positive, or there is no time to poll at all.
   */
  lemma TerminatesIff(s: Schedule)
    requires Fits(s)
    ensures Terminates(s) <==> forall env: Env :: Ends(s, env)
  {
    if Terminates(s) {
      forall env: Env ensures Ends(s, env) {
        DoneInTime(s, env);
      }
    } else {
      forall turns: nat ensures !After(s, Idle(), turns).Done? {
        NeverDone(s, turns);
      }
      assert !Ends(s, Idle());
    }
  }

  lemma {:induction false} DoneStays(s: Schedule, env: Env, turns: nat, later: nat)
    requires After(s, env, turns).Done? && turns <= later
    ensures After(s, env, later) == After(s, env, turns)
  {
    if turns < later {
      DoneStays(s, env, turns, later - 1);
    }
  }

  /** One turn: sleep, query, and what becomes of the reply; the loop's variables are the fields of `p`. */
  method TakeTurn(s: Schedule, env: Env, p: Poll) returns (next: Poll)
    requires p.Polling?
    ensures next == Turn(s, env, p)
  {
    if p.nowMs >= s.totalTimeoutMs {
      return Done(Timeout(p.lastStatus), p.queries, false);
    }
    var wokenMs := p.nowMs + Min(p.backoffMs, s.backoffCapMs) + env.lagMs(p.queries);
    if wokenMs >= s.totalTimeoutMs {
      return Done(Timeout(p.lastStatus), p.queries, false);
    }
    var reply := StatusOf(env.reply(p.queries));
    next := Hear(s, p, wokenMs + env.delayMs(p.queries), reply);
  }

  method Hear(s: Schedule, p: Poll, nowMs: nat, reply: Result<SigStatus, string>) returns (next: Poll)
    requires p.Polling?
    ensures next == Heard(s, p, nowMs, reply)
  {
    var queries, errs, lastStatus := p.queries + 1, p.consecutiveErrs, p.lastStatus;
    match reply {
      case Success(NotFound) =>
        errs, lastStatus := 0, Some(SaidNotFound);
      case Success(Pending(confirmation)) =>
        errs, lastStatus := 0, Some(SaidPending(confirmation));
      case Success(Failed(err)) =>
        return Done(OnChainFailure(err), queries, false);
      case Success(Succeeded(slot, confirmation)) =>
        lastStatus := Some(SaidSucceeded(confirmation));
        if confirmation == "finalized" {
          return Done(Finalized(slot), queries, false);
        }
      case Failure(e) =>
        errs, lastStatus := Min(errs + 1, U32_MAX), Some(SaidError(e));
        if errs > s.errTolerance {
          return Done(Timeout(lastStatus), queries, true);
        }
    }
    next := Polling(queries, nowMs, NextBackoff(s, p.backoffMs), errs, lastStatus);
  }

  /**
   The loop, watched for a number of turns. With any schedule it is where the
   specification says; with one that terminates, a turn for each millisecond up to
   the deadline sees the end.
   */
  method PollSignatureWithBackoff(s: Schedule, env: Env, turns: nat) returns (p: Poll)
    requires Fits(s)
    ensures p == After(s, env, turns)
    ensures Terminates(s) && turns > s.totalTimeoutMs ==> p.Done?
  {
    p := Polling(0, 0, s.initialBackoffMs, 0, None);
    var i := 0;
    while i < turns && p.Polling?
      invariant i <= turns && p == After(s, env, i)
    {
      p := TakeTurn(s, env, p);
      i := i + 1;
    }
    if p.Done? {
      DoneStays(s, env, i, turns);
    }
    if Terminates(s) && turns > s.totalTimeoutMs {
      DoneInTime(s, env);
      DoneStays(s, env, s.totalTimeoutMs + 1, turns);
    }
  }
}
