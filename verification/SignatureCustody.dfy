/**
 Who may hand a signed transaction to the network, across crashes. One
 signature request lives in memory (the orchestrator) and as a durable row; any
 number of submissions and the expiry reaper compete for it, the daemon may die
 between any two awaited calls, and restart revives what the row says is pending.
 */
module SignatureCustody {
  import opened Wrappers

  datatype Row = NoRow | PendingRow(createdAtMs: int) | TerminalRow

  /** The tool that opens the request: in memory first, then the durable row, then done. */
  datatype Opener = NotOpened | Persisting | Opened

  /** A submission or reaping in progress. */
  datatype Pc =
    | OwnerChecked
    | Accepted
    | Refused
    | Marked

  datatype State = State(
    clockMs: int,
    up: bool,
    inMemory: Option<int>,
    row: Row,
    opener: Opener,
    handlers: map<nat, Pc>,
    handoffs: nat)

  /**
   `marksStick`: a terminal mark is never lost. `waitsForAck`: nobody submits for
   a request before its durable row is confirmed, although it can be listed
   earlier.
   */
  datatype Env = Env(marksStick: bool, waitsForAck: bool)

  datatype Step =
    | Tick(ms: nat)
    | Open
    | Persist(fault: Fault)
    | Begin(h: nat)
    | Complete(h: nat, valid: bool)
    | Reap(h: nat)
    | Mark(h: nat, lost: bool)
    | Send(h: nat)
    | Crash
    | Recover(staleWriteFails: bool)

  const TTL_MS := 120_000

  /** The INSERT OR REPLACE that makes the row pending; on an error the in-memory entry is rolled back. */
  function NextPersist(s: State, fault: Fault): State {
    s.(row := if fault == LostBeforeApply then s.row else PendingRow(s.clockMs),
       inMemory := if fault == Acknowledged then s.inMemory else None,
       opener := Opened)
  }

  /** The entry is removed before the signature is looked at; a loser finds nothing and still marks the row. */
  function NextComplete(s: State, h: nat, valid: bool): State {
    s.(inMemory := None, handlers := s.handlers[h := if s.inMemory.Some? && valid then Accepted else Refused])
  }

  /** `UPDATE ... SET state = terminal WHERE state = 'pending'`. */
  function MarkedRow(row: Row, lost: bool): Row {
    if row.PendingRow? && !lost then TerminalRow else row
  }

  function NextMark(s: State, h: nat, lost: bool): State
    requires h in s.handlers
  {
    s.(row := MarkedRow(s.row, lost),
       handlers := if s.handlers[h].Accepted? then s.handlers[h := Marked] else s.handlers - {h})
  }

  /** Restart: stale rows expire, the rest of the pending rows come back to life. */
  function NextRecover(s: State, staleWriteFails: bool): State {
    var row :=
      if s.row.PendingRow? && s.row.createdAtMs <= s.clockMs - TTL_MS && !staleWriteFails then TerminalRow else s.row;
    s.(up := true, row := row, inMemory := if row.PendingRow? then Some(s.clockMs) else None)
  }

  predicate Enabled(env: Env, s: State, step: Step) {
    match step
    case Tick(_) => true
    case Open => s.up && s.opener == NotOpened
    case Persist(_) => s.up && s.opener == Persisting
    case Begin(h) => s.up && h !in s.handlers && s.inMemory.Some? && (env.waitsForAck ==> s.opener == Opened)
    case Complete(h, _) => h in s.handlers && s.handlers[h].OwnerChecked?
    case Reap(h) => s.up && h !in s.handlers && s.inMemory.Some? && s.clockMs - s.inMemory.value > TTL_MS
    case Mark(h, lost) => h in s.handlers && (s.handlers[h].Accepted? || s.handlers[h].Refused?) && (env.marksStick ==> !lost)
    case Send(h) => h in s.handlers && s.handlers[h].Marked?
    case Crash => s.up
    case Recover(_) => !s.up
  }

  function Next(env: Env, s: State, step: Step): State
    requires Enabled(env, s, step)
  {
    match step
    case Tick(ms) => s.(clockMs := s.clockMs + ms)
    case Open => s.(inMemory := Some(s.clockMs), opener := Persisting)
    case Persist(fault) => NextPersist(s, fault)
    case Begin(h) => s.(handlers := s.handlers[h := OwnerChecked])
    case Complete(h, valid) => NextComplete(s, h, valid)
    case Reap(h) => s.(inMemory := None, handlers := s.handlers[h := Refused])
    case Mark(h, lost) => NextMark(s, h, lost)
    case Send(h) => s.(handlers := s.handlers - {h}, handoffs := s.handoffs + 1)
    case Crash => s.(up := false, inMemory := None, handlers := map[], opener := if s.opener == Persisting then Opened else s.opener)
    case Recover(staleWriteFails) => NextRecover(s, staleWriteFails)
  }

  function Run(env: Env, s: State, steps: seq<Step>): Option<State>
    decreases |steps|
  {
    if steps == [] then Some(s)
    else if Enabled(env, s, steps[0]) then Run(env, Next(env, s, steps[0]), steps[1..])
    else None
  }

  function Start(clockMs: int): State {
    State(clockMs, true, None, NoRow, NotOpened, map[], 0)
  }

  // ── The invariant ───────────────────────────────────────────────────────

  predicate Holds(s: State, h: nat) {
    h in s.handlers && (s.handlers[h].Accepted? || s.handlers[h].Marked?)
  }

  ghost predicate CustodyInv(s: State) {
    && (s.inMemory.Some? ==> s.handoffs == 0 && forall h :: !Holds(s, h))
    && (forall h, k :: Holds(s, h) && Holds(s, k) ==> h == k)
    && (forall h :: Holds(s, h) ==> s.handoffs == 0)
    && s.handoffs <= 1
    && (s.opener == NotOpened ==> s.row == NoRow && s.inMemory.None?)
    && (s.opener != Opened ==> s.handoffs == 0 && forall h :: h in s.handlers ==> s.handlers[h].Refused?)
    && (s.handoffs > 0 || (exists h :: Holds(s, h) && s.handlers[h].Marked?) ==> !s.row.PendingRow?)
    && (!s.up ==> s.handlers == map[] && s.inMemory.None? && s.opener != Persisting)
  }

  lemma CustodyInvPreserved(env: Env, s: State, step: Step)
    requires env.marksStick && env.waitsForAck
    requires CustodyInv(s) && Enabled(env, s, step)
    ensures CustodyInv(Next(env, s, step))
  {
    var s' := Next(env, s, step);
    forall h | Holds(s', h) && !(step.Complete? && h == step.h) ensures Holds(s, h) {}
    match step
    case Complete(h, _) => assert Holds(s', h) ==> s.inMemory.Some?;
    case Mark(h, _) => assert Holds(s', h) ==> Holds(s, h);
    case Send(h) => assert Holds(s, h);
    case _ =>
  }

  lemma {:induction false} CustodyInvAlways(env: Env, s: State, steps: seq<Step>)
    requires env.marksStick && env.waitsForAck
    requires CustodyInv(s) && Run(env, s, steps).Some?
    ensures CustodyInv(Run(env, s, steps).value)
    decreases |steps|
  {
    if steps != [] {
      CustodyInvPreserved(env, s, steps[0]);
      CustodyInvAlways(env, Next(env, s, steps[0]), steps[1..]);
    }
  }

  lemma {:induction false} RunSplits(env: Env, s: State, before: seq<Step>, after: seq<Step>)
    requires Run(env, s, before).Some?
    ensures Run(env, s, before + after) == Run(env, Run(env, s, before).value, after)
    decreases |before|
  {
    if before == [] {
      assert before + after == after;
    } else {
      assert (before + after)[1..] == before[1..] + after;
      RunSplits(env, Next(env, s, before[0]), before[1..], after);
    }
  }

  predicate HandedOffForGood(s: State) { s.handoffs > 0 ==> s.inMemory.None? && !s.row.PendingRow? }

  /**
   With marks that stick and clients that wait, in every run with crashes
   anywhere: a transaction is handed to the network at most once, and from then
   on its request is neither in memory nor a row that recovery would revive.
   */
  lemma HandedOffOnce(env: Env, clockMs: int, steps: seq<Step>)
    requires env.marksStick && env.waitsForAck && Run(env, Start(clockMs), steps).Some?
    ensures
      var s := Run(env, Start(clockMs), steps).value;
      s.handoffs <= 1 && HandedOffForGood(s)
  {
    CustodyInvAlways(env, Start(clockMs), steps);
  }

  // ── Each condition is needed ────────────────────────────────────────────

  lemma Extend(env: Env, s0: State, steps: seq<Step>, s: State, last: Step) returns (steps': seq<Step>, s': State)
    requires Run(env, s0, steps) == Some(s) && Enabled(env, s, last)
    ensures steps' == steps + [last] && s' == Next(env, s, last) && Run(env, s0, steps') == Some(s')
  {
    steps', s' := steps + [last], Next(env, s, last);
    RunSplits(env, s0, steps, [last]);
    assert Run(env, s', []) == Some(s');
    assert [last][1..] == [];
  }

  /** The mark is lost, the transaction is sent, and a restart makes the request live again. */
  lemma LostMarkRevives(env: Env) returns (steps: seq<Step>, s: State)
    requires !env.marksStick
    ensures Run(env, Start(0), steps) == Some(s) && s.handoffs == 1 && s.inMemory == Some(0) && s.row.PendingRow?
    ensures s.up && s.handlers == map[] && s.opener == Opened
  {
    steps, s := [], Start(0);
    steps, s := Extend(env, Start(0), steps, s, Open);
    steps, s := Extend(env, Start(0), steps, s, Persist(Acknowledged));
    steps, s := Extend(env, Start(0), steps, s, Begin(0));
    steps, s := Extend(env, Start(0), steps, s, Complete(0, true));
    steps, s := Extend(env, Start(0), steps, s, Mark(0, true));
    steps, s := Extend(env, Start(0), steps, s, Send(0));
    steps, s := Extend(env, Start(0), steps, s, Crash);
    steps, s := Extend(env, Start(0), steps, s, Recover(false));
  }

  /** The submission overtakes the durable insert, which then puts a pending row behind the sent transaction. */
  lemma EarlySubmissionRevives(env: Env) returns (steps: seq<Step>, s: State)
    requires !env.waitsForAck
    ensures Run(env, Start(0), steps) == Some(s) && s.handoffs == 1 && s.inMemory == Some(0) && s.row.PendingRow?
    ensures s.up && s.handlers == map[] && s.opener == Opened
  {
    steps, s := [], Start(0);
    steps, s := Extend(env, Start(0), steps, s, Open);
    steps, s := Extend(env, Start(0), steps, s, Begin(0));
    steps, s := Extend(env, Start(0), steps, s, Complete(0, true));
    steps, s := Extend(env, Start(0), steps, s, Mark(0, false));
    steps, s := Extend(env, Start(0), steps, s, Send(0));
    steps, s := Extend(env, Start(0), steps, s, Persist(Acknowledged));
    steps, s := Extend(env, Start(0), steps, s, Crash);
    steps, s := Extend(env, Start(0), steps, s, Recover(false));
  }

  /** A request revived behind a sent transaction can be completed and sent again. */
  lemma SecondHandoff(env: Env, steps: seq<Step>, s: State) returns (steps': seq<Step>, s': State)
    requires Run(env, Start(0), steps) == Some(s) && s.inMemory.Some?
    requires s.up && s.handlers == map[] && s.opener == Opened
    ensures Run(env, Start(0), steps') == Some(s') && s'.handoffs == s.handoffs + 1
  {
    steps', s' := Extend(env, Start(0), steps, s, Begin(0));
    steps', s' := Extend(env, Start(0), steps', s', Complete(0, true));
    steps', s' := Extend(env, Start(0), steps', s', Mark(0, false));
    steps', s' := Extend(env, Start(0), steps', s', Send(0));
  }

  /** The two conditions are exactly what single hand-off needs. */
  lemma HandedOffOnceIff(env: Env)
    ensures env.marksStick && env.waitsForAck <==>
      forall clockMs, steps :: Run(env, Start(clockMs), steps).Some? ==>
        Run(env, Start(clockMs), steps).value.handoffs <= 1
  {
    if env.marksStick && env.waitsForAck {
      forall clockMs, steps | Run(env, Start(clockMs), steps).Some?
        ensures Run(env, Start(clockMs), steps).value.handoffs <= 1
      {
        HandedOffOnce(env, clockMs, steps);
      }
    } else if !env.marksStick {
      var steps, s := LostMarkRevives(env);
      var steps', s' := SecondHandoff(env, steps, s);
    } else {
      var steps, s := EarlySubmissionRevives(env);
      var steps', s' := SecondHandoff(env, steps, s);
    }
  }
}
