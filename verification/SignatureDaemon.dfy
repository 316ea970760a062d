/**
 The code that takes the steps of the custody protocol: the orchestrator's
 pending map, the durable rows, the submission handler, the expiry reaper and
 restart. Each is proved to act on every request as the protocol's steps do.
 */
module SignatureDaemon {
  import opened Wrappers
  import opened SignatureCustody

  datatype SignatureRequest = SignatureRequest(
    sessionId: string,
    transactionId: nat,
    expectedSigner: string,
    finalizedTx: seq<bv8>)

  datatype PendingEntry = PendingEntry(request: SignatureRequest, adapterType: string, dispatchedAtMs: int)

  /** A durable row; `request` is absent when its columns do not parse. */
  datatype StoredRow = StoredRow(
    request: Option<SignatureRequest>,
    adapterType: string,
    createdAtMs: int,
    isPending: bool)

  datatype Submission = Submission(accepted: bool, submitted: bool)

  function RowOf(rows: map<nat, StoredRow>, id: nat): Row {
    if id !in rows then NoRow
    else if rows[id].isPending then PendingRow(rows[id].createdAtMs)
    else TerminalRow
  }

  function Sent(handoffs: map<nat, nat>, id: nat): nat { if id in handoffs then handoffs[id] else 0 }

  /** The protocol's view of one request whose opener is done, with nobody in the middle of anything. */
  function View(pending: map<nat, PendingEntry>, rows: map<nat, StoredRow>, handoffs: map<nat, nat>,
                id: nat, clockMs: int): State
  {
    State(clockMs, true, if id in pending then Some(pending[id].dispatchedAtMs) else None, RowOf(rows, id), Opened, map[],
          Sent(handoffs, id))
  }

  const ANY_ENV := Env(false, false)

  /** What one submission amounts to. */
  function SubmissionSteps(valid: bool, lost: bool): seq<Step> {
    [Begin(0), Complete(0, valid), Mark(0, lost)] + if valid then [Send(0)] else []
  }

  /** The first k steps of a submission; a handler that the daemon's death cuts short leaves this behind. */
  function AfterSubmission(s: State, valid: bool, lost: bool, k: nat): State {
    s.(inMemory := if k >= 2 then None else s.inMemory,
       row := if k >= 3 then MarkedRow(s.row, lost) else s.row,
       handoffs := s.handoffs + if valid && k >= 4 then 1 else 0)
  }

  function Prefix(steps: seq<Step>, k: nat): seq<Step> { if k < |steps| then steps[..k] else steps }

  /** The two states differ at most in who is in the middle of something. */
  predicate SameCustody(s: State, s': State) {
    s'.inMemory == s.inMemory && s'.row == s.row && s'.handoffs == s.handoffs
  }

  /** The steps are taken in the protocol's order: entry out of memory, mark, send. */
  lemma SubmissionIsARun(s: State, valid: bool, lost: bool, k: nat)
    requires s.up && s.handlers == map[] && s.inMemory.Some?
    ensures
      var end := Run(ANY_ENV, s, Prefix(SubmissionSteps(valid, lost), k));
      end.Some? && SameCustody(end.value, AfterSubmission(s, valid, lost, k))
  {
    var steps, end := [], s;
    if k >= 1 { steps, end := Extend(ANY_ENV, s, steps, end, Begin(0)); }
    if k >= 2 { steps, end := Extend(ANY_ENV, s, steps, end, Complete(0, valid)); }
    if k >= 3 { steps, end := Extend(ANY_ENV, s, steps, end, Mark(0, lost)); }
    if k >= 4 && valid { steps, end := Extend(ANY_ENV, s, steps, end, Send(0)); }
    assert steps == Prefix(SubmissionSteps(valid, lost), k);
  }

  predicate Overdue(s: State) { s.inMemory.Some? && s.clockMs - s.inMemory.value > TTL_MS }

  function AfterReaping(s: State, lost: bool): State {
    if Overdue(s) then s.(inMemory := None, row := MarkedRow(s.row, lost)) else s
  }

  lemma ReapingIsARun(s: State, lost: bool)
    requires s.up && s.handlers == map[] && Overdue(s)
    ensures Run(ANY_ENV, s, [Reap(0), Mark(0, lost)]) == Some(AfterReaping(s, lost))
  {
    var steps, end := Extend(ANY_ENV, s, [], s, Reap(0));
    steps, end := Extend(ANY_ENV, s, steps, end, Mark(0, lost));
    assert end == s.(inMemory := None, row := MarkedRow(s.row, lost));
  }

  /** Rows past their time to live expire when the daemon starts, unless that statement fails. */
  function WithoutStale(rows: map<nat, StoredRow>, nowMs: int, staleWriteFails: bool): map<nat, StoredRow> {
    map id | id in rows ::
      rows[id].(isPending := rows[id].isPending && (staleWriteFails || rows[id].createdAtMs > nowMs - TTL_MS))
  }

  /** A row that does not parse is rejected, unless that write is lost. */
  function WithoutCorrupt(rows: map<nat, StoredRow>, lost: set<nat>): map<nat, StoredRow> {
    map id | id in rows :: rows[id].(isPending := rows[id].isPending && (rows[id].request.Some? || id in lost))
  }

  /** Every pending row that parses is a live request again, with a fresh time to live. */
  function Revived(rows: map<nat, StoredRow>, nowMs: int): map<nat, PendingEntry> {
    map id | id in rows && rows[id].isPending && rows[id].request.Some? ::
      PendingEntry(rows[id].request.value, rows[id].adapterType, nowMs)
  }

  /**
   What a restart without failing statements comes to: the pending rows that parse
   and are younger than two minutes are live again with a young time to live, and no
   other row stays pending unless rejecting it failed.
   */
  predicate FreshAreLive(rows: map<nat, StoredRow>, nowMs: int, lost: set<nat>,
                         pending: map<nat, PendingEntry>, rows': map<nat, StoredRow>)
  {
    && rows'.Keys == rows.Keys && pending.Keys <= rows.Keys
    && forall id :: id in rows ==>
         var young := rows[id].isPending && nowMs - rows[id].createdAtMs < 120_000;
         && (id in pending <==> young && rows[id].request.Some?)
         && (id in pending ==>
               pending[id] == PendingEntry(rows[id].request.value, rows[id].adapterType, nowMs))
         && (rows'[id].isPending <==> young && (rows[id].request.Some? || id in lost))
         && rows'[id].(isPending := false) == rows[id].(isPending := false)
  }

  /** The entries revived once all rows but the given ones have been gone through. */
  ghost predicate Recovered(rows: map<nat, StoredRow>, rest: set<nat>, nowMs: int, pending: map<nat, PendingEntry>) {
    && (forall id :: id in pending <==> id in Revived(rows, nowMs) && id !in rest)
    && (forall id :: id in pending ==> pending[id] == Revived(rows, nowMs)[id])
  }

  lemma OneMoreRecovered(rows: map<nat, StoredRow>, rest: set<nat>, id: nat, nowMs: int, pending: map<nat, PendingEntry>)
    requires Recovered(rows, rest, nowMs, pending) && id in rest && id in rows && rows[id].isPending
    ensures Recovered(rows, rest - {id}, nowMs,
                      if rows[id].request.Some?
                      then pending[id := PendingEntry(rows[id].request.value, rows[id].adapterType, nowMs)]
                      else pending)
  {
  }

  /** For a request whose row parses, a restart is a crash and a recovery. */
  lemma RestartIsCrashAndRecover(pending: map<nat, PendingEntry>, rows: map<nat, StoredRow>, handoffs: map<nat, nat>,
                                 id: nat, nowMs: int, staleWriteFails: bool, lost: set<nat>)
    requires id in rows ==> rows[id].request.Some?
    ensures
      var current := WithoutStale(rows, nowMs, staleWriteFails);
      Run(ANY_ENV, View(pending, rows, handoffs, id, nowMs), [Crash, Recover(staleWriteFails)]) ==
      Some(View(Revived(current, nowMs), WithoutCorrupt(current, lost), handoffs, id, nowMs))
  {
    RestartIsARun(View(pending, rows, handoffs, id, nowMs), staleWriteFails);
  }

  lemma RestartIsARun(s: State, staleWriteFails: bool)
    requires s.up && s.handlers == map[] && s.opener == Opened
    ensures Run(ANY_ENV, s, [Crash, Recover(staleWriteFails)]) ==
            Some(NextRecover(s.(inMemory := None, up := false), staleWriteFails))
  {
    var steps, end := Extend(ANY_ENV, s, [], s, Crash);
    steps, end := Extend(ANY_ENV, s, steps, end, Recover(staleWriteFails));
  }

  lemma OpeningIsARun(s: State, fault: Fault)
    requires s.up && s.opener == NotOpened
    ensures Run(ANY_ENV, s, [Open, Persist(fault)]) ==
            Some(NextPersist(s.(inMemory := Some(s.clockMs), opener := Persisting), fault))
  {
    var steps, end := Extend(ANY_ENV, s, [], s, Open);
    steps, end := Extend(ANY_ENV, s, steps, end, Persist(fault));
  }

  class SignatureDaemon {
    var pending: map<nat, PendingEntry>
    var rows: map<nat, StoredRow>
    var handoffs: map<nat, nat>

    ghost function ViewOf(id: nat, clockMs: int): State reads this { View(pending, rows, handoffs, id, clockMs) }

    constructor ()
      ensures pending == map[] && rows == map[] && handoffs == map[]
    {
      pending, rows, handoffs := map[], map[], map[];
    }

    /** Opens a request: in memory, then durably; an insert that errs takes the entry out again. A live id is refused. */
    method RequestSignature(id: nat, request: SignatureRequest, adapterType: string, fault: Fault, nowMs: int)
      returns (durable: bool)
      modifies this`pending, this`rows
      ensures durable <==> id !in old(pending) && fault == Acknowledged
      ensures id !in old(pending) ==>
        Run(ANY_ENV, old(ViewOf(id, nowMs)).(opener := NotOpened), [Open, Persist(fault)]) == Some(ViewOf(id, nowMs))
      ensures durable ==> id in pending && pending[id].request == request && id in rows && rows[id].request == Some(request)
      ensures id in old(pending) ==> pending == old(pending) && rows == old(rows)
      ensures pending - {id} == old(pending) - {id} && rows - {id} == old(rows) - {id}
    {
      if id in pending {
        return false;
      }
      OpeningIsARun(ViewOf(id, nowMs).(opener := NotOpened), fault);
      pending := pending[id := PendingEntry(request, adapterType, nowMs)];
      if fault != LostBeforeApply {
        rows := rows[id := StoredRow(Some(request), adapterType, nowMs, true)];
      }
      if fault != Acknowledged {
        pending := pending - {id};
      }
      durable := fault == Acknowledged;
    }

    method MarkSignatureTerminal(id: nat, lost: bool)
      modifies this`rows
      ensures RowOf(rows, id) == MarkedRow(RowOf(old(rows), id), lost)
      ensures rows.Keys == old(rows).Keys && forall k :: k in rows ==> rows[k].(isPending := false) == old(rows)[k].(isPending := false)
      ensures forall other :: other in rows && other != id ==> rows[other] == old(rows)[other]
    {
      if id in rows && rows[id].isPending && !lost {
        rows := rows[id := rows[id].(isPending := false)];
      }
    }

    /** Removes the entry before anything is verified: exactly one caller ever gets it. */
    method Complete(id: nat, signedTx: seq<bv8>, verify: (SignatureRequest, seq<bv8>) -> bool)
      returns (signed: Option<SignatureRequest>)
      modifies this`pending
      ensures pending == old(pending) - {id}
      ensures signed ==
        if id in old(pending) && verify(old(pending)[id].request, signedTx) then Some(old(pending)[id].request) else None
    {
      if id !in pending {
        return None;
      }
      var entry := pending[id];
      pending := pending - {id};
      signed := if verify(entry.request, signedTx) then Some(entry.request) else None;
    }

    /**
     One submission, cut short after `diesAfter` of its four steps when the daemon
     dies. For a request of another session, or an unknown one, nothing happens;
     otherwise the request has gone through exactly that many of the protocol's
     submission steps, in their order, and no other request is affected.
     */
    method SubmitSignedTx(id: nat, sessionId: string, signedTx: seq<bv8>, verify: (SignatureRequest, seq<bv8>) -> bool,
                          lost: bool, sendFails: bool, diesAfter: nat, nowMs: int)
      returns (r: Submission)
      modifies this
      ensures
        var owned := id in old(pending) && old(pending)[id].request.sessionId == sessionId;
        var valid := owned && verify(old(pending)[id].request, signedTx);
        && r == Submission(valid && diesAfter >= 4, valid && diesAfter >= 4 && !sendFails)
        && (owned ==>
              var end := Run(ANY_ENV, old(ViewOf(id, nowMs)), Prefix(SubmissionSteps(valid, lost), diesAfter));
              end.Some? && SameCustody(end.value, ViewOf(id, nowMs)))
        && (!owned ==> ViewOf(id, nowMs) == old(ViewOf(id, nowMs)))
        && Sent(handoffs, id) == Sent(old(handoffs), id) + (if valid && diesAfter >= 4 then 1 else 0)
        && (owned && diesAfter >= 2 ==> id !in pending)
        && (owned && diesAfter >= 3 && !lost ==> !RowOf(rows, id).PendingRow?)
      ensures forall other :: other != id ==> ViewOf(other, nowMs) == old(ViewOf(other, nowMs))
    {
      r := Submission(false, false);
      if id !in pending || pending[id].request.sessionId != sessionId {
        return;
      }
      SubmissionIsARun(ViewOf(id, nowMs), verify(pending[id].request, signedTx), lost, diesAfter);
      if diesAfter < 2 {
        return;
      }
      var signed := Complete(id, signedTx, verify);
      if diesAfter < 3 {
        return;
      }
      MarkSignatureTerminal(id, lost);
      if diesAfter < 4 || signed.None? {
        return;
      }
      handoffs := handoffs[id := Sent(handoffs, id) + 1];
      r := Submission(true, !sendFails);
    }

    /** Takes one entry out of memory, then marks its row. */
    method Expire(id: nat, lost: bool)
      modifies this`pending, this`rows
      ensures forall k :: k in pending <==> k in old(pending) && k != id
      ensures forall k :: k in pending ==> pending[k] == old(pending)[k]
      ensures RowOf(rows, id) == MarkedRow(RowOf(old(rows), id), lost)
      ensures forall k :: k != id ==> RowOf(rows, k) == RowOf(old(rows), k)
    {
      pending := pending - {id};
      MarkSignatureTerminal(id, lost);
    }

    /** One tick of the reaper: every entry older than the time to live is expired and its row marked; no other changes. */
    method ReapExpired(nowMs: int, lost: set<nat>)
      modifies this`pending, this`rows
      ensures forall id :: ViewOf(id, nowMs) == AfterReaping(old(ViewOf(id, nowMs)), id in lost)
      ensures forall id :: id in old(pending) ==>
        && (id in pending <==> nowMs - old(pending)[id].dispatchedAtMs <= 120_000)
        && (id in pending ==> pending[id] == old(pending)[id])
        && (id !in pending && id !in lost ==> !RowOf(rows, id).PendingRow?)
    {
      var candidates := set id | id in pending && nowMs - pending[id].dispatchedAtMs > TTL_MS;
      ghost var all := candidates;
      while candidates != {}
        invariant candidates <= all
        invariant forall id :: id in pending <==> id in old(pending) && id !in all - candidates
        invariant forall id :: id in pending ==> pending[id] == old(pending)[id]
        invariant forall id :: id in all - candidates ==> RowOf(rows, id) == MarkedRow(RowOf(old(rows), id), id in lost)
        invariant forall id :: id !in all - candidates ==> RowOf(rows, id) == RowOf(old(rows), id)
        decreases |candidates|
      {
        var id :| id in candidates;
        candidates := candidates - {id};
        Expire(id, id in lost);
      }
      forall id ensures ViewOf(id, nowMs) == AfterReaping(old(ViewOf(id, nowMs)), id in lost) {
        assert id in all <==> Overdue(old(ViewOf(id, nowMs)));
      }
    }

    /** Goes through the pending rows; one that does not parse is marked rejected, unless that write is lost. */
    method RecoverSignatures(nowMs: int, lost: set<nat>)
      modifies this`pending, this`rows
      ensures pending == Revived(old(rows), nowMs) && rows == WithoutCorrupt(old(rows), lost)
    {
      pending := map[];
      var loaded := set id | id in rows && rows[id].isPending;
      while loaded != {}
        invariant loaded <= old(rows).Keys && rows.Keys == old(rows).Keys
        invariant forall id :: id in loaded ==> rows[id] == old(rows)[id] && rows[id].isPending
        invariant forall id :: id in old(rows) && id !in loaded ==> rows[id] == WithoutCorrupt(old(rows), lost)[id]
        invariant Recovered(old(rows), loaded, nowMs, pending)
        decreases |loaded|
      {
        var id :| id in loaded;
        ghost var before := loaded;
        loaded := loaded - {id};
        OneMoreRecovered(old(rows), before, id, nowMs, pending);
        var row := rows[id];
        if row.request.Some? {
          pending := pending[id := PendingEntry(row.request.value, row.adapterType, nowMs)];
        } else if id !in lost {
          rows := rows[id := row.(isPending := false)];
        }
      }
    }

    /**
     Memory is gone; stale rows expire; the rest comes back. Each statement's error
     is logged and passed over: a failed load brings nothing back.
     */
    method Restart(nowMs: int, staleWriteFails: bool, loadFails: bool, lost: set<nat>)
      modifies this`pending, this`rows
      ensures
        var current := WithoutStale(old(rows), nowMs, staleWriteFails);
        if loadFails then pending == map[] && rows == current
        else pending == Revived(current, nowMs) && rows == WithoutCorrupt(current, lost)
      ensures !staleWriteFails && !loadFails ==> FreshAreLive(old(rows), nowMs, lost, pending, rows)
    {
      pending := map[];
      if !staleWriteFails {
        rows := map id | id in rows :: rows[id].(isPending := rows[id].isPending && rows[id].createdAtMs > nowMs - TTL_MS);
      }
      assert rows == WithoutStale(old(rows), nowMs, staleWriteFails);
      if !loadFails {
        RecoverSignatures(nowMs, lost);
      }
    }
  }
}
