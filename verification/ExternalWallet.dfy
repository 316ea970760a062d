/**
 Transactions parked for an external wallet: what a submitted signature must
 satisfy, and what reaches the waiting task when submissions overlap.
 */
module ExternalWallet {
  import opened Wrappers

  /** A transaction: the bytes that are signed, the account keys they start with, and the signature slots. */
  datatype Transaction = Transaction(messageData: seq<bv8>, accountKeys: seq<string>, signatures: seq<seq<bv8>>)

  datatype VerifyError = MessageMismatch | SignerNotInAccountKeys | SignerDidNotSign | InvalidSignature

  datatype SubmitError =
    | DeserializeFailed
    | NotFound
    | InternalDeserializeFailed
    | VerificationFailed(error: VerifyError)

  /** ed25519, taken as given. */
  datatype Crypto = Crypto(verifies: (string, seq<bv8>, seq<bv8>) -> bool)

  function DefaultSignature(): seq<bv8> { seq(64, _ => 0) }

  // ── Verification ────────────────────────────────────────────────────────

  /** The first position of a key. */
  function PositionOf(keys: seq<string>, key: string): (r: Option<nat>)
    ensures r.None? <==> key !in keys
    ensures r.Some? ==> r.value < |keys| && keys[r.value] == key && key !in keys[..r.value]
  {
    if keys == [] then None
    else if keys[0] == key then Some(0)
    else
      match PositionOf(keys[1..], key)
      case None => None
      case Some(i) => Some(i + 1)
  }

  function VerifySignedTx(crypto: Crypto, original: Transaction, signed: Transaction, signer: string)
    : Result<(), VerifyError>
  {
    if original.messageData != signed.messageData then Failure(MessageMismatch)
    else
      match PositionOf(signed.accountKeys, signer)
      case None => Failure(SignerNotInAccountKeys)
      case Some(i) =>
        if i >= |signed.signatures| || signed.signatures[i] == DefaultSignature() then Failure(SignerDidNotSign)
        else if !crypto.verifies(signer, signed.messageData, signed.signatures[i]) then Failure(InvalidSignature)
        else Success(())
  }

  /** An unused slot holds 64 zero bytes. */
  predicate Blank(signature: seq<bv8>) { |signature| == 64 && forall k :: 0 <= k < 64 ==> signature[k] == 0 }

  lemma BlankIsDefault(signature: seq<bv8>)
    ensures Blank(signature) <==> signature == DefaultSignature()
  {
  }

  /** The transaction is the parked one, signed by the expected signer in the signer's own slot. */
  predicate SignedBy(crypto: Crypto, original: Transaction, signed: Transaction, signer: string, slot: nat) {
    && signed.messageData == original.messageData
    && slot < |signed.accountKeys| && slot < |signed.signatures|
    && signed.accountKeys[slot] == signer && signer !in signed.accountKeys[..slot]
    && !Blank(signed.signatures[slot])
    && crypto.verifies(signer, original.messageData, signed.signatures[slot])
  }

  /** Verification accepts exactly the signed copies of the parked transaction; the slot is unique. */
  lemma VerifiedIff(crypto: Crypto, original: Transaction, signed: Transaction, signer: string)
    ensures VerifySignedTx(crypto, original, signed, signer).Success? <==>
              exists slot: nat :: SignedBy(crypto, original, signed, signer, slot)
    ensures forall i: nat, j: nat ::
              SignedBy(crypto, original, signed, signer, i) && SignedBy(crypto, original, signed, signer, j) ==> i == j
  {
    var position := PositionOf(signed.accountKeys, signer);
    forall slot: nat | SignedBy(crypto, original, signed, signer, slot) ensures position == Some(slot) {
      FirstPosition(signed.accountKeys, signer, slot);
      BlankIsDefault(signed.signatures[slot]);
    }
    if position.Some? && position.value < |signed.signatures| {
      BlankIsDefault(signed.signatures[position.value]);
    }
    if VerifySignedTx(crypto, original, signed, signer).Success? {
      assert SignedBy(crypto, original, signed, signer, position.value);
    }
  }

  /** What each refusal of a signature says is wrong with it. */
  lemma VerifyErrorMeans(crypto: Crypto, original: Transaction, signed: Transaction, signer: string)
    ensures
      var r := VerifySignedTx(crypto, original, signed, signer);
      && (r == Failure(MessageMismatch) <==> signed.messageData != original.messageData)
      && (r == Failure(SignerNotInAccountKeys) <==>
            signed.messageData == original.messageData && signer !in signed.accountKeys)
      && (r == Failure(SignerDidNotSign) ==>
            forall i :: 0 <= i < |signed.accountKeys| && signed.accountKeys[i] == signer && signer !in signed.accountKeys[..i] ==>
              i >= |signed.signatures| || signed.signatures[i] == DefaultSignature())
      && (r == Failure(InvalidSignature) ==>
            exists i :: 0 <= i < |signed.accountKeys| && i < |signed.signatures| && signed.accountKeys[i] == signer
                        && !crypto.verifies(signer, original.messageData, signed.signatures[i]))
  {
    if signer in signed.accountKeys {
      forall i | 0 <= i < |signed.accountKeys| && signed.accountKeys[i] == signer && signer !in signed.accountKeys[..i]
        ensures PositionOf(signed.accountKeys, signer) == Some(i)
      {
        FirstPosition(signed.accountKeys, signer, i);
      }
    }
  }

  lemma {:induction false} FirstPosition(keys: seq<string>, key: string, i: nat)
    requires i < |keys| && keys[i] == key && key !in keys[..i]
    ensures PositionOf(keys, key) == Some(i)
  {
    if i > 0 {
      assert keys[..i][0] == keys[0];
      assert keys[1..][..i - 1] == keys[..i][1..];
      FirstPosition(keys[1..], key, i - 1);
    }
  }

  // ── Overlapping submissions ─────────────────────────────────────────────

  /** What was parked; an absent field does not parse back. */
  datatype Parked = Parked(original: Option<Transaction>, expectedSigner: Option<string>)

  /** Where a submission is: every call into the store is one step. */
  datatype Pc =
    | Started
    | HasOriginal(original: Transaction)
    | Completing
    | Taking
    | Rejecting(error: VerifyError)
    | Removing(error: VerifyError)
    | Finished(result: Result<(), SubmitError>)

  datatype Handler = Handler(requestId: nat, signed: Option<Transaction>, pc: Pc)

  /**
   `parked` remembers every parking ever made; `live` holds the entries now in the
   store, true while their one-shot sender is unused; `delivered` is what the
   waiting tasks were sent.
   */
  datatype State = State(
    parked: map<nat, Parked>,
    live: map<nat, bool>,
    delivered: map<nat, Option<Transaction>>,
    handlers: map<nat, Handler>)

  datatype Step =
    | Park(id: nat, entry: Parked)
    | Submit(h: nat, requestId: nat, signed: Option<Transaction>)
    | Advance(h: nat)
    | CleanUp(cleanId: nat)

  predicate Armed(s: State, id: nat) { id in s.live && s.live[id] }

  /** Sends through the entry's sender if it is there and unused. */
  function Sent(s: State, id: nat, tx: Option<Transaction>): State {
    if Armed(s, id) then s.(live := s.live[id := false], delivered := s.delivered[id := tx]) else s
  }

  function Verdict(crypto: Crypto, original: Transaction, signed: Transaction, signer: Option<string>): Pc {
    if signer.None? then Finished(Failure(InternalDeserializeFailed)) else
    match VerifySignedTx(crypto, original, signed, signer.value)
    case Success(_) => Completing
    case Failure(e) => Rejecting(e)
  }

  function Moved(s: State, h: nat, pc: Pc): State
    requires h in s.handlers
  {
    s.(handlers := s.handlers[h := s.handlers[h].(pc := pc)])
  }

  function NextAdvance(crypto: Crypto, s: State, h: nat): State
    requires h in s.handlers
    requires s.live.Keys <= s.parked.Keys
  {
    var handler := s.handlers[h];
    var id := handler.requestId;
    match handler.pc
    case Started =>
      if handler.signed.None? then Moved(s, h, Finished(Failure(DeserializeFailed)))
      else if id !in s.live then Moved(s, h, Finished(Failure(NotFound)))
      else if s.parked[id].original.None? then Moved(s, h, Finished(Failure(InternalDeserializeFailed)))
      else Moved(s, h, HasOriginal(s.parked[id].original.value))
    case HasOriginal(original) =>
      if id !in s.live || handler.signed.None? then Moved(s, h, Finished(Failure(NotFound)))
      else Moved(s, h, Verdict(crypto, original, handler.signed.value, s.parked[id].expectedSigner))
    case Completing => Moved(Sent(s, id, handler.signed), h, Taking)
    case Taking => Moved(s.(live := s.live - {id}), h, Finished(Success(())))
    case Rejecting(e) => Moved(Sent(s, id, None), h, Removing(e))
    case Removing(e) => Moved(s.(live := s.live - {id}), h, Finished(Failure(VerificationFailed(e))))
    case Finished(_) => s
  }

  /** Request ids are never reused. */
  predicate Enabled(s: State, step: Step) {
    && s.live.Keys <= s.parked.Keys
    && match step
       case Park(id, _) => id !in s.parked
       case Submit(h, _, _) => h !in s.handlers
       case Advance(h) => h in s.handlers
       case CleanUp(_) => true
  }

  function Next(crypto: Crypto, s: State, step: Step): State
    requires Enabled(s, step)
  {
    match step
    case Park(id, entry) => s.(parked := s.parked[id := entry], live := s.live[id := true])
    case Submit(h, id, signed) => s.(handlers := s.handlers[h := Handler(id, signed, Started)])
    case Advance(h) => NextAdvance(crypto, s, h)
    case CleanUp(id) => s.(live := s.live - {id})
  }

  predicate Runs(crypto: Crypto, s: State, steps: seq<Step>, s': State)
    decreases |steps|
  {
    if steps == [] then s' == s
    else Enabled(s, steps[0]) && Runs(crypto, Next(crypto, s, steps[0]), steps[1..], s')
  }

  const START := State(map[], map[], map[], map[])

  /** The transaction passes verification against what was parked under the id. */
  predicate Approved(crypto: Crypto, s: State, id: nat, tx: Transaction) {
    && id in s.parked && s.parked[id].original.Some? && s.parked[id].expectedSigner.Some?
    && VerifySignedTx(crypto, s.parked[id].original.value, tx, s.parked[id].expectedSigner.value).Success?
  }

  /** The submission was looked at and fails verification with this error. */
  predicate Rejectable(crypto: Crypto, s: State, h: Handler, e: VerifyError) {
    && h.signed.Some? && h.requestId in s.parked
    && s.parked[h.requestId].original.Some? && s.parked[h.requestId].expectedSigner.Some?
    && VerifySignedTx(crypto, s.parked[h.requestId].original.value, h.signed.value,
                      s.parked[h.requestId].expectedSigner.value) == Failure(e)
  }

  predicate HandlerSound(crypto: Crypto, s: State, h: Handler) {
    match h.pc
    case Rejecting(e) => Rejectable(crypto, s, h, e)
    case Removing(e) => Rejectable(crypto, s, h, e) && !Armed(s, h.requestId)
    case Finished(Failure(VerificationFailed(e))) => Rejectable(crypto, s, h, e) && h.requestId !in s.live
    case HasOriginal(original) => h.requestId in s.parked && s.parked[h.requestId].original == Some(original)
    case Completing => h.signed.Some? && Approved(crypto, s, h.requestId, h.signed.value)
    case Taking => h.signed.Some? && Approved(crypto, s, h.requestId, h.signed.value) && !Armed(s, h.requestId)
    case Finished(Success(_)) =>
      h.signed.Some? && Approved(crypto, s, h.requestId, h.signed.value) && h.requestId !in s.live
    case _ => true
  }

  predicate HandlersInv(crypto: Crypto, s: State) {
    forall h :: h in s.handlers ==> HandlerSound(crypto, s, s.handlers[h])
  }

  predicate DeliveriesInv(crypto: Crypto, s: State) {
    && s.live.Keys <= s.parked.Keys && s.delivered.Keys <= s.parked.Keys
    && (forall id :: id in s.live && s.live[id] ==> id !in s.delivered)
    && (forall id :: id in s.delivered && s.delivered[id].Some? ==> Approved(crypto, s, id, s.delivered[id].value))
  }

  /** What a handler vouches for is not undone by anyone else's step. */
  lemma HandlerStaysSound(crypto: Crypto, s: State, step: Step, h: Handler)
    requires Enabled(s, step) && HandlerSound(crypto, s, h)
    ensures HandlerSound(crypto, Next(crypto, s, step), h)
  {
  }

  lemma HandlerAdvancesSound(crypto: Crypto, s: State, h: nat)
    requires Enabled(s, Advance(h)) && HandlerSound(crypto, s, s.handlers[h])
    ensures HandlerSound(crypto, NextAdvance(crypto, s, h), NextAdvance(crypto, s, h).handlers[h])
  {
    var handler := s.handlers[h];
    if handler.pc.HasOriginal? && handler.requestId in s.live && handler.signed.Some? {
      VerdictIsSound(crypto, s, h, s.parked[handler.requestId].expectedSigner);
    }
  }

  lemma VerdictIsSound(crypto: Crypto, s: State, h: nat, signer: Option<string>)
    requires Enabled(s, Advance(h)) && HandlerSound(crypto, s, s.handlers[h]) && s.handlers[h].pc.HasOriginal?
    requires s.handlers[h].signed.Some? && s.parked[s.handlers[h].requestId].expectedSigner == signer
    ensures
      var verdict := Verdict(crypto, s.handlers[h].pc.original, s.handlers[h].signed.value, signer);
      HandlerSound(crypto, Moved(s, h, verdict), s.handlers[h].(pc := verdict))
  {
  }

  lemma HandlersInvPreserved(crypto: Crypto, s: State, step: Step)
    requires HandlersInv(crypto, s) && Enabled(s, step)
    ensures HandlersInv(crypto, Next(crypto, s, step))
  {
    var s' := Next(crypto, s, step);
    forall h | h in s'.handlers ensures HandlerSound(crypto, s', s'.handlers[h]) {
      if h in s.handlers {
        HandlerStaysSound(crypto, s, step, s.handlers[h]);
        if step == Advance(h) { HandlerAdvancesSound(crypto, s, h); }
      }
    }
  }

  predicate DeliveriesKept(s: State, s': State) {
    forall id :: id in s.delivered ==> id in s'.delivered && s'.delivered[id] == s.delivered[id]
  }

  lemma SendingKeepsDeliveries(crypto: Crypto, s: State, id: nat, tx: Option<Transaction>)
    requires DeliveriesInv(crypto, s) && (tx.Some? ==> Approved(crypto, s, id, tx.value))
    ensures DeliveriesInv(crypto, Sent(s, id, tx)) && DeliveriesKept(s, Sent(s, id, tx))
  {
  }

  lemma RemovingKeepsDeliveries(crypto: Crypto, s: State, id: nat)
    requires DeliveriesInv(crypto, s)
    ensures DeliveriesInv(crypto, s.(live := s.live - {id}))
  {
  }

  lemma MovingKeepsDeliveries(crypto: Crypto, s: State, h: nat, pc: Pc)
    requires DeliveriesInv(crypto, s) && h in s.handlers
    ensures DeliveriesInv(crypto, Moved(s, h, pc))
  {
  }

  lemma AdvanceKeepsDeliveries(crypto: Crypto, s: State, h: nat)
    requires DeliveriesInv(crypto, s) && h in s.handlers && HandlerSound(crypto, s, s.handlers[h])
    ensures DeliveriesInv(crypto, NextAdvance(crypto, s, h)) && DeliveriesKept(s, NextAdvance(crypto, s, h))
  {
    var handler := s.handlers[h];
    match handler.pc
    case Completing =>
      SendingKeepsDeliveries(crypto, s, handler.requestId, handler.signed);
      MovingKeepsDeliveries(crypto, Sent(s, handler.requestId, handler.signed), h, Taking);
    case Rejecting(e) =>
      SendingKeepsDeliveries(crypto, s, handler.requestId, None);
      MovingKeepsDeliveries(crypto, Sent(s, handler.requestId, None), h, Removing(e));
    case Taking => RemovingKeepsDeliveries(crypto, s, handler.requestId);
    case Removing(_) => RemovingKeepsDeliveries(crypto, s, handler.requestId);
    case _ => MovingKeepsDeliveries(crypto, s, h, NextAdvance(crypto, s, h).handlers[h].pc);
  }

  lemma DeliveriesInvPreserved(crypto: Crypto, s: State, step: Step)
    requires HandlersInv(crypto, s) && DeliveriesInv(crypto, s) && Enabled(s, step)
    ensures DeliveriesInv(crypto, Next(crypto, s, step)) && DeliveriesKept(s, Next(crypto, s, step))
  {
    match step
    case Advance(h) => AdvanceKeepsDeliveries(crypto, s, h);
    case CleanUp(id) => RemovingKeepsDeliveries(crypto, s, id);
    case _ =>
  }

  lemma {:induction false} InvAlways(crypto: Crypto, s: State, steps: seq<Step>, s': State)
    requires HandlersInv(crypto, s) && DeliveriesInv(crypto, s) && Runs(crypto, s, steps, s')
    ensures HandlersInv(crypto, s') && DeliveriesInv(crypto, s')
    ensures DeliveriesKept(s, s')
    decreases |steps|
  {
    if steps != [] {
      HandlersInvPreserved(crypto, s, steps[0]);
      DeliveriesInvPreserved(crypto, s, steps[0]);
      InvAlways(crypto, Next(crypto, s, steps[0]), steps[1..], s');
    }
  }

  /**
   However submissions overlap with each other and with clean-up: a transaction
   that reaches a waiting task carries exactly the parked message and a valid
   signature of the expected signer in that signer's slot.
   */
  lemma DeliveredIsVerified(crypto: Crypto, steps: seq<Step>, s: State, id: nat)
    requires Runs(crypto, START, steps, s) && id in s.delivered && s.delivered[id].Some?
    ensures id in s.parked && s.parked[id].original.Some? && s.parked[id].expectedSigner.Some?
    ensures exists slot: nat ::
      SignedBy(crypto, s.parked[id].original.value, s.delivered[id].value, s.parked[id].expectedSigner.value, slot)
  {
    InvAlways(crypto, START, steps, s);
    VerifiedIff(crypto, s.parked[id].original.value, s.delivered[id].value, s.parked[id].expectedSigner.value);
  }

  /**
   Who is told that verification failed had submitted a transaction that does fail
   it, with that very error, against what was parked; and the request is closed.
   */
  lemma RefusedForCause(crypto: Crypto, steps: seq<Step>, s: State, h: nat, e: VerifyError)
    requires Runs(crypto, START, steps, s) && h in s.handlers
    requires s.handlers[h].pc == Finished(Failure(VerificationFailed(e)))
    ensures Rejectable(crypto, s, s.handlers[h], e) && s.handlers[h].requestId !in s.live
  {
    InvAlways(crypto, START, steps, s);
    assert HandlerSound(crypto, s, s.handlers[h]);
  }

  /** Whatever a waiting task was sent is the only thing it is ever sent. */
  lemma DeliveredOnce(crypto: Crypto, before: seq<Step>, s: State, after: seq<Step>, s': State, id: nat)
    requires Runs(crypto, START, before, s) && Runs(crypto, s, after, s') && id in s.delivered
    ensures id in s'.delivered && s'.delivered[id] == s.delivered[id] && !Armed(s', id)
  {
    InvAlways(crypto, START, before, s);
    InvAlways(crypto, s, after, s');
  }

  lemma {:induction false} RunsAppend(crypto: Crypto, s: State, steps: seq<Step>, s': State, last: Step)
    requires Runs(crypto, s, steps, s') && Enabled(s', last)
    ensures Runs(crypto, s, steps + [last], Next(crypto, s', last))
    decreases |steps|
  {
    if steps == [] {
      assert [last][1..] == [];
      assert steps + [last] == [last];
    } else {
      assert (steps + [last])[1..] == steps[1..] + [last];
      RunsAppend(crypto, Next(crypto, s, steps[0]), steps[1..], s', last);
    }
  }

  lemma Take(crypto: Crypto, steps: seq<Step>, s: State, last: Step) returns (steps': seq<Step>, s': State)
    requires Runs(crypto, START, steps, s) && Enabled(s, last)
    ensures steps' == steps + [last] && s' == Next(crypto, s, last) && Runs(crypto, START, steps', s')
  {
    RunsAppend(crypto, START, steps, s, last);
    steps', s' := steps + [last], Next(crypto, s, last);
  }

  /**
   An accepted submission need not be what the waiting task hears: an invalid one
   that overlaps it is refused first, and the refusal uses up the sender. The
   accepted caller is still told that all went well.
   */
  lemma AcceptedButNotDelivered(crypto: Crypto, entry: Parked, good: Transaction, bad: Transaction)
    returns (steps: seq<Step>, s: State)
    requires entry.original.Some? && entry.expectedSigner.Some?
    requires VerifySignedTx(crypto, entry.original.value, good, entry.expectedSigner.value).Success?
    requires VerifySignedTx(crypto, entry.original.value, bad, entry.expectedSigner.value).Failure?
    ensures Runs(crypto, START, steps, s)
    ensures 0 in s.handlers && s.handlers[0].signed == Some(good) && s.handlers[0].pc == Finished(Success(()))
    ensures 0 in s.delivered && s.delivered[0] == None
  {
    steps, s := [], START;
    steps, s := Take(crypto, steps, s, Park(0, entry));
    steps, s := Take(crypto, steps, s, Submit(0, 0, Some(good)));
    steps, s := Take(crypto, steps, s, Submit(1, 0, Some(bad)));
    steps, s := Take(crypto, steps, s, Advance(0));
    steps, s := Take(crypto, steps, s, Advance(0));
    steps, s := Take(crypto, steps, s, Advance(1));
    steps, s := Take(crypto, steps, s, Advance(1));
    steps, s := Take(crypto, steps, s, Advance(1));
    steps, s := Take(crypto, steps, s, Advance(0));
    steps, s := Take(crypto, steps, s, Advance(0));
  }

  /** Once parked with its sender used up, an entry hears nothing new, in any run. */
  lemma {:induction false} SpentForGood(crypto: Crypto, s: State, steps: seq<Step>, s': State, id: nat)
    requires Runs(crypto, s, steps, s') && id in s.parked && !Armed(s, id)
    ensures !Armed(s', id) && (id in s'.delivered <==> id in s.delivered)
    ensures id in s.delivered ==> s'.delivered[id] == s.delivered[id]
    decreases |steps|
  {
    if steps != [] {
      SpentForGood(crypto, Next(crypto, s, steps[0]), steps[1..], s', id);
    }
  }

  /** Whether the waiting task of a request has heard this transaction. */
  predicate Heard(s: State, id: nat, tx: Transaction) { id in s.delivered && s.delivered[id] == Some(tx) }

  /**
   An accepted submission has one step left that can deliver: the waiting task
   hears its transaction, now or ever, exactly when the sender is still unused at
   that step or an earlier submission of the same transaction got through. An
   overlapping refusal, which uses the sender up, is the way to lose it.
   */
  lemma AcceptedIsDeliveredIff(crypto: Crypto, before: seq<Step>, s: State, h: nat, after: seq<Step>, s': State)
    requires Runs(crypto, START, before, s) && Enabled(s, Advance(h)) && s.handlers[h].pc.Completing?
    requires Runs(crypto, Next(crypto, s, Advance(h)), after, s')
    ensures s.handlers[h].signed.Some?
    ensures
      var id, tx := s.handlers[h].requestId, s.handlers[h].signed.value;
      Heard(s', id, tx) <==> Armed(s, id) || Heard(s, id, tx)
  {
    InvAlways(crypto, START, before, s);
    assert HandlerSound(crypto, s, s.handlers[h]);
    SpentForGood(crypto, Next(crypto, s, Advance(h)), after, s', s.handlers[h].requestId);
  }

  // ── The store ───────────────────────────────────────────────────────────

  class ExternalWalletStore {
    const crypto: Crypto
    var pending: map<nat, Parked>
    /** The entries whose sender is unused. */
    var armed: set<nat>
    /** What went through each sender. */
    var delivered: map<nat, Option<Transaction>>

    predicate Valid() reads this { armed <= pending.Keys && armed !! delivered.Keys }

    constructor (crypto: Crypto)
      ensures Valid() && this.crypto == crypto && pending == map[] && delivered == map[]
    {
      this.crypto, pending, armed, delivered := crypto, map[], {}, map[];
    }

    method Park(id: nat, entry: Parked)
      requires Valid() && id !in delivered
      modifies this
      ensures Valid() && pending == old(pending)[id := entry] && armed == old(armed) + {id} && delivered == old(delivered)
    {
      pending, armed := pending[id := entry], armed + {id};
    }

    /** `complete` with a transaction, `reject` with none. */
    method Respond(id: nat, tx: Option<Transaction>) returns (sent: bool)
      requires Valid()
      modifies this`armed, this`delivered
      ensures Valid() && (sent <==> id in old(armed)) && armed == old(armed) - {id}
      ensures delivered == if sent then old(delivered)[id := tx] else old(delivered)
    {
      sent := id in armed;
      if sent {
        armed, delivered := armed - {id}, delivered[id := tx];
      }
    }

    method Remove(id: nat)
      requires Valid()
      modifies this`pending, this`armed
      ensures Valid() && pending == old(pending) - {id} && armed == old(armed) - {id}
    {
      pending, armed := pending - {id}, armed - {id};
    }

    /**
     One submission with nobody in between: it delivers the transaction exactly
     when it verifies and the sender is unused; an invalid one closes the request
     with nothing; anything unreadable leaves the request as it was.
     */
    method SubmitSignedTransaction(id: nat, signed: Option<Transaction>) returns (r: Result<(), SubmitError>)
      requires Valid()
      modifies this
      ensures Valid()
      ensures
        var readable := signed.Some? && id in old(pending)
                        && old(pending)[id].original.Some? && old(pending)[id].expectedSigner.Some?;
        if !readable then
          r.Failure? && !r.error.VerificationFailed? && pending == old(pending) && armed == old(armed)
          && delivered == old(delivered)
        else
          var verdict := VerifySignedTx(crypto, old(pending)[id].original.value, signed.value,
                                        old(pending)[id].expectedSigner.value);
          && r == (if verdict.Success? then Success(()) else Failure(VerificationFailed(verdict.error)))
          && pending == old(pending) - {id} && armed == old(armed) - {id}
          && delivered == if id in old(armed)
                          then old(delivered)[id := if verdict.Success? then signed else None] else old(delivered)
    {
      if signed.None? { return Failure(DeserializeFailed); }
      if id !in pending { return Failure(NotFound); }
      var original := pending[id].original;
      if original.None? { return Failure(InternalDeserializeFailed); }
      var signer := pending[id].expectedSigner;
      if signer.None? { return Failure(InternalDeserializeFailed); }
      var verdict := VerifySignedTx(crypto, original.value, signed.value, signer.value);
      if verdict.Failure? {
        var _ := Respond(id, None);
        Remove(id);
        return Failure(VerificationFailed(verdict.error));
      }
      var _ := Respond(id, signed);
      Remove(id);
      r := Success(());
    }
  }
}
