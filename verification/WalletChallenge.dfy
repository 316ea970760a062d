/**
 Proof of wallet ownership: a one-use challenge is signed by the wallet, checked,
 and consumed. Any number of verification calls run at once; the checks and the
 consumption are separate steps.
 */
module WalletChallenge {
  import opened Wrappers

  const CHALLENGE_TTL_MS := 300_000
  const SESSION_LEN: nat := 36
  const NONCE_LEN: nat := 32

  datatype Challenge = Challenge(
    sessionId: string,
    walletPubkey: string,
    nonce: string,
    message: string,
    expiresAtMs: int,
    usedAtMs: Option<int>)

  datatype ChallengeError =
    | NotFound
    | AlreadyUsed
    | ChallengeExpired
    | SessionMismatch
    | PubkeyMismatch
    | InvalidPubkey
    | InvalidSignature
    | VerificationFailed
    | Internal

  /** What one client sends. */
  datatype Claim = Claim(challengeId: nat, sessionId: string, walletPubkey: string, signature: seq<bv8>)

  /** Base58 and ed25519, taken as given: which keys decode to how many bytes, are points, and what verifies. */
  datatype Crypto = Crypto(
    decode: string -> Option<seq<bv8>>,
    isKey: seq<bv8> -> bool,
    verifies: (seq<bv8>, string, seq<bv8>) -> bool)

  // ── The message ─────────────────────────────────────────────────────────

  const MESSAGE_PREFIX: string := "ClawSolana wallet ownership proof"
  const SESSION_LABEL: string := "\nSession: "
  const WALLET_LABEL: string := "\nWallet: "
  const NONCE_LABEL: string := "\nNonce: "

  function CanonicalMessage(prefix: string, sessionId: string, walletPubkey: string, nonce: string): string {
    prefix + SESSION_LABEL + sessionId + WALLET_LABEL + walletPubkey + NONCE_LABEL + nonce
  }

  lemma SplitEqual(a: string, b: string, c: string, d: string)
    requires |a| == |c| && a + b == c + d
    ensures a == c && b == d
  {
    assert a == (a + b)[..|a|] == (c + d)[..|c|] == c;
    assert b == (a + b)[|a|..] == (c + d)[|c|..] == d;
  }

  lemma SplitEqualBack(a: string, b: string, c: string, d: string)
    requires |b| == |d| && a + b == c + d
    ensures a == c && b == d
  {
    assert |a| == |c|;
    SplitEqual(a, b, c, d);
  }

  /**
   Session ids are 36 characters and nonces 32, so the signed message determines
   session, wallet and nonce even when the wallet string itself contains the
   labels: a signature for one challenge is a signature for no other.
   */
  lemma MessageIsInjective(prefix: string, s: string, w: string, n: string, s': string, w': string, n': string)
    requires |s| == |s'| == SESSION_LEN && |n| == |n'| == NONCE_LEN
    requires CanonicalMessage(prefix, s, w, n) == CanonicalMessage(prefix, s', w', n')
    ensures s == s' && w == w' && n == n'
  {
    var front, front' := prefix + SESSION_LABEL + s + WALLET_LABEL + w + NONCE_LABEL,
                         prefix + SESSION_LABEL + s' + WALLET_LABEL + w' + NONCE_LABEL;
    SplitEqualBack(front, n, front', n');
    SplitEqualBack(prefix + SESSION_LABEL + s + WALLET_LABEL + w, NONCE_LABEL,
                   prefix + SESSION_LABEL + s' + WALLET_LABEL + w', NONCE_LABEL);
    SplitEqual(prefix + SESSION_LABEL + s + WALLET_LABEL, w, prefix + SESSION_LABEL + s' + WALLET_LABEL, w');
    SplitEqualBack(prefix + SESSION_LABEL + s, WALLET_LABEL, prefix + SESSION_LABEL + s', WALLET_LABEL);
    SplitEqual(prefix + SESSION_LABEL, s, prefix + SESSION_LABEL, s');
  }

  // ── The checks ──────────────────────────────────────────────────────────

  function NewChallenge(sessionId: string, walletPubkey: string, nonce: string, nowMs: int): Challenge {
    Challenge(sessionId, walletPubkey, nonce, CanonicalMessage(MESSAGE_PREFIX, sessionId, walletPubkey, nonce),
              nowMs + CHALLENGE_TTL_MS, None)
  }

  function KeyBytes(crypto: Crypto, pubkey: string): Option<seq<bv8>> {
    match crypto.decode(pubkey)
    case None => None
    case Some(bytes) => if |bytes| == 32 && crypto.isKey(bytes) then Some(bytes) else None
  }

  /** The error of the first check that fails, in the order they are made. */
  function FirstError(crypto: Crypto, row: Option<Challenge>, claim: Claim, nowMs: int): Option<ChallengeError> {
    if row.None? then Some(NotFound)
    else if row.value.usedAtMs.Some? then Some(AlreadyUsed)
    else if nowMs > row.value.expiresAtMs then Some(ChallengeExpired)
    else if row.value.sessionId != claim.sessionId then Some(SessionMismatch)
    else if row.value.walletPubkey != claim.walletPubkey then Some(PubkeyMismatch)
    else if KeyBytes(crypto, claim.walletPubkey).None? then Some(InvalidPubkey)
    else if |claim.signature| != 64 then Some(InvalidSignature)
    else if !crypto.verifies(KeyBytes(crypto, claim.walletPubkey).value, row.value.message, claim.signature)
    then Some(VerificationFailed)
    else None
  }

  /** The claim proves ownership: right session, right wallet, in time, and signed over this very challenge. */
  predicate Proves(crypto: Crypto, claim: Claim, c: Challenge, nowMs: int) {
    && claim.sessionId == c.sessionId && claim.walletPubkey == c.walletPubkey
    && nowMs <= c.expiresAtMs && c.usedAtMs == None
    && c.message == CanonicalMessage(MESSAGE_PREFIX, c.sessionId, c.walletPubkey, c.nonce)
    && |claim.signature| == 64 && KeyBytes(crypto, c.walletPubkey).Some?
    && crypto.verifies(KeyBytes(crypto, c.walletPubkey).value, c.message, claim.signature)
  }

  // ── Many verifications at once ──────────────────────────────────────────

  /** A call passes its checks on the row it read, then tries to consume the challenge. */
  datatype Phase =
    | Loading
    | Passed(read: Challenge, atMs: int)
    | Verified(read: Challenge, atMs: int)
    | Refused(error: ChallengeError)

  datatype Call = Call(claim: Claim, phase: Phase)

  datatype State = State(clockMs: int, rows: map<nat, Challenge>, issued: set<nat>, calls: seq<Call>)

  datatype Step =
    | Tick(ms: nat)
    | Create(id: nat, sessionId: string, walletPubkey: string, nonce: string)
    | Begin(claim: Claim)
    | CheckRow(call: nat)
    | MarkUsed(call: nat, fault: Fault)
    | Purge(id: nat)

  function Lookup(rows: map<nat, Challenge>, id: nat): Option<Challenge> {
    if id in rows then Some(rows[id]) else None
  }

  /** `UPDATE ... SET used_at WHERE id = ? AND used_at IS NULL`. */
  predicate Consumable(rows: map<nat, Challenge>, id: nat) { id in rows && rows[id].usedAtMs == None }

  function AfterMark(rows: map<nat, Challenge>, id: nat, nowMs: int, fault: Fault): map<nat, Challenge> {
    if Consumable(rows, id) && fault != LostBeforeApply then rows[id := rows[id].(usedAtMs := Some(nowMs))] else rows
  }

  function NextCheck(crypto: Crypto, s: State, k: nat): State
    requires k < |s.calls|
  {
    var row, claim := Lookup(s.rows, s.calls[k].claim.challengeId), s.calls[k].claim;
    var error := FirstError(crypto, row, claim, s.clockMs);
    s.(calls := s.calls[k := Call(claim, if error.Some? then Refused(error.value) else Passed(row.value, s.clockMs))])
  }

  function NextMark(s: State, k: nat, fault: Fault): State
    requires k < |s.calls| && s.calls[k].phase.Passed?
  {
    var claim, phase := s.calls[k].claim, s.calls[k].phase;
    var marked := Consumable(s.rows, claim.challengeId);
    s.(rows := AfterMark(s.rows, claim.challengeId, s.clockMs, fault),
       calls := s.calls[k := Call(claim,
         if fault != Acknowledged then Refused(Internal)
         else if marked then Verified(phase.read, phase.atMs)
         else Refused(AlreadyUsed))])
  }

  predicate Enabled(s: State, step: Step) {
    match step
    case Tick(_) => true
    case Create(id, session, _, nonce) => id !in s.issued && |session| == SESSION_LEN && |nonce| == NONCE_LEN
    case Begin(_) => true
    case CheckRow(k) => k < |s.calls| && s.calls[k].phase.Loading?
    case MarkUsed(k, _) => k < |s.calls| && s.calls[k].phase.Passed?
    case Purge(_) => true
  }

  function Next(crypto: Crypto, s: State, step: Step): State
    requires Enabled(s, step)
  {
    match step
    case Tick(ms) => s.(clockMs := s.clockMs + ms)
    case Create(id, session, pubkey, nonce) =>
      s.(rows := s.rows[id := NewChallenge(session, pubkey, nonce, s.clockMs)], issued := s.issued + {id})
    case Begin(claim) => s.(calls := s.calls + [Call(claim, Loading)])
    case CheckRow(k) => NextCheck(crypto, s, k)
    case MarkUsed(k, fault) => NextMark(s, k, fault)
    case Purge(id) => s.(rows := s.rows - {id})
  }

  predicate Runs(crypto: Crypto, s: State, steps: seq<Step>, s': State)
    decreases |steps|
  {
    if steps == [] then s' == s
    else Enabled(s, steps[0]) && Runs(crypto, Next(crypto, s, steps[0]), steps[1..], s')
  }

  function Start(clockMs: int): State { State(clockMs, map[], {}, []) }

  predicate WellFormed(c: Challenge) {
    && |c.sessionId| == SESSION_LEN && |c.nonce| == NONCE_LEN
    && c.message == CanonicalMessage(MESSAGE_PREFIX, c.sessionId, c.walletPubkey, c.nonce)
  }

  /** What the phase of a call vouches for. */
  predicate CallSound(crypto: Crypto, s: State, c: Call) {
    match c.phase
    case Loading => true
    case Refused(_) => true
    case Passed(read, at) =>
      c.claim.challengeId in s.issued && Proves(crypto, c.claim, read, at) && WellFormed(read)
    case Verified(read, at) =>
      c.claim.challengeId in s.issued && Proves(crypto, c.claim, read, at) && WellFormed(read)
      && !Consumable(s.rows, c.claim.challengeId)
  }

  predicate RowsInv(s: State) {
    forall id :: id in s.rows ==> id in s.issued && WellFormed(s.rows[id])
  }

  predicate CallsInv(crypto: Crypto, s: State) {
    forall k :: 0 <= k < |s.calls| ==> CallSound(crypto, s, s.calls[k])
  }

  predicate OneSuccessEach(s: State) {
    forall k, l :: 0 <= k < l < |s.calls| && s.calls[k].phase.Verified? && s.calls[l].phase.Verified? ==>
      s.calls[k].claim.challengeId != s.calls[l].claim.challengeId
  }

  predicate Inv(crypto: Crypto, s: State) { RowsInv(s) && CallsInv(crypto, s) && OneSuccessEach(s) }

  /** The chain of checks passes a claim exactly when it proves ownership of the challenge on the row. */
  lemma PassesIffProves(crypto: Crypto, row: Challenge, claim: Claim, nowMs: int)
    requires WellFormed(row)
    ensures FirstError(crypto, Some(row), claim, nowMs) == None <==> Proves(crypto, claim, row, nowMs)
  {
  }

  /** Nothing makes a consumed or purged challenge consumable again, as ids are never issued twice. */
  lemma StaysConsumed(crypto: Crypto, s: State, step: Step, id: nat)
    requires Enabled(s, step) && id in s.issued && !Consumable(s.rows, id)
    ensures id in Next(crypto, s, step).issued && !Consumable(Next(crypto, s, step).rows, id)
  {
  }

  lemma CallStaysSound(crypto: Crypto, s: State, step: Step, c: Call)
    requires Enabled(s, step) && CallSound(crypto, s, c)
    ensures CallSound(crypto, Next(crypto, s, step), c)
  {
    if c.phase.Verified? {
      StaysConsumed(crypto, s, step, c.claim.challengeId);
    }
  }

  lemma CallsInvPreserved(crypto: Crypto, s: State, step: Step)
    requires Inv(crypto, s) && Enabled(s, step)
    ensures CallsInv(crypto, Next(crypto, s, step))
  {
    var s' := Next(crypto, s, step);
    forall k | 0 <= k < |s'.calls| ensures CallSound(crypto, s', s'.calls[k]) {
      if k < |s.calls| {
        assert CallSound(crypto, s, s.calls[k]);
        CallStaysSound(crypto, s, step, s.calls[k]);
        if step.CheckRow? && step.call == k && s'.calls[k].phase.Passed? {
          PassesIffProves(crypto, s.rows[s.calls[k].claim.challengeId], s.calls[k].claim, s.clockMs);
        }
      }
    }
  }

  lemma OneSuccessPreserved(crypto: Crypto, s: State, step: Step)
    requires Inv(crypto, s) && Enabled(s, step)
    ensures OneSuccessEach(Next(crypto, s, step))
  {
    if step.MarkUsed? && Next(crypto, s, step).calls[step.call].phase.Verified? {
      forall k | 0 <= k < |s.calls| && s.calls[k].phase.Verified?
        ensures s.calls[k].claim.challengeId != s.calls[step.call].claim.challengeId
      {
        assert CallSound(crypto, s, s.calls[k]);
      }
    }
  }

  lemma InvPreserved(crypto: Crypto, s: State, step: Step)
    requires Inv(crypto, s) && Enabled(s, step)
    ensures Inv(crypto, Next(crypto, s, step))
  {
    CallsInvPreserved(crypto, s, step);
    OneSuccessPreserved(crypto, s, step);
  }

  lemma {:induction false} InvAlways(crypto: Crypto, s: State, steps: seq<Step>, s': State)
    requires Inv(crypto, s) && Runs(crypto, s, steps, s')
    ensures Inv(crypto, s')
    decreases |steps|
  {
    if steps != [] {
      InvPreserved(crypto, s, steps[0]);
      InvAlways(crypto, Next(crypto, s, steps[0]), steps[1..], s');
    }
  }

  /**
   However verifications interleave, a challenge is good for one success, and each
   success proves ownership: session and wallet are the challenge's own, it had
   not expired when it was checked, and the signature is over its message.
   */
  lemma OneUseOnly(crypto: Crypto, clockMs: int, steps: seq<Step>, s: State, k: nat, l: nat)
    requires Runs(crypto, Start(clockMs), steps, s) && k < |s.calls| && l < |s.calls|
    requires s.calls[k].phase.Verified? && s.calls[l].phase.Verified?
    ensures s.calls[k].claim.challengeId == s.calls[l].claim.challengeId ==> k == l
    ensures Proves(crypto, s.calls[k].claim, s.calls[k].phase.read, s.calls[k].phase.atMs)
  {
    InvAlways(crypto, Start(clockMs), steps, s);
    assert CallSound(crypto, s, s.calls[k]);
  }

  /** Two successes over one signed message were for the same session and the same wallet. */
  lemma SignatureBindsOneWallet(crypto: Crypto, clockMs: int, steps: seq<Step>, s: State, k: nat, l: nat)
    requires Runs(crypto, Start(clockMs), steps, s) && k < |s.calls| && l < |s.calls|
    requires s.calls[k].phase.Verified? && s.calls[l].phase.Verified?
    requires s.calls[k].phase.read.message == s.calls[l].phase.read.message
    ensures s.calls[k].claim.sessionId == s.calls[l].claim.sessionId
    ensures s.calls[k].claim.walletPubkey == s.calls[l].claim.walletPubkey
  {
    InvAlways(crypto, Start(clockMs), steps, s);
    assert CallSound(crypto, s, s.calls[k]) && CallSound(crypto, s, s.calls[l]);
    var a, b := s.calls[k].phase.read, s.calls[l].phase.read;
    MessageIsInjective(MESSAGE_PREFIX, a.sessionId, a.walletPubkey, a.nonce, b.sessionId, b.walletPubkey, b.nonce);
  }

  // ── An honest claim ─────────────────────────────────────────────────────

  /** The claim answers a challenge for this session, wallet and nonce with a signature that verifies. */
  predicate Honest(crypto: Crypto, claim: Claim, sessionId: string, walletPubkey: string, nonce: string) {
    && claim.sessionId == sessionId && claim.walletPubkey == walletPubkey && |claim.signature| == 64
    && crypto.decode(walletPubkey).Some? && |crypto.decode(walletPubkey).value| == 32
    && crypto.isKey(crypto.decode(walletPubkey).value)
    && crypto.verifies(crypto.decode(walletPubkey).value,
                       CanonicalMessage(MESSAGE_PREFIX, sessionId, walletPubkey, nonce), claim.signature)
  }

  /** What is left of a state once a challenge was created and a claim on it came in some time later. */
  function Claimed(crypto: Crypto, s: State, id: nat, sessionId: string, walletPubkey: string, nonce: string,
                   claim: Claim, ms: nat): State
    requires Enabled(s, Create(id, sessionId, walletPubkey, nonce))
  {
    var created := Next(crypto, s, Create(id, sessionId, walletPubkey, nonce));
    Next(crypto, Next(crypto, created, Begin(claim)), Tick(ms))
  }

  /**
   In any state, a claim on a challenge created before is verified exactly when it
   is honest and comes within five minutes; the answer to it consumes the challenge.
   */
  lemma HonestClaimVerifiesIff(crypto: Crypto, s: State, id: nat, sessionId: string, walletPubkey: string, nonce: string,
                               claim: Claim, ms: nat)
    requires Enabled(s, Create(id, sessionId, walletPubkey, nonce)) && claim.challengeId == id
    ensures
      var k := |s.calls|;
      var claimed := Claimed(crypto, s, id, sessionId, walletPubkey, nonce, claim, ms);
      && Enabled(claimed, CheckRow(k))
      && var checked := Next(crypto, claimed, CheckRow(k));
         && (Enabled(checked, MarkUsed(k, Acknowledged)) <==>
               Honest(crypto, claim, sessionId, walletPubkey, nonce) && ms <= 300_000)
         && (Enabled(checked, MarkUsed(k, Acknowledged)) ==>
               var marked := Next(crypto, checked, MarkUsed(k, Acknowledged));
               marked.calls[k].phase.Verified? && id in marked.rows && marked.rows[id].usedAtMs == Some(s.clockMs + ms))
  {
    var row := NewChallenge(sessionId, walletPubkey, nonce, s.clockMs);
    PassesIffProves(crypto, row, claim, s.clockMs + ms);
  }

  /** What each refusal says is wrong with the claim. */
  predicate Explains(error: ChallengeError, crypto: Crypto, row: Option<Challenge>, claim: Claim, nowMs: int) {
    if row.None? then error == NotFound
    else
      match error
      case AlreadyUsed => row.value.usedAtMs != None
      case ChallengeExpired => row.value.expiresAtMs < nowMs
      case SessionMismatch => claim.sessionId != row.value.sessionId
      case PubkeyMismatch => claim.walletPubkey != row.value.walletPubkey
      case InvalidPubkey => KeyBytes(crypto, claim.walletPubkey) == None
      case InvalidSignature => |claim.signature| != 64
      case VerificationFailed =>
        KeyBytes(crypto, claim.walletPubkey).Some?
        && !crypto.verifies(KeyBytes(crypto, claim.walletPubkey).value, row.value.message, claim.signature)
      case _ => false
  }

  /** A refused claim is refused for what its error names. */
  lemma RefusalExplains(crypto: Crypto, row: Option<Challenge>, claim: Claim, nowMs: int)
    ensures FirstError(crypto, row, claim, nowMs).Some? ==>
              Explains(FirstError(crypto, row, claim, nowMs).value, crypto, row, claim, nowMs)
  {
  }

  // ── The service ─────────────────────────────────────────────────────────

  class WalletChallengeService {
    const crypto: Crypto
    var rows: map<nat, Challenge>

    constructor (crypto: Crypto)
      ensures this.crypto == crypto && rows == map[]
    {
      this.crypto, rows := crypto, map[];
    }

    method CreateChallenge(id: nat, sessionId: string, walletPubkey: string, nonce: string, nowMs: int)
      returns (created: bool)
      modifies this
      ensures created <==> id !in old(rows)
      ensures rows == if created then old(rows)[id := NewChallenge(sessionId, walletPubkey, nonce, nowMs)] else old(rows)
    {
      created := id !in rows;
      if created {
        var message := CanonicalMessage(MESSAGE_PREFIX, sessionId, walletPubkey, nonce);
        rows := rows[id := Challenge(sessionId, walletPubkey, nonce, message, nowMs + CHALLENGE_TTL_MS, None)];
      }
    }

    /** One call with nobody in between: its check and its mark are the two steps of the protocol. */
    method VerifyChallenge(claim: Claim, nowMs: int, fault: Fault) returns (r: Result<string, ChallengeError>)
      modifies this
      ensures
        var error := FirstError(crypto, Lookup(old(rows), claim.challengeId), claim, nowMs);
        && (error.Some? ==> r == Failure(error.value) && rows == old(rows))
        && (error.None? ==>
              && rows == AfterMark(old(rows), claim.challengeId, nowMs, fault)
              && r == if fault == Acknowledged then Success(claim.walletPubkey) else Failure(Internal))
      ensures r.Success? ==> !Consumable(rows, claim.challengeId)
    {
      if claim.challengeId !in rows { return Failure(NotFound); }
      var challenge := rows[claim.challengeId];
      if challenge.usedAtMs.Some? { return Failure(AlreadyUsed); }
      if nowMs > challenge.expiresAtMs { return Failure(ChallengeExpired); }
      if challenge.sessionId != claim.sessionId { return Failure(SessionMismatch); }
      if challenge.walletPubkey != claim.walletPubkey { return Failure(PubkeyMismatch); }
      var key := crypto.decode(claim.walletPubkey);
      if key.None? || |key.value| != 32 || !crypto.isKey(key.value) { return Failure(InvalidPubkey); }
      if |claim.signature| != 64 { return Failure(InvalidSignature); }
      if !crypto.verifies(key.value, challenge.message, claim.signature) { return Failure(VerificationFailed); }
      var marked := claim.challengeId in rows && rows[claim.challengeId].usedAtMs.None?;
      if marked && fault != LostBeforeApply {
        rows := rows[claim.challengeId := challenge.(usedAtMs := Some(nowMs))];
      }
      if fault != Acknowledged { return Failure(Internal); }
      if !marked { return Failure(AlreadyUsed); }
      r := Success(claim.walletPubkey);
    }
  }
}
