/**
 Transactions parked for approval, each with the sender half of a one-shot
 channel whose receiver wakes the parked task.
 */
module PendingSigning {
  import opened Wrappers
  import opened ApprovalWorkflow

  /** What is needed to rebuild a parked transaction. */
  datatype Parked = Parked(proposal: string, txBytes: seq<bv8>, lastValidBlockHeight: nat)

  /** A parked entry; `decisionTx` names the channel whose sender half is still unused. */
  datatype Entry = Entry(parked: Parked, parking: nat, decisionTx: Option<nat>)

  /** A one-shot channel issued for one parking of one request, and the value sent through it. */
  datatype Channel = Channel(requestId: nat, parking: nat, sent: Option<WorkflowState>)

  datatype Parking = Parking(entries: map<nat, Entry>, channels: seq<Channel>, parkings: nat)

  datatype ParkOp =
    | ParkOp(parkId: nat, parked: Parked)
    | SignalOp(signalId: nat, state: WorkflowState)
    | TakeOp(takeId: nat)
    | TakeDecisionRxOp(rxId: nat)

  const EMPTY_PARKING := Parking(map[], [], 0)

  predicate Armed(p: Parking, id: nat) {
    id in p.entries && p.entries[id].decisionTx.Some? && p.entries[id].decisionTx.value < |p.channels|
  }

  /** Inserting over an entry that is still parked drops its sender: the earlier receiver only sees the channel close. */
  function AfterPark(p: Parking, id: nat, parked: Parked): Parking {
    Parking(p.entries[id := Entry(parked, p.parkings, Some(|p.channels|))],
            p.channels + [Channel(id, p.parkings, None)],
            p.parkings + 1)
  }

  function AfterSignal(p: Parking, id: nat, state: WorkflowState): Parking {
    if !Armed(p, id) then p else
    var c := p.entries[id].decisionTx.value;
    p.(entries := p.entries[id := p.entries[id].(decisionTx := None)],
       channels := p.channels[c := p.channels[c].(sent := Some(state))])
  }

  function AfterTakeDecisionRx(p: Parking, id: nat): Parking {
    if !Armed(p, id) then p else
    p.(entries := p.entries[id := p.entries[id].(decisionTx := Some(|p.channels|))],
       channels := p.channels + [Channel(id, p.entries[id].parking, None)])
  }

  function Apply(p: Parking, op: ParkOp): Parking {
    match op
    case ParkOp(id, parked) => AfterPark(p, id, parked)
    case SignalOp(id, state) => AfterSignal(p, id, state)
    case TakeOp(id) => p.(entries := p.entries - {id})
    case TakeDecisionRxOp(id) => AfterTakeDecisionRx(p, id)
  }

  function ApplyAll(p: Parking, ops: seq<ParkOp>): Parking
    decreases |ops|
  {
    if ops == [] then p else ApplyAll(Apply(p, ops[0]), ops[1..])
  }

  // ── One-shot delivery ───────────────────────────────────────────────────

  /** An unused sender belongs to the newest channel of a parking through which nothing was sent yet. */
  predicate Unused(p: Parking, id: nat, parking: nat, c: nat) {
    && c < |p.channels| && p.channels[c] == Channel(id, parking, None)
    && forall d :: 0 <= d < |p.channels| && p.channels[d].parking == parking ==> p.channels[d].sent.None? && d <= c
  }

  predicate ParkingsKnown(p: Parking) {
    && (forall c :: 0 <= c < |p.channels| ==> p.channels[c].parking < p.parkings)
    && (forall id :: id in p.entries ==> p.entries[id].parking < p.parkings)
    && (forall id, id' :: id in p.entries && id' in p.entries && id != id' ==>
          p.entries[id].parking != p.entries[id'].parking)
  }

  predicate SendersUnused(p: Parking) {
    forall id :: id in p.entries && p.entries[id].decisionTx.Some? ==>
      Unused(p, id, p.entries[id].parking, p.entries[id].decisionTx.value)
  }

  predicate OneValueEach(p: Parking) {
    forall c, d :: 0 <= c < d < |p.channels| && p.channels[c].sent.Some? && p.channels[d].sent.Some? ==>
      p.channels[c].parking != p.channels[d].parking
  }

  ghost predicate ParkingInv(p: Parking) {
    ParkingsKnown(p) && SendersUnused(p) && OneValueEach(p)
  }

  lemma SendersUnusedAfterPark(p: Parking, id: nat, parked: Parked)
    requires ParkingInv(p)
    ensures SendersUnused(AfterPark(p, id, parked))
  {
    var p' := AfterPark(p, id, parked);
    forall other | other in p'.entries && p'.entries[other].decisionTx.Some?
      ensures Unused(p', other, p'.entries[other].parking, p'.entries[other].decisionTx.value)
    {
      if other != id { assert Unused(p, other, p.entries[other].parking, p.entries[other].decisionTx.value); }
    }
  }

  lemma SendersUnusedAfterSignal(p: Parking, id: nat, state: WorkflowState)
    requires ParkingInv(p)
    ensures SendersUnused(AfterSignal(p, id, state))
  {
    var p' := AfterSignal(p, id, state);
    forall other | other in p'.entries && p'.entries[other].decisionTx.Some?
      ensures Unused(p', other, p'.entries[other].parking, p'.entries[other].decisionTx.value)
    {
      assert Unused(p, other, p.entries[other].parking, p.entries[other].decisionTx.value);
      if Armed(p, id) { assert Unused(p, id, p.entries[id].parking, p.entries[id].decisionTx.value); }
    }
  }

  lemma SendersUnusedAfterTakeDecisionRx(p: Parking, id: nat)
    requires ParkingInv(p)
    ensures SendersUnused(AfterTakeDecisionRx(p, id))
  {
    var p' := AfterTakeDecisionRx(p, id);
    forall other | other in p'.entries && p'.entries[other].decisionTx.Some?
      ensures Unused(p', other, p'.entries[other].parking, p'.entries[other].decisionTx.value)
    {
      assert Unused(p, other, p.entries[other].parking, p.entries[other].decisionTx.value);
    }
  }

  lemma ParkingInvPreserved(p: Parking, op: ParkOp)
    requires ParkingInv(p)
    ensures ParkingInv(Apply(p, op))
  {
    match op
    case ParkOp(id, parked) => SendersUnusedAfterPark(p, id, parked);
    case SignalOp(id, state) =>
      SendersUnusedAfterSignal(p, id, state);
      if Armed(p, id) { assert Unused(p, id, p.entries[id].parking, p.entries[id].decisionTx.value); }
    case TakeOp(id) =>
      var p' := Apply(p, op);
      forall other | other in p'.entries && p'.entries[other].decisionTx.Some?
        ensures Unused(p', other, p'.entries[other].parking, p'.entries[other].decisionTx.value)
      {
        assert Unused(p, other, p.entries[other].parking, p.entries[other].decisionTx.value);
      }
    case TakeDecisionRxOp(id) => SendersUnusedAfterTakeDecisionRx(p, id);
  }

  lemma {:induction false} ParkingInvAlways(p: Parking, ops: seq<ParkOp>)
    requires ParkingInv(p)
    ensures ParkingInv(ApplyAll(p, ops))
    decreases |ops|
  {
    if ops != [] {
      ParkingInvPreserved(p, ops[0]);
      ParkingInvAlways(Apply(p, ops[0]), ops[1..]);
    }
  }

  /**
   Over every sequence of operations: of all receivers ever issued for one
   parking, replaced ones included, at most one is sent a value.
   */
  lemma OneShotDelivery(ops: seq<ParkOp>, c: nat, d: nat)
    requires
      var channels := ApplyAll(EMPTY_PARKING, ops).channels;
      && c < |channels| && d < |channels| && channels[c].parking == channels[d].parking
      && channels[c].sent.Some? && channels[d].sent.Some?
    ensures c == d
  {
    ParkingInvAlways(EMPTY_PARKING, ops);
  }

  /**
   A signal that succeeds is the first of its parking and goes to the receiver
   issued last, which belongs to the signalled request.
   */
  lemma SignalReachesLatest(ops: seq<ParkOp>, id: nat, state: WorkflowState)
    requires Armed(ApplyAll(EMPTY_PARKING, ops), id)
    ensures
      var p := ApplyAll(EMPTY_PARKING, ops);
      var parking, latest := p.entries[id].parking, p.entries[id].decisionTx.value;
      && (forall c :: 0 <= c < |p.channels| && p.channels[c].parking == parking ==>
            c <= latest && p.channels[c].sent.None?)
      && AfterSignal(p, id, state).channels == p.channels[latest := Channel(id, parking, Some(state))]
  {
    ParkingInvAlways(EMPTY_PARKING, ops);
    var p := ApplyAll(EMPTY_PARKING, ops);
    assert Unused(p, id, p.entries[id].parking, p.entries[id].decisionTx.value);
  }

  /** Once a signal went out, no operation but parking again makes another signal for that request succeed. */
  lemma {:induction false} SignalSpendsTheParking(p: Parking, id: nat, ops: seq<ParkOp>)
    requires id in p.entries ==> p.entries[id].decisionTx.None?
    requires forall k :: 0 <= k < |ops| && ops[k].ParkOp? ==> ops[k].parkId != id
    ensures !Armed(ApplyAll(p, ops), id)
    decreases |ops|
  {
    if ops != [] {
      assert forall k :: 0 <= k < |ops[1..]| ==> ops[1..][k] == ops[k + 1];
      SignalSpendsTheParking(Apply(p, ops[0]), id, ops[1..]);
    }
  }

  // ── What is taken ───────────────────────────────────────────────────────

  /** A parking that is over: no entry stands for it any more. */
  predicate Over(p: Parking, parking: nat) {
    parking < p.parkings && forall id :: id in p.entries ==> p.entries[id].parking != parking
  }

  lemma OverStays(p: Parking, op: ParkOp, parking: nat)
    requires Over(p, parking)
    ensures Over(Apply(p, op), parking)
  {
  }

  lemma {:induction false} OverForGood(p: Parking, ops: seq<ParkOp>, parking: nat)
    requires Over(p, parking)
    ensures Over(ApplyAll(p, ops), parking)
    decreases |ops|
  {
    if ops != [] {
      OverStays(p, ops[0], parking);
      OverForGood(Apply(p, ops[0]), ops[1..], parking);
    }
  }

  /**
   A take ends its parking: whatever happens in between, no later take of any
   request returns the same parked transaction again.
   */
  lemma TakenOnce(before: seq<ParkOp>, id: nat, between: seq<ParkOp>, later: nat)
    requires id in ApplyAll(EMPTY_PARKING, before).entries
    ensures
      var p := ApplyAll(EMPTY_PARKING, before);
      var p' := ApplyAll(Apply(p, TakeOp(id)), between);
      later in p'.entries ==> p'.entries[later].parking != p.entries[id].parking
    ensures id !in Apply(ApplyAll(EMPTY_PARKING, before), TakeOp(id)).entries
  {
    ParkingInvAlways(EMPTY_PARKING, before);
    var p := ApplyAll(EMPTY_PARKING, before);
    OverForGood(Apply(p, TakeOp(id)), between, p.entries[id].parking);
  }

  predicate Leaves(op: ParkOp, id: nat) {
    !(op.ParkOp? && op.parkId == id) && !(op.TakeOp? && op.takeId == id)
  }

  /** What is there to be taken is what was parked last, signals and new channels notwithstanding. */
  lemma {:induction false} ParkedUntilTaken(p: Parking, id: nat, parked: Parked, ops: seq<ParkOp>)
    requires id in p.entries && p.entries[id].parked == parked
    requires forall k :: 0 <= k < |ops| ==> Leaves(ops[k], id)
    ensures
      var p' := ApplyAll(p, ops);
      id in p'.entries && p'.entries[id].parked == parked && p'.entries[id].parking == p.entries[id].parking
    decreases |ops|
  {
    if ops != [] {
      assert Leaves(ops[0], id);
      assert forall k :: 0 <= k < |ops[1..]| ==> ops[1..][k] == ops[k + 1];
      ParkedUntilTaken(Apply(p, ops[0]), id, parked, ops[1..]);
    }
  }

  lemma ParkingHoldsIt(p: Parking, id: nat, parked: Parked)
    ensures
      var p' := Apply(p, ParkOp(id, parked));
      && id in p'.entries && p'.entries[id].parked == parked && p'.entries[id].parking == p.parkings
      && (forall other :: other != id ==>
            (other in p'.entries <==> other in p.entries)
            && (other in p.entries ==> p'.entries[other] == p.entries[other]))
  {
  }

  lemma UnusedIsArmed(p: Parking, id: nat)
    requires ParkingInv(p) && id in p.entries && p.entries[id].decisionTx.Some?
    ensures Armed(p, id)
  {
    assert Unused(p, id, p.entries[id].parking, p.entries[id].decisionTx.value);
  }

  // ── The store ───────────────────────────────────────────────────────────

  class PendingSigningStore {
    var entries: map<nat, Entry>
    var channels: seq<Channel>
    var parkings: nat

    function Model(): Parking reads this { Parking(entries, channels, parkings) }

    ghost predicate Valid() reads this { ParkingInv(Model()) }

    constructor ()
      ensures Valid() && Model() == EMPTY_PARKING
    {
      entries, channels, parkings := map[], [], 0;
    }

    method Park(id: nat, parked: Parked) returns (receiver: nat)
      requires Valid()
      modifies this
      ensures Valid() && Model() == AfterPark(old(Model()), id, parked)
      ensures receiver < |channels| && channels[receiver] == Channel(id, old(parkings), None)
    {
      ParkingInvPreserved(Model(), ParkOp(id, parked));
      receiver := |channels|;
      entries := entries[id := Entry(parked, parkings, Some(receiver))];
      channels := channels + [Channel(id, parkings, None)];
      parkings := parkings + 1;
    }

    method Signal(id: nat, state: WorkflowState) returns (delivered: bool)
      requires Valid()
      modifies this
      ensures Valid() && Model() == AfterSignal(old(Model()), id, state)
      ensures delivered <==> id in old(entries) && old(entries)[id].decisionTx.Some?
      ensures delivered ==> !Armed(Model(), id)
    {
      ParkingInvPreserved(Model(), SignalOp(id, state));
      delivered := false;
      if id in entries && entries[id].decisionTx.Some? {
        var c := entries[id].decisionTx.value;
        assert Unused(Model(), id, entries[id].parking, c);
        entries := entries[id := entries[id].(decisionTx := None)];
        channels := channels[c := channels[c].(sent := Some(state))];
        delivered := true;
      }
    }

    method Take(id: nat) returns (parked: Option<Parked>)
      requires Valid()
      modifies this
      ensures Valid() && Model() == Apply(old(Model()), TakeOp(id))
      ensures parked == if id in old(entries) then Some(old(entries)[id].parked) else None
    {
      ParkingInvPreserved(Model(), TakeOp(id));
      parked := if id in entries then Some(entries[id].parked) else None;
      entries := entries - {id};
    }

    method TakeDecisionRx(id: nat) returns (receiver: Option<nat>)
      requires Valid()
      modifies this
      ensures Valid() && Model() == AfterTakeDecisionRx(old(Model()), id)
      ensures receiver.Some? <==> id in old(entries) && old(entries)[id].decisionTx.Some?
      ensures receiver.Some? ==> id in entries && receiver == entries[id].decisionTx
    {
      ParkingInvPreserved(Model(), TakeDecisionRxOp(id));
      receiver := None;
      if id in entries && entries[id].decisionTx.Some? {
        UnusedIsArmed(Model(), id);
        receiver := Some(|channels|);
        channels, entries := channels + [Channel(id, entries[id].parking, None)],
                             entries[id := entries[id].(decisionTx := Some(|channels|))];
      }
    }
  }
}
