/** Conditional-deposit rules: their deterministic identity and the table that stores them. */
module WatchRules {
  import opened Wrappers
  import opened HexCodec
  import opened FundingIntent

  const U32_LIMIT: nat := 0x1_0000_0000
  const U64_LIMIT: nat := 0x1_0000_0000_0000_0000

  type RuleId = seq<Byte>

  datatype Condition = SolendReserveSupplyRate(thresholdBps: nat) | OtherCondition

  datatype WatchRule = WatchRule(
    ruleId: RuleId,
    wallet: seq<Byte>,
    createdAtSlot: nat,
    expiresAtSlot: nat,
    conditions: seq<Condition>,
    maxInputAmountRaw: nat)

  datatype RuleStatus = Active | ConditionMet | RuleExecuting | RuleCompleted | RuleExpired | Revoked | RuleFailed

  datatype StoredRule = StoredRule(rule: WatchRule, status: RuleStatus, usedAmountRaw: nat)

  // ── Identity ────────────────────────────────────────────────────────────

  function LittleEndian(n: nat, width: nat): (bytes: seq<Byte>)
    ensures |bytes| == width
  {
    if width == 0 then [] else [n % 256] + LittleEndian(n / 256, width - 1)
  }

  function FromLittleEndian(bytes: seq<Byte>): nat {
    if bytes == [] then 0 else bytes[0] + 256 * FromLittleEndian(bytes[1..])
  }

  function Power256(width: nat): (p: nat)
    ensures p > 0
  {
    if width == 0 then 1 else 256 * Power256(width - 1)
  }

  /** Four bytes of threshold, eight bytes of amount, four bytes of wallet. */
  function DeriveRuleId(thresholdBps: nat, amountRaw: nat, wallet: seq<Byte>): (id: RuleId)
    requires |wallet| == 32
    ensures |id| == RULE_ID_BYTES
  {
    LittleEndian(thresholdBps, 4) + LittleEndian(amountRaw, 8) + wallet[..4]
  }

  lemma {:induction false} LittleEndianRoundTrip(n: nat, width: nat)
    requires n < Power256(width)
    ensures FromLittleEndian(LittleEndian(n, width)) == n
  {
    if width > 0 {
      assert n / 256 < Power256(width - 1);
      LittleEndianRoundTrip(n / 256, width - 1);
      assert LittleEndian(n, width)[1..] == LittleEndian(n / 256, width - 1);
    }
  }

  /** Two commands share a rule id only when they agree on threshold and amount. */
  lemma RuleIdIsInjective(t: nat, a: nat, t': nat, a': nat, wallet: seq<Byte>)
    requires |wallet| == 32 && t < U32_LIMIT && t' < U32_LIMIT && a < U64_LIMIT && a' < U64_LIMIT
    requires DeriveRuleId(t, a, wallet) == DeriveRuleId(t', a', wallet)
    ensures t == t' && a == a'
  {
    var id, id' := DeriveRuleId(t, a, wallet), DeriveRuleId(t', a', wallet);
    assert id[..4] == LittleEndian(t, 4) && id[4..12] == LittleEndian(a, 8);
    assert id'[..4] == LittleEndian(t', 4) && id'[4..12] == LittleEndian(a', 8);
    PowersFit();
    LittleEndianRoundTrip(t, 4);
    LittleEndianRoundTrip(t', 4);
    LittleEndianRoundTrip(a, 8);
    LittleEndianRoundTrip(a', 8);
  }

  lemma PowersFit()
    ensures Power256(4) == U32_LIMIT && Power256(8) == U64_LIMIT
  {
    assert Power256(2) == 65536;
    assert Power256(4) == 65536 * Power256(2);
    assert Power256(6) == 65536 * Power256(4);
  }

  function SaturatingAddU64(a: nat, b: nat): nat {
    if a + b < U64_LIMIT then a + b else U64_LIMIT - 1
  }

  /** The rule a command builds; its slots depend on when the command was typed. */
  function BuildRule(thresholdBps: nat, amountRaw: nat, slot: nat, windowSlots: nat, wallet: seq<Byte>): WatchRule
    requires |wallet| == 32
  {
    WatchRule(DeriveRuleId(thresholdBps, amountRaw, wallet), wallet, slot, SaturatingAddU64(slot, windowSlots),
              [SolendReserveSupplyRate(thresholdBps)], amountRaw)
  }

  /** `extract_threshold_bps`: the first supply-rate condition. */
  function ExtractThreshold(conditions: seq<Condition>): Option<nat> {
    if conditions == [] then None
    else if conditions[0].SolendReserveSupplyRate? then Some(conditions[0].thresholdBps)
    else ExtractThreshold(conditions[1..])
  }

  /** The threshold is that of the first supply-rate condition, wherever it stands; without one there is none. */
  lemma {:induction false} ThresholdIsTheFirst(conditions: seq<Condition>)
    ensures ExtractThreshold(conditions).None? <==> forall i :: 0 <= i < |conditions| ==> conditions[i].OtherCondition?
    ensures forall i :: 0 <= i < |conditions| && conditions[i].SolendReserveSupplyRate?
                        && (forall j :: 0 <= j < i ==> conditions[j].OtherCondition?) ==>
              ExtractThreshold(conditions) == Some(conditions[i].thresholdBps)
  {
    if conditions != [] && conditions[0].OtherCondition? {
      var rest := conditions[1..];
      ThresholdIsTheFirst(rest);
      assert forall i :: 0 < i < |conditions| ==> conditions[i] == rest[i - 1];
      forall i | 0 <= i < |conditions| && conditions[i].SolendReserveSupplyRate?
                 && (forall j :: 0 <= j < i ==> conditions[j].OtherCondition?)
        ensures ExtractThreshold(conditions) == Some(conditions[i].thresholdBps)
      {
        assert rest[i - 1] == conditions[i];
        assert forall j :: 0 <= j < i - 1 ==> rest[j] == conditions[j + 1];
      }
    }
  }

  // ── Storage ─────────────────────────────────────────────────────────────

  class RuleRepository {
    var rows: map<RuleId, StoredRule>

    constructor ()
      ensures rows == map[]
    {
      rows := map[];
    }

    /** Fails on a row that is already there, and when the write or its acknowledgement is lost. */
    method Insert(rule: WatchRule, fault: Fault) returns (ok: bool)
      modifies this
      ensures ok <==> fault == Acknowledged && rule.ruleId !in old(rows)
      ensures rows ==
        if rule.ruleId in old(rows) || fault == LostBeforeApply then old(rows)
        else old(rows)[rule.ruleId := StoredRule(rule, Active, 0)]
    {
      if rule.ruleId in rows || fault == LostBeforeApply {
        return false;
      }
      rows := rows[rule.ruleId := StoredRule(rule, Active, 0)];
      return fault == Acknowledged;
    }

    method Get(id: RuleId, fails: bool) returns (r: Result<Option<StoredRule>, ()>)
      ensures r == if fails then Failure(()) else if id in rows then Success(Some(rows[id])) else Success(None)
    {
      if fails {
        return Failure(());
      }
      return if id in rows then Success(Some(rows[id])) else Success(None);
    }

    method MarkCompleted(id: RuleId, usedAmountRaw: nat, fault: Fault) returns (marked: bool)
      modifies this
      ensures marked <==> fault == Acknowledged && id in old(rows)
      ensures rows ==
        if id in old(rows) && fault != LostBeforeApply
        then old(rows)[id := StoredRule(old(rows)[id].rule, RuleCompleted, usedAmountRaw)]
        else old(rows)
    {
      if id in rows && fault != LostBeforeApply {
        rows := rows[id := StoredRule(rows[id].rule, RuleCompleted, usedAmountRaw)];
        return fault == Acknowledged;
      }
      return false;
    }
  }
}
