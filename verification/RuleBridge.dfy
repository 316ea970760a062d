/**
 The chat bridges that turn commands into stored rules and funding intents.

 The rule id is derived from the command alone, while the canonical hash also
 covers the slots at which the command was typed. Typing a command again must
 therefore echo the identity of the stored rule, not of the one just built.
 */
module RuleBridge {
  import opened Wrappers
  import opened HexCodec
  import opened FundingIntent
  import opened WatchRules
  import ChatCommand
  import ChatExecutor
  import LeaseProtocol

  const DEMO_AMOUNT_RAW: nat := 250_000
  const DEMO_WINDOW_SLOTS: nat := 50_000
  const ORDER_WINDOW_SLOTS: nat := 480
  const ORDER_EXPIRY_MS: nat := 180_000

  type Hasher = ChatExecutor.Hasher

  datatype Echo = Echo(
    ruleIdHex: string,
    canonicalRuleHashHex: string,
    expiresAtSlot: nat,
    rulePersisted: bool)

  datatype PersistOutcome = Inserted | AlreadyPresent(persisted: WatchRule) | PersistFailed

  /** A command as the chat route parsed it, and what the stores will answer. */
  datatype Command = Command(
    thresholdBps: nat, amountRaw: nat, slot: nat, nowMs: int,
    insertFault: Fault, getFails: bool,
    intentFault: Fault, intentGetFails: bool)

  predicate ValidCommand(c: Command) { c.thresholdBps < U32_LIMIT && c.amountRaw < U64_LIMIT }

  function EchoOf(hash: Hasher, rule: WatchRule, persisted: bool): Echo {
    Echo(Encode(rule.ruleId), Encode(hash(rule)), rule.expiresAtSlot, persisted)
  }

  /** The rule whose metadata is echoed: the persisted one when there is one to read. */
  function EchoedRule(built: WatchRule, o: PersistOutcome): WatchRule {
    if o.AlreadyPresent? then o.persisted else built
  }

  // ── What an insert leaves behind ────────────────────────────────────────

  function RowsAfter(rows: map<RuleId, StoredRule>, rule: WatchRule, fault: Fault): map<RuleId, StoredRule> {
    if rule.ruleId in rows || fault == LostBeforeApply then rows else rows[rule.ruleId := StoredRule(rule, Active, 0)]
  }

  function OutcomeAfter(rows: map<RuleId, StoredRule>, rule: WatchRule, fault: Fault, getFails: bool): PersistOutcome {
    var after := RowsAfter(rows, rule, fault);
    if rule.ruleId !in rows && fault == Acknowledged then Inserted
    else if !getFails && rule.ruleId in after then AlreadyPresent(after[rule.ruleId].rule)
    else PersistFailed
  }

  method PersistRuleIdempotent(repo: RuleRepository, rule: WatchRule, fault: Fault, getFails: bool)
    returns (o: PersistOutcome)
    modifies repo
    ensures repo.rows == RowsAfter(old(repo.rows), rule, fault)
    ensures o == OutcomeAfter(old(repo.rows), rule, fault, getFails)
  {
    var ok := repo.Insert(rule, fault);
    if ok {
      return Inserted;
    }
    var stored := repo.Get(rule.ruleId, getFails);
    if stored.Success? && stored.value.Some? {
      return AlreadyPresent(stored.value.value.rule);
    }
    return PersistFailed;
  }

  // ── The two bridges ─────────────────────────────────────────────────────

  /** Both tables, and every way they change. */
  datatype Book = Book(rules: map<RuleId, StoredRule>, intents: map<string, Intent>)

  datatype Event =
    | Demo(command: Command)
    | Order(command: Command)
    | RuleUpdate(id: RuleId, status: RuleStatus, usedAmountRaw: nat)
    | IntentUpdate(intentId: string, update: Update)

  function FreshRule(wallet: seq<Byte>, ev: Event): WatchRule
    requires |wallet| == 32 && (ev.Demo? || ev.Order?)
  {
    match ev
    case Demo(c) => BuildRule(c.thresholdBps, DEMO_AMOUNT_RAW, c.slot, DEMO_WINDOW_SLOTS, wallet)
    case Order(c) => BuildRule(c.thresholdBps, c.amountRaw, c.slot, ORDER_WINDOW_SLOTS, wallet)
  }

  function EchoFor(hash: Hasher, wallet: seq<Byte>, b: Book, ev: Event): Echo
    requires |wallet| == 32 && (ev.Demo? || ev.Order?)
  {
    var built := FreshRule(wallet, ev);
    var o := OutcomeAfter(b.rules, built, ev.command.insertFault, ev.command.getFails);
    EchoOf(hash, EchoedRule(built, o), !o.PersistFailed?)
  }

  function IntentOf(echo: Echo, c: Command): Intent {
    NewIntent(echo.canonicalRuleHashHex, c.thresholdBps, c.amountRaw, c.nowMs + ORDER_EXPIRY_MS)
  }

  function Handle(hash: Hasher, wallet: seq<Byte>, b: Book, ev: Event): Book
    requires |wallet| == 32
  {
    match ev
    case Demo(c) => b.(rules := RowsAfter(b.rules, FreshRule(wallet, ev), c.insertFault))
    case Order(c) =>
      var echo := EchoFor(hash, wallet, b, ev);
      Book(RowsAfter(b.rules, FreshRule(wallet, ev), c.insertFault),
           InsertedInto(b.intents, echo.ruleIdHex, IntentOf(echo, c), c.intentFault))
    case RuleUpdate(id, status, used) =>
      if id in b.rules then b.(rules := b.rules[id := StoredRule(b.rules[id].rule, status, used)]) else b
    case IntentUpdate(id, u) =>
      if id in b.intents then b.(intents := b.intents[id := Cas(b.intents[id], u)]) else b
  }

  /** An order is answered when its intent was inserted or an intent could be read back. */
  predicate OrderAnswered(hash: Hasher, wallet: seq<Byte>, b: Book, c: Command)
    requires |wallet| == 32
  {
    var id := EchoFor(hash, wallet, b, Order(c)).ruleIdHex;
    || (id !in b.intents && c.intentFault == Acknowledged)
    || (!c.intentGetFails && id in Handle(hash, wallet, b, Order(c)).intents)
  }

  function HandleAll(hash: Hasher, wallet: seq<Byte>, b: Book, evs: seq<Event>): Book
    requires |wallet| == 32
    decreases |evs|
  {
    if evs == [] then b else HandleAll(hash, wallet, Handle(hash, wallet, b, evs[0]), evs[1..])
  }

  class Bridge {
    const rules: RuleRepository
    const intents: IntentRepository
    const hash: Hasher
    const wallet: seq<Byte>

    constructor (rules: RuleRepository, intents: IntentRepository, hash: Hasher, wallet: seq<Byte>)
      ensures this.rules == rules && this.intents == intents && this.hash == hash && this.wallet == wallet
    {
      this.rules, this.intents, this.hash, this.wallet := rules, intents, hash, wallet;
    }

    ghost function Contents(): Book
      reads rules, intents
    {
      Book(rules.rows, intents.rows)
    }

    /** The W5f command: the identity fields are set from the fresh rule and overwritten on a collision. */
    method HandleDemoCommand(c: Command) returns (echo: Echo)
      requires |wallet| == 32
      modifies rules
      ensures Contents() == Handle(hash, wallet, old(Contents()), Demo(c))
      ensures echo == EchoFor(hash, wallet, old(Contents()), Demo(c))
    {
      var built := BuildRule(c.thresholdBps, DEMO_AMOUNT_RAW, c.slot, DEMO_WINDOW_SLOTS, wallet);
      echo := EchoOf(hash, built, false);
      var outcome := PersistRuleIdempotent(rules, built, c.insertFault, c.getFails);
      match outcome {
        case Inserted => echo := echo.(rulePersisted := true);
        case AlreadyPresent(persisted) => echo := EchoOf(hash, persisted, true);
        case PersistFailed =>
      }
    }

    /**
     The W5h command: the same rule with a shorter window, and a funding intent
     under its id. A failed rule insert is passed over; a failed intent insert is
     an error unless an intent can be read back.
     */
    method HandleOrderCommand(c: Command) returns (r: Result<Echo, ()>)
      requires |wallet| == 32
      modifies rules, intents
      ensures Contents() == Handle(hash, wallet, old(Contents()), Order(c))
      ensures r == if OrderAnswered(hash, wallet, old(Contents()), c)
                   then Success(EchoFor(hash, wallet, old(Contents()), Order(c))) else Failure(())
    {
      var built := BuildRule(c.thresholdBps, c.amountRaw, c.slot, ORDER_WINDOW_SLOTS, wallet);
      var outcome := PersistRuleIdempotent(rules, built, c.insertFault, c.getFails);
      var echoed := built;
      if outcome.AlreadyPresent? {
        echoed := outcome.persisted;
      }
      var echo := EchoOf(hash, echoed, !outcome.PersistFailed?);
      var inserted := intents.Insert(echo.ruleIdHex, IntentOf(echo, c), c.intentFault);
      if !inserted {
        var existing := intents.Get(echo.ruleIdHex, c.intentGetFails);
        if existing.Failure? || existing.value.None? {
          return Failure(());
        }
      }
      r := Success(echo);
    }
  }

  // ── Every sequence of commands and updates ──────────────────────────────

  predicate RuleFits(wallet: seq<Byte>, id: RuleId, rule: WatchRule)
    requires |wallet| == 32
  {
    && rule.ruleId == id
    && ExtractThreshold(rule.conditions).Some?
    && ExtractThreshold(rule.conditions).value < U32_LIMIT && rule.maxInputAmountRaw < U64_LIMIT
    && id == DeriveRuleId(ExtractThreshold(rule.conditions).value, rule.maxInputAmountRaw, wallet)
  }

  predicate IntentFits(wallet: seq<Byte>, intentId: string, i: Intent)
    requires |wallet| == 32
  {
    && i.thresholdBps < U32_LIMIT && i.amountRaw < U64_LIMIT
    && intentId == Encode(DeriveRuleId(i.thresholdBps, i.amountRaw, wallet))
  }

  ghost predicate BookInv(wallet: seq<Byte>, b: Book)
    requires |wallet| == 32
  {
    && (forall id :: id in b.rules ==> RuleFits(wallet, id, b.rules[id].rule))
    && (forall k :: k in b.intents ==> IntentFits(wallet, k, b.intents[k]))
  }

  predicate ValidEvent(ev: Event) { ev.Demo? || ev.Order? ==> ValidCommand(ev.command) }

  lemma FreshRuleFits(wallet: seq<Byte>, ev: Event)
    requires |wallet| == 32 && (ev.Demo? || ev.Order?) && ValidEvent(ev)
    ensures RuleFits(wallet, FreshRule(wallet, ev).ruleId, FreshRule(wallet, ev))
  {
  }

  lemma BookInvPreserved(hash: Hasher, wallet: seq<Byte>, b: Book, ev: Event)
    requires |wallet| == 32 && BookInv(wallet, b) && ValidEvent(ev)
    ensures BookInv(wallet, Handle(hash, wallet, b, ev))
  {
    if ev.Demo? || ev.Order? {
      FreshRuleFits(wallet, ev);
    }
  }

  lemma {:induction false} BookInvAlways(hash: Hasher, wallet: seq<Byte>, b: Book, evs: seq<Event>)
    requires |wallet| == 32 && BookInv(wallet, b) && forall i :: 0 <= i < |evs| ==> ValidEvent(evs[i])
    ensures BookInv(wallet, HandleAll(hash, wallet, b, evs))
    decreases |evs|
  {
    if evs != [] {
      BookInvPreserved(hash, wallet, b, evs[0]);
      BookInvAlways(hash, wallet, Handle(hash, wallet, b, evs[0]), evs[1..]);
    }
  }

  /** Every stored rule and every intent's amount and hash survive. */
  ghost predicate KeepsIdentity(b: Book, after: Book) {
    && (forall id :: id in b.rules ==> id in after.rules && after.rules[id].rule == b.rules[id].rule)
    && (forall k :: k in b.intents ==> k in after.intents && SameIdentity(b.intents[k], after.intents[k]))
  }

  predicate SameIdentity(i: Intent, j: Intent) {
    && i.amountRaw == j.amountRaw && i.canonicalRuleHashHex == j.canonicalRuleHashHex
    && i.thresholdBps == j.thresholdBps && i.expiresAtMs == j.expiresAtMs
  }

  lemma EventKeepsIdentity(hash: Hasher, wallet: seq<Byte>, b: Book, ev: Event)
    requires |wallet| == 32
    ensures KeepsIdentity(b, Handle(hash, wallet, b, ev))
  {
  }

  /** A stored rule is never replaced and a stored intent keeps its amount and its hash. */
  lemma {:induction false} StoredIdentityIsImmutable(hash: Hasher, wallet: seq<Byte>, b: Book, evs: seq<Event>)
    requires |wallet| == 32
    ensures KeepsIdentity(b, HandleAll(hash, wallet, b, evs))
    decreases |evs|
  {
    if evs != [] {
      EventKeepsIdentity(hash, wallet, b, evs[0]);
      StoredIdentityIsImmutable(hash, wallet, Handle(hash, wallet, b, evs[0]), evs[1..]);
    }
  }

  /**
   What a command echoes: a rule that was not there yet under its own identity and
   window, and as persisted exactly when its row is known to be in the table.
   */
  lemma EchoTells(hash: Hasher, wallet: seq<Byte>, b: Book, ev: Event)
    requires |wallet| == 32 && BookInv(wallet, b) && (ev.Demo? || ev.Order?) && ValidEvent(ev)
    ensures
      var built, echo, c := FreshRule(wallet, ev), EchoFor(hash, wallet, b, ev), ev.command;
      && built.createdAtSlot == c.slot && built.wallet == wallet
      && built.expiresAtSlot == Lesser(c.slot + (if ev.Demo? then 50_000 else 480), 0xFFFF_FFFF_FFFF_FFFF)
      && built.maxInputAmountRaw == (if ev.Demo? then 250_000 else c.amountRaw)
      && built.conditions == [SolendReserveSupplyRate(c.thresholdBps)]
      && (built.ruleId !in b.rules ==>
            echo == Echo(Encode(built.ruleId), Encode(hash(built)), built.expiresAtSlot, echo.rulePersisted))
      && (echo.rulePersisted <==>
            if built.ruleId in b.rules then !c.getFails
            else c.insertFault == Acknowledged || (c.insertFault == LostAfterApply && !c.getFails))
      && (echo.rulePersisted && built.ruleId in b.rules ==>
            echo == Echo(Encode(built.ruleId), Encode(hash(b.rules[built.ruleId].rule)),
                         b.rules[built.ruleId].rule.expiresAtSlot, true))
  {
    FreshRuleFits(wallet, ev);
  }

  function Lesser(a: nat, b: nat): nat { if a <= b then a else b }

  /**
   An identity echoed as persisted is that of the stored rule, which is the rule
   of this very command: its threshold and its amount, though possibly older slots.
   */
  lemma PersistedEchoNamesStoredRule(hash: Hasher, wallet: seq<Byte>, b: Book, ev: Event)
    requires |wallet| == 32 && BookInv(wallet, b) && (ev.Demo? || ev.Order?) && ValidEvent(ev)
    requires EchoFor(hash, wallet, b, ev).rulePersisted
    ensures
      var echo := EchoFor(hash, wallet, b, ev);
      var built := FreshRule(wallet, ev);
      var rules := Handle(hash, wallet, b, ev).rules;
      && DecodeRuleId(echo.ruleIdHex) == Some(built.ruleId)
      && built.ruleId in rules
      && echo == EchoOf(hash, rules[built.ruleId].rule, true)
      && ExtractThreshold(rules[built.ruleId].rule.conditions) == Some(ev.command.thresholdBps)
      && rules[built.ruleId].rule.maxInputAmountRaw == built.maxInputAmountRaw
  {
    var built := FreshRule(wallet, ev);
    BookInvPreserved(hash, wallet, b, ev);
    FreshRuleFits(wallet, ev);
    RuleIdRoundTrip(built.ruleId);
    var stored := Handle(hash, wallet, b, ev).rules[built.ruleId].rule;
    RuleIdIsInjective(ExtractThreshold(stored.conditions).value, stored.maxInputAmountRaw,
                      ev.command.thresholdBps, built.maxInputAmountRaw, wallet);
  }

  /**
   A new order's intent starts unfunded, for the threshold and the amount of the
   command. Whenever its budget is reserved later, an executor gets it exactly at
   clock readings within three minutes of the command, and a refund after them.
   */
  lemma OrderIsExecutableForThreeMinutes(hash: Hasher, wallet: seq<Byte>, b: Book, c: Command, later: seq<Event>, now: int)
    requires |wallet| == 32 && c.intentFault != LostBeforeApply
    requires Encode(FreshRule(wallet, Order(c)).ruleId) !in b.intents && BookInv(wallet, b) && ValidCommand(c)
    ensures
      var id := Encode(FreshRule(wallet, Order(c)).ruleId);
      var after := Handle(hash, wallet, b, Order(c));
      && id in after.intents && after.intents[id].status == FundingRequired
      && after.intents[id].thresholdBps == c.thresholdBps && after.intents[id].amountRaw == c.amountRaw
    ensures
      var id := Encode(FreshRule(wallet, Order(c)).ruleId);
      var funded := HandleAll(hash, wallet, Handle(hash, wallet, b, Order(c)), later);
      && id in funded.intents
      && (funded.intents[id].status == BudgetReserved ==>
            && (Handle(hash, wallet, funded, IntentUpdate(id, LeaseExecution(now))).intents[id].status == Executing
                <==> now < c.nowMs + 180_000)
            && (Handle(hash, wallet, funded, IntentUpdate(id, LeaseRefund(now))).intents[id].status == Refunding
                <==> now >= c.nowMs + 180_000))
  {
    FreshRuleFits(wallet, Order(c));
    EchoNamesTheOrder(hash, wallet, b, c);
    StoredIdentityIsImmutable(hash, wallet, Handle(hash, wallet, b, Order(c)), later);
  }

  lemma EchoNamesTheOrder(hash: Hasher, wallet: seq<Byte>, b: Book, c: Command)
    requires |wallet| == 32 && BookInv(wallet, b) && ValidCommand(c)
    ensures EchoFor(hash, wallet, b, Order(c)).ruleIdHex == Encode(FreshRule(wallet, Order(c)).ruleId)
  {
    FreshRuleFits(wallet, Order(c));
  }

  lemma MatchingPairPasses(
    config: ChatExecutor.Config, hash: Hasher, rules: map<RuleId, StoredRule>, id: RuleId,
    request: ChatCommand.Request, w: ChatExecutor.World)
    requires DecodeRuleId(request.ruleIdHex) == Some(id) && id in rules && !w.lookupFails
    requires request.canonicalRuleHashHex == Encode(hash(rules[id].rule))
    ensures ChatExecutor.Prechecks(config, hash, rules, request, w)
      !in {Failure(ChatExecutor.CanonicalHashMismatch), Failure(ChatExecutor.RuleNotFound)}
  {
  }

  /**
   An approval that carries an echoed pair is never refused for its hash or for an
   unknown rule, however many commands and updates came in between.
   */
  lemma EchoedPairStaysExecutable(
    hash: Hasher, wallet: seq<Byte>, b: Book, ev: Event, later: seq<Event>,
    config: ChatExecutor.Config, phrase: string, w: ChatExecutor.World)
    requires |wallet| == 32 && BookInv(wallet, b) && (ev.Demo? || ev.Order?) && ValidEvent(ev)
    requires EchoFor(hash, wallet, b, ev).rulePersisted && !w.lookupFails
    ensures
      var echo := EchoFor(hash, wallet, b, ev);
      var rules := HandleAll(hash, wallet, Handle(hash, wallet, b, ev), later).rules;
      var request := ChatCommand.Request(echo.ruleIdHex, echo.canonicalRuleHashHex, phrase);
      var ready := ChatExecutor.Prechecks(config, hash, rules, request, w);
      ready !in {Failure(ChatExecutor.CanonicalHashMismatch), Failure(ChatExecutor.RuleNotFound)}
  {
    PersistedEchoNamesStoredRule(hash, wallet, b, ev);
    StoredIdentityIsImmutable(hash, wallet, Handle(hash, wallet, b, ev), later);
    var echo := EchoFor(hash, wallet, b, ev);
    MatchingPairPasses(config, hash, HandleAll(hash, wallet, Handle(hash, wallet, b, ev), later).rules,
                       FreshRule(wallet, ev).ruleId,
                       ChatCommand.Request(echo.ruleIdHex, echo.canonicalRuleHashHex, phrase), w);
  }

  /** The rule the executor finds under a funded intent's id deposits exactly the amount that was funded. */
  lemma ExecutorDepositsTheFundedAmount(
    hash: Hasher, wallet: seq<Byte>, evs: seq<Event>,
    config: ChatExecutor.Config, request: ChatCommand.Request, w: ChatExecutor.World)
    requires |wallet| == 32 && forall i :: 0 <= i < |evs| ==> ValidEvent(evs[i])
    requires
      var b := HandleAll(hash, wallet, Book(map[], map[]), evs);
      request.ruleIdHex in b.intents && ChatExecutor.Prechecks(config, hash, b.rules, request, w).Success?
    ensures
      var b := HandleAll(hash, wallet, Book(map[], map[]), evs);
      ChatExecutor.Prechecks(config, hash, b.rules, request, w).value.amountRaw == b.intents[request.ruleIdHex].amountRaw
  {
    BookInvAlways(hash, wallet, Book(map[], map[]), evs);
    var b := HandleAll(hash, wallet, Book(map[], map[]), evs);
    var i := b.intents[request.ruleIdHex];
    RuleIdRoundTrip(DeriveRuleId(i.thresholdBps, i.amountRaw, wallet));
    var id := DeriveRuleId(i.thresholdBps, i.amountRaw, wallet);
    var rule := b.rules[id].rule;
    RuleIdIsInjective(i.thresholdBps, i.amountRaw,
                      ExtractThreshold(rule.conditions).value, rule.maxInputAmountRaw, wallet);
  }

  /** Whatever rule the book holds under this rule's id is this rule. */
  predicate AgreesWith(b: Book, rule: WatchRule) {
    rule.ruleId in b.rules ==> b.rules[rule.ruleId].rule == rule
  }

  /** No continuation ever stores another rule under this rule's id. */
  ghost predicate BoundForGood(hash: Hasher, wallet: seq<Byte>, b: Book, rule: WatchRule)
    requires |wallet| == 32
  {
    forall evs :: AgreesWith(HandleAll(hash, wallet, b, evs), rule)
  }

  lemma StoredRuleStays(hash: Hasher, wallet: seq<Byte>, b: Book, rule: WatchRule)
    requires |wallet| == 32 && rule.ruleId in b.rules
    ensures BoundForGood(hash, wallet, b, rule) <==> b.rules[rule.ruleId].rule == rule
  {
    forall evs ensures KeepsIdentity(b, HandleAll(hash, wallet, b, evs)) {
      StoredIdentityIsImmutable(hash, wallet, b, evs);
    }
    assert HandleAll(hash, wallet, b, []) == b;
  }

  lemma NextOrderStoresAnother(hash: Hasher, wallet: seq<Byte>, b: Book, c: Command)
    requires |wallet| == 32 && FreshRule(wallet, Order(c)).ruleId !in b.rules
    ensures !BoundForGood(hash, wallet, b, FreshRule(wallet, Order(c)))
  {
    var again := Order(c.(slot := c.slot + 1, insertFault := Acknowledged));
    assert [again][1..] == [];
    assert HandleAll(hash, wallet, b, [again]) == Handle(hash, wallet, b, again);
    assert FreshRule(wallet, again).createdAtSlot == c.slot + 1;
    assert !AgreesWith(HandleAll(hash, wallet, b, [again]), FreshRule(wallet, Order(c)));
  }

  /** The rule whose hash a new order's intent records. */
  function RecordedRule(wallet: seq<Byte>, b: Book, c: Command): WatchRule
    requires |wallet| == 32
  {
    var built := FreshRule(wallet, Order(c));
    EchoedRule(built, OutcomeAfter(b.rules, built, c.insertFault, c.getFails))
  }

  /** What a caller can tell before an order: whether its rule will be in the table, under this very identity. */
  predicate RuleWillBeStored(wallet: seq<Byte>, b: Book, c: Command)
    requires |wallet| == 32
  {
    FreshRule(wallet, Order(c)).ruleId in b.rules || c.insertFault != LostBeforeApply
  }

  /** An older row that cannot be read back leaves the order with the identity it built itself. */
  predicate OlderRowUnread(wallet: seq<Byte>, b: Book, c: Command)
    requires |wallet| == 32
  {
    FreshRule(wallet, Order(c)).ruleId in b.rules && c.getFails
  }

  /**
   A new order's intent is bound to the rule it will be executed against, for good,
   exactly when the rule row is in the table or its insert takes effect, and an older
   row that differs could be read back.
   */
  lemma IntentIsBoundIffRuleStored(hash: Hasher, wallet: seq<Byte>, b: Book, c: Command)
    requires |wallet| == 32 && BookInv(wallet, b) && ValidCommand(c) && c.intentFault != LostBeforeApply
    requires Encode(FreshRule(wallet, Order(c)).ruleId) !in b.intents
    ensures
      var built := FreshRule(wallet, Order(c));
      var after := Handle(hash, wallet, b, Order(c));
      && Encode(built.ruleId) in after.intents
      && after.intents[Encode(built.ruleId)].canonicalRuleHashHex == Encode(hash(RecordedRule(wallet, b, c)))
      && (BoundForGood(hash, wallet, after, RecordedRule(wallet, b, c)) <==>
            && RuleWillBeStored(wallet, b, c)
            && (OlderRowUnread(wallet, b, c) ==> b.rules[built.ruleId].rule == built))
  {
    var built := FreshRule(wallet, Order(c));
    var after := Handle(hash, wallet, b, Order(c));
    FreshRuleFits(wallet, Order(c));
    assert RecordedRule(wallet, b, c).ruleId == built.ruleId;
    if built.ruleId in after.rules {
      StoredRuleStays(hash, wallet, after, RecordedRule(wallet, b, c));
    } else {
      NextOrderStoresAnother(hash, wallet, after, c);
    }
  }

  // ── What the executor makes of the intent's own pair ────────────────────

  /** The request the automatic path builds from an intent row. */
  function AutoRequest(intentId: string, i: Intent): ChatCommand.Request {
    ChatCommand.Request(intentId, i.canonicalRuleHashHex, ChatExecutor.REQUIRED_PHRASE)
  }

  predicate RefusedForIdentity(r: Result<ChatExecutor.Ready, ChatExecutor.ErrorCode>) {
    r in {Failure(ChatExecutor.CanonicalHashMismatch), Failure(ChatExecutor.RuleNotFound)}
  }

  /** Whether the executor, on this book, refuses the intent's request for an unknown rule or another hash. */
  predicate Refuses(config: ChatExecutor.Config, hash: Hasher, b: Book, intentId: string, w: ChatExecutor.World) {
    && intentId in b.intents && !w.lookupFails
    && RefusedForIdentity(ChatExecutor.Prechecks(config, hash, b.rules, AutoRequest(intentId, b.intents[intentId]), w))
  }

  /** Whatever happens next, no executor ever refuses the intent's request for its identity. */
  ghost predicate NeverRefused(hash: Hasher, wallet: seq<Byte>, b: Book, intentId: string)
    requires |wallet| == 32
  {
    forall later, config, w :: !Refuses(config, hash, HandleAll(hash, wallet, b, later), intentId, w)
  }

  lemma EncodeIsInjective(a: seq<Byte>, b: seq<Byte>)
    ensures Encode(a) == Encode(b) <==> a == b
    ensures ChatExecutor.EqualsIgnoreCase(Encode(a), Encode(b)) <==> a == b
  {
    ChatExecutor.EncodedIsLowerCase(a);
    ChatExecutor.EncodedIsLowerCase(b);
    if Encode(a) == Encode(b) {
      DecodeEncodePairs(a);
      DecodeEncodePairs(b);
    }
  }

  lemma StoredHashIsNeverRefused(hash: Hasher, wallet: seq<Byte>, b: Book, id: RuleId)
    requires |wallet| == 32 && |id| == RULE_ID_BYTES && id in b.rules && Encode(id) in b.intents
    requires b.intents[Encode(id)].canonicalRuleHashHex == Encode(hash(b.rules[id].rule))
    ensures NeverRefused(hash, wallet, b, Encode(id))
  {
    RuleIdRoundTrip(id);
    forall later, config, w ensures !Refuses(config, hash, HandleAll(hash, wallet, b, later), Encode(id), w) {
      var b' := HandleAll(hash, wallet, b, later);
      StoredIdentityIsImmutable(hash, wallet, b, later);
      if !w.lookupFails {
        MatchingPairPasses(config, hash, b'.rules, id, AutoRequest(Encode(id), b'.intents[Encode(id)]), w);
      }
    }
  }

  /** An executor whose configuration lets every request through to the rule lookup. */
  function OpenGates(): ChatExecutor.Config {
    ChatExecutor.Config(true, Some(ChatExecutor.REQUIRED_PHRASE), Some(ChatExecutor.MAINNET), true, true)
  }

  function AnyWorld(): ChatExecutor.World {
    ChatExecutor.World(false, None, None, 0, Acknowledged, LeaseProtocol.BuildFailed, "", Acknowledged, Acknowledged)
  }

  lemma MissingOrOtherHashIsRefused(hash: Hasher, wallet: seq<Byte>, b: Book, id: RuleId, recorded: WatchRule)
    requires |wallet| == 32 && |id| == RULE_ID_BYTES && Encode(id) in b.intents
    requires b.intents[Encode(id)].canonicalRuleHashHex == Encode(hash(recorded))
    requires id in b.rules ==> hash(b.rules[id].rule) != hash(recorded)
    ensures !NeverRefused(hash, wallet, b, Encode(id))
  {
    RuleIdRoundTrip(id);
    if id in b.rules {
      EncodeIsInjective(hash(b.rules[id].rule), hash(recorded));
    }
    assert ChatExecutor.GateError(OpenGates(), AutoRequest(Encode(id), b.intents[Encode(id)])) == None;
    assert Refuses(OpenGates(), hash, HandleAll(hash, wallet, b, []), Encode(id), AnyWorld());
  }

  /**
   A request built from a new order's intent is never refused for its hash or as
   unknown, at any later time, exactly when the rule row is in the table or its
   insert takes effect, and an older row could be read back or hashes alike.
   Otherwise the order is accepted and some executor refuses it for good reason.
   */
  lemma AutoRequestNeverRefusedIff(hash: Hasher, wallet: seq<Byte>, b: Book, c: Command)
    requires |wallet| == 32 && BookInv(wallet, b) && ValidCommand(c) && c.intentFault != LostBeforeApply
    requires Encode(FreshRule(wallet, Order(c)).ruleId) !in b.intents
    ensures
      var built := FreshRule(wallet, Order(c));
      NeverRefused(hash, wallet, Handle(hash, wallet, b, Order(c)), Encode(built.ruleId)) <==>
        && RuleWillBeStored(wallet, b, c)
        && (OlderRowUnread(wallet, b, c) ==> hash(b.rules[built.ruleId].rule) == hash(built))
  {
    var built := FreshRule(wallet, Order(c));
    var after := Handle(hash, wallet, b, Order(c));
    FreshRuleFits(wallet, Order(c));
    IntentIsBoundIffRuleStored(hash, wallet, b, c);
    var recorded := RecordedRule(wallet, b, c);
    if built.ruleId in after.rules && hash(after.rules[built.ruleId].rule) == hash(recorded) {
      StoredHashIsNeverRefused(hash, wallet, after, built.ruleId);
    } else {
      MissingOrOtherHashIsRefused(hash, wallet, after, built.ruleId, recorded);
    }
  }
}
