/**
 The agent's tool loop and the history it keeps: a context that is trimmed from
 the front on every push, and must still pair each tool-use turn with its results
 whenever the model is asked.
 */
module AgentLoop {
  import opened Wrappers

  datatype ToolCall = ToolCall(id: string, toolName: string, input: string)

  datatype Entry =
    | UserInstruction(content: string)
    | AssistantResponse(content: string)
    | AssistantToolUse(text: Option<string>, toolCalls: seq<ToolCall>)
    | ToolResult(toolName: string, callId: string, content: string)

  // ── Pairing ─────────────────────────────────────────────────────────────

  predicate Answers(calls: seq<ToolCall>, results: seq<Entry>) {
    && |results| == |calls|
    && forall i :: 0 <= i < |calls| ==>
         results[i].ToolResult? && results[i].callId == calls[i].id && results[i].toolName == calls[i].toolName
  }

  /** Every tool-use turn is followed by exactly its results, in order, and results appear nowhere else. */
  predicate Paired(h: seq<Entry>) {
    if h == [] then true
    else
      match h[0]
      case ToolResult(_, _, _) => false
      case AssistantToolUse(_, calls) =>
        calls != [] && |calls| < |h| && Answers(calls, h[1..1 + |calls|]) && Paired(h[1 + |calls|..])
      case _ => Paired(h[1..])
  }

  /** What follows a history only matters after its first turn. */
  lemma TurnThenRest(turn: seq<Entry>, rest: seq<Entry>)
    requires turn != [] && turn[0].AssistantToolUse? && |turn| == 1 + |turn[0].toolCalls|
    ensures Paired(turn + rest) <==>
              turn[0].toolCalls != [] && Answers(turn[0].toolCalls, turn[1..]) && Paired(rest)
  {
    var all := turn + rest;
    assert all[1..|turn|] == turn[1..] && all[|turn|..] == rest;
  }

  lemma TextThenRest(e: Entry, rest: seq<Entry>)
    requires e.UserInstruction? || e.AssistantResponse?
    ensures Paired([e] + rest) <==> Paired(rest)
  {
    assert ([e] + rest)[1..] == rest;
  }

  lemma {:induction false} PairedAppend(h: seq<Entry>, tail: seq<Entry>)
    requires Paired(h) && Paired(tail)
    ensures Paired(h + tail)
    decreases |h|
  {
    if h == [] {
      assert h + tail == tail;
    } else {
      var n := if h[0].AssistantToolUse? then 1 + |h[0].toolCalls| else 1;
      var first, rest := h[..n], h[n..];
      assert h == first + rest;
      assert h + tail == first + (rest + tail);
      if h[0].AssistantToolUse? {
        TurnThenRest(first, rest);
        PairedAppend(rest, tail);
        TurnThenRest(first, rest + tail);
      } else {
        assert first == [h[0]];
        TextThenRest(h[0], rest);
        PairedAppend(rest, tail);
        TextThenRest(h[0], rest + tail);
      }
    }
  }

  // ── Trimming ────────────────────────────────────────────────────────────

  const PREFIX_LEN: nat := 66

  function CallsLen(calls: seq<ToolCall>): nat {
    if calls == [] then 0 else |calls[0].toolName| + 50 + CallsLen(calls[1..])
  }

  /** A rough token count: a quarter of the characters. */
  function Tokens(e: Entry): nat {
    var len :=
      match e
      case UserInstruction(content) => |content|
      case AssistantResponse(content) => |content|
      case AssistantToolUse(text, calls) => (if text.Some? then |text.value| else 0) + CallsLen(calls)
      case ToolResult(_, _, content) => |content| + PREFIX_LEN;
    len / 4
  }

  function TotalTokens(h: seq<Entry>): nat {
    if h == [] then 0 else Tokens(h[0]) + TotalTokens(h[1..])
  }

  lemma {:induction false} TotalTokensAppend(h: seq<Entry>, e: Entry)
    ensures TotalTokens(h + [e]) == TotalTokens(h) + Tokens(e)
  {
    if h == [] {
      assert h + [e] == [e];
    } else {
      assert (h + [e])[1..] == h[1..] + [e];
      TotalTokensAppend(h[1..], e);
    }
  }

  function LeadingResults(h: seq<Entry>): (n: nat)
    ensures n <= |h|
  {
    if h != [] && h[0].ToolResult? then 1 + LeadingResults(h[1..]) else 0
  }

  /** How many leading entries go together. */
  function GroupSize(h: seq<Entry>): (n: nat)
    requires h != []
    ensures 1 <= n <= |h|
  {
    match h[0]
    case AssistantToolUse(_, _) => 1 + LeadingResults(h[1..])
    case ToolResult(_, _, _) => LeadingResults(h)
    case _ => 1
  }

  /** Drops leading groups while the history is over budget, but never below two entries. */
  function Trim(maxTokens: nat, h: seq<Entry>): (r: seq<Entry>)
    ensures |r| <= |h| && r == h[|h| - |r|..]
    ensures |r| >= 2 || r == h
  {
    if TotalTokens(h) <= maxTokens || |h| <= 2 || |h| - GroupSize(h) < 2 then h
    else Trim(maxTokens, h[GroupSize(h)..])
  }

  lemma {:induction false} ResultsEndBefore(results: seq<Entry>, rest: seq<Entry>)
    requires forall i :: 0 <= i < |results| ==> results[i].ToolResult?
    requires rest != [] ==> !rest[0].ToolResult?
    ensures LeadingResults(results + rest) == |results|
  {
    if results == [] {
      assert results + rest == rest;
    } else {
      assert (results + rest)[1..] == results[1..] + rest;
      ResultsEndBefore(results[1..], rest);
    }
  }

  /** A round in progress: its tool-use turn and the results so far. */
  predicate OpenRound(tail: seq<Entry>) {
    && tail != [] && tail[0].AssistantToolUse? && |tail| - 1 <= |tail[0].toolCalls|
    && Answers(tail[0].toolCalls[..|tail| - 1], tail[1..])
  }

  lemma ToolUseGroup(h: seq<Entry>, tail: seq<Entry>)
    requires Paired(h) && h != [] && h[0].AssistantToolUse? && (tail != [] ==> !tail[0].ToolResult?)
    ensures GroupSize(h + tail) == 1 + |h[0].toolCalls|
  {
    var n := 1 + |h[0].toolCalls|;
    var results, rest := h[1..n], h[n..];
    assert Paired(rest);
    assert (h + tail)[1..] == results + (rest + tail);
    ResultsEndBefore(results, rest + tail);
  }

  /** The group at the front of a paired history is one whole turn, whatever the history is followed by. */
  lemma FrontGroupIsWhole(h: seq<Entry>, tail: seq<Entry>)
    requires Paired(h) && h != [] && (tail != [] ==> !tail[0].ToolResult?)
    ensures GroupSize(h + tail) <= |h| && Paired(h[GroupSize(h + tail)..])
  {
    assert (h + tail)[0] == h[0];
    if h[0].AssistantToolUse? {
      ToolUseGroup(h, tail);
    }
  }

  lemma RoundStands(maxTokens: nat, tail: seq<Entry>)
    requires OpenRound(tail)
    ensures Trim(maxTokens, tail) == tail
  {
    var results := tail[1..];
    ResultsEndBefore(results, []);
    assert results + [] == results;
  }

  /** Trimming a paired history with a round in progress only ever drops whole turns from the front, and never the round. */
  lemma {:induction false} TrimSparesTheRound(maxTokens: nat, h: seq<Entry>, tail: seq<Entry>) returns (h': seq<Entry>)
    requires Paired(h) && OpenRound(tail)
    ensures Paired(h') && Trim(maxTokens, h + tail) == h' + tail
    decreases |h|
  {
    var all := h + tail;
    h' := h;
    if h == [] {
      assert all == tail;
      RoundStands(maxTokens, tail);
    } else if !(TotalTokens(all) <= maxTokens || |all| <= 2 || |all| - GroupSize(all) < 2) {
      FrontGroupIsWhole(h, tail);
      var g := GroupSize(all);
      assert all[g..] == h[g..] + tail;
      h' := TrimSparesTheRound(maxTokens, h[g..], tail);
    }
  }

  /** Trimming keeps a paired history paired. */
  lemma {:induction false} TrimKeepsPaired(maxTokens: nat, h: seq<Entry>)
    requires Paired(h)
    ensures Paired(Trim(maxTokens, h))
    decreases |h|
  {
    if h != [] && Trim(maxTokens, h) != h {
      FrontGroupIsWhole(h, []);
      assert h + [] == h;
      TrimKeepsPaired(maxTokens, h[GroupSize(h)..]);
    }
  }

  predicate IsEndOf(tail: seq<Entry>, h: seq<Entry>) { |tail| <= |h| && tail == h[|h| - |tail|..] }

  lemma EndOfTheRest(tail: seq<Entry>, h: seq<Entry>, n: nat)
    requires n <= |h| && IsEndOf(tail, h[n..])
    ensures IsEndOf(tail, h)
  {
  }

  predicate StaysPut(maxTokens: nat, r: seq<Entry>) {
    TotalTokens(r) <= maxTokens || |r| <= 2 || |r| - GroupSize(r) < 2
  }

  /** Trimming ends within the budget, or where dropping the next group would leave fewer than two entries. */
  lemma {:induction false} TrimFits(maxTokens: nat, h: seq<Entry>)
    ensures StaysPut(maxTokens, Trim(maxTokens, h))
    decreases |h|
  {
    if !StaysPut(maxTokens, h) {
      TrimFits(maxTokens, h[GroupSize(h)..]);
    }
  }

  /** It drops no more than it must: what the last group was dropped from was over budget. */
  lemma {:induction false} TrimIsNeeded(maxTokens: nat, h: seq<Entry>) returns (before: seq<Entry>)
    requires Trim(maxTokens, h) != h
    ensures before != [] && IsEndOf(before, h)
    ensures TotalTokens(before) > maxTokens && Trim(maxTokens, h) == before[GroupSize(before)..]
    decreases |h|
  {
    var rest := h[GroupSize(h)..];
    if Trim(maxTokens, rest) == rest {
      before := h;
    } else {
      before := TrimIsNeeded(maxTokens, rest);
      EndOfTheRest(before, h, GroupSize(h));
    }
  }

  // ── What the model is sent ──────────────────────────────────────────────

  datatype Block = Block(toolUseId: string, toolName: string, content: string)

  datatype Message =
    | UserText(content: string)
    | AssistantText(content: string)
    | AssistantCalls(text: Option<string>, toolCalls: seq<ToolCall>)
    | UserResults(blocks: seq<Block>)

  function BlockOf(e: Entry): Block
    requires e.ToolResult?
  {
    Block(e.callId, e.toolName, e.content)
  }

  function BlocksOf(results: seq<Entry>): seq<Block>
    requires forall i :: 0 <= i < |results| ==> results[i].ToolResult?
  {
    seq(|results|, i requires 0 <= i < |results| => BlockOf(results[i]))
  }

  function MessageOf(e: Entry): Message {
    match e
    case UserInstruction(content) => UserText(content)
    case AssistantResponse(content) => AssistantText(content)
    case AssistantToolUse(text, calls) => AssistantCalls(text, calls)
    case ToolResult(_, _, _) => UserResults([BlockOf(e)])
  }

  function Flushed(pending: seq<Block>): seq<Message> {
    if pending == [] then [] else [UserResults(pending)]
  }

  /** Consecutive results become one message. `pending` holds the results read but not yet sent. */
  function MessagesFrom(pending: seq<Block>, h: seq<Entry>): seq<Message>
    decreases |h|
  {
    if h == [] then Flushed(pending)
    else if h[0].ToolResult? then MessagesFrom(pending + [BlockOf(h[0])], h[1..])
    else Flushed(pending) + [MessageOf(h[0])] + MessagesFrom([], h[1..])
  }

  function Messages(h: seq<Entry>): seq<Message> { MessagesFrom([], h) }

  predicate BlocksAnswer(calls: seq<ToolCall>, blocks: seq<Block>) {
    && |blocks| == |calls|
    && forall i :: 0 <= i < |calls| ==> blocks[i].toolUseId == calls[i].id
  }

  /** Each request for tools is followed at once by one message with exactly its results, and there are no others. */
  predicate Conversation(ms: seq<Message>) {
    if ms == [] then true
    else
      match ms[0]
      case UserResults(_) => false
      case AssistantCalls(_, calls) =>
        |ms| >= 2 && ms[1].UserResults? && BlocksAnswer(calls, ms[1].blocks) && Conversation(ms[2..])
      case _ => Conversation(ms[1..])
  }

  lemma {:induction false} ResultsMerge(pending: seq<Block>, results: seq<Entry>, rest: seq<Entry>)
    requires forall i :: 0 <= i < |results| ==> results[i].ToolResult?
    ensures MessagesFrom(pending, results + rest) == MessagesFrom(pending + BlocksOf(results), rest)
    decreases |results|
  {
    if results == [] {
      assert results + rest == rest;
      assert pending + BlocksOf(results) == pending;
    } else {
      assert (results + rest)[1..] == results[1..] + rest;
      ResultsMerge(pending + [BlockOf(results[0])], results[1..], rest);
      assert pending + [BlockOf(results[0])] + BlocksOf(results[1..]) == pending + BlocksOf(results);
    }
  }

  lemma Regroup<T>(a: seq<T>, b: seq<T>, c: seq<T>, d: seq<T>)
    ensures a + (b + c + d) == a + b + c + d
    ensures a + [] == a && [] + a == a
  {
  }

  lemma FlushThenContinue(pending: seq<Block>, rest: seq<Entry>)
    requires rest != [] ==> !rest[0].ToolResult?
    ensures MessagesFrom(pending, rest) == Flushed(pending) + Messages(rest)
  {
    if rest != [] {
      Regroup([], [], [MessageOf(rest[0])], MessagesFrom([], rest[1..]));
      Regroup(Flushed(pending), [], [MessageOf(rest[0])], MessagesFrom([], rest[1..]));
    }
  }

  /** One whole turn contributes its request and one message with all its results. */
  lemma TurnReads(turn: seq<Entry>, rest: seq<Entry>)
    requires turn != [] && turn[0].AssistantToolUse? && |turn| == 1 + |turn[0].toolCalls|
    requires turn[0].toolCalls != [] && Answers(turn[0].toolCalls, turn[1..])
    requires rest != [] ==> !rest[0].ToolResult?
    ensures Messages(turn + rest) == [MessageOf(turn[0]), UserResults(BlocksOf(turn[1..]))] + Messages(rest)
  {
    var results := turn[1..];
    assert (turn + rest)[1..] == results + rest;
    ResultsMerge([], results, rest);
    assert [] + BlocksOf(results) == BlocksOf(results);
    FlushThenContinue(BlocksOf(results), rest);
  }

  /** What a message says, entry by entry, and who says it. */
  function Said(m: Message): seq<Entry> {
    match m
    case UserText(content) => [UserInstruction(content)]
    case AssistantText(content) => [AssistantResponse(content)]
    case AssistantCalls(text, calls) => [AssistantToolUse(text, calls)]
    case UserResults(blocks) =>
      seq(|blocks|, i requires 0 <= i < |blocks| =>
        ToolResult(blocks[i].toolName, blocks[i].toolUseId, blocks[i].content))
  }

  function AllSaid(ms: seq<Message>): seq<Entry> {
    if ms == [] then [] else Said(ms[0]) + AllSaid(ms[1..])
  }

  lemma {:induction false} AllSaidAppend(ms: seq<Message>, ms': seq<Message>)
    ensures AllSaid(ms + ms') == AllSaid(ms) + AllSaid(ms')
  {
    if ms == [] {
      assert ms + ms' == ms';
    } else {
      assert (ms + ms')[1..] == ms[1..] + ms';
      AllSaidAppend(ms[1..], ms');
      assert Said(ms[0]) + (AllSaid(ms[1..]) + AllSaid(ms')) == Said(ms[0]) + AllSaid(ms[1..]) + AllSaid(ms');
    }
  }

  lemma OneMessageSays(m: Message)
    ensures AllSaid([m]) == Said(m)
  {
    assert [m][1..] == [];
  }

  lemma FlushSays(pending: seq<Block>)
    ensures AllSaid(Flushed(pending)) == Said(UserResults(pending))
  {
    OneMessageSays(UserResults(pending));
  }

  lemma OneMorePending(pending: seq<Block>, e: Entry)
    requires e.ToolResult?
    ensures Said(UserResults(pending + [BlockOf(e)])) == Said(UserResults(pending)) + [e]
  {
  }

  lemma Associate<T>(a: seq<T>, b: seq<T>, c: seq<T>)
    ensures a + b + c == a + (b + c)
  {
  }

  lemma NothingPendingSaysNothing(h: seq<Entry>)
    ensures Said(UserResults([])) + h == h
  {
  }

  lemma FlushThenSay(pending: seq<Block>, e: Entry, ms: seq<Message>, rest: seq<Entry>)
    requires !e.ToolResult? && AllSaid(ms) == rest
    ensures AllSaid(Flushed(pending) + [MessageOf(e)] + ms) == Said(UserResults(pending)) + ([e] + rest)
  {
    FlushSays(pending);
    OneMessageSays(MessageOf(e));
    AllSaidAppend(Flushed(pending), [MessageOf(e)]);
    AllSaidAppend(Flushed(pending) + [MessageOf(e)], ms);
    Associate(Said(UserResults(pending)), [e], rest);
  }

  lemma {:induction false} MessagesSay(pending: seq<Block>, h: seq<Entry>)
    ensures AllSaid(MessagesFrom(pending, h)) == Said(UserResults(pending)) + h
    decreases |h|
  {
    FlushSays(pending);
    if h != [] {
      assert h == [h[0]] + h[1..];
      if h[0].ToolResult? {
        MessagesSay(pending + [BlockOf(h[0])], h[1..]);
        OneMorePending(pending, h[0]);
        Associate(Said(UserResults(pending)), [h[0]], h[1..]);
      } else {
        MessagesSay([], h[1..]);
        NothingPendingSaysNothing(h[1..]);
        FlushThenSay(pending, h[0], MessagesFrom([], h[1..]), h[1..]);
      }
    }
  }

  /**
   Whatever the history, paired or not: the messages say its entries, all of them,
   word for word and in order, each by the one who said it.
   */
  lemma MessagesSayTheHistory(h: seq<Entry>)
    ensures AllSaid(Messages(h)) == h
  {
    MessagesSay([], h);
    NothingPendingSaysNothing(h);
  }

  /** What is added after a history is read after it. */
  lemma {:induction false} MessagesAppend(pending: seq<Block>, h: seq<Entry>, more: seq<Entry>)
    requires more != [] && !more[0].ToolResult?
    ensures MessagesFrom(pending, h + more) == MessagesFrom(pending, h) + Messages(more)
    decreases |h|
  {
    if h == [] {
      assert h + more == more;
      FlushThenContinue(pending, more);
    } else {
      assert (h + more)[1..] == h[1..] + more;
      if h[0].ToolResult? {
        MessagesAppend(pending + [BlockOf(h[0])], h[1..], more);
      } else {
        MessagesAppend([], h[1..], more);
        Regroup(Flushed(pending) + [MessageOf(h[0])], [], MessagesFrom([], h[1..]), Messages(more));
      }
    }
  }

  lemma TurnConverses(turn: seq<Entry>, ms: seq<Message>)
    requires turn != [] && turn[0].AssistantToolUse? && Answers(turn[0].toolCalls, turn[1..]) && Conversation(ms)
    ensures Conversation([MessageOf(turn[0]), UserResults(BlocksOf(turn[1..]))] + ms)
  {
    var all := [MessageOf(turn[0]), UserResults(BlocksOf(turn[1..]))] + ms;
    assert all[2..] == ms;
  }

  /** A paired history always reads as a well-formed conversation. */
  lemma {:induction false} PairedReadsAsConversation(h: seq<Entry>)
    requires Paired(h)
    ensures Conversation(Messages(h))
    decreases |h|
  {
    if h == [] {
    } else if h[0].AssistantToolUse? {
      var n := 1 + |h[0].toolCalls|;
      var turn, rest := h[..n], h[n..];
      assert h == turn + rest;
      TurnThenRest(turn, rest);
      PairedReadsAsConversation(rest);
      TurnReads(turn, rest);
      TurnConverses(turn, Messages(rest));
    } else {
      PairedReadsAsConversation(h[1..]);
      assert Messages(h) == [MessageOf(h[0])] + Messages(h[1..]);
      assert Messages(h)[1..] == Messages(h[1..]);
    }
  }

  // ── The context ─────────────────────────────────────────────────────────

  function SaturatingSub(a: nat, b: nat): nat { if a >= b then a - b else 0 }

  class ContextManager {
    const maxTokens: nat
    var entries: seq<Entry>
    var estimatedTokens: nat

    /** The running estimate is exact, so its saturating subtraction never saturates. */
    ghost predicate Valid() reads this { estimatedTokens == TotalTokens(entries) }

    constructor (maxTokens: nat)
      ensures Valid() && this.maxTokens == maxTokens && entries == []
    {
      this.maxTokens, entries, estimatedTokens := maxTokens, [], 0;
    }

    method PushEntry(e: Entry)
      requires Valid()
      modifies this
      ensures Valid() && entries == Trim(maxTokens, old(entries) + [e])
    {
      TotalTokensAppend(entries, e);
      estimatedTokens := estimatedTokens + Tokens(e);
      entries := entries + [e];
      TrimIfNeeded();
    }

    method RemoveLeading(removeCount: nat)
      requires Valid() && removeCount <= |entries|
      modifies this
      ensures Valid() && entries == old(entries)[removeCount..]
    {
      var i := 0;
      while i < removeCount
        invariant i <= removeCount && Valid() && entries == old(entries)[i..]
      {
        var removed := entries[0];
        entries := entries[1..];
        estimatedTokens := SaturatingSub(estimatedTokens, Tokens(removed));
        i := i + 1;
      }
    }

    method TrimIfNeeded()
      requires Valid()
      modifies this
      ensures Valid() && entries == Trim(maxTokens, old(entries))
    {
      while estimatedTokens > maxTokens && |entries| > 2
        invariant Valid() && Trim(maxTokens, entries) == Trim(maxTokens, old(entries))
        decreases |entries|
      {
        var removeCount := GroupSize(entries);
        if removeCount == 0 || |entries| - removeCount < 2 {
          break;
        }
        RemoveLeading(removeCount);
      }
    }

    method BuildMessages() returns (result: seq<Message>)
      ensures result == Messages(entries)
    {
      result := [];
      var pending: seq<Block> := [];
      var i := 0;
      while i < |entries|
        invariant i <= |entries| && result + MessagesFrom(pending, entries[i..]) == Messages(entries)
      {
        assert entries[i..][1..] == entries[i + 1..];
        ghost var rest := MessagesFrom([], entries[i + 1..]);
        if entries[i].ToolResult? {
          pending := pending + [BlockOf(entries[i])];
        } else {
          Regroup(result, Flushed(pending), [MessageOf(entries[i])], rest);
          if pending != [] {
            result := result + [UserResults(pending)];
            pending := [];
          }
          result := result + [MessageOf(entries[i])];
        }
        i := i + 1;
      }
      if pending != [] {
        result := result + [UserResults(pending)];
      }
    }
  }

  // ── The loop ────────────────────────────────────────────────────────────

  datatype LlmResponse = LlmResponse(text: Option<string>, toolCalls: seq<ToolCall>)

  datatype ToolCallSummary = ToolCallSummary(toolName: string, succeeded: bool)

  datatype AgentError = MaxIterationsExceeded | LlmFailed(reason: string)

  datatype AgentResponse = AgentResponse(text: string, toolCalls: seq<ToolCallSummary>)

  /** One turn of the outside world: what the model answers, and what each tool it asks for gives back. */
  datatype Exchange = Exchange(answer: Result<LlmResponse, string>, results: seq<Result<string, string>>)

  predicate Complete(x: Exchange) {
    x.answer.Success? ==> |x.results| == |x.answer.value.toolCalls|
  }

  predicate AllComplete(script: seq<Exchange>) {
    forall k :: 0 <= k < |script| ==> Complete(script[k])
  }

  const MAX_ITERATIONS: nat := 100

  function ResultText(r: Result<string, string>): string {
    match r
    case Success(data) => data
    case Failure(e) => "{\"error\": \"" + e + "\"}"
  }

  function ResultEntry(x: Exchange, i: nat): Entry
    requires Complete(x) && x.answer.Success? && i < |x.results|
  {
    ToolResult(x.answer.value.toolCalls[i].toolName, x.answer.value.toolCalls[i].id, ResultText(x.results[i]))
  }

  /** Everything one round writes: the tool-use turn and the first n results. */
  function Round(x: Exchange, n: nat): seq<Entry>
    requires Complete(x) && x.answer.Success? && n <= |x.results|
  {
    if n == 0 then [AssistantToolUse(x.answer.value.text, x.answer.value.toolCalls)]
    else Round(x, n - 1) + [ResultEntry(x, n - 1)]
  }

  lemma {:induction false} RoundIsOpen(x: Exchange, n: nat)
    requires Complete(x) && x.answer.Success? && n <= |x.results|
    ensures OpenRound(Round(x, n)) && |Round(x, n)| == n + 1
    ensures Round(x, n)[0] == AssistantToolUse(x.answer.value.text, x.answer.value.toolCalls)
    ensures n == |x.results| > 0 ==> Paired(Round(x, n))
  {
    if n > 0 {
      RoundIsOpen(x, n - 1);
      var before, tail := Round(x, n - 1), Round(x, n);
      assert tail[1..] == before[1..] + [ResultEntry(x, n - 1)];
    }
    if n == |x.results| > 0 {
      assert Round(x, n)[1 + n..] == [];
      assert x.answer.value.toolCalls[..n] == x.answer.value.toolCalls;
    }
  }

  /** A paired history followed by the turn under way, with n of its results. */
  ghost predicate InRound(h: seq<Entry>, x: Exchange, n: nat)
    requires Complete(x) && x.answer.Success?
  {
    n <= |x.results| && exists older :: Paired(older) && h == older + Round(x, n)
  }

  lemma RoundStarts(maxTokens: nat, h: seq<Entry>, x: Exchange)
    requires Paired(h) && Complete(x) && x.answer.Success?
    ensures InRound(Trim(maxTokens, h + [AssistantToolUse(x.answer.value.text, x.answer.value.toolCalls)]), x, 0)
  {
    RoundIsOpen(x, 0);
    var older := TrimSparesTheRound(maxTokens, h, Round(x, 0));
  }

  lemma RoundGoesOn(maxTokens: nat, h: seq<Entry>, x: Exchange, n: nat)
    requires Complete(x) && x.answer.Success? && n < |x.results| && InRound(h, x, n)
    ensures InRound(Trim(maxTokens, h + [ResultEntry(x, n)]), x, n + 1)
  {
    var older :| Paired(older) && h == older + Round(x, n);
    RoundIsOpen(x, n + 1);
    assert h + [ResultEntry(x, n)] == older + Round(x, n + 1);
    var older' := TrimSparesTheRound(maxTokens, older, Round(x, n + 1));
  }

  lemma RoundEnds(h: seq<Entry>, x: Exchange)
    requires Complete(x) && x.answer.Success? && |x.results| > 0 && InRound(h, x, |x.results|)
    ensures Paired(h)
  {
    var older :| Paired(older) && h == older + Round(x, |x.results|);
    RoundIsOpen(x, |x.results|);
    PairedAppend(older, Round(x, |x.results|));
  }

  lemma TextKeepsPaired(maxTokens: nat, h: seq<Entry>, e: Entry)
    requires Paired(h) && (e.UserInstruction? || e.AssistantResponse?)
    ensures Paired(Trim(maxTokens, h + [e]))
  {
    assert [e][1..] == [];
    PairedAppend(h, [e]);
    TrimKeepsPaired(maxTokens, h + [e]);
  }

  predicate Asks(x: Exchange) { x.answer.Success? && x.answer.value.toolCalls != [] }

  predicate EndsTurn(x: Exchange) { x.answer.Success? && x.answer.value.toolCalls == [] }

  predicate AllAsk(script: seq<Exchange>, n: nat)
    requires n <= |script|
  {
    forall k :: 0 <= k < n ==> Asks(script[k])
  }

  lemma OneMoreAsk(script: seq<Exchange>, n: nat)
    requires n < |script| && AllAsk(script, n) && Asks(script[n])
    ensures AllAsk(script, n + 1)
  {
  }

  /** The calls asked for in the first n exchanges, each with its success. */
  function SummariesOf(script: seq<Exchange>, n: nat): (s: seq<ToolCallSummary>)
    requires AllComplete(script) && n <= |script|
  {
    if n == 0 then [] else SummariesOf(script, n - 1) + RoundSummaries(script[n - 1])
  }

  function RoundSummaries(x: Exchange): (s: seq<ToolCallSummary>)
    requires Complete(x)
  {
    if x.answer.Failure? then [] else
    seq(|x.results|, i requires 0 <= i < |x.results| =>
      ToolCallSummary(x.answer.value.toolCalls[i].toolName, x.results[i].Success?))
  }

  function FinalText(r: LlmResponse): string {
    if r.text.Some? then r.text.value else "I completed the task."
  }

  class AgentSession {
    const context: ContextManager
    var toolCalls: nat
    var taskCount: nat

    /** Between turns the estimate is exact and every request for tools has its results. */
    ghost predicate Ready() reads this, context { context.Valid() && Paired(context.entries) }

    constructor (context: ContextManager)
      ensures this.context == context && toolCalls == 0 && taskCount == 0
    {
      this.context, toolCalls, taskCount := context, 0, 0;
    }
  }

  /** Opens a round in a paired history. */
  method PushToolUse(context: ContextManager, x: Exchange)
    requires context.Valid() && Paired(context.entries) && Complete(x) && x.answer.Success?
    modifies context
    ensures context.Valid() && InRound(context.entries, x, 0)
  {
    RoundStarts(context.maxTokens, context.entries, x);
    context.PushEntry(AssistantToolUse(x.answer.value.text, x.answer.value.toolCalls));
  }

  /** Pushes the next result of the round under way. */
  method PushToolResult(context: ContextManager, x: Exchange, i: nat)
    requires context.Valid() && Complete(x) && x.answer.Success? && i < |x.results| && InRound(context.entries, x, i)
    modifies context
    ensures context.Valid() && InRound(context.entries, x, i + 1)
  {
    var call := x.answer.value.toolCalls[i];
    RoundGoesOn(context.maxTokens, context.entries, x, i);
    context.PushEntry(ToolResult(call.toolName, call.id, ResultText(x.results[i])));
  }

  /**
   Carries out one round: the tool-use turn, then one result per call, pushed into
   a context that may trim itself at every push.
   */
  method DispatchCalls(session: AgentSession, x: Exchange) returns (summaries: seq<ToolCallSummary>)
    requires session.context.Valid() && Paired(session.context.entries) && Complete(x) && Asks(x)
    modifies session`toolCalls, session.context
    ensures session.context.Valid() && Paired(session.context.entries)
    ensures InRound(session.context.entries, x, |x.results|)
    ensures session.toolCalls == old(session.toolCalls) + |x.results| && summaries == RoundSummaries(x)
    ensures |summaries| == |x.results| && forall i :: 0 <= i < |summaries| ==>
      && summaries[i].toolName == x.answer.value.toolCalls[i].toolName
      && (summaries[i].succeeded <==> x.results[i].Success?)
  {
    var context, calls := session.context, x.answer.value.toolCalls;
    PushToolUse(context, x);
    summaries := [];
    var i := 0;
    while i < |calls|
      invariant i <= |calls| && context.Valid() && session.toolCalls == old(session.toolCalls)
      invariant InRound(context.entries, x, i)
      invariant summaries == RoundSummaries(x)[..i]
    {
      summaries := summaries + [ToolCallSummary(calls[i].toolName, x.results[i].Success?)];
      PushToolResult(context, x, i);
      i := i + 1;
    }
    RoundEnds(context.entries, x);
    session.toolCalls := session.toolCalls + |calls|;
  }

  /** Pushes a turn of plain text. */
  method PushText(context: ContextManager, e: Entry)
    requires context.Valid() && Paired(context.entries) && (e.UserInstruction? || e.AssistantResponse?)
    modifies context
    ensures context.Valid() && Paired(context.entries)
    ensures context.entries != [] && context.entries[|context.entries| - 1] == e
  {
    TextKeepsPaired(context.maxTokens, context.entries, e);
    context.PushEntry(e);
  }

  /** The model's provider. It accepts well-formed conversations only, so every call of `Complete` proves its own. */
  class LlmClient {
    var sent: seq<seq<Message>>

    constructor ()
      ensures sent == []
    {
      sent := [];
    }

    method Complete(messages: seq<Message>, x: Exchange) returns (answer: Result<LlmResponse, string>)
      requires Conversation(messages)
      modifies this
      ensures sent == old(sent) + [messages] && answer == x.answer
    {
      sent := sent + [messages];
      answer := x.answer;
    }
  }

  /** Asks the model with the whole conversation so far. */
  method AskModel(context: ContextManager, llm: LlmClient, x: Exchange) returns (answer: Result<LlmResponse, string>)
    requires Paired(context.entries)
    modifies llm
    ensures llm.sent == old(llm.sent) + [Messages(context.entries)] && answer == x.answer
  {
    var messages := context.BuildMessages();
    PairedReadsAsConversation(context.entries);
    answer := llm.Complete(messages, x);
  }

  /** How one turn of the loop ends. */
  datatype Turn = GoOn(summaries: seq<ToolCallSummary>) | Stop(answer: Result<string, string>)

  /** How the turn's end relates to the exchange and the history it leaves. */
  predicate TurnOf(x: Exchange, h: seq<Entry>, turn: Turn)
    requires Complete(x)
  {
    match turn
    case GoOn(summaries) => Asks(x) && summaries == RoundSummaries(x)
    case Stop(Failure(reason)) => x.answer == Failure(reason)
    case Stop(Success(text)) =>
      EndsTurn(x) && text == FinalText(x.answer.value) && h != [] && h[|h| - 1] == AssistantResponse(text)
  }

  /**
   One turn: the model is asked, and either its calls are carried out or its
   answer ends the command.
   */
  method TakeTurn(session: AgentSession, llm: LlmClient, x: Exchange) returns (turn: Turn)
    requires session.context.Valid() && Paired(session.context.entries) && Complete(x)
    modifies session, session.context, llm
    ensures session.context.Valid() && Paired(session.context.entries)
    ensures llm.sent == old(llm.sent) + [Messages(old(session.context.entries))]
    ensures turn.GoOn? ==> x.answer.Success? && InRound(session.context.entries, x, |x.results|)
    ensures session.toolCalls == old(session.toolCalls) + |RoundSummaries(x)|
    ensures session.taskCount == old(session.taskCount) + if EndsTurn(x) then 1 else 0
    ensures TurnOf(x, session.context.entries, turn)
  {
    var answer := AskModel(session.context, llm, x);
    if answer.Failure? {
      return Stop(Failure(answer.error));
    }
    if answer.value.toolCalls == [] {
      PushText(session.context, AssistantResponse(FinalText(answer.value)));
      session.taskCount := session.taskCount + 1;
      return Stop(Success(FinalText(answer.value)));
    }
    var summaries := DispatchCalls(session, x);
    turn := GoOn(summaries);
  }

  /** What the answer to the caller says about the script and the history. */
  predicate EndsAs(script: seq<Exchange>, n: nat, h: seq<Entry>, response: Result<AgentResponse, AgentError>)
    requires AllComplete(script) && n <= |script|
  {
    match response
    case Failure(MaxIterationsExceeded) => n == |script| && AllAsk(script, n)
    case Failure(LlmFailed(reason)) => n > 0 && AllAsk(script, n - 1) && script[n - 1].answer == Failure(reason)
    case Success(r) =>
      && n > 0 && AllAsk(script, n - 1) && EndsTurn(script[n - 1])
      && r.toolCalls == SummariesOf(script, n)
      && r.text == (match script[n - 1].answer.value.text
                    case Some(text) => text
                    case None => "I completed the task.")
      && h != [] && h[|h| - 1] == AssistantResponse(r.text)
  }

  lemma OneMoreRound(script: seq<Exchange>, n: nat)
    requires AllComplete(script) && n < |script|
    ensures SummariesOf(script, n + 1) == SummariesOf(script, n) + RoundSummaries(script[n])
    ensures !Asks(script[n]) ==> RoundSummaries(script[n]) == []
  {
  }

  /** What the loop has collected after n turns that all went on. */
  predicate SoFar(script: seq<Exchange>, n: nat, summaries: seq<ToolCallSummary>)
    requires AllComplete(script)
  {
    n <= |script| && AllAsk(script, n) && summaries == SummariesOf(script, n)
  }

  lemma GoesOn(script: seq<Exchange>, n: nat, summaries: seq<ToolCallSummary>)
    requires AllComplete(script) && SoFar(script, n, summaries) && n < |script| && Asks(script[n])
    ensures SoFar(script, n + 1, summaries + RoundSummaries(script[n]))
  {
    OneMoreAsk(script, n);
  }

  function Answered(answer: Result<string, string>, summaries: seq<ToolCallSummary>): Result<AgentResponse, AgentError> {
    match answer
    case Failure(reason) => Failure(LlmFailed(reason))
    case Success(text) => Success(AgentResponse(text, summaries))
  }

  lemma StopsHere(script: seq<Exchange>, n: nat, summaries: seq<ToolCallSummary>, h: seq<Entry>,
                  answer: Result<string, string>)
    requires AllComplete(script) && SoFar(script, n, summaries) && n < |script| && TurnOf(script[n], h, Stop(answer))
    ensures SummariesOf(script, n + 1) == summaries
    ensures EndsAs(script, n + 1, h, Answered(answer, summaries))
  {
    OneMoreRound(script, n);
  }

  /** What a tool gave back: its data, or its error under the key `error`. */
  predicate Tells(content: string, r: Result<string, string>) {
    if r.Success? then content == r.value else content == "{\"error\": \"" + r.error + "\"}"
  }

  /** The conversation ends with the model's last request for tools and all that they gave back. */
  predicate EndsWithResults(ms: seq<Message>, x: Exchange)
    requires Complete(x)
  {
    && Asks(x) && |ms| >= 2
    && ms[|ms| - 2] == AssistantCalls(x.answer.value.text, x.answer.value.toolCalls)
    && ms[|ms| - 1].UserResults? && |ms[|ms| - 1].blocks| == |x.results|
    && forall i :: 0 <= i < |x.results| ==>
         var block, call := ms[|ms| - 1].blocks[i], x.answer.value.toolCalls[i];
         block.toolUseId == call.id && block.toolName == call.toolName && Tells(block.content, x.results[i])
  }

  /** The k-th question to the model ends with the command, or with what came of the answer before. */
  predicate AskedLast(command: string, script: seq<Exchange>, k: nat, ms: seq<Message>)
    requires AllComplete(script) && k <= |script|
  {
    if k == 0 then ms != [] && ms[|ms| - 1] == UserText(command) else EndsWithResults(ms, script[k - 1])
  }

  /** The same of the history that the next question will be made of. */
  ghost predicate NextAsks(command: string, script: seq<Exchange>, k: nat, h: seq<Entry>)
    requires AllComplete(script) && k <= |script|
  {
    if k == 0 then h != [] && h[|h| - 1] == UserInstruction(command)
    else Asks(script[k - 1]) && InRound(h, script[k - 1], |script[k - 1].results|)
  }

  predicate AllAsked(command: string, script: seq<Exchange>, n: nat, before: seq<seq<Message>>, sent: seq<seq<Message>>)
    requires AllComplete(script) && n <= |script|
  {
    && |sent| == |before| + n && before <= sent
    && forall j :: |before| <= j < |sent| ==> AskedLast(command, script, j - |before|, sent[j])
  }

  lemma OneMoreAsked(command: string, script: seq<Exchange>, n: nat, before: seq<seq<Message>>,
                     sent: seq<seq<Message>>, h: seq<Entry>)
    requires AllComplete(script) && n < |script| && AllAsked(command, script, n, before, sent)
    requires NextAsks(command, script, n, h)
    ensures AllAsked(command, script, n + 1, before, sent + [Messages(h)])
  {
    NextMessageAsks(command, script, n, h);
  }

  lemma {:induction false} RoundCarriesResults(x: Exchange, n: nat, i: nat)
    requires Complete(x) && x.answer.Success? && i < n <= |x.results|
    ensures |Round(x, n)| == n + 1 && Round(x, n)[i + 1] == ResultEntry(x, i)
  {
    RoundIsOpen(x, n);
    RoundIsOpen(x, n - 1);
    if i < n - 1 {
      RoundCarriesResults(x, n - 1, i);
    }
  }

  lemma RoundIsAsked(x: Exchange, older: seq<Entry>)
    requires Complete(x) && Asks(x)
    ensures EndsWithResults(Messages(older + Round(x, |x.results|)), x)
  {
    var n := |x.results|;
    var turn := Round(x, n);
    RoundIsOpen(x, n);
    MessagesAppend([], older, turn);
    assert x.answer.value.toolCalls[..n] == x.answer.value.toolCalls;
    assert turn + [] == turn;
    TurnReads(turn, []);
    var ms := Messages(older) + [MessageOf(turn[0]), UserResults(BlocksOf(turn[1..]))];
    assert Messages(older + turn) == ms;
    forall i | 0 <= i < n
      ensures BlocksOf(turn[1..])[i].toolUseId == x.answer.value.toolCalls[i].id
      ensures BlocksOf(turn[1..])[i].toolName == x.answer.value.toolCalls[i].toolName
      ensures Tells(BlocksOf(turn[1..])[i].content, x.results[i])
    {
      RoundCarriesResults(x, n, i);
    }
  }

  lemma LastWordIsRead(h: seq<Entry>, command: string)
    ensures Messages(h + [UserInstruction(command)]) == Messages(h) + [UserText(command)]
  {
    var last := [UserInstruction(command)];
    MessagesAppend([], h, last);
    FlushThenContinue([], []);
    assert last[1..] == [] && Messages([]) == [];
    assert Messages(last) == [] + [UserText(command)] + [];
  }

  lemma NextMessageAsks(command: string, script: seq<Exchange>, k: nat, h: seq<Entry>)
    requires AllComplete(script) && k <= |script| && NextAsks(command, script, k, h)
    ensures AskedLast(command, script, k, Messages(h))
  {
    if k == 0 {
      LastWordIsRead(h[..|h| - 1], command);
      assert h == h[..|h| - 1] + [UserInstruction(command)];
    } else {
      var x := script[k - 1];
      var older :| Paired(older) && h == older + Round(x, |x.results|);
      RoundIsAsked(x, older);
    }
  }

  /** What the model was sent and what the session has counted. */
  datatype Ledger = Ledger(sent: seq<seq<Message>>, toolCalls: nat, taskCount: nat)

  ghost function LedgerOf(session: AgentSession, llm: LlmClient): Ledger
    reads session, llm
  {
    Ledger(llm.sent, session.toolCalls, session.taskCount)
  }

  /** What n exchanges of a command add to the ledger. */
  predicate Booked(command: string, script: seq<Exchange>, n: nat, before: Ledger, after: Ledger, ended: bool)
    requires AllComplete(script) && n <= |script|
  {
    && AllAsked(command, script, n, before.sent, after.sent)
    && after.toolCalls == before.toolCalls + |SummariesOf(script, n)|
    && after.taskCount == before.taskCount + if ended then 1 else 0
  }

  /** A command after n turns that all went on. */
  ghost predicate Going(command: string, script: seq<Exchange>, n: nat, h: seq<Entry>, before: Ledger, after: Ledger,
                        summaries: seq<ToolCallSummary>)
  {
    && AllComplete(script) && SoFar(script, n, summaries)
    && NextAsks(command, script, n, h) && Booked(command, script, n, before, after, false)
  }

  /** A command that ended with an answer after n turns. */
  predicate Ended(command: string, script: seq<Exchange>, n: nat, h: seq<Entry>, before: Ledger, after: Ledger,
                  response: Result<AgentResponse, AgentError>)
  {
    && AllComplete(script) && n <= |script|
    && EndsAs(script, n, h, response) && Booked(command, script, n, before, after, response.Success?)
  }

  /** The turn after n turns that all went on: the answer that ends the command, or the summaries with its own. */
  method TakeNextTurn(session: AgentSession, command: string, llm: LlmClient, script: seq<Exchange>, n: nat,
                      summaries: seq<ToolCallSummary>, ghost before: Ledger)
    returns (response: Option<Result<AgentResponse, AgentError>>, summaries': seq<ToolCallSummary>)
    requires session.Ready() && n < |script|
    requires Going(command, script, n, session.context.entries, before, LedgerOf(session, llm), summaries)
    modifies session, session.context, llm
    ensures session.Ready()
    ensures response.None? ==>
      Going(command, script, n + 1, session.context.entries, before, LedgerOf(session, llm), summaries')
    ensures response.Some? ==>
      Ended(command, script, n + 1, session.context.entries, before, LedgerOf(session, llm), response.value)
  {
    OneMoreAsked(command, script, n, before.sent, llm.sent, session.context.entries);
    OneMoreRound(script, n);
    var turn := TakeTurn(session, llm, script[n]);
    match turn {
      case GoOn(more) =>
        GoesOn(script, n, summaries);
        return None, summaries + more;
      case Stop(answer) =>
        StopsHere(script, n, summaries, session.context.entries, answer);
        return Some(Answered(answer, summaries)), summaries;
    }
  }

  /** Opens a command: it is the last thing in the history, and nothing has been asked or counted yet. */
  method TakeCommand(session: AgentSession, command: string, llm: LlmClient, script: seq<Exchange>)
    requires session.Ready() && AllComplete(script)
    modifies session.context
    ensures session.Ready()
    ensures Going(command, script, 0, session.context.entries, LedgerOf(session, llm), LedgerOf(session, llm), [])
  {
    PushText(session.context, UserInstruction(command));
  }

  /** When every turn went on, there is no answer but that the iterations are used up. */
  lemma IterationsRunOut(command: string, script: seq<Exchange>, h: seq<Entry>, before: Ledger, after: Ledger,
                         summaries: seq<ToolCallSummary>)
    requires Going(command, script, |script|, h, before, after, summaries)
    ensures Ended(command, script, |script|, h, before, after, Failure(MaxIterationsExceeded))
  {
  }

  class Agent {
    const maxIterations: nat

    constructor ()
      ensures maxIterations == MAX_ITERATIONS
    {
      maxIterations := MAX_ITERATIONS;
    }

    /**
     One command, against any script of the outside world. However it ends, the
     history is paired, the model was asked at most `maxIterations` times, and the
     session counts exactly the calls that got their results.
     */
    method Run(session: AgentSession, command: string, llm: LlmClient, script: seq<Exchange>)
      returns (response: Result<AgentResponse, AgentError>, modelCalls: nat)
      requires session.Ready()
      requires |script| == maxIterations && AllComplete(script)
      modifies session, session.context, llm
      ensures session.Ready() && modelCalls <= maxIterations
      ensures Ended(command, script, modelCalls, session.context.entries, old(LedgerOf(session, llm)),
                    LedgerOf(session, llm), response)
    {
      ghost var before := LedgerOf(session, llm);
      TakeCommand(session, command, llm, script);
      var summaries: seq<ToolCallSummary> := [];
      var iterations := 0;
      modelCalls := 0;
      while true
        invariant session.Ready() && iterations == modelCalls <= maxIterations
        invariant Going(command, script, modelCalls, session.context.entries, before, LedgerOf(session, llm), summaries)
        decreases maxIterations - iterations
      {
        iterations := iterations + 1;
        if iterations > maxIterations {
          IterationsRunOut(command, script, session.context.entries, before, LedgerOf(session, llm), summaries);
          return Failure(MaxIterationsExceeded), modelCalls;
        }
        var answer;
        answer, summaries := TakeNextTurn(session, command, llm, script, modelCalls, summaries, before);
        modelCalls := modelCalls + 1;
        if answer.Some? {
          return answer.value, modelCalls;
        }
      }
    }
  }
}
