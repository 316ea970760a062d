/**
 The per-token sliding-window limiter: a queue that forgets, against a
 specification that remembers every admission. Times are nanoseconds of one
 monotonic clock, nondecreasing per token.
 */
module RateLimiter {
  const SECOND_NS: int := 1_000_000_000
  const WINDOW_NS: int := 60 * SECOND_NS

  datatype Verdict = Admitted | Rejected(retryAfterSecs: nat)

  function Max(a: int, b: int): int { if a < b then b else a }

  // ── The queue, as the code keeps it ─────────────────────────────────────

  function Evict(q: seq<int>, cutoff: int): seq<int> {
    if q != [] && q[0] < cutoff then Evict(q[1..], cutoff) else q
  }

  /** Whole seconds until the oldest entry leaves the window, at least one; both subtractions saturate. */
  function RetryAfter(recent: seq<int>, now: int): nat {
    var oldest := if recent == [] then now else recent[0];
    Max(Max(WINDOW_NS - Max(now - oldest, 0), 0) / SECOND_NS, 1)
  }

  function Check(limit: nat, q: seq<int>, now: int): (Verdict, seq<int>) {
    var recent := Evict(q, now - WINDOW_NS);
    if |recent| >= limit then (Rejected(RetryAfter(recent, now)), recent) else (Admitted, recent + [now])
  }

  // ── The specification, over the whole history ───────────────────────────

  /** How many admissions lie in a closed window. */
  function CountIn(history: seq<int>, from: int, to: int): nat {
    if history == [] then 0
    else
      CountIn(history[..|history| - 1], from, to) + if from <= history[|history| - 1] <= to then 1 else 0
  }

  /** A call is admitted iff fewer than `limit` admissions lie in the last minute, both ends included. */
  predicate Admits(limit: nat, history: seq<int>, now: int) {
    CountIn(history, now - WINDOW_NS, now) < limit
  }

  function Remember(limit: nat, history: seq<int>, now: int): seq<int> {
    if Admits(limit, history, now) then history + [now] else history
  }

  function History(limit: nat, calls: seq<int>): seq<int> {
    if calls == [] then [] else Remember(limit, History(limit, calls[..|calls| - 1]), calls[|calls| - 1])
  }

  function Queue(limit: nat, calls: seq<int>): seq<int> {
    if calls == [] then [] else Check(limit, Queue(limit, calls[..|calls| - 1]), calls[|calls| - 1]).1
  }

  predicate NonDecreasing(s: seq<int>) {
    forall i, j :: 0 <= i < j < |s| ==> s[i] <= s[j]
  }

  // ── The queue refines the history ───────────────────────────────────────

  /** `q` is the history from the cutoff on. */
  predicate IsRecent(history: seq<int>, q: seq<int>, cutoff: int) {
    && |q| <= |history| && q == history[|history| - |q|..]
    && forall i :: 0 <= i < |history| ==> (history[i] >= cutoff <==> i >= |history| - |q|)
  }

  predicate AllAtMost(s: seq<int>, t: int) {
    forall i :: 0 <= i < |s| ==> s[i] <= t
  }

  /** What a bucket and its history have in common after a call at `last`. */
  predicate Tracks(history: seq<int>, q: seq<int>, last: int) {
    NonDecreasing(history) && AllAtMost(history, last) && IsRecent(history, q, last - WINDOW_NS)
  }

  lemma {:induction false} EvictKeepsRecent(history: seq<int>, q: seq<int>, before: int, cutoff: int)
    requires NonDecreasing(history) && before <= cutoff && |q| <= |history| && q == history[|history| - |q|..]
    requires forall i :: 0 <= i < |history| - |q| ==> history[i] < cutoff
    ensures IsRecent(history, Evict(q, cutoff), cutoff)
    decreases |q|
  {
    if q != [] && q[0] < cutoff {
      EvictKeepsRecent(history, q[1..], before, cutoff);
    } else if q != [] {
      assert q[0] == history[|history| - |q|];
    }
  }

  lemma {:induction false} RecentCounts(history: seq<int>, q: seq<int>, cutoff: int, now: int)
    requires IsRecent(history, q, cutoff) && AllAtMost(history, now)
    ensures CountIn(history, cutoff, now) == |q|
  {
    if history != [] {
      var init := history[..|history| - 1];
      if q == [] {
        RecentCounts(init, [], cutoff, now);
      } else {
        RecentCounts(init, q[..|q| - 1], cutoff, now);
      }
    }
  }

  lemma PushKeepsRecent(history: seq<int>, recent: seq<int>, now: int)
    requires IsRecent(history, recent, now - WINDOW_NS)
    ensures IsRecent(history + [now], recent + [now], now - WINDOW_NS)
  {
    var k := |history| - |recent|;
    assert (history + [now])[k..] == history[k..] + [now];
  }

  lemma PushKeepsOrder(history: seq<int>, now: int)
    requires NonDecreasing(history) && AllAtMost(history, now)
    ensures NonDecreasing(history + [now]) && AllAtMost(history + [now], now)
  {
  }

  /** What is left after eviction is the last minute of the history, and its length decides. */
  lemma EvictRefines(history: seq<int>, q: seq<int>, last: int, now: int)
    requires Tracks(history, q, last) && last <= now
    ensures IsRecent(history, Evict(q, now - WINDOW_NS), now - WINDOW_NS) && AllAtMost(history, now)
    ensures CountIn(history, now - WINDOW_NS, now) == |Evict(q, now - WINDOW_NS)|
  {
    assert AllAtMost(history, now);
    EvictKeepsRecent(history, q, last - WINDOW_NS, now - WINDOW_NS);
    RecentCounts(history, Evict(q, now - WINDOW_NS), now - WINDOW_NS, now);
  }

  /** One call: the queue's verdict is the history's, and the queue stays the recent part of the history. */
  lemma CheckRefines(limit: nat, history: seq<int>, q: seq<int>, last: int, now: int)
    requires Tracks(history, q, last) && last <= now
    ensures Check(limit, q, now).0.Admitted? <==> Admits(limit, history, now)
    ensures Tracks(Remember(limit, history, now), Check(limit, q, now).1, now)
  {
    EvictRefines(history, q, last, now);
    if Admits(limit, history, now) {
      PushKeepsRecent(history, Evict(q, now - WINDOW_NS), now);
      PushKeepsOrder(history, now);
    }
  }

  /**
   After any calls at nondecreasing times the queue is the admission history from
   sixty seconds before the last call on, in order.
   */
  lemma {:induction false} QueueIsRecentHistory(limit: nat, calls: seq<int>)
    requires NonDecreasing(calls) && calls != []
    ensures Tracks(History(limit, calls), Queue(limit, calls), calls[|calls| - 1])
  {
    var init, now := calls[..|calls| - 1], calls[|calls| - 1];
    if init == [] {
      CheckRefines(limit, [], [], now, now);
    } else {
      QueueIsRecentHistory(limit, init);
      CheckRefines(limit, History(limit, init), Queue(limit, init), init[|init| - 1], now);
    }
  }

  lemma {:induction false} CountMonotone(history: seq<int>, from: int, to: int, now: int)
    requires AllAtMost(history, now) && now - WINDOW_NS <= from
    ensures CountIn(history, from, to) <= CountIn(history, now - WINDOW_NS, now)
  {
    if history != [] {
      CountMonotone(history[..|history| - 1], from, to, now);
    }
  }

  predicate WindowSafe(limit: nat, history: seq<int>, from: int) {
    CountIn(history, from, from + WINDOW_NS) <= limit
  }

  lemma RememberKeepsWindow(limit: nat, history: seq<int>, now: int, from: int)
    requires AllAtMost(history, now) && WindowSafe(limit, history, from)
    ensures WindowSafe(limit, Remember(limit, history, now), from)
  {
    if Admits(limit, history, now) {
      assert (history + [now])[..|history|] == history;
      if from <= now <= from + WINDOW_NS {
        CountMonotone(history, from, from + WINDOW_NS, now);
      }
    }
  }

  /** Any closed sixty-second window, wherever it starts, contains at most `limit` admissions. */
  lemma {:induction false} EveryWindowIsSafe(limit: nat, calls: seq<int>, from: int)
    requires NonDecreasing(calls)
    ensures WindowSafe(limit, History(limit, calls), from)
  {
    if calls != [] {
      var init, now := calls[..|calls| - 1], calls[|calls| - 1];
      EveryWindowIsSafe(limit, init, from);
      if init != [] {
        QueueIsRecentHistory(limit, init);
      }
      RememberKeepsWindow(limit, History(limit, init), now, from);
    }
  }

  lemma PrefixIsNonDecreasing(calls: seq<int>, now: int)
    requires NonDecreasing(calls + [now])
    ensures NonDecreasing(calls)
    ensures calls != [] ==> calls[|calls| - 1] <= now
  {
    var all := calls + [now];
    assert forall i :: 0 <= i < |calls| ==> calls[i] == all[i];
    assert all[|calls|] == now;
  }

  predicate Between(s: seq<int>, from: int, to: int) {
    forall i :: 0 <= i < |s| ==> from <= s[i] <= to
  }

  lemma RecentIsBetween(history: seq<int>, recent: seq<int>, now: int)
    requires IsRecent(history, recent, now - WINDOW_NS) && AllAtMost(history, now)
    ensures Between(recent, now - WINDOW_NS, now)
  {
    forall i | 0 <= i < |recent| ensures now - WINDOW_NS <= recent[i] <= now {
      assert recent[i] == history[|history| - |recent| + i];
    }
  }

  /** What a call at `now` finds after eviction. */
  function RecentAt(limit: nat, calls: seq<int>, now: int): seq<int> {
    Evict(Queue(limit, calls), now - WINDOW_NS)
  }

  lemma CallFinds(limit: nat, calls: seq<int>, now: int)
    requires NonDecreasing(calls + [now])
    ensures |RecentAt(limit, calls, now)| == CountIn(History(limit, calls), now - WINDOW_NS, now) <= limit
    ensures Between(RecentAt(limit, calls, now), now - WINDOW_NS, now)
  {
    PrefixIsNonDecreasing(calls, now);
    EveryWindowIsSafe(limit, calls, now - WINDOW_NS);
    if calls != [] {
      QueueIsRecentHistory(limit, calls);
      EvictRefines(History(limit, calls), Queue(limit, calls), calls[|calls| - 1], now);
      RecentIsBetween(History(limit, calls), RecentAt(limit, calls, now), now);
    }
  }

  /** A call is rejected iff the closed window that ends with it already holds exactly `limit` admissions. */
  lemma RejectedIffFull(limit: nat, calls: seq<int>, now: int)
    requires NonDecreasing(calls + [now])
    ensures Check(limit, Queue(limit, calls), now).0.Rejected? <==>
              CountIn(History(limit, calls), now - WINDOW_NS, now) == limit
  {
    CallFinds(limit, calls, now);
  }

  // ── Retry-After ─────────────────────────────────────────────────────────

  /** With the clock at `now`, the oldest entry of the window leaves it strictly after this moment. */
  function FreedAt(limit: nat, calls: seq<int>, now: int): int
    requires RecentAt(limit, calls, now) != []
  {
    RecentAt(limit, calls, now)[0] + WINDOW_NS
  }

  lemma {:induction false} EvictTwice(q: seq<int>, first: int, second: int)
    requires first <= second
    ensures Evict(Evict(q, first), second) == Evict(q, second)
    decreases |q|
  {
    if q != [] && q[0] < first {
      EvictTwice(q[1..], first, second);
    }
  }

  lemma {:induction false} EvictShrinks(q: seq<int>, cutoff: int)
    ensures |Evict(q, cutoff)| <= |q|
    ensures |Evict(q, cutoff)| == |q| <==> q == [] || q[0] >= cutoff
    decreases |q|
  {
    if q != [] && q[0] < cutoff {
      EvictShrinks(q[1..], cutoff);
    }
  }

  /**
   A rejected token that stays silent is admitted again exactly when the clock
   is strictly past the moment its oldest admission is sixty seconds old.
   */
  lemma SilentTokenAdmittedIff(limit: nat, calls: seq<int>, now: int, later: int)
    requires NonDecreasing(calls + [now]) && limit >= 1 && now <= later
    requires Check(limit, Queue(limit, calls), now).0.Rejected?
    ensures RecentAt(limit, calls, now) != []
    ensures Check(limit, Check(limit, Queue(limit, calls), now).1, later).0.Admitted? <==>
              later > FreedAt(limit, calls, now)
  {
    CallFinds(limit, calls, now);
    EvictShrinks(RecentAt(limit, calls, now), later - WINDOW_NS);
  }

  /**
   The `Retry-After` of a rejection (section 10.2.3 of RFC 9110) is between 1 and
   60 seconds, and a token that stays silent for that long plus one more second
   is admitted. It never promises too much by a full second either: it is the
   whole-second part of the wait, except that waits under a second count as one.
   */
  lemma RetryAfterIsEnough(limit: nat, calls: seq<int>, now: int, later: int)
    requires NonDecreasing(calls + [now]) && limit >= 1
    requires Check(limit, Queue(limit, calls), now).0.Rejected?
    ensures
      var (verdict, q) := Check(limit, Queue(limit, calls), now);
      var delay := verdict.retryAfterSecs;
      && 1 <= delay <= 60
      && (later >= now + (delay + 1) * SECOND_NS ==> Check(limit, q, later).0.Admitted?)
      && (later >= now && delay > 1 && later <= now + delay * SECOND_NS ==> Check(limit, q, later).0.Rejected?)
  {
    CallFinds(limit, calls, now);
    SilentTokenAdmittedIff(limit, calls, now, Max(now, later));
    var delay := Check(limit, Queue(limit, calls), now).0.retryAfterSecs;
    var wait := FreedAt(limit, calls, now) - now;
    assert 0 <= wait <= WINDOW_NS;
    assert delay == Max(wait / SECOND_NS, 1);
  }

  /** A limiter whose limit is zero rejects everything for ever and always says sixty seconds. */
  lemma {:induction false} ZeroLimitRejectsAll(calls: seq<int>, now: int)
    ensures Check(0, Queue(0, calls), now) == (Rejected(60), [])
  {
    if calls != [] {
      ZeroLimitRejectsAll(calls[..|calls| - 1], calls[|calls| - 1]);
    }
  }

  lemma QueueGrows(limit: nat, calls: seq<int>, now: int)
    ensures Queue(limit, calls + [now]) == Check(limit, Queue(limit, calls), now).1
  {
    assert (calls + [now])[..|calls|] == calls;
  }

  predicate Mirrors(limit: nat, bucket: seq<int>, calls: seq<int>) {
    NonDecreasing(calls) && bucket == Queue(limit, calls)
  }

  predicate AllMirror(limit: nat, buckets: map<nat, seq<int>>, calls: map<nat, seq<int>>) {
    && buckets.Keys == calls.Keys
    && forall token :: token in calls ==> Mirrors(limit, buckets[token], calls[token])
  }

  function At(m: map<nat, seq<int>>, token: nat): seq<int> {
    if token in m then m[token] else []
  }

  predicate NotBefore(calls: seq<int>, now: int) {
    calls == [] || calls[|calls| - 1] <= now
  }

  lemma CallIsSound(limit: nat, buckets: map<nat, seq<int>>, calls: map<nat, seq<int>>, token: nat, now: int)
    requires AllMirror(limit, buckets, calls) && NotBefore(At(calls, token), now)
    ensures
      var before, bucket := At(calls, token), At(buckets, token);
      && bucket == Queue(limit, before)
      && |Evict(bucket, now - WINDOW_NS)| <= limit
      && (Check(limit, bucket, now).0.Admitted? <==> Admits(limit, History(limit, before), now))
      && AllMirror(limit, buckets[token := Check(limit, bucket, now).1], calls[token := before + [now]])
  {
    var before := At(calls, token);
    CallFinds(limit, before, now);
    QueueGrows(limit, before, now);
  }

  // ── The limiter ─────────────────────────────────────────────────────────

  const U32: nat := 0x1_0000_0000

  class RateLimiter {
    const limit: nat
    var buckets: map<nat, seq<int>>
    var hits: nat
    /** Every call made so far, per token; the code keeps no such thing. */
    ghost var calls: map<nat, seq<int>>

    ghost predicate Valid()
      reads this
    {
      limit < U32 && AllMirror(limit, buckets, calls)
    }

    /** The ceiling is a 32-bit sum, which wraps when overflow checks are off. */
    constructor (requestsPerMinute: nat, burstSize: nat)
      requires requestsPerMinute < U32 && burstSize < U32
      ensures Valid() && calls == map[] && hits == 0
      ensures limit == (requestsPerMinute + burstSize) % U32
    {
      limit := (requestsPerMinute + burstSize) % U32;
      buckets, calls, hits := map[], map[], 0;
    }

    /** The body of a call: pops what is too old from the front, then rejects or pushes. */
    method CheckBucket(bucket: seq<int>, now: int) returns (verdict: Verdict, after: seq<int>)
      requires limit < U32 && |Evict(bucket, now - WINDOW_NS)| <= limit
      ensures (verdict, after) == Check(limit, bucket, now)
    {
      after := bucket;
      var cutoff := now - WINDOW_NS;
      while after != [] && after[0] < cutoff
        invariant Evict(after, cutoff) == Evict(bucket, cutoff)
      {
        after := after[1..];
      }
      if |after| % U32 >= limit {
        var oldest := if after == [] then now else after[0];
        var remaining := Max(WINDOW_NS - Max(now - oldest, 0), 0);
        verdict := Rejected(Max(remaining / SECOND_NS, 1));
      } else {
        after := after + [now];
        verdict := Admitted;
      }
    }

    /** One call of one token. */
    method CheckToken(token: nat, now: int) returns (verdict: Verdict)
      requires Valid() && NotBefore(At(calls, token), now)
      modifies this
      ensures calls == old(calls)[token := At(old(calls), token) + [now]]
      ensures Valid()
      ensures verdict == Check(limit, Queue(limit, At(old(calls), token)), now).0
      ensures verdict.Admitted? <==> Admits(limit, History(limit, At(old(calls), token)), now)
      ensures hits == old(hits) + if verdict.Rejected? then 1 else 0
    {
      CallIsSound(limit, buckets, calls, token, now);
      ghost var was := At(calls, token);
      var after;
      verdict, after := CheckBucket(At(buckets, token), now);
      if verdict.Rejected? {
        hits := hits + 1;
      }
      assert AllMirror(limit, buckets[token := after], calls[token := was + [now]]);
      buckets := buckets[token := after];
      calls := calls[token := was + [now]];
    }
  }
}
