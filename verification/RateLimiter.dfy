/** The relay's fixed-window request limiter (internal/api/server.go). */
module RateLimiter {
  import opened Wrappers

  datatype Bucket = Bucket(windowStart: Time, count: int)

  type Buckets = map<string, Bucket>

  /** One request for permission, and when it comes. */
  datatype Call = Call(key: string, maxCount: int, window: Time, now: Time)

  const DEFAULT_WINDOW: Time := 60 * SECOND

  function Window(window: Time): Time {
    if window <= 0 then DEFAULT_WINDOW else window
  }

  /** No limit and no key let everything through and count nothing. */
  function Decide(buckets: Buckets, call: Call): (Buckets, bool) {
    if call.maxCount <= 0 || call.key == "" then (buckets, true)
    else if call.key !in buckets || call.now - buckets[call.key].windowStart >= Window(call.window) then
      (buckets[call.key := Bucket(call.now, 1)], true)
    else if buckets[call.key].count >= call.maxCount then (buckets, false)
    else
      var bucket := buckets[call.key];
      (buckets[call.key := bucket.(count := bucket.count + 1)], true)
  }

  /** What a call is answered: without a limit or a key it passes uncounted; the first call, and the first once the
      window is over, opens a window of its own; any other passes while the limit is not reached, and counts. A window
      of no length is a minute. */
  predicate AllowPromise(buckets: Buckets, call: Call, buckets': Buckets, ok: bool) {
    var span := if call.window > 0 then call.window else 60_000_000_000;
    if call.maxCount <= 0 || call.key == "" then ok && buckets' == buckets
    else if call.key !in buckets || buckets[call.key].windowStart + span <= call.now then
      ok && buckets' == buckets[call.key := Bucket(call.now, 1)]
    else
      var bucket := buckets[call.key];
      && (ok <==> bucket.count < call.maxCount)
      && buckets' == if ok then buckets[call.key := Bucket(bucket.windowStart, bucket.count + 1)] else buckets
  }

  lemma DecideKeepsPromise(buckets: Buckets, call: Call)
    ensures var (buckets', ok) := Decide(buckets, call); AllowPromise(buckets, call, buckets', ok)
  {
  }

  class RequestLimiter {
    var buckets: Buckets

    constructor ()
      ensures buckets == map[]
    {
      buckets := map[];
    }

    method Allow(key: string, maxCount: int, window: Time, now: Time) returns (ok: bool)
      modifies this
      ensures (buckets, ok) == Decide(old(buckets), Call(key, maxCount, window, now))
      ensures AllowPromise(old(buckets), Call(key, maxCount, window, now), buckets, ok)
    {
      if maxCount <= 0 || key == "" { return true; }
      var effective := window;
      if effective <= 0 { effective := DEFAULT_WINDOW; }
      if key !in buckets || now - buckets[key].windowStart >= effective {
        buckets := buckets[key := Bucket(now, 1)];
        return true;
      }
      var bucket := buckets[key];
      if bucket.count >= maxCount { return false; }
      bucket := bucket.(count := bucket.count + 1);
      buckets := buckets[key := bucket];
      return true;
    }
  }

  // ---------------------------------------------------------------- runs

  function After(calls: seq<Call>): Buckets {
    if calls == [] then map[] else Decide(After(calls[..|calls| - 1]), calls[|calls| - 1]).0
  }

  /** How many calls for the key were let through in the half-open span. */
  function Admitted(calls: seq<Call>, key: string, from: Time, to: Time): nat {
    if calls == [] then 0
    else
      var init, last := calls[..|calls| - 1], calls[|calls| - 1];
      Admitted(init, key, from, to)
      + if last.key == key && from <= last.now < to && Decide(After(init), last).1 then 1 else 0
  }

  predicate Ordered(calls: seq<Call>) {
    forall i, j | 0 <= i < j < |calls| :: calls[i].now <= calls[j].now
  }

  /** The key is always asked for with the same limit and window. */
  predicate Limited(calls: seq<Call>, key: string, limit: int, window: Time) {
    forall c <- calls | c.key == key :: c.maxCount == limit && Window(c.window) == window
  }

  /** How many windows may have been used up before the one that starts at `start`. */
  function WindowsBefore(start: Time, from: Time, window: Time): nat
    requires window > 0
    decreases start - from
  {
    if start < from then 0 else 1 + WindowsBefore(start - window, from, window)
  }

  lemma {:induction false} LaterStart(start: Time, next: Time, from: Time, window: Time)
    requires window > 0 && start <= next
    ensures WindowsBefore(start, from, window) <= WindowsBefore(next, from, window)
    decreases start - from
  {
    if start >= from { LaterStart(start - window, next - window, from, window); }
  }

  lemma {:induction false} WindowsInSpan(start: Time, from: Time, window: Time, k: nat)
    requires window > 0 && start < from + k * window
    ensures WindowsBefore(start, from, window) <= k
    decreases k
  {
    if k > 0 && start >= from {
      assert k * window == (k - 1) * window + window;
      WindowsInSpan(start - window, from, window, k - 1);
    }
  }

  lemma Scaled(a: nat, b: nat, limit: nat)
    requires a <= b
    ensures a * limit <= b * limit
  {
  }

  /** What the windows used up before `start` may have let through. */
  function Before(start: Time, from: Time, window: Time, limit: nat): nat
    requires window > 0
  {
    WindowsBefore(start, from, window) * limit
  }

  lemma BeforeStart(start: Time, from: Time, window: Time, limit: nat)
    requires window > 0
    ensures start < from ==> Before(start, from, window, limit) == 0
    ensures start >= from ==> Before(start, from, window, limit) >= limit
  {
    if start >= from { Scaled(1, WindowsBefore(start, from, window), limit); }
  }

  lemma NextWindow(start: Time, next: Time, from: Time, window: Time, limit: nat)
    requires window > 0 && next - start >= window && next >= from
    ensures Before(start, from, window, limit) + limit <= Before(next, from, window, limit)
  {
    LaterStart(start, next - window, from, window);
    Scaled(WindowsBefore(start, from, window) + 1, WindowsBefore(next, from, window), limit);
  }

  /** What a bucket says about the calls let through since `from`. */
  predicate Spent(calls: seq<Call>, key: string, limit: nat, window: Time, from: Time, to: Time)
    requires window > 0
  {
    if key !in After(calls) then Admitted(calls, key, from, to) == 0
    else
      var bucket := After(calls)[key];
      && 1 <= bucket.count <= limit
      && (calls != [] ==> bucket.windowStart <= calls[|calls| - 1].now)
      && Admitted(calls, key, from, to) <= Before(bucket.windowStart, from, window, limit) + bucket.count - 1
  }

  lemma {:induction false} NoneBefore(calls: seq<Call>, key: string, from: Time, to: Time)
    requires Ordered(calls) && calls != [] && calls[|calls| - 1].now < from
    ensures Admitted(calls, key, from, to) == 0
  {
    if |calls| > 1 { NoneBefore(calls[..|calls| - 1], key, from, to); }
  }

  lemma Front(calls: seq<Call>, key: string, limit: nat, window: Time)
    requires calls != [] && Ordered(calls) && Limited(calls, key, limit, window)
    ensures var init, last := calls[..|calls| - 1], calls[|calls| - 1];
            && Ordered(init) && Limited(init, key, limit, window)
            && (init != [] ==> init[|init| - 1].now <= last.now)
            && (last.key == key ==> last.maxCount == limit && Window(last.window) == window)
  {
    assert calls[|calls| - 1] in calls;
  }

  lemma {:induction false} SpentHolds(calls: seq<Call>, key: string, limit: nat, window: Time, from: Time, to: Time)
    requires key != "" && limit > 0 && window > 0 && Ordered(calls) && Limited(calls, key, limit, window)
    ensures Spent(calls, key, limit, window, from, to)
  {
    hide Ordered, Limited, Before;
    if calls != [] {
      var init, last := calls[..|calls| - 1], calls[|calls| - 1];
      Front(calls, key, limit, window);
      SpentHolds(init, key, limit, window, from, to);
      BeforeStart(last.now, from, window, limit);
      if last.now < from {
        NoneBefore(calls, key, from, to);
      } else if last.key == key && key in After(init) {
        var start := After(init)[key].windowStart;
        if last.now - start >= window { NextWindow(start, last.now, from, window, limit); }
      }
    }
  }

  /** However the calls fall, a span of k windows lets through less than k + 1 times the limit. */
  lemma {:induction false} RateBound(calls: seq<Call>, key: string, limit: nat, window: Time, from: Time, k: nat)
    requires key != "" && limit > 0 && window > 0 && Ordered(calls) && Limited(calls, key, limit, window)
    ensures Admitted(calls, key, from, from + k * window) < (k + 1) * limit
  {
    var to := from + k * window;
    if calls != [] {
      var init, last := calls[..|calls| - 1], calls[|calls| - 1];
      if last.now >= to {
        RateBound(init, key, limit, window, from, k);
      } else {
        SpentHolds(calls, key, limit, window, from, to);
        if key in After(calls) {
          var start := After(calls)[key].windowStart;
          WindowsInSpan(start, from, window, k);
          Scaled(WindowsBefore(start, from, window), k, limit);
        }
      }
    }
  }

  /** The same call `count` times at one instant. */
  function Burst(call: Call, count: nat): seq<Call> {
    if count == 0 then [] else Burst(call, count - 1) + [call]
  }

  lemma {:induction false} BurstCalls(call: Call, count: nat)
    ensures |Burst(call, count)| == count && forall c <- Burst(call, count) :: c == call
  {
    if count > 0 { BurstCalls(call, count - 1); }
  }

  predicate Expired(buckets: Buckets, call: Call) {
    call.key !in buckets || call.now - buckets[call.key].windowStart >= Window(call.window)
  }

  /** A bucket that has room for the whole burst lets all of it through. */
  lemma {:induction false} BurstPasses(calls: seq<Call>, call: Call, count: nat, from: Time, to: Time)
    requires call.key != "" && call.maxCount > 0 && count > 0
    requires if Expired(After(calls), call) then count <= call.maxCount
             else After(calls)[call.key].count + count <= call.maxCount
    ensures var before, bucket := After(calls), After(calls + Burst(call, count));
            && call.key in bucket
            && bucket[call.key] == (if Expired(before, call) then Bucket(call.now, count)
                                    else before[call.key].(count := before[call.key].count + count))
            && Admitted(calls + Burst(call, count), call.key, from, to)
               == Admitted(calls, call.key, from, to) + if from <= call.now < to then count else 0
  {
    hide After, Admitted;
    assert calls + Burst(call, count) == (calls + Burst(call, count - 1)) + [call];
    OneMoreCall(calls + Burst(call, count - 1), call, from, to);
    if count == 1 {
      assert calls + Burst(call, count - 1) == calls;
    } else {
      BurstPasses(calls, call, count - 1, from, to);
    }
  }

  lemma OneMoreCall(calls: seq<Call>, call: Call, from: Time, to: Time)
    ensures After(calls + [call]) == Decide(After(calls), call).0
    ensures Admitted(calls + [call], call.key, from, to)
            == Admitted(calls, call.key, from, to) + if from <= call.now < to
                && Decide(After(calls), call).1 then 1 else 0
  {
    assert (calls + [call])[..|calls|] == calls;
  }

  /** One call at 0, the rest of the limit at the end of that window, then the whole limit at the start of each of
      the next k windows. */
  function Worst(key: string, limit: nat, window: Time, k: nat): seq<Call>
    requires limit > 0
  {
    if k == 0 then [Call(key, limit, window, 0)] + Burst(Call(key, limit, window, window - 1), limit - 1)
    else Worst(key, limit, window, k - 1) + Burst(Call(key, limit, window, k * window), limit)
  }

  lemma LaterBurst(calls: seq<Call>, call: Call, count: nat)
    requires Ordered(calls) && forall c <- calls :: c.now <= call.now
    ensures Ordered(calls + Burst(call, count))
  {
    BurstCalls(call, count);
    var burst := Burst(call, count);
    assert forall i | 0 <= i < |burst| :: burst[i] in burst && burst[i] == call;
    assert forall i | 0 <= i < |calls| :: calls[i] in calls;
  }

  /** One more burst, a window after the last. */
  lemma LaterWindow(calls: seq<Call>, key: string, limit: nat, window: Time, now: Time, count: nat)
    requires window > 1 && Ordered(calls) && Limited(calls, key, limit, window)
    requires forall c <- calls :: c.now <= now
    ensures var more := calls + Burst(Call(key, limit, window, now), count);
            Ordered(more) && Limited(more, key, limit, window) && forall c <- more :: c.now <= now
  {
    hide Ordered;
    var call := Call(key, limit, window, now);
    BurstCalls(call, count);
    LaterBurst(calls, call, count);
  }

  lemma {:induction false} WorstShape(key: string, limit: nat, window: Time, k: nat)
    requires limit > 0 && window > 1
    ensures var calls := Worst(key, limit, window, k);
            && Ordered(calls) && Limited(calls, key, limit, window)
            && forall c <- calls :: c.now <= if k > 0 then k * window else window - 1
  {
    hide Limited;
    if k == 0 {
      FirstLimited(key, limit, window);
      LaterWindow([Call(key, limit, window, 0)], key, limit, window, window - 1, limit - 1);
    } else {
      WorstShape(key, limit, window, k - 1);
      assert k * window == (k - 1) * window + window;
      LaterWindow(Worst(key, limit, window, k - 1), key, limit, window, k * window, limit);
    }
  }

  lemma FirstLimited(key: string, limit: nat, window: Time)
    requires window > 1
    ensures Limited([Call(key, limit, window, 0)], key, limit, window)
  {
  }

  /** The bound is reached for every limit and every number of windows, for windows of more than one tick. */
  lemma {:induction false} RateBoundReached(key: string, limit: nat, window: Time, k: nat)
    requires key != "" && limit > 0 && window > 1 && k > 0
    ensures var calls := Worst(key, limit, window, k);
            && Ordered(calls) && Limited(calls, key, limit, window)
            && Admitted(calls, key, window - 1, window - 1 + k * window) == (k + 1) * limit - 1
  {
    WorstShape(key, limit, window, k);
    WorstAdmits(key, limit, window, k, window - 1 + k * window);
  }

  lemma FirstWindow(key: string, limit: nat, window: Time, to: Time)
    requires key != "" && limit > 0 && window > 1 && to >= window
    ensures var calls := Worst(key, limit, window, 0);
            && key in After(calls) && After(calls)[key].windowStart == 0
            && Admitted(calls, key, window - 1, to) == limit - 1
  {
    var first, call := Call(key, limit, window, 0), Call(key, limit, window, window - 1);
    assert [first][..0] == [];
    assert After([first]) == map[key := Bucket(0, 1)] && Admitted([first], key, window - 1, to) == 0;
    hide After, Admitted, Burst;
    if limit > 1 {
      BurstPasses([first], call, limit - 1, window - 1, to);
    } else {
      NoBurst(call);
      assert [first] + [] == [first];
    }
  }

  lemma NoBurst(call: Call)
    ensures Burst(call, 0) == []
  {
  }

  lemma {:induction false} WorstAdmits(key: string, limit: nat, window: Time, k: nat, to: Time)
    requires key != "" && limit > 0 && window > 1 && to > k * window && to >= window
    ensures var calls := Worst(key, limit, window, k);
            && key in After(calls) && After(calls)[key].windowStart == k * window
            && Admitted(calls, key, window - 1, to) == k * limit + limit - 1
  {
    hide After, Admitted, Burst;
    if k == 0 {
      FirstWindow(key, limit, window, to);
    } else {
      WorstAdmits(key, limit, window, k - 1, to);
      assert k * window == (k - 1) * window + window && k * window >= window;
      BurstPasses(Worst(key, limit, window, k - 1), Call(key, limit, window, k * window), limit, window - 1, to);
      assert k * limit == (k - 1) * limit + limit;
    }
  }

  /** The bucket counts exactly the calls let through since its window began. */
  lemma {:induction false} BucketCounts(calls: seq<Call>, key: string, limit: nat, window: Time, to: Time)
    requires key != "" && limit > 0 && window > 0 && Ordered(calls) && Limited(calls, key, limit, window)
    requires forall c <- calls :: c.now < to
    ensures key !in After(calls) ==> forall from :: Admitted(calls, key, from, to) == 0
    ensures key in After(calls) ==>
              var bucket := After(calls)[key];
              && calls != [] && bucket.windowStart <= calls[|calls| - 1].now
              && bucket.count == Admitted(calls, key, bucket.windowStart, to)
              && forall from | from >= bucket.windowStart + window :: Admitted(calls, key, from, to) == 0
  {
    hide Ordered, Limited;
    if calls != [] {
      assert calls[|calls| - 1] in calls;
      Front(calls, key, limit, window);
      BucketCounts(calls[..|calls| - 1], key, limit, window, to);
    }
  }

  lemma {:induction false} WiderSpan(calls: seq<Call>, key: string, from: Time, later: Time, to: Time)
    requires from <= later
    ensures Admitted(calls, key, later, to) <= Admitted(calls, key, from, to)
  {
    if calls != [] { WiderSpan(calls[..|calls| - 1], key, from, later, to); }
  }

  /** A refusal is deserved: the full limit was let through within less than a window. */
  lemma RefusalDeserved(calls: seq<Call>, call: Call, limit: nat, window: Time)
    requires call.key != "" && limit > 0 && window > 0
    requires Ordered(calls + [call]) && Limited(calls + [call], call.key, limit, window)
    requires !Decide(After(calls), call).1
    ensures Admitted(calls, call.key, call.now - window + 1, call.now + 1) >= limit
  {
    hide Admitted, After, Ordered, Limited;
    Earlier(calls, call, limit, window);
    BucketCounts(calls, call.key, limit, window, call.now + 1);
    WiderSpan(calls, call.key, call.now - window + 1, After(calls)[call.key].windowStart, call.now + 1);
  }

  lemma Earlier(calls: seq<Call>, call: Call, limit: int, window: Time)
    requires Ordered(calls + [call]) && Limited(calls + [call], call.key, limit, window)
    ensures Ordered(calls) && Limited(calls, call.key, limit, window)
    ensures call.maxCount == limit && Window(call.window) == window
    ensures forall c <- calls :: c.now <= call.now
  {
    var all := calls + [call];
    assert all[|calls|] == call && call in all;
    assert forall c <- calls :: c in all;
    assert forall i | 0 <= i < |calls| :: all[i] == calls[i];
  }

  // ---------------------------------------------------------------- keys

  function ForKey(calls: seq<Call>, key: string): seq<Call> {
    if calls == [] then []
    else ForKey(calls[..|calls| - 1], key) + if calls[|calls| - 1].key == key then [calls[|calls| - 1]] else []
  }

  predicate SameBucket(a: Buckets, b: Buckets, key: string) {
    (key in a <==> key in b) && (key in a ==> a[key] == b[key])
  }

  lemma NoBucket(key: string)
    ensures SameBucket(map[], map[], key)
  {
  }

  lemma DecideByKey(a: Buckets, b: Buckets, call: Call)
    requires SameBucket(a, b, call.key)
    ensures SameBucket(Decide(a, call).0, Decide(b, call).0, call.key) && Decide(a, call).1 == Decide(b, call).1
  {
  }

  lemma DecideOtherKey(a: Buckets, b: Buckets, key: string, call: Call)
    requires SameBucket(a, b, key) && call.key != key
    ensures SameBucket(Decide(a, call).0, b, key)
  {
  }

  /** Keys never affect each other: the key's bucket and count are those of its own calls alone. */
  lemma {:induction false} KeysIndependent(calls: seq<Call>, key: string, from: Time, to: Time)
    ensures SameBucket(After(calls), After(ForKey(calls, key)), key)
    ensures Admitted(calls, key, from, to) == Admitted(ForKey(calls, key), key, from, to)
  {
    hide Decide, SameBucket;
    NoBucket(key);
    if calls != [] {
      var init, last := calls[..|calls| - 1], calls[|calls| - 1];
      var own := ForKey(init, key);
      KeysIndependent(init, key, from, to);
      if last.key == key {
        DecideByKey(After(init), After(own), last);
        assert (own + [last])[..|own|] == own;
        assert ForKey(calls, key) == own + [last];
      } else {
        DecideOtherKey(After(init), After(own), key, last);
        assert ForKey(calls, key) == own;
      }
    }
  }
}
