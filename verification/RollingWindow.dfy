/**
 * What the local limiters promise, stated on the full log of admissions of every key: an
 * admission needs fewer than `limit` admissions of each of its keys in the last window.
 * Times are milliseconds.
 */
module RollingWindow {
  import opened Common

  datatype Rule = Rule(limit: int, window: int)

  /** The entries of the last window: entry > now - window. */
  function Recent(entries: seq<int>, window: int, now: int): seq<int> {
    if entries == [] then [] else
    var n := |entries| - 1;
    Recent(entries[..n], window, now) + (if entries[n] > now - window then [entries[n]] else [])
  }

  predicate HasRoom(log: seq<int>, rule: Rule, now: int) {
    |Recent(log, rule.window, now)| < rule.limit
  }

  /** Seconds until the oldest entry leaves the window, at least one. */
  function Retry(oldest: int, window: int, now: int): nat {
    Max(1, CeilDiv(oldest + window - now, 1000))
  }

  ghost predicate Sorted(log: seq<int>) {
    forall i, j | 0 <= i < j < |log| :: log[i] <= log[j]
  }

  // ---------------------------------------------------------------- the window of a sorted log

  /** The position of the first entry of the last window. */
  function Cut(log: seq<int>, cutoff: int): (n: nat)
    ensures n <= |log|
  {
    if log == [] || log[|log| - 1] <= cutoff then |log| else Cut(log[..|log| - 1], cutoff)
  }

  lemma {:induction false} CutSplits(log: seq<int>, cutoff: int)
    requires Sorted(log)
    ensures forall i | 0 <= i < Cut(log, cutoff) :: log[i] <= cutoff
    ensures forall i | Cut(log, cutoff) <= i < |log| :: log[i] > cutoff
  {
    if log != [] && log[|log| - 1] > cutoff {
      CutSplits(log[..|log| - 1], cutoff);
    }
  }

  lemma {:induction false} RecentOfOld(log: seq<int>, window: int, now: int)
    requires forall i | 0 <= i < |log| :: log[i] <= now - window
    ensures Recent(log, window, now) == []
  {
    if log != [] {
      RecentOfOld(log[..|log| - 1], window, now);
    }
  }

  /** On a sorted log the recent entries are a suffix. */
  lemma {:induction false} RecentIsSuffix(log: seq<int>, window: int, now: int)
    requires Sorted(log)
    ensures Recent(log, window, now) == log[Cut(log, now - window)..]
  {
    CutSplits(log, now - window);
    if log != [] {
      var n := |log| - 1;
      if log[n] > now - window {
        RecentIsSuffix(log[..n], window, now);
        assert log[Cut(log, now - window)..] == log[..n][Cut(log, now - window)..] + [log[n]];
      } else {
        RecentOfOld(log, window, now);
      }
    }
  }

  /** There is room exactly when the limit-th last entry, if any, has left the window. */
  lemma RoomIff(log: seq<int>, rule: Rule, now: int)
    requires Sorted(log) && rule.limit >= 1
    ensures HasRoom(log, rule, now) <==> |log| < rule.limit || log[|log| - rule.limit] <= now - rule.window
  {
    RecentIsSuffix(log, rule.window, now);
    CutSplits(log, now - rule.window);
  }

  // ---------------------------------------------------------------- the bound

  /** Any limit + 1 consecutive admissions span at least a window. */
  ghost predicate Spaced(log: seq<int>, rule: Rule) {
    Sorted(log) && forall i, j | 0 <= i < j < |log| && j == i + rule.limit :: log[j] >= log[i] + rule.window
  }

  lemma SpacedSpan(log: seq<int>, rule: Rule, i: nat, j: nat)
    requires Spaced(log, rule) && rule.limit >= 1 && i < |log| && j < |log|
    ensures j >= i + rule.limit ==> log[j] >= log[i] + rule.window
  {
    if j >= i + rule.limit {
      assert log[i + rule.limit] >= log[i] + rule.window;
    }
  }

  ghost function Range(lo: int, n: nat): (range: set<int>)
    ensures |range| == n && forall i :: i in range <==> lo <= i < lo + n
  {
    if n == 0 then {} else Range(lo, n - 1) + {lo + n - 1}
  }

  /** The admissions inside the half-open interval [from, from + window). */
  ghost function Inside(log: seq<int>, from: int, window: int): set<int> {
    set i | 0 <= i < |log| && from <= log[i] < from + window
  }

  /** At most `limit` admissions fall in any half-open interval of window length. */
  lemma AtMostLimitPerWindow(log: seq<int>, rule: Rule, from: int)
    requires Spaced(log, rule) && rule.limit >= 1
    ensures |Inside(log, from, rule.window)| <= rule.limit
  {
    var inside := Inside(log, from, rule.window);
    if inside != {} {
      var least := Cut(log, from - 1);
      CutSplits(log, from - 1);
      forall i | i in inside
        ensures least <= i < least + rule.limit
      {
        SpacedSpan(log, rule, least, i);
      }
      SubsetSize(inside, Range(least, rule.limit));
    }
  }

  lemma AdmissionKeepsSpaced(log: seq<int>, rule: Rule, now: int)
    requires Spaced(log, rule) && rule.limit >= 1
    requires log == [] || log[|log| - 1] <= now
    requires HasRoom(log, rule, now)
    ensures Spaced(log + [now], rule)
  {
    RoomIff(log, rule, now);
  }

  // ---------------------------------------------------------------- retry-after

  /** With the whole log unchanged, room comes back at the reported second and not before. */
  lemma RetryIsLeast(log: seq<int>, rule: Rule, now: int, seconds: nat)
    requires Spaced(log, rule) && rule.limit >= 1
    requires log == [] || log[|log| - 1] <= now
    requires !HasRoom(log, rule, now)
    requires seconds >= 1
    ensures |Recent(log, rule.window, now)| == rule.limit
    ensures HasRoom(log, rule, now + 1000 * seconds) <==>
            seconds >= Retry(Recent(log, rule.window, now)[0], rule.window, now)
  {
    var cut := Cut(log, now - rule.window);
    RecentIsSuffix(log, rule.window, now);
    CutSplits(log, now - rule.window);
    SpacedSpan(log, rule, cut, |log| - 1);
    RoomIff(log, rule, now + 1000 * seconds);
    var oldest := log[cut];
    assert oldest == Recent(log, rule.window, now)[0];
  }

  // ---------------------------------------------------------------- the limiter on full logs

  function Lookup<K>(log: map<K, seq<int>>, key: K): seq<int> {
    if key in log then log[key] else []
  }

  ghost predicate Allowed<K>(log: map<K, seq<int>>, keys: set<K>, rules: K -> Rule, now: int) {
    forall key | key in keys :: HasRoom(Lookup(log, key), rules(key), now)
  }

  /** One request charges all of its keys or none. */
  ghost function Charge<K>(log: map<K, seq<int>>, keys: set<K>, rules: K -> Rule, now: int): map<K, seq<int>> {
    if Allowed(log, keys, rules, now)
    then map key | key in log.Keys + keys :: if key in keys then Lookup(log, key) + [now] else log[key]
    else log
  }

  datatype Request<!K> = Request(keys: set<K>, now: int)

  ghost function FullLog<K>(requests: seq<Request<K>>, rules: K -> Rule): map<K, seq<int>> {
    if requests == [] then map[] else
    var last := requests[|requests| - 1];
    Charge(FullLog(requests[..|requests| - 1], rules), last.keys, rules, last.now)
  }

  ghost predicate Monotone<K>(requests: seq<Request<K>>) {
    forall i, j | 0 <= i < j < |requests| :: requests[i].now <= requests[j].now
  }

  ghost predicate LogsSpaced<K(!new)>(log: map<K, seq<int>>, rules: K -> Rule, now: int) {
    forall key | key in log ::
      Spaced(log[key], rules(key)) && forall i | 0 <= i < |log[key]| :: log[key][i] <= now
  }

  lemma ChargeKeepsSpaced<K(!new)>(log: map<K, seq<int>>, keys: set<K>, rules: K -> Rule, last: int, now: int)
    requires forall key :: rules(key).limit >= 1
    requires LogsSpaced(log, rules, last) && last <= now
    ensures LogsSpaced(Charge(log, keys, rules, now), rules, now)
  {
    var log' := Charge(log, keys, rules, now);
    forall key | key in log'
      ensures Spaced(log'[key], rules(key)) && forall i | 0 <= i < |log'[key]| :: log'[key][i] <= now
    {
      assert Spaced(Lookup(log, key), rules(key));
      if log' != log && key in keys {
        AdmissionKeepsSpaced(Lookup(log, key), rules(key), now);
      }
    }
  }

  /** In every run with a non-decreasing clock the logs of all keys keep their bound. */
  lemma {:induction false} RunsAreSpaced<K(!new)>(requests: seq<Request<K>>, rules: K -> Rule, now: int)
    requires forall key :: rules(key).limit >= 1
    requires Monotone(requests) && forall i | 0 <= i < |requests| :: requests[i].now <= now
    ensures LogsSpaced(FullLog(requests, rules), rules, now)
  {
    if requests != [] {
      var n := |requests| - 1;
      RunsAreSpaced(requests[..n], rules, requests[n].now);
      ChargeKeepsSpaced(FullLog(requests[..n], rules), requests[n].keys, rules, requests[n].now, requests[n].now);
    }
  }

  // ---------------------------------------------------------------- pruned buckets

  ghost predicate PrunesAt(bucket: seq<int>, log: seq<int>, cutoff: int, n: int) {
    0 <= n <= |log| && bucket == log[n..] && forall i | 0 <= i < n :: log[i] <= cutoff
  }

  /** The bucket is the log without a prefix of entries that can never count again. */
  ghost predicate Prunes(bucket: seq<int>, log: seq<int>, cutoff: int) {
    exists n :: PrunesAt(bucket, log, cutoff, n)
  }

  /** Pruned or not, the recent entries are the same, and pruning again is still pruning. */
  lemma PrunedRecent(bucket: seq<int>, log: seq<int>, cutoff: int, window: int, now: int)
    requires Sorted(log) && Prunes(bucket, log, cutoff) && cutoff <= now - window
    ensures Recent(bucket, window, now) == Recent(log, window, now)
    ensures Prunes(bucket, log, now - window)
    ensures Prunes(Recent(bucket, window, now), log, now - window)
  {
    var n :| PrunesAt(bucket, log, cutoff, n);
    assert log == log[..n] + bucket;
    RecentConcat(log[..n], bucket, window, now);
    RecentOfOld(log[..n], window, now);
    assert PrunesAt(bucket, log, now - window, n);
    RecentPrunes(log, window, now);
  }

  lemma RecentPrunes(log: seq<int>, window: int, now: int)
    requires Sorted(log)
    ensures Prunes(Recent(log, window, now), log, now - window)
  {
    RecentIsSuffix(log, window, now);
    CutSplits(log, now - window);
    assert PrunesAt(Recent(log, window, now), log, now - window, Cut(log, now - window));
  }

  lemma {:induction false} RecentConcat(left: seq<int>, right: seq<int>, window: int, now: int)
    ensures Recent(left + right, window, now) == Recent(left, window, now) + Recent(right, window, now)
  {
    if right == [] {
      assert left + right == left;
    } else {
      assert (left + right)[..|left + right| - 1] == left + right[..|right| - 1];
      RecentConcat(left, right[..|right| - 1], window, now);
    }
  }

  lemma PrunesSnoc(bucket: seq<int>, log: seq<int>, cutoff: int, now: int)
    requires Prunes(bucket, log, cutoff)
    ensures Prunes(bucket + [now], log + [now], cutoff)
  {
    var n :| PrunesAt(bucket, log, cutoff, n);
    assert PrunesAt(bucket + [now], log + [now], cutoff, n);
  }

  /** The stored buckets stand for the full logs, as far as any time from `last` on can tell. */
  ghost predicate Represents<K(!new)>(buckets: map<K, seq<int>>, log: map<K, seq<int>>, rules: K -> Rule, last: int) {
    forall key :: Prunes(Lookup(buckets, key), Lookup(log, key), last - rules(key).window)
  }

  lemma RepresentsLater<K(!new)>(buckets: map<K, seq<int>>, log: map<K, seq<int>>, rules: K -> Rule, last: int,
      now: int)
    requires Represents(buckets, log, rules, last) && last <= now
    ensures Represents(buckets, log, rules, now)
  {
    forall key
      ensures Prunes(Lookup(buckets, key), Lookup(log, key), now - rules(key).window)
    {
      assert Prunes(Lookup(buckets, key), Lookup(log, key), last - rules(key).window);
      var n :| PrunesAt(Lookup(buckets, key), Lookup(log, key), last - rules(key).window, n);
      assert PrunesAt(Lookup(buckets, key), Lookup(log, key), now - rules(key).window, n);
    }
  }

  // ---------------------------------------------------------------- one admission attempt

  /** The outcome reported to the caller; Undefined is the NaN of a bucket that is full while empty. */
  datatype Decision = Admitted | Denied(seconds: nat) | Undefined

  /** Pruning or charging one key keeps the buckets representing the logs. */
  lemma RepresentsUpdate<K(!new)>(
    buckets: map<K, seq<int>>, log: map<K, seq<int>>, rules: K -> Rule, now: int, key: K, bucket: seq<int>,
      entries: seq<int>)
    requires Represents(buckets, log, rules, now)
    requires Prunes(bucket, entries, now - rules(key).window)
    ensures Represents(buckets[key := bucket], log[key := entries], rules, now)
  {
    forall k
      ensures Prunes(Lookup(buckets[key := bucket], k), Lookup(log[key := entries], k), now - rules(k).window)
    {
      assert Prunes(Lookup(buckets, k), Lookup(log, k), now - rules(k).window);
    }
  }

  lemma ChargeOne<K(!new)>(log: map<K, seq<int>>, key: K, rules: K -> Rule, now: int)
    ensures Allowed(log, {key}, rules, now) <==> HasRoom(Lookup(log, key), rules(key), now)
    ensures Charge(log, {key}, rules, now) ==
            if HasRoom(Lookup(log, key), rules(key), now) then log[key := Lookup(log, key) + [now]] else log
  {
    if HasRoom(Lookup(log, key), rules(key), now) {
      assert log.Keys + {key} == log[key := Lookup(log, key) + [now]].Keys;
      assert Charge(log, {key}, rules, now) == log[key := Lookup(log, key) + [now]];
    } else {
      assert key in {key};
    }
  }

  /** What a bucket shows at a time not before the last is what the full log shows. */
  lemma BucketShowsLog<K(!new)>(
    buckets: map<K, seq<int>>, log: map<K, seq<int>>, rules: K -> Rule, last: int, now: int, key: K)
    requires LogsSpaced(log, rules, last) && Represents(buckets, log, rules, last) && last <= now
    ensures Recent(Lookup(buckets, key), rules(key).window, now) == Recent(Lookup(log, key), rules(key).window, now)
    ensures Prunes(Recent(Lookup(buckets, key), rules(key).window, now), Lookup(log, key), now - rules(key).window)
    ensures Prunes(Recent(Lookup(buckets, key), rules(key).window, now) + [now], Lookup(log, key) + [now],
            now - rules(key).window)
  {
    assert Spaced(Lookup(log, key), rules(key));
    assert Prunes(Lookup(buckets, key), Lookup(log, key), last - rules(key).window);
    PrunedRecent(Lookup(buckets, key), Lookup(log, key), last - rules(key).window, rules(key).window, now);
    PrunesSnoc(Recent(Lookup(buckets, key), rules(key).window, now), Lookup(log, key), now - rules(key).window, now);
  }

  ghost predicate AllowedAfter<K(!new)>(log: map<K, seq<int>>, keys: set<K>, rules: K -> Rule, now: int, seconds: nat) {
    Allowed(log, keys, rules, now + 1000 * seconds)
  }

  /** When a request is denied, the seconds after which it would be allowed, nothing else being charged. */
  ghost predicate LeastWait<K(!new)>(log: map<K, seq<int>>, keys: set<K>, rules: K -> Rule, now: int, seconds: nat) {
    && seconds >= 1
    && forall s: nat | s >= 1 :: AllowedAfter(log, keys, rules, now, s) <==> s >= seconds
  }

  /** Room at one time stays while nothing is charged. */
  lemma RoomLater(log: seq<int>, rule: Rule, now: int, later: int)
    requires Sorted(log) && rule.limit >= 1 && HasRoom(log, rule, now) && now <= later
    ensures HasRoom(log, rule, later)
  {
    RoomIff(log, rule, now);
    RoomIff(log, rule, later);
  }
}
