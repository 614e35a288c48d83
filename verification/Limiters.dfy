/**
 * The two local limiters (core/shared/rolling-window-limiter.ts, core/tenant/auth-session-limiter.ts)
 * as they keep their buckets, and the proof that with a clock that never goes back they decide
 * like the limiter on full logs.
 */
module Limiters {
  import opened Common
  import opened RollingWindow

  type Buckets<!K> = map<K, seq<int>>

  // ---------------------------------------------------------------- the shared limiter

  /** admit of createLocalRollingWindowLimiter; the bucket is stored pruned even on denial. */
  function Admission<K>(buckets: Buckets<K>, key: K, rule: Rule, now: int): (Decision, Buckets<K>) {
    var admitted := Recent(Lookup(buckets, key), rule.window, now);
    if |admitted| >= rule.limit then
      (if admitted == [] then Undefined else Denied(Retry(admitted[0], rule.window, now)), buckets[key := admitted])
    else (Admitted, buckets[key := admitted + [now]])
  }

  datatype Reply = Decided(decision: Decision) | Unavailable

  class LocalRollingWindowLimiter {
    var buckets: Buckets<string>
    var closed: bool

    constructor ()
      ensures buckets == map[] && !closed
    {
      buckets, closed := map[], false;
    }

    method Admit(key: string, limit: int, windowMs: int, now: int) returns (r: Reply)
      modifies this
      ensures closed == old(closed)
      ensures closed ==> r == Unavailable && buckets == old(buckets)
      ensures !closed ==> r == Decided(Admission(old(buckets), key, Rule(limit, windowMs), now).0)
      ensures !closed ==> buckets == Admission(old(buckets), key, Rule(limit, windowMs), now).1
    {
      if closed { return Unavailable; }
      var admitted := Recent(if key in buckets then buckets[key] else [], windowMs, now);
      if |admitted| >= limit {
        buckets := buckets[key := admitted];
        return Decided(
          if admitted == [] then Undefined else Denied(Max(1, CeilDiv(admitted[0] + windowMs - now, 1000))));
      }
      admitted := admitted + [now];
      buckets := buckets[key := admitted];
      return Decided(Admitted);
    }

    method Close()
      modifies this
      ensures closed && buckets == map[]
    {
      closed, buckets := true, map[];
    }
  }

  /** One call of the shared limiter is one step of the limiter on full logs, with the exact wait. */
  lemma AdmitRefines<K(!new)>(buckets: Buckets<K>, log: map<K, seq<int>>, rules: K -> Rule, last: int, now: int, key: K)
    requires forall k :: rules(k).limit >= 1
    requires LogsSpaced(log, rules, last) && Represents(buckets, log, rules, last) && last <= now
    ensures var (decision, buckets') := Admission(buckets, key, rules(key), now);
            && decision != Undefined
            && (decision == Admitted <==> Allowed(log, {key}, rules, now))
            && Represents(buckets', Charge(log, {key}, rules, now), rules, now)
            && (decision.Denied? ==> LeastWait(log, {key}, rules, now, decision.seconds))
  {
    var (decision, buckets') := Admission(buckets, key, rules(key), now);
    RepresentsLater(buckets, log, rules, last, now);
    BucketShowsLog(buckets, log, rules, last, now, key);
    ChargeOne(log, key, rules, now);
    assert Spaced(Lookup(log, key), rules(key));
    if decision == Admitted {
      RepresentsUpdate(buckets, log, rules, now, key, buckets'[key], Lookup(log, key) + [now]);
    } else {
      RepresentsUpdate(buckets, log, rules, now, key, buckets'[key], Lookup(log, key));
      KeepLog(buckets', log, rules, now, key);
      WaitOne(log, rules, last, now, key);
    }
  }

  lemma KeepLog<K(!new)>(buckets: Buckets<K>, log: map<K, seq<int>>, rules: K -> Rule, now: int, key: K)
    requires Represents(buckets, log[key := Lookup(log, key)], rules, now)
    ensures Represents(buckets, log, rules, now)
  {
    forall k
      ensures Prunes(Lookup(buckets, k), Lookup(log, k), now - rules(k).window)
    {
      assert Lookup(log[key := Lookup(log, key)], k) == Lookup(log, k);
    }
  }

  /** For a single full key the wait is the time until its oldest recent entry expires. */
  lemma WaitOne<K(!new)>(log: map<K, seq<int>>, rules: K -> Rule, last: int, now: int, key: K)
    requires forall k :: rules(k).limit >= 1
    requires LogsSpaced(log, rules, last) && last <= now && !HasRoom(Lookup(log, key), rules(key), now)
    ensures |Recent(Lookup(log, key), rules(key).window, now)| == rules(key).limit
    ensures LeastWait(log, {key}, rules, now,
            Retry(Recent(Lookup(log, key), rules(key).window, now)[0], rules(key).window, now))
  {
    assert Spaced(Lookup(log, key), rules(key));
    RetryIsLeast(Lookup(log, key), rules(key), now, 1);
    forall s: nat | s >= 1
      ensures AllowedAfter(log, {key}, rules, now, s) <==>
              s >= Retry(Recent(Lookup(log, key), rules(key).window, now)[0], rules(key).window, now)
    {
      RetryIsLeast(Lookup(log, key), rules(key), now, s);
      ChargeOne(log, key, rules, now + 1000 * s);
    }
  }

  // ---------------------------------------------------------------- the session limiter

  /** The bucket names; digests are taken to be injective, so a name is its prefix and its subject. */
  datatype Key = Account(subject: string) | LoginIp(ip: string) | RefreshIp(ip: string) | FamilyKey(familyId: string)

  const LOGIN_WINDOW := 15 * 60_000
  const REFRESH_WINDOW := 5 * 60_000

  /** The limit and window each kind of bucket is used with. */
  function SessionRule(key: Key): Rule {
    match key
    case Account(_) => Rule(5, LOGIN_WINDOW)
    case LoginIp(_) => Rule(20, LOGIN_WINDOW)
    case RefreshIp(_) => Rule(60, REFRESH_WINDOW)
    case FamilyKey(_) => Rule(10, REFRESH_WINDOW)
  }

  function RetryOf(entries: seq<int>, window: int, now: int): nat {
    if entries == [] then 1 else Retry(entries[0], window, now)
  }

  /** admitOne: a denied request leaves the stored bucket as it was. */
  function SingleAdmission<K>(buckets: Buckets<K>, key: K, rule: Rule, now: int): (Decision, Buckets<K>) {
    var entries := Recent(Lookup(buckets, key), rule.window, now);
    if |entries| >= rule.limit then (Denied(RetryOf(entries, rule.window, now)), buckets)
    else (Admitted, buckets[key := entries + [now]])
  }

  /** admitDual: both buckets are charged or neither; the wait is the longer one of the full buckets. */
  function DualAdmission<K>(buckets: Buckets<K>, first: K, second: K, firstRule: Rule, secondRule: Rule, now: int)
    : (Decision, Buckets<K>)
  {
    var left := Recent(Lookup(buckets, first), firstRule.window, now);
    var right := Recent(Lookup(buckets, second), secondRule.window, now);
    var leftFull, rightFull := |left| >= firstRule.limit, |right| >= secondRule.limit;
    if leftFull || rightFull then
      (Denied(Max(if leftFull then RetryOf(left, firstRule.window, now) else 0,
                  if rightFull then RetryOf(right, secondRule.window, now) else 0)),
       buckets)
    else (Admitted, buckets[first := left + [now]][second := right + [now]])
  }

  datatype Attempt =
    | LoginAttempt(account: string, loginIp: string)
    | RefreshIpAttempt(refreshIp: string)
    | FamilyAttempt(family: string)

  function KeysOf(attempt: Attempt): set<Key> {
    match attempt
    case LoginAttempt(account, ip) => {Account(account), LoginIp(ip)}
    case RefreshIpAttempt(ip) => {RefreshIp(ip)}
    case FamilyAttempt(f) => {FamilyKey(f)}
  }

  function Served(buckets: Buckets<Key>, attempt: Attempt, now: int): (Decision, Buckets<Key>) {
    match attempt
    case LoginAttempt(account, ip) =>
      DualAdmission(buckets, Account(account), LoginIp(ip), Rule(5, LOGIN_WINDOW), Rule(20, LOGIN_WINDOW), now)
    case RefreshIpAttempt(ip) => SingleAdmission(buckets, RefreshIp(ip), Rule(60, REFRESH_WINDOW), now)
    case FamilyAttempt(f) => SingleAdmission(buckets, FamilyKey(f), Rule(10, REFRESH_WINDOW), now)
  }

  class LocalSessionLimiter {
    var buckets: Buckets<Key>
    var closed: bool

    constructor ()
      ensures buckets == map[] && !closed
    {
      buckets, closed := map[], false;
    }

    method AdmitOne(key: Key, limit: int, window: int, now: int) returns (decision: Decision)
      modifies this`buckets
      ensures (decision, buckets) == SingleAdmission(old(buckets), key, Rule(limit, window), now)
    {
      var entries := Recent(Lookup(buckets, key), window, now);
      if |entries| >= limit { return Denied(RetryOf(entries, window, now)); }
      entries := entries + [now];
      buckets := buckets[key := entries];
      return Admitted;
    }

    method AdmitDual(first: Key, second: Key, firstLimit: int, secondLimit: int, window: int, now: int)
      returns (decision: Decision)
      modifies this`buckets
      ensures (decision, buckets)
              == DualAdmission(old(buckets), first, second, Rule(firstLimit, window), Rule(secondLimit, window), now)
    {
      var left, right := Recent(Lookup(buckets, first), window, now), Recent(Lookup(buckets, second), window, now);
      var leftFull, rightFull := |left| >= firstLimit, |right| >= secondLimit;
      if leftFull || rightFull {
        return Denied(Max(if leftFull then RetryOf(left, window, now) else 0,
                          if rightFull then RetryOf(right, window, now) else 0));
      }
      left, right := left + [now], right + [now];
      buckets := buckets[first := left];
      buckets := buckets[second := right];
      return Admitted;
    }

    /** admitLogin, admitRefreshIp and admitRefreshFamily. */
    method Serve(attempt: Attempt, now: int) returns (r: Reply)
      modifies this`buckets
      ensures closed ==> r == Unavailable && buckets == old(buckets)
      ensures !closed ==> r.Decided? && (r.decision, buckets) == Served(old(buckets), attempt, now)
    {
      if closed { return Unavailable; }
      var decision;
      match attempt {
        case LoginAttempt(account, ip) =>
          decision := AdmitDual(Account(account), LoginIp(ip), 5, 20, LOGIN_WINDOW, now);
        case RefreshIpAttempt(ip) => decision := AdmitOne(RefreshIp(ip), 60, REFRESH_WINDOW, now);
        case FamilyAttempt(f) => decision := AdmitOne(FamilyKey(f), 10, REFRESH_WINDOW, now);
      }
      return Decided(decision);
    }

    method Close()
      modifies this
      ensures closed && buckets == map[]
    {
      closed, buckets := true, map[];
    }
  }

  /** admitOne is one step of the limiter on full logs, with the exact wait. */
  lemma SingleRefines<K(!new)>(buckets: Buckets<K>, log: map<K, seq<int>>, rules: K -> Rule, last: int, now: int,
      key: K)
    requires forall k :: rules(k).limit >= 1
    requires LogsSpaced(log, rules, last) && Represents(buckets, log, rules, last) && last <= now
    ensures var (decision, buckets') := SingleAdmission(buckets, key, rules(key), now);
            && (decision == Admitted <==> Allowed(log, {key}, rules, now))
            && Represents(buckets', Charge(log, {key}, rules, now), rules, now)
            && (decision.Denied? ==> LeastWait(log, {key}, rules, now, decision.seconds))
  {
    var (decision, buckets') := SingleAdmission(buckets, key, rules(key), now);
    RepresentsLater(buckets, log, rules, last, now);
    BucketShowsLog(buckets, log, rules, last, now, key);
    ChargeOne(log, key, rules, now);
    if decision == Admitted {
      RepresentsUpdate(buckets, log, rules, now, key, buckets'[key], Lookup(log, key) + [now]);
    } else {
      WaitOne(log, rules, last, now, key);
    }
  }

  lemma ChargeTwo<K(!new)>(log: map<K, seq<int>>, first: K, second: K, rules: K -> Rule, now: int)
    requires first != second
    ensures Allowed(log, {first, second}, rules, now) <==>
            HasRoom(Lookup(log, first), rules(first), now) && HasRoom(Lookup(log, second), rules(second), now)
    ensures Allowed(log, {first, second}, rules, now) ==>
            Charge(log, {first, second}, rules, now)
            == log[first := Lookup(log, first) + [now]][second := Lookup(log, second) + [now]]
  {
    assert first in {first, second} && second in {first, second};
    assert log.Keys + {first, second}
      == log[first := Lookup(log, first) + [now]][second := Lookup(log, second) + [now]].Keys;
  }

  /** A key keeps its room while nothing is charged. */
  lemma RoomStays<K(!new)>(log: map<K, seq<int>>, rules: K -> Rule, last: int, now: int, key: K, s: nat)
    requires forall k :: rules(k).limit >= 1
    requires LogsSpaced(log, rules, last) && HasRoom(Lookup(log, key), rules(key), now)
    ensures HasRoom(Lookup(log, key), rules(key), now + 1000 * s)
  {
    assert Spaced(Lookup(log, key), rules(key));
    RoomLater(Lookup(log, key), rules(key), now, now + 1000 * s);
  }

  /** The wait of one key of a request, zero when it has room. */
  ghost predicate KeyWait<K(!new)>(log: map<K, seq<int>>, rules: K -> Rule, now: int, key: K, wait: nat) {
    if HasRoom(Lookup(log, key), rules(key), now) then wait == 0 else LeastWait(log, {key}, rules, now, wait)
  }

  lemma KeyWaitAfter<K(!new)>(log: map<K, seq<int>>, rules: K -> Rule, last: int, now: int, key: K, wait: nat, s: nat)
    requires forall k :: rules(k).limit >= 1
    requires LogsSpaced(log, rules, last) && KeyWait(log, rules, now, key, wait) && s >= 1
    ensures HasRoom(Lookup(log, key), rules(key), now + 1000 * s) <==> s >= wait
  {
    ChargeOne(log, key, rules, now + 1000 * s);
    if HasRoom(Lookup(log, key), rules(key), now) {
      RoomStays(log, rules, last, now, key, s);
    } else {
      assert AllowedAfter(log, {key}, rules, now, s) <==> s >= wait;
    }
  }

  /** The wait of a request with two keys is the longer one. */
  lemma WaitTwo<K(!new)>(log: map<K, seq<int>>, rules: K -> Rule, last: int, now: int, first: K, second: K, a: nat,
      b: nat)
    requires forall k :: rules(k).limit >= 1
    requires LogsSpaced(log, rules, last) && first != second
    requires !HasRoom(Lookup(log, first), rules(first), now) || !HasRoom(Lookup(log, second), rules(second), now)
    requires KeyWait(log, rules, now, first, a) && KeyWait(log, rules, now, second, b)
    ensures LeastWait(log, {first, second}, rules, now, Max(a, b))
  {
    forall s: nat | s >= 1
      ensures AllowedAfter(log, {first, second}, rules, now, s) <==> s >= Max(a, b)
    {
      ChargeTwo(log, first, second, rules, now + 1000 * s);
      KeyWaitAfter(log, rules, last, now, first, a, s);
      KeyWaitAfter(log, rules, last, now, second, b, s);
    }
  }

  lemma FullKeyWait<K(!new)>(log: map<K, seq<int>>, rules: K -> Rule, last: int, now: int, key: K)
    requires forall k :: rules(k).limit >= 1
    requires LogsSpaced(log, rules, last) && last <= now
    ensures var recent := Recent(Lookup(log, key), rules(key).window, now);
            KeyWait(log, rules, now, key,
                    if |recent| >= rules(key).limit then RetryOf(recent, rules(key).window, now) else 0)
  {
    if !HasRoom(Lookup(log, key), rules(key), now) {
      WaitOne(log, rules, last, now, key);
    }
  }

  lemma DualAdmitted<K(!new)>(
    buckets: Buckets<K>, log: map<K, seq<int>>, rules: K -> Rule, last: int, now: int, first: K, second: K)
    requires LogsSpaced(log, rules, last) && Represents(buckets, log, rules, last) && last <= now
    requires first != second && DualAdmission(buckets, first, second, rules(first), rules(second), now).0 == Admitted
    ensures Allowed(log, {first, second}, rules, now)
    ensures Represents(DualAdmission(buckets, first, second, rules(first), rules(second), now).1,
                       Charge(log, {first, second}, rules, now), rules, now)
  {
    RepresentsLater(buckets, log, rules, last, now);
    BucketShowsLog(buckets, log, rules, last, now, first);
    BucketShowsLog(buckets, log, rules, last, now, second);
    ChargeTwo(log, first, second, rules, now);
    var left, right := Recent(Lookup(buckets, first), rules(first).window, now),
      Recent(Lookup(buckets, second), rules(second).window, now);
    RepresentsUpdate(buckets, log, rules, now, first, left + [now], Lookup(log, first) + [now]);
    RepresentsUpdate(buckets[first := left + [now]], log[first := Lookup(log, first) + [now]], rules, now,
                     second, right + [now], Lookup(log, second) + [now]);
  }

  lemma DualDenied<K(!new)>(
    buckets: Buckets<K>, log: map<K, seq<int>>, rules: K -> Rule, last: int, now: int, first: K, second: K)
    requires forall k :: rules(k).limit >= 1
    requires LogsSpaced(log, rules, last) && Represents(buckets, log, rules, last) && last <= now
    requires first != second && DualAdmission(buckets, first, second, rules(first), rules(second), now).0.Denied?
    ensures !Allowed(log, {first, second}, rules, now)
    ensures LeastWait(log, {first, second}, rules, now,
                      DualAdmission(buckets, first, second, rules(first), rules(second), now).0.seconds)
  {
    BucketShowsLog(buckets, log, rules, last, now, first);
    BucketShowsLog(buckets, log, rules, last, now, second);
    ChargeTwo(log, first, second, rules, now);
    FullKeyWait(log, rules, last, now, first);
    FullKeyWait(log, rules, last, now, second);
    var left, right := Recent(Lookup(log, first), rules(first).window, now),
      Recent(Lookup(log, second), rules(second).window, now);
    WaitTwo(log, rules, last, now, first, second,
            if |left| >= rules(first).limit then RetryOf(left, rules(first).window, now) else 0,
            if |right| >= rules(second).limit then RetryOf(right, rules(second).window, now) else 0);
  }

  /** admitDual charges both keys or neither, and a denial waits for the later of the two. */
  lemma DualRefines<K(!new)>(
    buckets: Buckets<K>, log: map<K, seq<int>>, rules: K -> Rule, last: int, now: int, first: K, second: K)
    requires forall k :: rules(k).limit >= 1
    requires LogsSpaced(log, rules, last) && Represents(buckets, log, rules, last) && last <= now
    requires first != second
    ensures var (decision, buckets') := DualAdmission(buckets, first, second, rules(first), rules(second), now);
            && (decision == Admitted <==> Allowed(log, {first, second}, rules, now))
            && Represents(buckets', Charge(log, {first, second}, rules, now), rules, now)
            && (decision.Denied? ==> LeastWait(log, {first, second}, rules, now, decision.seconds))
  {
    if DualAdmission(buckets, first, second, rules(first), rules(second), now).0 == Admitted {
      DualAdmitted(buckets, log, rules, last, now, first, second);
    } else {
      DualDenied(buckets, log, rules, last, now, first, second);
      RepresentsLater(buckets, log, rules, last, now);
    }
  }

  /** A served request is one step of the limiter on full logs, with the exact wait. */
  ghost predicate ExactStep(
    log: map<Key, seq<int>>, keys: set<Key>, now: int, decision: Decision, buckets': Buckets<Key>)
  {
    && (decision == Admitted <==> Allowed(log, keys, SessionRule, now))
    && Represents(buckets', Charge(log, keys, SessionRule, now), SessionRule, now)
    && (decision.Denied? ==> LeastWait(log, keys, SessionRule, now, decision.seconds))
  }

  lemma LoginRefines(buckets: Buckets<Key>, log: map<Key, seq<int>>, last: int, now: int, account: string, ip: string)
    requires LogsSpaced(log, SessionRule, last) && Represents(buckets, log, SessionRule, last) && last <= now
    ensures var (decision, buckets') :=
              DualAdmission(buckets, Account(account), LoginIp(ip), Rule(5, LOGIN_WINDOW), Rule(20, LOGIN_WINDOW), now);
            ExactStep(log, {Account(account), LoginIp(ip)}, now, decision, buckets')
  {
    DualRefines(buckets, log, SessionRule, last, now, Account(account), LoginIp(ip));
  }

  lemma SingleKeyRefines(buckets: Buckets<Key>, log: map<Key, seq<int>>, last: int, now: int, key: Key)
    requires LogsSpaced(log, SessionRule, last) && Represents(buckets, log, SessionRule, last) && last <= now
    ensures var (decision, buckets') := SingleAdmission(buckets, key, SessionRule(key), now);
            ExactStep(log, {key}, now, decision, buckets')
  {
    SingleRefines(buckets, log, SessionRule, last, now, key);
  }

  /** Every request of the session limiter is such a step. */
  lemma ServeRefines(buckets: Buckets<Key>, log: map<Key, seq<int>>, last: int, now: int, attempt: Attempt)
    requires LogsSpaced(log, SessionRule, last) && Represents(buckets, log, SessionRule, last) && last <= now
    ensures var (decision, buckets') := Served(buckets, attempt, now);
            ExactStep(log, KeysOf(attempt), now, decision, buckets')
  {
    match attempt
    case LoginAttempt(account, ip) =>
      assert Served(buckets, attempt, now) ==
             DualAdmission(buckets, Account(account), LoginIp(ip), Rule(5, LOGIN_WINDOW), Rule(20, LOGIN_WINDOW), now);
      LoginRefines(buckets, log, last, now, account, ip);
    case RefreshIpAttempt(ip) =>
      assert Served(buckets, attempt, now) == SingleAdmission(buckets, RefreshIp(ip), SessionRule(RefreshIp(ip)), now);
      SingleKeyRefines(buckets, log, last, now, RefreshIp(ip));
    case FamilyAttempt(f) =>
      assert Served(buckets, attempt, now) == SingleAdmission(buckets, FamilyKey(f), SessionRule(FamilyKey(f)), now);
      SingleKeyRefines(buckets, log, last, now, FamilyKey(f));
  }

  // ---------------------------------------------------------------- whole runs

  datatype Call = Call(attempt: Attempt, now: int)

  function SessionBuckets(calls: seq<Call>): Buckets<Key> {
    if calls == [] then map[] else
    Served(SessionBuckets(calls[..|calls| - 1]), calls[|calls| - 1].attempt, calls[|calls| - 1].now).1
  }

  ghost function Requests(calls: seq<Call>): seq<Request<Key>> {
    seq(|calls|, i requires 0 <= i < |calls| => Request(KeysOf(calls[i].attempt), calls[i].now))
  }

  ghost predicate ClockForward(calls: seq<Call>) {
    forall i, j | 0 <= i < j < |calls| :: calls[i].now <= calls[j].now
  }

  /** With a clock that never goes back, the pruned buckets represent the full logs throughout a run. */
  lemma {:induction false} SessionRunRepresents(calls: seq<Call>, now: int)
    requires ClockForward(calls) && forall i | 0 <= i < |calls| :: calls[i].now <= now
    ensures LogsSpaced(FullLog(Requests(calls), SessionRule), SessionRule, now)
    ensures Represents(SessionBuckets(calls), FullLog(Requests(calls), SessionRule), SessionRule, now)
  {
    RunsAreSpaced(Requests(calls), SessionRule, now);
    if calls == [] {
      assert forall key :: PrunesAt([], [], now - SessionRule(key).window, 0);
    } else {
      var n := |calls| - 1;
      SessionRunRepresents(calls[..n], calls[n].now);
      assert Requests(calls)[..n] == Requests(calls[..n]);
      ServeRefines(SessionBuckets(calls[..n]), FullLog(Requests(calls[..n]), SessionRule), calls[n].now, calls[n].now,
        calls[n].attempt);
      RepresentsLater(SessionBuckets(calls), FullLog(Requests(calls), SessionRule), SessionRule, calls[n].now, now);
    }
  }

  /** In any such run a call is admitted exactly when the full logs allow it, and a denial reports the least wait. */
  lemma SessionDecisionsAreExact(calls: seq<Call>, attempt: Attempt, now: int)
    requires ClockForward(calls) && forall i | 0 <= i < |calls| :: calls[i].now <= now
    ensures var log, decision := FullLog(Requests(calls), SessionRule), Served(SessionBuckets(calls), attempt, now).0;
            && (decision == Admitted <==> Allowed(log, KeysOf(attempt), SessionRule, now))
            && (decision.Denied? ==> LeastWait(log, KeysOf(attempt), SessionRule, now, decision.seconds))
  {
    SessionRunRepresents(calls, now);
    ServeRefines(SessionBuckets(calls), FullLog(Requests(calls), SessionRule), now, now, attempt);
  }

  /** And no bucket gets more than its limit of admissions in any half-open interval of its window's length. */
  lemma SessionWindowBound(calls: seq<Call>, key: Key, from: int)
    requires ClockForward(calls)
    ensures |Inside(Lookup(FullLog(Requests(calls), SessionRule), key), from, SessionRule(key).window)|
            <= SessionRule(key).limit
  {
    var log := FullLog(Requests(calls), SessionRule);
    var now := if calls == [] then 0 else calls[|calls| - 1].now;
    RunsAreSpaced(Requests(calls), SessionRule, now);
    assert Spaced(Lookup(log, key), SessionRule(key));
    AtMostLimitPerWindow(Lookup(log, key), SessionRule(key), from);
  }

  // The same for the shared limiter, when each key is always used with one limit and window.

  datatype SharedCall = SharedCall(key: string, now: int)

  function SharedBuckets(calls: seq<SharedCall>, rules: string -> Rule): Buckets<string> {
    if calls == [] then map[] else
    var last := calls[|calls| - 1];
    Admission(SharedBuckets(calls[..|calls| - 1], rules), last.key, rules(last.key), last.now).1
  }

  ghost function SharedRequests(calls: seq<SharedCall>): seq<Request<string>> {
    seq(|calls|, i requires 0 <= i < |calls| => Request({calls[i].key}, calls[i].now))
  }

  ghost predicate SharedClockForward(calls: seq<SharedCall>) {
    forall i, j | 0 <= i < j < |calls| :: calls[i].now <= calls[j].now
  }

  lemma SharedLogNext(calls: seq<SharedCall>, rules: string -> Rule)
    requires calls != []
    ensures var n := |calls| - 1;
            FullLog(SharedRequests(calls), rules) ==
            Charge(FullLog(SharedRequests(calls[..n]), rules), {calls[n].key}, rules, calls[n].now)
  {
    assert SharedRequests(calls)[..|calls| - 1] == SharedRequests(calls[..|calls| - 1]);
  }

  lemma {:induction false} SharedRunRepresents(calls: seq<SharedCall>, rules: string -> Rule, now: int)
    requires forall key :: rules(key).limit >= 1
    requires SharedClockForward(calls) && forall i | 0 <= i < |calls| :: calls[i].now <= now
    ensures LogsSpaced(FullLog(SharedRequests(calls), rules), rules, now)
    ensures Represents(SharedBuckets(calls, rules), FullLog(SharedRequests(calls), rules), rules, now)
  {
    RunsAreSpaced(SharedRequests(calls), rules, now);
    if calls == [] {
      assert forall key :: PrunesAt([], [], now - rules(key).window, 0);
    } else {
      var n := |calls| - 1;
      var before, log := SharedBuckets(calls[..n], rules), FullLog(SharedRequests(calls[..n]), rules);
      SharedRunRepresents(calls[..n], rules, calls[n].now);
      AdmitRefines(before, log, rules, calls[n].now, calls[n].now, calls[n].key);
      SharedLogNext(calls, rules);
      RepresentsLater(SharedBuckets(calls, rules), FullLog(SharedRequests(calls), rules), rules, calls[n].now, now);
    }
  }

  /** Admission, retry-after and the window bound of the shared limiter over whole runs. */
  lemma SharedDecisionsAreExact(calls: seq<SharedCall>, rules: string -> Rule, key: string, now: int, from: int)
    requires forall k :: rules(k).limit >= 1
    requires SharedClockForward(calls) && forall i | 0 <= i < |calls| :: calls[i].now <= now
    ensures var log, decision := FullLog(SharedRequests(calls), rules),
            Admission(SharedBuckets(calls, rules), key, rules(key), now).0;
            && decision != Undefined
            && (decision == Admitted <==> Allowed(log, {key}, rules, now))
            && (decision.Denied? ==> LeastWait(log, {key}, rules, now, decision.seconds))
            && |Inside(Lookup(log, key), from, rules(key).window)| <= rules(key).limit
  {
    var log := FullLog(SharedRequests(calls), rules);
    SharedRunRepresents(calls, rules, now);
    AdmitRefines(SharedBuckets(calls, rules), log, rules, now, now, key);
    assert Spaced(Lookup(log, key), rules(key));
    AtMostLimitPerWindow(Lookup(log, key), rules(key), from);
  }
}
