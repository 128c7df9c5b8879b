/** The Redis-backed limiter: expiring counters under three families of keys, and
    the password grant that consults them. */
module Limiter {
  import opened Common
  import Backoff
  import FixedWindow

  type Time = int

  /** A counter in the store is at least one. */
  type Count = n: nat | n >= 1 witness 1

  datatype Entry = Entry(value: Count, expires: Option<Time>)

  type Redis = map<string, Entry>

  datatype Rule = Rule(limit: int, window: int)
  {
    predicate Enabled() {
      limit > 0 && window > 0
    }
  }

  datatype Config = Config(prefix: string, backoffAfter: int, backoffBase: int, backoffMax: int, failureWindow: int)

  datatype Verdict = Verdict(allowed: bool, remaining: int, retryAfter: int)

  function RateKey(prefix: string, key: string): string {
    prefix + "rl:" + key
  }

  function FailureKey(prefix: string, key: string): string {
    prefix + "fail:" + key
  }

  function BackoffKey(prefix: string, key: string): string {
    prefix + "backoff:" + key
  }

  /** The three families never collide, and neither do two keys of one family. */
  lemma KeysAreDistinct(prefix: string, a: string, b: string)
    ensures FailureKey(prefix, a) != BackoffKey(prefix, b)
    ensures RateKey(prefix, a) != FailureKey(prefix, b) && RateKey(prefix, a) != BackoffKey(prefix, b)
    ensures a != b ==> RateKey(prefix, a) != RateKey(prefix, b)
    ensures a != b ==> FailureKey(prefix, a) != FailureKey(prefix, b) && BackoffKey(prefix, a) != BackoffKey(prefix, b)
  {
    var n := |prefix|;
    assert FailureKey(prefix, a)[n] == 'f' && BackoffKey(prefix, b)[n] == 'b' && RateKey(prefix, a)[n] == 'r';
    assert FailureKey(prefix, b)[n] == 'f';
    assert RateKey(prefix, a)[n + 3..] == a && RateKey(prefix, b)[n + 3..] == b;
    assert FailureKey(prefix, a)[n + 5..] == a && FailureKey(prefix, b)[n + 5..] == b;
    assert BackoffKey(prefix, a)[n + 8..] == a && BackoffKey(prefix, b)[n + 8..] == b;
  }

  predicate LiveEntry(redis: Redis, key: string, now: Time) {
    key in redis && (redis[key].expires.Some? ==> now < redis[key].expires.value)
  }

  function CountAt(redis: Redis, key: string, now: Time): nat {
    if LiveEntry(redis, key, now) then redis[key].value else 0
  }

  /** A key left without an expiry: the service died between INCR and EXPIRE. */
  predicate Orphaned(redis: Redis, key: string) {
    key in redis && redis[key].expires.None?
  }

  /** The counter under a rate key as a window. */
  function WindowAt(redis: Redis, key: string, now: Time): FixedWindow.Window {
    if LiveEntry(redis, key, now) && redis[key].expires.Some?
    then FixedWindow.Open(redis[key].value, redis[key].expires.value)
    else FixedWindow.Idle
  }

  /** The store holds, under a rate key, a window that a trace of requests has led to. */
  predicate Tracks(redis: Redis, key: string, w: FixedWindow.Window) {
    if w.Idle? then key !in redis
    else w.count >= 1 && key in redis && redis[key] == Entry(w.count, Some(w.expires))
  }

  /** That an expired window has left the store makes no difference to the next hit. */
  lemma ExpiryIsInvisible(redis: Redis, key: string, w: FixedWindow.Window, now: Time, length: int)
    requires Tracks(redis, key, w)
    ensures FixedWindow.Hit(WindowAt(redis, key, now), now, length) == FixedWindow.Hit(w, now, length)
    ensures !Orphaned(redis, key)
  {
  }

  /** Time left on a key; zero when it is absent, expired or has no expiry. */
  function Remaining(redis: Redis, key: string, now: Time): nat {
    if LiveEntry(redis, key, now) && redis[key].expires.Some? then redis[key].expires.value - now else 0
  }

  /** The delay after the n-th failure of a streak. */
  function Wait(cfg: Config, saturates: bool, n: nat): int {
    if n < cfg.backoffAfter then 0
    else Backoff.Delay(cfg.backoffBase, cfg.backoffMax, n - cfg.backoffAfter, saturates)
  }

  /** Nothing before the configured failure; from then on the base, doubled at each
      failure up to the ceiling, exactly where that doubling is harmless. */
  lemma WaitDoublesIff(cfg: Config, saturates: bool, n: nat)
    requires 0 < cfg.backoffBase < Backoff.TWO63 && cfg.backoffMax < Backoff.TWO63
    ensures n < cfg.backoffAfter ==> Wait(cfg, saturates, n) == 0
    ensures n >= cfg.backoffAfter ==>
              var doubled := cfg.backoffBase * Backoff.Pow2(n - cfg.backoffAfter);
              Wait(cfg, saturates, n) == (if doubled <= cfg.backoffMax then doubled else cfg.backoffMax)
              <==> Backoff.Harmless(cfg.backoffBase, cfg.backoffMax, n - cfg.backoffAfter, saturates)
  {
    if n >= cfg.backoffAfter {
      Backoff.DelayIsIdealIff(cfg.backoffBase, cfg.backoffMax, n - cfg.backoffAfter, saturates);
    }
  }

  // ----- a streak of failures -----

  /** What the two keys of an account amount to. */
  datatype Streak = Streak(count: nat, countExpires: Time, closedUntil: Time)

  const CLEAN := Streak(0, 0, 0)

  /** The store holds exactly this streak under the key, whatever the time is. */
  predicate Records(redis: Redis, prefix: string, key: string, s: Streak) {
    && (if s.count == 0 then FailureKey(prefix, key) !in redis
        else FailureKey(prefix, key) in redis && redis[FailureKey(prefix, key)] == Entry(s.count, Some(s.countExpires)))
    && (if BackoffKey(prefix, key) in redis then redis[BackoffKey(prefix, key)].expires == Some(s.closedUntil)
        else s.closedUntil <= 0)
  }

  /** A key's streak and delay are stored alike. */
  predicate SameFor(prefix: string, key: string, a: Redis, b: Redis) {
    SameEntry(FailureKey(prefix, key), a, b) && SameEntry(BackoffKey(prefix, key), a, b)
  }

  predicate SameEntry(k: string, a: Redis, b: Redis) {
    (k in a <==> k in b) && (k in a ==> a[k] == b[k])
  }

  /** RegisterFailure on the streak. */
  function Fail(cfg: Config, saturates: bool, s: Streak, at: Time): Streak {
    var n := if at < s.countExpires then s.count + 1 else 1;
    Streak(n, at + cfg.failureWindow, if n < cfg.backoffAfter then s.closedUntil else at + Wait(cfg, saturates, n))
  }

  /** What a login meets: Malformed is an identifier that does not normalise, BadHash
      a stored hash that cannot be parsed. */
  datatype Account = Malformed | NoSuchUser | BadHash | WrongPassword | NotActive | GoodLogin

  datatype LoginAnswer = TooManyAttempts | InvalidCredentials | StatusRefused | InternalError | LoggedIn

  /** The password is verified in vain: the account is unknown or the password wrong. */
  predicate Fails(account: Account) {
    account.NoSuchUser? || account.WrongPassword?
  }

  /** A failing login: when it arrives, and how long verifying takes. */
  datatype Try = Try(at: Time, took: nat)

  /** What it does to the streak: nothing while the key is closed. */
  function AfterTry(cfg: Config, saturates: bool, s: Streak, t: Try): Streak {
    if t.at < s.closedUntil then s else Fail(cfg, saturates, s, t.at + t.took)
  }

  class RedisLimiter {
    var redis: Redis
    var now: Time
    const cfg: Config
    const saturates: bool

    constructor (cfg: Config, saturates: bool)
      ensures redis == map[] && this.cfg == cfg && this.saturates == saturates
    {
      redis, now := map[], 0;
      this.cfg, this.saturates := cfg, saturates;
    }

    /** INCR: an absent or expired key starts again at one, without an expiry. */
    method Incr(key: string) returns (n: Count)
      modifies this`redis
      ensures n == CountAt(old(redis), key, now) + 1
      ensures redis == old(redis)[key := Entry(n, if LiveEntry(old(redis), key, now) then old(redis)[key].expires else None)]
    {
      if LiveEntry(redis, key, now) {
        n := redis[key].value + 1;
        redis := redis[key := Entry(n, redis[key].expires)];
      } else {
        n := 1;
        redis := redis[key := Entry(1, None)];
      }
    }

    /** EXPIRE: a time to live that is not positive deletes the key. */
    method Expire(key: string, ttl: int)
      requires key in redis
      modifies this`redis
      ensures redis == if ttl > 0 then old(redis)[key := Entry(old(redis)[key].value, Some(now + ttl))]
                       else old(redis) - {key}
    {
      if ttl > 0 {
        redis := redis[key := redis[key].(expires := Some(now + ttl))];
      } else {
        redis := redis - {key};
      }
    }

    /** Allow: the counter under the key moves as the fixed window does, and nothing
        else in the store changes. A key left without an expiry only counts up. */
    method Allow(key: string, rule: Rule) returns (r: Verdict)
      modifies this`redis
      ensures rule.limit <= 0 || rule.window <= 0 ==> r.allowed && redis == old(redis)
      ensures rule.limit > 0 && rule.window > 0 && Orphaned(old(redis), RateKey(cfg.prefix, key)) ==>
                var k := RateKey(cfg.prefix, key);
                var n := old(redis)[k].value + 1;
                && r.allowed == (n <= rule.limit)
                && (!r.allowed ==> r.retryAfter == rule.window)
                && redis == old(redis)[k := Entry(n, None)]
      ensures rule.limit > 0 && rule.window > 0 && !Orphaned(old(redis), RateKey(cfg.prefix, key)) ==>
                var k := RateKey(cfg.prefix, key);
                var w := FixedWindow.Hit(WindowAt(old(redis), k, now), now, rule.window);
                && r.allowed == (w.count <= rule.limit)
                && (r.allowed ==> r.remaining == rule.limit - w.count)
                && (!r.allowed ==> r.retryAfter == w.expires - now)
                && redis == old(redis)[k := Entry(w.count, Some(w.expires))]
      ensures rule.limit > 0 && rule.window > 0 ==>
                forall w :: Tracks(old(redis), RateKey(cfg.prefix, key), w) ==>
                  var hit := FixedWindow.Hit(w, now, rule.window);
                  Tracks(redis, RateKey(cfg.prefix, key), hit) && r.allowed == (hit.count <= rule.limit)
    {
      if !rule.Enabled() {
        return Verdict(true, 0, 0);
      }
      var k := RateKey(cfg.prefix, key);
      var count := Incr(k);
      if count == 1 {
        Expire(k, rule.window);
      }
      if count > rule.limit {
        var ttl := Remaining(redis, k, now);
        return Verdict(false, 0, if Orphaned(redis, k) then rule.window else ttl);
      }
      return Verdict(true, rule.limit - count, 0);
    }

    /** Backoff: if nothing else happens to the key, it opens exactly when the wait is
        over, neither before nor after. */
    method BackoffLeft(key: string) returns (wait: nat)
      ensures var k := BackoffKey(cfg.prefix, key);
              && (wait > 0 <==> k in redis && redis[k].expires.Some? && now < redis[k].expires.value)
              && (wait > 0 ==> now + wait == redis[k].expires.value)
      ensures forall t :: t >= now ==>
                (Remaining(redis, BackoffKey(cfg.prefix, key), t) == 0 <==> t >= now + wait)
    {
      wait := Remaining(redis, BackoffKey(cfg.prefix, key), now);
    }

    /** RegisterFailure: one more failure on the streak, whose life is extended; from
        the configured failure on, the key is closed for the delay. A SET without a
        positive delay writes a key that never expires and closes nothing. */
    method RegisterFailure(key: string) returns (delay: int)
      modifies this`redis
      ensures var n := CountAt(old(redis), FailureKey(cfg.prefix, key), now) + 1;
              && delay == Wait(cfg, saturates, n)
              && CountAt(redis, FailureKey(cfg.prefix, key), now) == (if cfg.failureWindow > 0 then n else 0)
              && Remaining(redis, FailureKey(cfg.prefix, key), now) == Max(0, cfg.failureWindow)
              && Remaining(redis, BackoffKey(cfg.prefix, key), now)
                 == if n < cfg.backoffAfter then Remaining(old(redis), BackoffKey(cfg.prefix, key), now)
                    else Max(0, delay)
      ensures forall s :: Records(old(redis), cfg.prefix, key, s) && cfg.failureWindow > 0 && cfg.backoffMax > 0 ==>
                Records(redis, cfg.prefix, key, Fail(cfg, saturates, s, now))
      ensures forall k :: k != FailureKey(cfg.prefix, key) && k != BackoffKey(cfg.prefix, key) ==>
                (k in redis <==> k in old(redis)) && (k in redis ==> redis[k] == old(redis)[k])
    {
      KeysAreDistinct(cfg.prefix, key, key);
      var countKey := FailureKey(cfg.prefix, key);
      var n := Incr(countKey);
      Expire(countKey, cfg.failureWindow);
      if n < cfg.backoffAfter {
        return 0;
      }
      var steps := n - cfg.backoffAfter;
      delay := Backoff.Wrap64(Backoff.Pow2AsInt64(steps, saturates) * cfg.backoffBase);
      if delay > cfg.backoffMax || delay <= 0 {
        delay := cfg.backoffMax;
      }
      redis := redis[BackoffKey(cfg.prefix, key) := Entry(1, if delay > 0 then Some(now + delay) else None)];
    }

    /** Reset: the key starts over as if it had never failed; every other key's streak,
        delay and request counter are as before. */
    method Reset(key: string)
      modifies this`redis
      ensures Records(redis, cfg.prefix, key, CLEAN)
      ensures forall t :: CountAt(redis, FailureKey(cfg.prefix, key), t) == 0
                          && Remaining(redis, BackoffKey(cfg.prefix, key), t) == 0
      ensures forall other :: other != key ==> SameFor(cfg.prefix, other, old(redis), redis)
      ensures forall k, t :: CountAt(redis, RateKey(cfg.prefix, k), t) == CountAt(old(redis), RateKey(cfg.prefix, k), t)
    {
      forall k
        ensures RateKey(cfg.prefix, k) != FailureKey(cfg.prefix, key) && RateKey(cfg.prefix, k) != BackoffKey(cfg.prefix, key)
      {
        KeysAreDistinct(cfg.prefix, k, key);
      }
      forall other | other != key
        ensures SameFor(cfg.prefix, other, redis, redis - {FailureKey(cfg.prefix, key), BackoffKey(cfg.prefix, key)})
      {
        KeysAreDistinct(cfg.prefix, other, key);
        KeysAreDistinct(cfg.prefix, key, other);
      }
      redis := redis - {FailureKey(cfg.prefix, key), BackoffKey(cfg.prefix, key)};
    }

    /** passwordGrant: a malformed identifier leaves no trace; a closed account
        answers without looking at the password; a failure counts whether or not the
        account exists; a correct password on an account that may not sign in, or a
        stored hash that cannot be read, neither counts nor resets; a login resets. */
    method PasswordGrant(identifier: string, account: Account, took: nat) returns (answer: LoginAnswer)
      modifies this`redis, this`now
      ensures now == old(now) + if answer.TooManyAttempts? then 0 else took
      ensures var key := "login:" + identifier;
              var k := BackoffKey(cfg.prefix, key);
              var closed := k in old(redis) && old(redis)[k].expires.Some? && old(now) < old(redis)[k].expires.value;
              && (account.Malformed? ==> answer == InvalidCredentials && redis == old(redis))
              && (!account.Malformed? && closed ==> answer == TooManyAttempts && redis == old(redis))
              && (!closed && (account.NoSuchUser? || account.WrongPassword?) ==>
                    var n := CountAt(old(redis), FailureKey(cfg.prefix, key), now) + 1;
                    && answer == InvalidCredentials
                    && CountAt(redis, FailureKey(cfg.prefix, key), now) == (if cfg.failureWindow > 0 then n else 0)
                    && (n >= cfg.backoffAfter ==>
                          Remaining(redis, BackoffKey(cfg.prefix, key), now) == Max(0, Wait(cfg, saturates, n))))
              && (!closed && account.BadHash? ==> answer == InternalError && redis == old(redis))
              && (!closed && account.NotActive? ==> answer == StatusRefused && redis == old(redis))
              && (!closed && account.GoodLogin? ==>
                    answer == LoggedIn && Records(redis, cfg.prefix, key, CLEAN))
      ensures forall s ::
                (Records(old(redis), cfg.prefix, "login:" + identifier, s)
                 && (account.NoSuchUser? || account.WrongPassword?) && old(now) >= 0
                 && cfg.failureWindow > 0 && cfg.backoffMax > 0)
                ==>
                  && Records(redis, cfg.prefix, "login:" + identifier, AfterTry(cfg, saturates, s, Try(old(now), took)))
                  && (answer == TooManyAttempts <==> old(now) < s.closedUntil)
    {
      var key := "login:" + identifier;
      if account.Malformed? {
        now := now + took;
        return InvalidCredentials;
      }
      var wait := BackoffLeft(key);
      if wait > 0 {
        return TooManyAttempts;
      }
      now := now + took;
      if account.BadHash? {
        return InternalError;
      }
      if Fails(account) {
        var _ := RegisterFailure(key);
        return InvalidCredentials;
      }
      if account.NotActive? {
        return StatusRefused;
      }
      Reset(key);
      return LoggedIn;
    }
  }

  /** A failed verification: let through at one time, recorded at a later one. */
  datatype Attempt = Attempt(checkedAt: Time, failedAt: Time)

  function StreakAfter(cfg: Config, saturates: bool, tries: seq<Attempt>, n: nat): Streak
    requires n <= |tries|
  {
    if n == 0 then Streak(0, 0, 0) else Fail(cfg, saturates, StreakAfter(cfg, saturates, tries, n - 1), tries[n - 1].failedAt)
  }

  /** Serial attempts on one identifier without a success: each is let through by the
      backoff check after the previous one was recorded, and the pauses are shorter
      than the failure window. */
  ghost predicate SerialFailures(cfg: Config, saturates: bool, tries: seq<Attempt>) {
    && (forall i :: 0 <= i < |tries| ==> 0 <= tries[i].checkedAt <= tries[i].failedAt)
    && (forall i :: 0 <= i < |tries| ==> StreakAfter(cfg, saturates, tries, i).closedUntil <= tries[i].checkedAt)
    && (forall i :: 0 < i < |tries| ==>
          tries[i - 1].failedAt <= tries[i].checkedAt && tries[i].failedAt < tries[i - 1].failedAt + cfg.failureWindow)
  }

  /** The waits imposed by failures 1 to n-1 together. */
  function TotalWait(cfg: Config, saturates: bool, n: nat): int {
    if n <= 1 then 0 else TotalWait(cfg, saturates, n - 1) + Wait(cfg, saturates, n - 1)
  }

  lemma {:induction false} StreakCounts(cfg: Config, saturates: bool, tries: seq<Attempt>, n: nat)
    requires SerialFailures(cfg, saturates, tries) && 1 <= n <= |tries| && cfg.failureWindow > 0
    ensures var s := StreakAfter(cfg, saturates, tries, n);
            && s.count == n && s.countExpires == tries[n - 1].failedAt + cfg.failureWindow
            && (n >= cfg.backoffAfter ==> s.closedUntil == tries[n - 1].failedAt + Wait(cfg, saturates, n))
  {
    if n > 1 {
      StreakCounts(cfg, saturates, tries, n - 1);
      assert tries[n - 1].failedAt < tries[n - 2].failedAt + cfg.failureWindow;
    }
  }

  /** The n-th failed verification starts no sooner after the first was recorded
      than all the waits in between. */
  lemma {:induction false} GuessingIsSlow(cfg: Config, saturates: bool, tries: seq<Attempt>, n: nat)
    requires SerialFailures(cfg, saturates, tries) && 2 <= n <= |tries| && cfg.failureWindow > 0
    ensures tries[n - 1].checkedAt >= tries[0].failedAt + TotalWait(cfg, saturates, n)
  {
    StreakCounts(cfg, saturates, tries, n - 1);
    assert tries[n - 2].failedAt <= tries[n - 1].checkedAt;
    assert StreakAfter(cfg, saturates, tries, n - 1).closedUntil <= tries[n - 1].checkedAt;
    if n > 2 {
      GuessingIsSlow(cfg, saturates, tries, n - 1);
      assert tries[n - 2].checkedAt <= tries[n - 2].failedAt;
    }
  }

  // ----- a run of failing logins -----

  /** The streak after the first n of a sequence of failing logins, as PasswordGrant
      records it one after the other. */
  function AfterTries(cfg: Config, saturates: bool, tries: seq<Try>, n: nat): Streak
    requires n <= |tries|
  {
    if n == 0 then CLEAN else AfterTry(cfg, saturates, AfterTries(cfg, saturates, tries, n - 1), tries[n - 1])
  }

  /** Those of them that were let through to the password. */
  function LetThrough(cfg: Config, saturates: bool, tries: seq<Try>, n: nat): seq<Attempt>
    requires n <= |tries|
  {
    if n == 0 then []
    else
      var before := LetThrough(cfg, saturates, tries, n - 1);
      var t := tries[n - 1];
      if t.at < AfterTries(cfg, saturates, tries, n - 1).closedUntil then before
      else before + [Attempt(t.at, t.at + t.took)]
  }

  /** One login at a time, each begun after the one before has been answered. */
  ghost predicate OneAtATime(tries: seq<Try>) {
    && (forall i :: 0 <= i < |tries| ==> 0 <= tries[i].at)
    && (forall i, j :: 0 <= i < j < |tries| ==> tries[i].at + tries[i].took <= tries[j].at)
  }

  /** The pauses between attempts on the password stay below the failure window. */
  predicate NoLongPause(cfg: Config, done: seq<Attempt>) {
    forall i :: 0 < i < |done| ==> done[i].failedAt < done[i - 1].failedAt + cfg.failureWindow
  }

  lemma {:induction false} StreakPrefix(cfg: Config, saturates: bool, done: seq<Attempt>, more: seq<Attempt>, n: nat)
    requires n <= |done|
    ensures StreakAfter(cfg, saturates, done + more, n) == StreakAfter(cfg, saturates, done, n)
  {
    if n > 0 {
      StreakPrefix(cfg, saturates, done, more, n - 1);
    }
  }

  /** The logins that were refused leave no trace in the streak. */
  lemma {:induction false} RefusalsLeaveNoTrace(cfg: Config, saturates: bool, tries: seq<Try>, n: nat)
    requires n <= |tries|
    ensures var done := LetThrough(cfg, saturates, tries, n);
            AfterTries(cfg, saturates, tries, n) == StreakAfter(cfg, saturates, done, |done|)
  {
    if n > 0 {
      RefusalsLeaveNoTrace(cfg, saturates, tries, n - 1);
      var before, t := LetThrough(cfg, saturates, tries, n - 1), tries[n - 1];
      StreakPrefix(cfg, saturates, before, [Attempt(t.at, t.at + t.took)], |before|);
    }
  }

  /** In order, and over by the time given. */
  ghost predicate InOrderUntil(done: seq<Attempt>, t: Time) {
    && (forall i :: 0 <= i < |done| ==> 0 <= done[i].checkedAt <= done[i].failedAt <= t)
    && (forall i :: 0 < i < |done| ==> done[i - 1].failedAt <= done[i].checkedAt)
  }

  function AnsweredBy(tries: seq<Try>, n: nat): Time
    requires n <= |tries|
  {
    if n == 0 then 0 else tries[n - 1].at + tries[n - 1].took
  }

  lemma {:induction false} LetThroughInOrder(cfg: Config, saturates: bool, tries: seq<Try>, n: nat)
    requires n <= |tries| && OneAtATime(tries)
    ensures InOrderUntil(LetThrough(cfg, saturates, tries, n), AnsweredBy(tries, n))
  {
    if n > 0 {
      LetThroughInOrder(cfg, saturates, tries, n - 1);
      var before, t := LetThrough(cfg, saturates, tries, n - 1), tries[n - 1];
      assert AnsweredBy(tries, n - 1) <= t.at;
      assert InOrderUntil(before + [Attempt(t.at, t.at + t.took)], t.at + t.took);
    }
  }

  lemma {:induction false} LetThroughWhenOpen(cfg: Config, saturates: bool, tries: seq<Try>, n: nat, i: nat)
    requires n <= |tries| && i < |LetThrough(cfg, saturates, tries, n)|
    ensures var done := LetThrough(cfg, saturates, tries, n);
            StreakAfter(cfg, saturates, done, i).closedUntil <= done[i].checkedAt
  {
    var done, before, t := LetThrough(cfg, saturates, tries, n), LetThrough(cfg, saturates, tries, n - 1), tries[n - 1];
    RefusalsLeaveNoTrace(cfg, saturates, tries, n - 1);
    if |done| > |before| {
      StreakPrefix(cfg, saturates, before, [Attempt(t.at, t.at + t.took)], if i < |before| then i else |before|);
    }
    if i < |before| {
      LetThroughWhenOpen(cfg, saturates, tries, n - 1, i);
    }
  }

  lemma FailingLoginsAreSerial(cfg: Config, saturates: bool, tries: seq<Try>, done: seq<Attempt>)
    requires OneAtATime(tries) && done == LetThrough(cfg, saturates, tries, |tries|) && NoLongPause(cfg, done)
    ensures SerialFailures(cfg, saturates, done)
  {
    LetThroughInOrder(cfg, saturates, tries, |tries|);
    forall i | 0 <= i < |done|
      ensures StreakAfter(cfg, saturates, done, i).closedUntil <= done[i].checkedAt
    {
      LetThroughWhenOpen(cfg, saturates, tries, |tries|, i);
    }
  }

  /** So any sequence of failing logins on one identifier, refused ones included, is a
      serial streak, and the bound holds for it: the n-th attempt on the password
      starts no sooner after the first than all the waits in between. */
  lemma FailingLoginsAreSlow(cfg: Config, saturates: bool, tries: seq<Try>, done: seq<Attempt>, n: nat)
    requires OneAtATime(tries) && done == LetThrough(cfg, saturates, tries, |tries|) && NoLongPause(cfg, done)
    requires cfg.failureWindow > 0 && 2 <= n <= |done|
    ensures done[n - 1].checkedAt >= done[0].failedAt + TotalWait(cfg, saturates, n)
  {
    FailingLoginsAreSerial(cfg, saturates, tries, done);
    GuessingIsSlow(cfg, saturates, done, n);
  }

  // ----- the waits as a sum -----

  /** Sum of min(2^k base, max) for k from lo below hi. */
  function IdealSum(base: int, max: int, lo: nat, hi: nat): int
    decreases hi
  {
    if hi <= lo then 0 else IdealSum(base, max, lo, hi - 1) + Backoff.Ideal(base, max, hi - 1)
  }

  /** Every setting whose delays are the unbounded ones: the waits up to the n-th
      failure are the sum over the failures from BackoffAfter to n-1, or from the first
      if BackoffAfter is not positive. */
  lemma {:induction false} TotalWaitIsIdealSum(cfg: Config, saturates: bool, n: nat)
    requires 0 < cfg.backoffBase < Backoff.TWO63 && cfg.backoffMax < Backoff.TWO63
    requires forall k: nat :: Backoff.Harmless(cfg.backoffBase, cfg.backoffMax, k, saturates)
    ensures TotalWait(cfg, saturates, n)
            == IdealSum(cfg.backoffBase, cfg.backoffMax, Max(0, 1 - cfg.backoffAfter), Max(0, n - cfg.backoffAfter))
  {
    if n >= 2 {
      TotalWaitIsIdealSum(cfg, saturates, n - 1);
      if n - 1 >= cfg.backoffAfter {
        Backoff.DelayIsIdealIff(cfg.backoffBase, cfg.backoffMax, n - 1 - cfg.backoffAfter, saturates);
      }
    }
  }

  const DEFAULTS := Config("goauth:", 3, Backoff.SECOND, 60 * Backoff.SECOND, 900 * Backoff.SECOND)

  /** With the shipped configuration the waits are the unbounded doubling ones, from
      the third failure on. */
  lemma DefaultWaits(saturates: bool, n: nat)
    ensures DEFAULTS == Config("goauth:", 3, 1_000_000_000, 60_000_000_000, 900_000_000_000)
    ensures TotalWait(DEFAULTS, saturates, n) == IdealSum(1_000_000_000, 60_000_000_000, 0, Max(0, n - 3))
  {
    forall k: nat
      ensures Backoff.Harmless(DEFAULTS.backoffBase, DEFAULTS.backoffMax, k, saturates)
    {
      Backoff.LimiterDefaults(k, saturates);
      Backoff.DelayIsIdealIff(DEFAULTS.backoffBase, DEFAULTS.backoffMax, k, saturates);
    }
    TotalWaitIsIdealSum(DEFAULTS, saturates, n);
  }

  /** From the tenth failure on every further guess costs a minute. */
  lemma AGuessAMinute(saturates: bool, tries: seq<Attempt>, n: nat)
    requires SerialFailures(DEFAULTS, saturates, tries) && 9 <= n <= |tries|
    ensures tries[n - 1].checkedAt >= tries[0].failedAt + (n - 9) * 60_000_000_000
  {
    GuessingIsSlow(DEFAULTS, saturates, tries, n);
    DefaultWaits(saturates, n);
    SumGrowsByMinutes(n - 3);
  }

  lemma {:induction false} SumGrowsByMinutes(n: nat)
    requires n >= 6
    ensures IdealSum(Backoff.SECOND, 60 * Backoff.SECOND, 0, n) >= (n - 6) * 60 * Backoff.SECOND
  {
    if n == 6 {
      SumIsNonNegative(6);
    } else {
      SumGrowsByMinutes(n - 1);
      Backoff.Pow2Grows(6, n - 1);
      assert Backoff.Pow2(6) == 64;
    }
  }

  lemma {:induction false} SumIsNonNegative(n: nat)
    ensures IdealSum(Backoff.SECOND, 60 * Backoff.SECOND, 0, n) >= 0
  {
    if n > 0 {
      SumIsNonNegative(n - 1);
      Backoff.Pow2Grows(0, n - 1);
    }
  }
}
