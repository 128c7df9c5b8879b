/** The consumer-side verifier's key cache: how stale it may be, what it remembers
    of unknown key ids, and how often it may ask for more. */
module AuthClient {
  import opened Common
  import FixedWindow

  type Time = int
  type Kid = string
  type Key = nat
  type KeySet = map<Kid, Key>

  const MINUTE: int := 60_000_000_000

  datatype Config = Config(refreshInterval: int, maxRefreshPerMinute: int, maxUnknownKids: int)

  /** fetchedAt and windowStart are None while they hold the zero time. */
  datatype Cache = Cache(keys: KeySet, fetchedAt: Option<Time>, unknown: set<Kid>, windowStart: Option<Time>, windowRefresh: int)

  const EMPTY := Cache(map[], None, {}, None, 0)

  predicate NeedsFetch(cfg: Config, c: Cache, now: Time) {
    c.keys == map[] || c.fetchedAt.None? || now - c.fetchedAt.value >= cfg.refreshInterval
  }

  /** refresh: the memo of unknown kids is forgotten with the old keys. */
  function Refreshed(c: Cache, keys: KeySet, now: Time): Cache {
    c.(keys := keys, fetchedAt := Some(now), unknown := {})
  }

  /** mayRefreshFor, past the memo: the per-minute budget. */
  function AskBudget(cfg: Config, c: Cache, now: Time): (Cache, bool) {
    var c1 := if c.windowStart.None? || now - c.windowStart.value >= MINUTE
              then c.(windowStart := Some(now), windowRefresh := 0) else c;
    if c1.windowRefresh >= cfg.maxRefreshPerMinute then (c1, false)
    else (c1.(windowRefresh := c1.windowRefresh + 1), true)
  }

  function Remember(cfg: Config, c: Cache, kid: Kid): Cache {
    c.(unknown := (if |c.unknown| >= cfg.maxUnknownKids then {} else c.unknown) + {kid})
  }

  datatype Decision =
    | CheckSignature(key: Key)
    | UnknownKey
    | FetchFailed
    | BadToken

  /** The two fetches a call may make, each answered or failed. */
  datatype Server = Server(first: Option<KeySet>, second: Option<KeySet>)

  function AfterStaleFetch(cfg: Config, c: Cache, now: Time, server: Server): Cache {
    if NeedsFetch(cfg, c, now) && server.first.Some? then Refreshed(c, server.first.value, now) else c
  }

  /** Verify up to the signature check. */
  function Verify(cfg: Config, c: Cache, now: Time, kid: Kid, server: Server): (Cache, Decision) {
    var c1 := AfterStaleFetch(cfg, c, now, server);
    if NeedsFetch(cfg, c, now) && server.first.None? && c1.keys == map[] then (c1, FetchFailed)
    else if kid in c1.keys then (c1, CheckSignature(c1.keys[kid]))
    else if kid in c1.unknown then (c1, UnknownKey)
    else
      var (c2, granted) := AskBudget(cfg, c1, now);
      if !granted then (c2, UnknownKey)
      else if server.second.None? then (c2, FetchFailed)
      else
        var c3 := Refreshed(c2, server.second.value, now);
        if kid in c3.keys then (c3, CheckSignature(c3.keys[kid])) else (Remember(cfg, c3, kid), UnknownKey)
  }

  ghost predicate Inv(cfg: Config, c: Cache) {
    && c.unknown !! c.keys.Keys
    && |c.unknown| <= Max(1, cfg.maxUnknownKids)
  }

  // ----- what each call decides, whatever the server does -----

  /** No keys, or keys of a whole refresh interval ago. */
  predicate Stale(cfg: Config, c: Cache, now: Time) {
    c.keys == map[] || c.fetchedAt == None || now - c.fetchedAt.value >= cfg.refreshInterval
  }

  /** A fetch allowed in this minute: a new minute, or some of the budget left. */
  predicate BudgetLeft(cfg: Config, c: Cache, now: Time) {
    if c.windowStart == None || now - c.windowStart.value >= 60_000_000_000 then cfg.maxRefreshPerMinute > 0
    else c.windowRefresh < cfg.maxRefreshPerMinute
  }

  /** The cached keys once a stale cache has been refreshed, if that worked. */
  function Looked(cfg: Config, c: Cache, now: Time, server: Server): KeySet {
    if Stale(cfg, c, now) && server.first.Some? then server.first.value else c.keys
  }

  /** Nothing to go by: the first fetch failed and no key is cached. */
  predicate Shut(c: Cache, server: Server) {
    c.keys == map[] && server.first.None?
  }

  /** The kid is worth asking about: not cached, and not known to be unknown from a
      fetch that is still the last. */
  predicate Wondering(cfg: Config, c: Cache, now: Time, kid: Kid, server: Server) {
    && !Shut(c, server) && kid !in Looked(cfg, c, now, server)
    && (kid in c.unknown ==> Stale(cfg, c, now) && server.first.Some?)
  }

  predicate AsksAgain(cfg: Config, c: Cache, now: Time, kid: Kid, server: Server) {
    Wondering(cfg, c, now, kid, server) && BudgetLeft(cfg, c, now)
  }

  /** Each decision of a call, exactly, for every cache and every behaviour of the
      server. */
  lemma VerifyDecides(cfg: Config, c: Cache, now: Time, kid: Kid, server: Server)
    ensures var d := Verify(cfg, c, now, kid, server).1;
            var keys, asks := Looked(cfg, c, now, server), AsksAgain(cfg, c, now, kid, server);
            && (forall key :: d == CheckSignature(key) <==>
                  || (!Shut(c, server) && kid in keys && key == keys[kid])
                  || (asks && server.second.Some? && kid in server.second.value && key == server.second.value[kid]))
            && (d == FetchFailed <==> Shut(c, server) || (asks && server.second.None?))
            && (d == UnknownKey <==>
                  && !Shut(c, server) && kid !in keys
                  && (asks ==> server.second.Some? && kid !in server.second.value))
            && !d.BadToken?
  {
  }

  /** What a call brings in last, if anything. */
  function Brought(cfg: Config, c: Cache, now: Time, kid: Kid, server: Server): Option<KeySet> {
    if AsksAgain(cfg, c, now, kid, server) && server.second.Some? then server.second
    else if Stale(cfg, c, now) then server.first
    else None
  }

  /** And what it leaves: the keys it brought, at its time. */
  lemma VerifyLeavesKeys(cfg: Config, c: Cache, now: Time, kid: Kid, server: Server)
    ensures var c' := Verify(cfg, c, now, kid, server).0;
            match Brought(cfg, c, now, kid, server)
            case None => c'.keys == c.keys && c'.fetchedAt == c.fetchedAt
            case Some(keys) => c'.keys == keys && c'.fetchedAt == Some(now)
  {
  }

  lemma RememberFirst(cfg: Config, c: Cache, kid: Kid)
    requires c.unknown == {}
    ensures Remember(cfg, c, kid) == c.(unknown := {kid})
  {
    assert {} + {kid} == {kid};
  }

  /** With anything it brings the old memo is forgotten, and at most its own kid is in
      the new one. */
  lemma VerifyLeavesMemo(cfg: Config, c: Cache, now: Time, kid: Kid, server: Server)
    ensures var c' := Verify(cfg, c, now, kid, server).0;
            match Brought(cfg, c, now, kid, server)
            case None => c'.unknown == c.unknown
            case Some(keys) =>
              c'.unknown == if AsksAgain(cfg, c, now, kid, server) && server.second.Some? && kid !in keys then {kid} else {}
  {
    if server.second.Some? {
      RememberFirst(cfg, Refreshed(AskBudget(cfg, AfterStaleFetch(cfg, c, now, server), now).0, server.second.value, now), kid);
    }
  }

  predicate SameBudget(a: Cache, b: Cache) {
    a.windowStart == b.windowStart && a.windowRefresh == b.windowRefresh
  }

  lemma VerifyPastTheCache(cfg: Config, c: Cache, now: Time, kid: Kid, server: Server)
    requires Wondering(cfg, c, now, kid, server)
    ensures var c1 := AfterStaleFetch(cfg, c, now, server);
            SameBudget(c1, c) && SameBudget(Verify(cfg, c, now, kid, server).0, AskBudget(cfg, c1, now).0)
  {
    if server.second.Some? {
      RememberFirst(cfg, Refreshed(AskBudget(cfg, AfterStaleFetch(cfg, c, now, server), now).0, server.second.value, now), kid);
    }
  }

  lemma VerifyAtTheCache(cfg: Config, c: Cache, now: Time, kid: Kid, server: Server)
    requires !Wondering(cfg, c, now, kid, server)
    ensures SameBudget(Verify(cfg, c, now, kid, server).0, c)
  {
  }

  lemma AskKeepsSameBudget(cfg: Config, a: Cache, b: Cache, now: Time)
    requires SameBudget(a, b)
    ensures SameBudget(AskBudget(cfg, a, now).0, AskBudget(cfg, b, now).0)
    ensures AskBudget(cfg, a, now).1 == AskBudget(cfg, b, now).1
  {
  }

  /** What wondering does to the budget, and nothing else does. */
  lemma BudgetOfVerify(cfg: Config, c: Cache, now: Time, kid: Kid, server: Server)
    ensures SameBudget(Verify(cfg, c, now, kid, server).0,
                       if Wondering(cfg, c, now, kid, server) then AskBudget(cfg, c, now).0 else c)
  {
    if Wondering(cfg, c, now, kid, server) {
      VerifyPastTheCache(cfg, c, now, kid, server);
      AskKeepsSameBudget(cfg, AfterStaleFetch(cfg, c, now, server), c, now);
    } else {
      VerifyAtTheCache(cfg, c, now, kid, server);
    }
  }

  /** One more on the minute's budget exactly when it wondered and was let. */
  lemma VerifyLeavesBudget(cfg: Config, c: Cache, now: Time, kid: Kid, server: Server)
    ensures var c' := Verify(cfg, c, now, kid, server).0;
            var before := if c'.windowStart == c.windowStart then c.windowRefresh else 0;
            c'.windowRefresh == if AsksAgain(cfg, c, now, kid, server) then before + 1 else before
  {
    BudgetOfVerify(cfg, c, now, kid, server);
  }

  /** Whatever the server does: memoised kids are never among the cached keys, the
      memo stays within its bound, a token is checked only against a cached key of
      its kid, and refused as unknown only when the cache has none. */
  lemma VerifyKeepsInv(cfg: Config, c: Cache, now: Time, kid: Kid, server: Server)
    requires Inv(cfg, c)
    ensures var (c', d) := Verify(cfg, c, now, kid, server);
            && Inv(cfg, c')
            && (d.CheckSignature? ==> kid in c'.keys && d.key == c'.keys[kid])
            && (d.UnknownKey? ==> kid !in c'.keys)
            && (d.FetchFailed? ==> server.first.None? || server.second.None?)
  {
    VerifyDecides(cfg, c, now, kid, server);
    VerifyLeavesKeys(cfg, c, now, kid, server);
    VerifyLeavesMemo(cfg, c, now, kid, server);
  }

  /** A server that is down takes nobody's keys away: a cached kid is decided as before
      however old the cache is, and the cache is left as it was. */
  lemma StaleKeysServeOn(cfg: Config, c: Cache, now: Time, kid: Kid, server: Server)
    requires kid in c.keys && server.first.None?
    ensures Verify(cfg, c, now, kid, server) == (c, CheckSignature(c.keys[kid]))
  {
  }

  /** When fetches succeed, the decision is membership in a key set no older than
      the refresh interval, also when it comes from the memo or a spent budget. */
  lemma DecisionIsFreshMembership(cfg: Config, c: Cache, now: Time, kid: Kid, first: KeySet, second: KeySet)
    requires Inv(cfg, c) && cfg.refreshInterval > 0
    ensures var (c', d) := Verify(cfg, c, now, kid, Server(Some(first), Some(second)));
            && c'.fetchedAt.Some? && now - c'.fetchedAt.value < cfg.refreshInterval
            && d == if kid in c'.keys then CheckSignature(c'.keys[kid]) else UnknownKey
  {
  }

  // ----- whole runs -----

  /** A call, and what the server does during it. */
  datatype Call = Call(now: Time, kid: Kid, server: Server)

  function CacheAfter(cfg: Config, calls: seq<Call>, n: nat): Cache
    requires n <= |calls|
  {
    if n == 0 then EMPTY
    else Verify(cfg, CacheAfter(cfg, calls, n - 1), calls[n - 1].now, calls[n - 1].kid, calls[n - 1].server).0
  }

  function DecisionOf(cfg: Config, calls: seq<Call>, i: nat): Decision
    requires i < |calls|
  {
    Verify(cfg, CacheAfter(cfg, calls, i), calls[i].now, calls[i].kid, calls[i].server).1
  }

  /** What call i of a run brings in. */
  function BroughtBy(cfg: Config, calls: seq<Call>, i: nat): Option<KeySet>
    requires i < |calls|
  {
    Brought(cfg, CacheAfter(cfg, calls, i), calls[i].now, calls[i].kid, calls[i].server)
  }

  lemma {:induction false} InvHolds(cfg: Config, calls: seq<Call>, n: nat)
    requires n <= |calls|
    ensures Inv(cfg, CacheAfter(cfg, calls, n))
  {
    if n > 0 {
      InvHolds(cfg, calls, n - 1);
      VerifyKeepsInv(cfg, CacheAfter(cfg, calls, n - 1), calls[n - 1].now, calls[n - 1].kid, calls[n - 1].server);
    }
  }

  /** The last of the first n calls that brought something in, or -1. */
  function LastFetch(cfg: Config, calls: seq<Call>, n: nat): (j: int)
    requires n <= |calls|
    ensures -1 <= j < n
    ensures j >= 0 ==> BroughtBy(cfg, calls, j).Some?
    ensures forall k :: j < k < n ==> BroughtBy(cfg, calls, k).None?
  {
    if n == 0 then -1 else if BroughtBy(cfg, calls, n - 1).Some? then n - 1 else LastFetch(cfg, calls, n - 1)
  }

  /** Whatever failed on the way, the cache is what the last successful fetch brought,
      at its time; before the first one it is empty. */
  lemma {:induction false} CacheIsTheLastFetch(cfg: Config, calls: seq<Call>, n: nat)
    requires n <= |calls|
    ensures var c, j := CacheAfter(cfg, calls, n), LastFetch(cfg, calls, n);
            if j < 0 then c.keys == map[] && c.fetchedAt == None
            else Some(c.keys) == BroughtBy(cfg, calls, j) && c.fetchedAt == Some(calls[j].now)
  {
    if n > 0 {
      CacheIsTheLastFetch(cfg, calls, n - 1);
      VerifyLeavesKeys(cfg, CacheAfter(cfg, calls, n - 1), calls[n - 1].now, calls[n - 1].kid, calls[n - 1].server);
    }
  }

  function LookUp(keys: KeySet, kid: Kid): Decision {
    if kid in keys then CheckSignature(keys[kid]) else UnknownKey
  }

  lemma DecisionIsALookup(cfg: Config, c: Cache, now: Time, kid: Kid, server: Server)
    requires Inv(cfg, c) && cfg.refreshInterval > 0 && (c.fetchedAt.None? ==> c.keys == map[])
    ensures var (c', d) := Verify(cfg, c, now, kid, server);
            d != FetchFailed ==>
              && d == LookUp(c'.keys, kid) && c'.fetchedAt.Some?
              && (now - c'.fetchedAt.value < cfg.refreshInterval || server.first.None?)
  {
  }

  lemma CacheDecides(cfg: Config, calls: seq<Call>, i: nat)
    requires i < |calls| && cfg.refreshInterval > 0 && DecisionOf(cfg, calls, i) != FetchFailed
    ensures var c' := CacheAfter(cfg, calls, i + 1);
            && DecisionOf(cfg, calls, i) == LookUp(c'.keys, calls[i].kid) && c'.fetchedAt.Some?
            && (calls[i].now - c'.fetchedAt.value < cfg.refreshInterval || calls[i].server.first.None?)
  {
    InvHolds(cfg, calls, i);
    CacheIsTheLastFetch(cfg, calls, i);
    DecisionIsALookup(cfg, CacheAfter(cfg, calls, i), calls[i].now, calls[i].kid, calls[i].server);
  }

  /** Refinement, over any sequence of calls and failures: a call that does not report a
      failed fetch decides as a lookup in what the last successful fetch brought would;
      and that was less than a refresh interval ago, unless this call tried to renew it
      and failed. */
  lemma EveryDecisionIsALookup(cfg: Config, calls: seq<Call>, i: nat)
    requires i < |calls| && cfg.refreshInterval > 0 && DecisionOf(cfg, calls, i) != FetchFailed
    ensures var j := LastFetch(cfg, calls, i + 1);
            && j >= 0 && DecisionOf(cfg, calls, i) == LookUp(BroughtBy(cfg, calls, j).value, calls[i].kid)
            && (calls[i].now - calls[j].now < cfg.refreshInterval || calls[i].server.first.None?)
  {
    CacheDecides(cfg, calls, i);
    CacheIsTheLastFetch(cfg, calls, i + 1);
  }

  ghost predicate Up(calls: seq<Call>) {
    forall i :: 0 <= i < |calls| ==> calls[i].server.first.Some? && calls[i].server.second.Some?
  }

  /** With a server that answers, no call fails and each decides by a set fetched less
      than a refresh interval ago. */
  lemma CacheRefinesLookup(cfg: Config, calls: seq<Call>, i: nat)
    requires i < |calls| && cfg.refreshInterval > 0 && Up(calls)
    ensures var j := LastFetch(cfg, calls, i + 1);
            && j >= 0 && calls[i].now - calls[j].now < cfg.refreshInterval
            && DecisionOf(cfg, calls, i) == LookUp(BroughtBy(cfg, calls, j).value, calls[i].kid)
  {
    VerifyDecides(cfg, CacheAfter(cfg, calls, i), calls[i].now, calls[i].kid, calls[i].server);
    EveryDecisionIsALookup(cfg, calls, i);
  }

  // ----- the memo -----

  /** One call after the other, the memo never holds more than one kid, whatever its
      configured size: the fetch that proves a kid unknown forgets the others. */
  lemma {:induction false} MemoHoldsOneKid(cfg: Config, calls: seq<Call>, n: nat)
    requires n <= |calls|
    ensures |CacheAfter(cfg, calls, n).unknown| <= 1
  {
    if n > 0 {
      MemoHoldsOneKid(cfg, calls, n - 1);
      VerifyLeavesMemo(cfg, CacheAfter(cfg, calls, n - 1), calls[n - 1].now, calls[n - 1].kid, calls[n - 1].server);
    }
  }

  /** After a call about another kid, a forged one is remembered exactly when it was
      before and the call brought nothing in. */
  lemma MemoSurvivesIff(cfg: Config, c: Cache, forged: Kid, call: Call)
    requires forged != call.kid
    ensures forged in Verify(cfg, c, call.now, call.kid, call.server).0.unknown
            <==> forged in c.unknown && Brought(cfg, c, call.now, call.kid, call.server).None?
  {
    VerifyLeavesMemo(cfg, c, call.now, call.kid, call.server);
  }

  /** And while it is remembered, and the keys are not stale, it is refused for nothing. */
  lemma RememberedIsFree(cfg: Config, c: Cache, now: Time, kid: Kid, server: Server)
    requires Inv(cfg, c) && kid in c.unknown && !Stale(cfg, c, now)
    ensures Verify(cfg, c, now, kid, server) == (c, UnknownKey)
  {
  }

  /** A call about a forged kid that is not in the memo, under a server that is up and
      does not know it. */
  lemma ForgeryIsAsked(cfg: Config, c: Cache, now: Time, kid: Kid, keys: KeySet)
    requires cfg == Config(60 * MINUTE, 10, 256) && keys != map[] && kid !in keys
    requires c.keys == keys && c.fetchedAt.Some? && 0 <= now - c.fetchedAt.value < MINUTE && kid !in c.unknown
    requires c.windowStart == Some(0) && 0 <= now < MINUTE && c.windowRefresh < 10
    ensures Wondering(cfg, c, now, kid, Server(Some(keys), Some(keys)))
    ensures Verify(cfg, c, now, kid, Server(Some(keys), Some(keys))).0
            == Cache(keys, Some(now), {kid}, Some(0), c.windowRefresh + 1)
  {
    RememberFirst(cfg, Refreshed(AskBudget(cfg, c, now).0, keys, now), kid);
  }

  lemma FirstForgery(cfg: Config, kid: Kid, keys: KeySet)
    requires cfg == Config(60 * MINUTE, 10, 256) && kid !in keys
    ensures Wondering(cfg, EMPTY, 0, kid, Server(Some(keys), Some(keys)))
    ensures Verify(cfg, EMPTY, 0, kid, Server(Some(keys), Some(keys))).0 == Cache(keys, Some(0), {kid}, Some(0), 1)
  {
    var c := Refreshed(EMPTY, keys, 0);
    RememberFirst(cfg, Refreshed(AskBudget(cfg, c, 0).0, keys, 0), kid);
  }

  /** So two forged kids presented in turn ask every time; neither is ever free. */
  lemma ForgeriesTakeTurns(keys: KeySet, a: Kid, b: Kid)
    requires keys != map[] && a !in keys && b !in keys && a != b
    ensures var cfg := Config(60 * MINUTE, 10, 256);
            var up := Server(Some(keys), Some(keys));
            AskTimes(cfg, [Call(0, a, up), Call(1, b, up), Call(2, a, up)], 3) == [0, 1, 2]
  {
    var cfg := Config(60 * MINUTE, 10, 256);
    var up := Server(Some(keys), Some(keys));
    var calls := [Call(0, a, up), Call(1, b, up), Call(2, a, up)];
    FirstForgery(cfg, a, keys);
    assert CacheAfter(cfg, calls, 1) == Cache(keys, Some(0), {a}, Some(0), 1);
    ForgeryIsAsked(cfg, CacheAfter(cfg, calls, 1), 1, b, keys);
    assert CacheAfter(cfg, calls, 2) == Cache(keys, Some(1), {b}, Some(0), 2);
    ForgeryIsAsked(cfg, CacheAfter(cfg, calls, 2), 2, a, keys);
    assert AskTimes(cfg, calls, 1) == [0];
    assert AskTimes(cfg, calls, 2) == [0, 1];
  }

  // ----- the budget -----

  /** Whether a call gets as far as the budget. */
  predicate Asks(cfg: Config, c: Cache, call: Call) {
    Wondering(cfg, c, call.now, call.kid, call.server)
  }

  function AskTimes(cfg: Config, calls: seq<Call>, n: nat): seq<Time>
    requires n <= |calls|
  {
    if n == 0 then []
    else
      var before := AskTimes(cfg, calls, n - 1);
      if Asks(cfg, CacheAfter(cfg, calls, n - 1), calls[n - 1]) then before + [calls[n - 1].now] else before
  }

  /** The budget's two fields after a trace of asks. */
  function BudgetAfter(cfg: Config, asks: seq<Time>, n: nat): Cache
    requires n <= |asks|
  {
    if n == 0 then EMPTY else AskBudget(cfg, BudgetAfter(cfg, asks, n - 1), asks[n - 1]).0
  }

  predicate Grants(cfg: Config, asks: seq<Time>, k: nat)
    requires k < |asks|
  {
    AskBudget(cfg, BudgetAfter(cfg, asks, k), asks[k]).1
  }

  lemma {:induction false} BudgetPrefix(cfg: Config, asks: seq<Time>, more: seq<Time>, n: nat)
    requires n <= |asks|
    ensures BudgetAfter(cfg, asks + more, n) == BudgetAfter(cfg, asks, n)
  {
    if n > 0 {
      BudgetPrefix(cfg, asks, more, n - 1);
    }
  }

  lemma BudgetOfNext(cfg: Config, c: Cache, call: Call, asks: seq<Time>)
    requires SameBudget(c, BudgetAfter(cfg, asks, |asks|))
    ensures var asks' := if Asks(cfg, c, call) then asks + [call.now] else asks;
            SameBudget(Verify(cfg, c, call.now, call.kid, call.server).0, BudgetAfter(cfg, asks', |asks'|))
  {
    BudgetOfVerify(cfg, c, call.now, call.kid, call.server);
    if Asks(cfg, c, call) {
      AskKeepsSameBudget(cfg, c, BudgetAfter(cfg, asks, |asks|), call.now);
      BudgetPrefix(cfg, asks, [call.now], |asks|);
    }
  }

  /** The verifier's budget depends on the asks alone. */
  lemma {:induction false} BudgetFollowsAsks(cfg: Config, calls: seq<Call>, n: nat)
    requires n <= |calls|
    ensures SameBudget(CacheAfter(cfg, calls, n), BudgetAfter(cfg, AskTimes(cfg, calls, n), |AskTimes(cfg, calls, n)|))
  {
    if n > 0 {
      BudgetFollowsAsks(cfg, calls, n - 1);
      BudgetOfNext(cfg, CacheAfter(cfg, calls, n - 1), calls[n - 1], AskTimes(cfg, calls, n - 1));
    }
  }

  /** The budget is a fixed-window counter of one minute. */
  lemma {:induction false} BudgetIsFixedWindow(cfg: Config, asks: seq<Time>, n: nat)
    requires n <= |asks|
    ensures var b, w := BudgetAfter(cfg, asks, n), FixedWindow.After(asks, MINUTE, n);
            && (w.Idle? <==> b.windowStart.None?)
            && (w.Open? ==> b.windowStart == Some(w.expires - MINUTE) && w.count >= 1
                            && b.windowRefresh == Min(w.count, Max(0, cfg.maxRefreshPerMinute)))
  {
    if n > 0 {
      BudgetIsFixedWindow(cfg, asks, n - 1);
    }
  }

  lemma GrantIsAdmission(cfg: Config, asks: seq<Time>, k: nat)
    requires k < |asks|
    ensures Grants(cfg, asks, k) <==> FixedWindow.Admitted(asks, MINUTE, Max(0, cfg.maxRefreshPerMinute), k)
  {
    BudgetIsFixedWindow(cfg, asks, k);
    BudgetIsFixedWindow(cfg, asks, k + 1);
  }

  ghost function GrantsIn(cfg: Config, asks: seq<Time>, t: Time): set<nat> {
    set k: nat | k < |asks| && t <= asks[k] < t + MINUTE && Grants(cfg, asks, k)
  }

  /** A stream of forged kids causes fewer than twice the configured number of
      refreshes in any minute, however it is timed. */
  lemma ForgedKidsAreThrottled(cfg: Config, asks: seq<Time>, t: Time)
    requires FixedWindow.Ordered(asks) && cfg.maxRefreshPerMinute > 0
    ensures |GrantsIn(cfg, asks, t)| <= 2 * cfg.maxRefreshPerMinute - 1
  {
    forall k: nat | k < |asks|
      ensures Grants(cfg, asks, k) <==> FixedWindow.Admitted(asks, MINUTE, cfg.maxRefreshPerMinute, k)
    {
      GrantIsAdmission(cfg, asks, k);
    }
    assert GrantsIn(cfg, asks, t) == FixedWindow.AdmittedIn(asks, MINUTE, cfg.maxRefreshPerMinute, t);
    FixedWindow.FewerThanTwiceTheLimit(asks, MINUTE, cfg.maxRefreshPerMinute, t);
  }

  ghost predicate InOrder(calls: seq<Call>) {
    forall i, j :: 0 <= i <= j < |calls| ==> calls[i].now <= calls[j].now
  }

  lemma OrderedGrows(asks: seq<Time>, t: Time, now: Time)
    requires FixedWindow.Ordered(asks) && (forall k :: 0 <= k < |asks| ==> asks[k] <= t) && t <= now
    ensures FixedWindow.Ordered(asks + [now]) && forall k :: 0 <= k < |asks| + 1 ==> (asks + [now])[k] <= now
  {
  }

  lemma {:induction false} AsksAreOrdered(cfg: Config, calls: seq<Call>, n: nat)
    requires n <= |calls| && InOrder(calls)
    ensures var asks := AskTimes(cfg, calls, n);
            && FixedWindow.Ordered(asks)
            && forall k :: 0 <= k < |asks| ==> n > 0 && asks[k] <= calls[n - 1].now
  {
    if n > 1 {
      AsksAreOrdered(cfg, calls, n - 1);
      OrderedGrows(AskTimes(cfg, calls, n - 1), calls[n - 2].now, calls[n - 1].now);
    }
  }

  /** The call that makes ask number k goes to the server exactly when the trace of
      asks says so. */
  lemma GrantOfCall(cfg: Config, calls: seq<Call>, i: nat)
    requires i < |calls| && Asks(cfg, CacheAfter(cfg, calls, i), calls[i])
    ensures |AskTimes(cfg, calls, i)| < |AskTimes(cfg, calls, i + 1)|
    ensures AskBudget(cfg, CacheAfter(cfg, calls, i), calls[i].now).1
            == Grants(cfg, AskTimes(cfg, calls, i + 1), |AskTimes(cfg, calls, i)|)
  {
    var asks := AskTimes(cfg, calls, i);
    BudgetFollowsAsks(cfg, calls, i);
    BudgetPrefix(cfg, asks, [calls[i].now], |asks|);
  }

  /** Over any run in time order, unknown kids are granted fewer than twice the
      configured refreshes in any minute. */
  lemma RunIsThrottled(cfg: Config, calls: seq<Call>, n: nat, t: Time)
    requires n <= |calls| && InOrder(calls) && cfg.maxRefreshPerMinute > 0
    ensures |GrantsIn(cfg, AskTimes(cfg, calls, n), t)| <= 2 * cfg.maxRefreshPerMinute - 1
  {
    AsksAreOrdered(cfg, calls, n);
    ForgedKidsAreThrottled(cfg, AskTimes(cfg, calls, n), t);
  }

  // ----- the verifier -----

  datatype Token = Missing | Malformed | WithKid(kid: Kid)

  class Verifier {
    var keys: KeySet
    var fetchedAt: Option<Time>
    var unknownKids: set<Kid>
    var windowStart: Option<Time>
    var windowRefresh: int
    const cfg: Config

    function View(): Cache
      reads this
    {
      Cache(keys, fetchedAt, unknownKids, windowStart, windowRefresh)
    }

    /** New: zero settings take the documented defaults. */
    constructor (given: Config)
      ensures View() == EMPTY
      ensures cfg == Config(if given.refreshInterval == 0 then 60 * MINUTE else given.refreshInterval,
                            if given.maxRefreshPerMinute == 0 then 10 else given.maxRefreshPerMinute,
                            if given.maxUnknownKids == 0 then 256 else given.maxUnknownKids)
    {
      keys, fetchedAt, unknownKids, windowStart, windowRefresh := map[], None, {}, None, 0;
      cfg := Config(if given.refreshInterval == 0 then 60 * MINUTE else given.refreshInterval,
                    if given.maxRefreshPerMinute == 0 then 10 else given.maxRefreshPerMinute,
                    if given.maxUnknownKids == 0 then 256 else given.maxUnknownKids);
    }

    method Refresh(answer: Option<KeySet>, now: Time) returns (ok: bool)
      modifies this
      ensures ok == answer.Some?
      ensures View() == if ok then Refreshed(old(View()), answer.value, now) else old(View())
    {
      ok := answer.Some?;
      if ok {
        keys := answer.value;
        fetchedAt := Some(now);
        unknownKids := {};
      }
    }

    method MayRefreshFor(kid: Kid, now: Time) returns (granted: bool)
      modifies this`windowStart, this`windowRefresh
      ensures kid in unknownKids ==> !granted && View() == old(View())
      ensures kid !in unknownKids ==> (View(), granted) == AskBudget(cfg, old(View()), now)
    {
      if kid in unknownKids {
        return false;
      }
      if windowStart.None? || now - windowStart.value >= MINUTE {
        windowStart := Some(now);
        windowRefresh := 0;
      }
      if windowRefresh >= cfg.maxRefreshPerMinute {
        return false;
      }
      windowRefresh := windowRefresh + 1;
      return true;
    }

    method RememberUnknown(kid: Kid)
      modifies this`unknownKids
      ensures View() == Remember(cfg, old(View()), kid)
    {
      if |unknownKids| >= cfg.maxUnknownKids {
        unknownKids := {};
      }
      unknownKids := unknownKids + {kid};
    }

    method VerifyToken(token: Token, now: Time, server: Server) returns (d: Decision)
      modifies this
      ensures !token.WithKid? ==> d == BadToken && View() == old(View())
      ensures token.WithKid? ==> (View(), d) == Verify(cfg, old(View()), now, token.kid, server)
    {
      if !token.WithKid? {
        return BadToken;
      }
      var kid := token.kid;
      if keys == map[] || fetchedAt.None? || now - fetchedAt.value >= cfg.refreshInterval {
        var ok := Refresh(server.first, now);
        if !ok && keys == map[] {
          return FetchFailed;
        }
      }
      if kid !in keys {
        var may := MayRefreshFor(kid, now);
        if !may {
          return UnknownKey;
        }
        var ok := Refresh(server.second, now);
        if !ok {
          return FetchFailed;
        }
        if kid !in keys {
          RememberUnknown(kid);
          return UnknownKey;
        }
      }
      return CheckSignature(keys[kid]);
    }
  }
}
