/**
 * The fixed-window rate limiter and its expiring Redis counter
 * (backend/src/api-gateway/gateway-rate-limiter.ts).
 *
 * One clock, in milliseconds, serves the limiter and Redis.  Redis keeps expiry
 * instants in milliseconds and rounds a reported TTL to the nearest second.
 */
module RateLimiter {
  import opened Text
  import opened Bits

  datatype Entry = Entry(count: nat, expireAt: Option<nat>)

  type Store = map<string, Entry>

  predicate Live(store: Store, key: string, now: nat) {
    key in store && (store[key].expireAt.None? || now <= store[key].expireAt.value)
  }

  /** The store after INCR: an absent or expired key counts from zero and has no expiry. */
  function Increment(store: Store, key: string, now: nat): (r: Store)
    ensures key in r && r[key].count >= 1
  {
    if Live(store, key, now) then store[key := store[key].(count := store[key].count + 1)]
    else store[key := Entry(1, None)]
  }

  function SetExpiry(store: Store, key: string, seconds: nat, now: nat): Store
    requires key in store
  {
    store[key := store[key].(expireAt := Some(now + 1000 * seconds))]
  }

  /** The reply to TTL: -2 for no such key, -1 for no expiry, else rounded seconds. */
  function TimeToLive(store: Store, key: string, now: nat): int {
    if !Live(store, key, now) then -2
    else if store[key].expireAt.None? then -1
    else (store[key].expireAt.value - now + 500) / 1000
  }

  /** The store after the window script. */
  function AfterScript(store: Store, key: string, seconds: nat, now: nat): (r: Store)
    ensures key in r && r[key].count >= 1
    ensures forall k :: k != key ==> (k in r <==> k in store) && (k in store ==> r[k] == store[k])
  {
    var s := Increment(store, key, now);
    if s[key].count == 1 then SetExpiry(s, key, seconds, now) else s
  }

  /** Redis may drop any expired keys at any time. */
  function Reclaimed(store: Store, keys: set<string>, now: nat): Store {
    map k | k in store && (k in keys ==> Live(store, k, now)) :: store[k]
  }

  class Redis {
    var store: Store

    constructor ()
      ensures store == map[]
    {
      store := map[];
    }

    method Incr(key: string, now: nat) returns (count: nat)
      modifies this
      ensures store == Increment(old(store), key, now) && count == store[key].count
    {
      if Live(store, key, now) {
        store := store[key := store[key].(count := store[key].count + 1)];
      } else {
        store := store[key := Entry(1, None)];
      }
      count := store[key].count;
    }

    method Expire(key: string, seconds: nat, now: nat)
      requires key in store
      modifies this
      ensures store == SetExpiry(old(store), key, seconds, now)
    {
      store := store[key := store[key].(expireAt := Some(now + 1000 * seconds))];
    }

    /** The script: count the hit, start the expiry on the first one, report both. */
    method Eval(key: string, seconds: nat, now: nat) returns (count: nat, ttl: int)
      modifies this
      ensures store == AfterScript(old(store), key, seconds, now)
      ensures count == store[key].count && ttl == TimeToLive(store, key, now)
    {
      count := Incr(key, now);
      if count == 1 { Expire(key, seconds, now); }
      ttl := TimeToLive(store, key, now);
    }
  }

  // ---- The limiter -----------------------------------------------------------------

  datatype RateLimitResult = RateLimitResult(
    allowed: bool, limit: int, remaining: int, retryAfterSeconds: int, degraded: bool)

  const UNLIMITED := RateLimitResult(true, 0, 0, 0, false)

  function FailOpen(limit: int): RateLimitResult { RateLimitResult(true, limit, limit, 0, true) }

  /** Start of the window of an instant, in seconds. */
  function WindowStart(now: nat, seconds: nat): nat
    requires seconds >= 1
  {
    (now / 1000 / seconds) * seconds
  }

  function WindowKey(keyId: string, windowStart: nat): string { "gw:rl:" + keyId + [':'] + NatText(windowStart) }

  function Verdict(limit: int, count: nat, ttlRaw: int, seconds: nat): RateLimitResult {
    var ttl := if ttlRaw > 0 then ttlRaw else seconds;
    var allowed := count <= limit;
    RateLimitResult(allowed, limit, if limit - count > 0 then limit - count else 0, if allowed then 0 else ttl, false)
  }

  datatype Request = Request(keyId: string, limit: int, at: nat)

  function KeyOf(q: Request, seconds: nat): string
    requires seconds >= 1
  {
    WindowKey(q.keyId, WindowStart(q.at, seconds))
  }

  /** The store after one request that reaches Redis. */
  function Served(store: Store, q: Request, seconds: nat): Store
    requires seconds >= 1
  {
    if q.limit <= 0 then store else AfterScript(store, KeyOf(q, seconds), seconds, q.at)
  }

  /** Its answer. */
  function Answer(store: Store, q: Request, seconds: nat): RateLimitResult
    requires seconds >= 1
  {
    if q.limit <= 0 then UNLIMITED
    else
      var key := KeyOf(q, seconds);
      var after := AfterScript(store, key, seconds, q.at);
      Verdict(q.limit, after[key].count, TimeToLive(after, key, q.at), seconds)
  }

  /** What becomes of the script: it answers, it never runs, or it runs and its reply is lost. */
  datatype ScriptFate = Answers | NeverRuns | ReplyLost

  class GatewayRateLimiter {
    const redis: Redis?

    constructor (redis: Redis?)
      ensures this.redis == redis
    {
      this.redis := redis;
    }

    /** Counts one request; without Redis, or when the call fails, the request is let through. */
    method Consume(keyId: string, limit: int, seconds: nat, now: nat, fate: ScriptFate) returns (r: RateLimitResult)
      requires seconds >= 1
      modifies redis
      ensures limit <= 0 ==> r == RateLimitResult(true, 0, 0, 0, false)
      ensures limit > 0 && (redis == null || fate != Answers) ==> r == RateLimitResult(true, limit, limit, 0, true)
      ensures redis != null && fate == Answers ==> r == Answer(old(redis.store), Request(keyId, limit, now), seconds)
      ensures redis != null && fate == NeverRuns ==> redis.store == old(redis.store)
      ensures redis != null && fate != NeverRuns ==>
        redis.store == Served(old(redis.store), Request(keyId, limit, now), seconds)
    {
      if limit <= 0 { return UNLIMITED; }
      if redis == null || fate == NeverRuns { return FailOpen(limit); }
      var nowSeconds := now / 1000;
      var windowStart := (nowSeconds / seconds) * seconds;
      var count, ttlRaw := redis.Eval(WindowKey(keyId, windowStart), seconds, now);
      if fate == ReplyLost { return FailOpen(limit); }
      var ttl := if ttlRaw > 0 then ttlRaw else seconds;
      var allowed := count <= limit;
      return RateLimitResult(allowed, limit, if limit - count > 0 then limit - count else 0, if allowed then 0 else ttl,
        false);
    }
  }

  // ---- Windows and keys ------------------------------------------------------------

  lemma WindowBounds(now: nat, seconds: nat)
    requires seconds >= 1
    ensures WindowStart(now, seconds) * 1000 <= now < (WindowStart(now, seconds) + seconds) * 1000
  {
    var s := now / 1000;
    assert s == (s / seconds) * seconds + s % seconds;
  }

  /** Windows do not overlap: a later start is at least a window later. */
  lemma WindowsApart(a: nat, b: nat, seconds: nat)
    requires seconds >= 1 && WindowStart(a, seconds) < WindowStart(b, seconds)
    ensures WindowStart(a, seconds) + seconds <= WindowStart(b, seconds)
  {
    Multiples(b / 1000 / seconds, a / 1000 / seconds, seconds);
    Multiples(a / 1000 / seconds, b / 1000 / seconds, seconds);
  }

  /** An instant in the window that starts where another instant's window starts has that start. */
  lemma SameWindow(a: nat, b: nat, seconds: nat)
    requires seconds >= 1
    requires WindowStart(a, seconds) * 1000 <= b < (WindowStart(a, seconds) + seconds) * 1000
    ensures WindowStart(b, seconds) == WindowStart(a, seconds)
  {
    WindowBounds(b, seconds);
    if WindowStart(a, seconds) < WindowStart(b, seconds) { WindowsApart(a, b, seconds); }
    if WindowStart(b, seconds) < WindowStart(a, seconds) { WindowsApart(b, a, seconds); }
  }

  lemma WindowsAdvance(a: nat, b: nat, seconds: nat)
    requires seconds >= 1 && a <= b
    ensures WindowStart(a, seconds) <= WindowStart(b, seconds)
  {
    WindowBounds(a, seconds);
    WindowBounds(b, seconds);
    if WindowStart(b, seconds) < WindowStart(a, seconds) { WindowsApart(b, a, seconds); }
  }

  /** Different keys or different windows never share a counter, whatever text a key id holds. */
  lemma KeysDistinct(id1: string, start1: nat, id2: string, start2: nat)
    requires WindowKey(id1, start1) == WindowKey(id2, start2)
    ensures id1 == id2 && start1 == start2
  {
    var a, b := "gw:rl:" + id1, "gw:rl:" + id2;
    TailAfterLast(a, b, NatText(start1), NatText(start2), ':');
    assert id1 == a[6..] && id2 == b[6..];
    DecimalRoundTrip(start1);
    DecimalRoundTrip(start2);
  }

  // ---- Whole runs, against a plain log of hits -------------------------------------

  datatype Hit = Hit(keyId: string, window: nat, at: nat, allowed: bool)

  datatype State = State(store: Store, log: seq<Hit>)

  datatype Event = Ask(request: Request) | Reclaim(keys: set<string>, at: nat)

  function EventTime(e: Event): nat { if e.Ask? then e.request.at else e.at }

  function Next(s: State, e: Event, seconds: nat): State
    requires seconds >= 1
  {
    match e
    case Reclaim(keys, at) => s.(store := Reclaimed(s.store, keys, at))
    case Ask(q) =>
      if q.limit <= 0 then s
      else State(Served(s.store, q, seconds),
        s.log + [Hit(q.keyId, WindowStart(q.at, seconds), q.at, Answer(s.store, q, seconds).allowed)])
  }

  /** From an empty store, through any events. */
  function Run(events: seq<Event>, seconds: nat): State
    requires seconds >= 1
  {
    if events == [] then State(map[], []) else Next(Run(events[..|events| - 1], seconds), events[|events| - 1], seconds)
  }

  ghost predicate InOrder(events: seq<Event>) {
    forall i, j :: 0 <= i < j < |events| ==> EventTime(events[i]) <= EventTime(events[j])
  }

  function Matches(h: Hit, keyId: string, window: nat): nat { if h.keyId == keyId && h.window == window then 1 else 0 }

  function Hits(log: seq<Hit>, keyId: string, window: nat): nat {
    if log == [] then 0 else Hits(log[..|log| - 1], keyId, window) + Matches(log[|log| - 1], keyId, window)
  }

  function AllowedHits(log: seq<Hit>, keyId: string, window: nat): nat {
    if log == [] then 0
    else
      var h := log[|log| - 1];
      AllowedHits(log[..|log| - 1], keyId, window) + if h.allowed then Matches(h, keyId, window) else 0
  }

  /** Instant of the first hit of a key in a window (0 when there is none). */
  function FirstHit(log: seq<Hit>, keyId: string, window: nat): nat {
    if log == [] then 0
    else
      var before, h := log[..|log| - 1], log[|log| - 1];
      if Hits(before, keyId, window) == 0 && Matches(h, keyId, window) == 1
      then h.at
      else FirstHit(before, keyId, window)
  }

  /** The counter of one key and window says what the log says, until the window is over. */
  ghost predicate Agrees(s: State, keyId: string, window: nat, now: nat, seconds: nat) {
    var hits, key := Hits(s.log, keyId, window), WindowKey(keyId, window);
    && (hits == 0 ==> key !in s.store)
    && (hits > 0 ==> FirstHit(s.log, keyId, window) >= 1000 * window)
    && (hits > 0 && now <= 1000 * (window + seconds) ==>
        key in s.store && s.store[key] == Entry(hits, Some(FirstHit(s.log, keyId, window) + 1000 * seconds)))
  }

  lemma HitsSnoc(log: seq<Hit>, h: Hit, keyId: string, window: nat)
    ensures Hits(log + [h], keyId, window) == Hits(log, keyId, window) + Matches(h, keyId, window)
    ensures FirstHit(log + [h], keyId, window) ==
      if Hits(log, keyId, window) == 0 && Matches(h, keyId, window) == 1 then h.at else FirstHit(log, keyId, window)
    ensures AllowedHits(log + [h], keyId, window) ==
      AllowedHits(log, keyId, window) + if h.allowed then Matches(h, keyId, window) else 0
  {
    assert (log + [h])[..|log|] == log;
  }

  lemma OwnKey(store: Store, q: Request, seconds: nat)
    requires seconds >= 1 && q.limit > 0
    ensures
      var key, after := KeyOf(q, seconds), Served(store, q, seconds);
      && key in after
      && (key !in store ==> after[key] == Entry(1, Some(q.at + 1000 * seconds)))
      && (Live(store, key, q.at) && store[key].count >= 1 ==> after[key] == store[key].(count := store[key].count + 1))
  {
    hide WindowKey, WindowStart;
  }

  /** One hit on its own counter: the key has not expired while its window lasts. */
  lemma OwnHitAgrees(s: State, q: Request, now: nat, seconds: nat, h: Hit)
    requires seconds >= 1 && q.limit > 0 && now <= q.at
    requires Agrees(s, q.keyId, WindowStart(q.at, seconds), now, seconds)
    requires h.keyId == q.keyId && h.window == WindowStart(q.at, seconds) && h.at == q.at
    ensures
      var after := State(Served(s.store, q, seconds), s.log + [h]);
      && Agrees(after, q.keyId, h.window, q.at, seconds)
      && after.store[WindowKey(q.keyId, h.window)].count == Hits(s.log, q.keyId, h.window) + 1
  {
    hide *;
    var hits, first := Hits(s.log, q.keyId, h.window), FirstHit(s.log, q.keyId, h.window);
    WindowBounds(q.at, seconds);
    AgreesGives(s, q, now, seconds);
    OwnKey(s.store, q, seconds);
    HitsSnoc(s.log, h, q.keyId, h.window);
    ItsOwn(q, h, seconds);
    if hits == 0 {
      CounterAgrees(State(Served(s.store, q, seconds), s.log + [h]), q, seconds, 1, q.at);
    } else {
      CounterAgrees(State(Served(s.store, q, seconds), s.log + [h]), q, seconds, hits + 1, first);
    }
  }

  lemma ItsOwn(q: Request, h: Hit, seconds: nat)
    requires seconds >= 1 && h.keyId == q.keyId && h.window == WindowStart(q.at, seconds)
    ensures Matches(h, q.keyId, h.window) == 1 && KeyOf(q, seconds) == WindowKey(q.keyId, h.window)
  {
  }

  /** What the counter of a request is before it: none, or one that lives until after its window. */
  lemma AgreesGives(s: State, q: Request, now: nat, seconds: nat)
    requires seconds >= 1 && now <= q.at && Agrees(s, q.keyId, WindowStart(q.at, seconds), now, seconds)
    ensures
      var w := WindowStart(q.at, seconds);
      var hits, first, key := Hits(s.log, q.keyId, w), FirstHit(s.log, q.keyId, w), KeyOf(q, seconds);
      && (hits == 0 ==> key !in s.store)
      && (hits > 0 ==> first >= 1000 * w && Live(s.store, key, q.at))
      && (hits > 0 ==> s.store[key] == Entry(hits, Some(first + 1000 * seconds)))
  {
    hide Hits, FirstHit, WindowKey, WindowStart;
    WindowBounds(q.at, seconds);
  }

  lemma CounterAgrees(s: State, q: Request, seconds: nat, hits: nat, first: nat)
    requires seconds >= 1 && KeyOf(q, seconds) in s.store && hits >= 1
    requires
      var w := WindowStart(q.at, seconds);
      && Hits(s.log, q.keyId, w) == hits && FirstHit(s.log, q.keyId, w) == first && 1000 * w <= first
    requires s.store[KeyOf(q, seconds)] == Entry(hits, Some(first + 1000 * seconds))
    ensures Agrees(s, q.keyId, WindowStart(q.at, seconds), q.at, seconds)
  {
    hide Hits, FirstHit, WindowKey, WindowStart;
  }

  lemma HitAgrees(s: State, q: Request, now: nat, seconds: nat)
    requires seconds >= 1 && q.limit > 0 && now <= q.at
    requires Agrees(s, q.keyId, WindowStart(q.at, seconds), now, seconds)
    ensures
      var w := WindowStart(q.at, seconds);
      && Agrees(Next(s, Ask(q), seconds), q.keyId, w, q.at, seconds)
      && Next(s, Ask(q), seconds).store[WindowKey(q.keyId, w)].count == Hits(s.log, q.keyId, w) + 1
  {
    hide Hits, FirstHit, WindowKey, WindowStart, Served, Answer, Agrees;
    var w := WindowStart(q.at, seconds);
    OwnHitAgrees(s, q, now, seconds, Hit(q.keyId, w, q.at, Answer(s.store, q, seconds).allowed));
  }

  lemma OtherKey(store: Store, q: Request, seconds: nat, key: string)
    requires seconds >= 1 && key != KeyOf(q, seconds)
    ensures key in Served(store, q, seconds) <==> key in store
    ensures key in store ==> Served(store, q, seconds)[key] == store[key]
  {
    hide WindowKey, WindowStart;
  }

  /** A hit leaves every other counter alone. */
  lemma OthersAgree(s: State, q: Request, now: nat, seconds: nat, keyId: string, window: nat)
    requires seconds >= 1 && q.limit > 0 && now <= q.at
    requires Agrees(s, keyId, window, now, seconds)
    requires keyId != q.keyId || window != WindowStart(q.at, seconds)
    ensures Agrees(Next(s, Ask(q), seconds), keyId, window, q.at, seconds)
  {
    hide Hits, FirstHit, WindowKey, WindowStart, Answer, Served;
    var w := WindowStart(q.at, seconds);
    if WindowKey(keyId, window) == WindowKey(q.keyId, w) { KeysDistinct(keyId, window, q.keyId, w); }
    OtherKey(s.store, q, seconds, WindowKey(keyId, window));
    HitsSnoc(s.log, Hit(q.keyId, w, q.at, Answer(s.store, q, seconds).allowed), keyId, window);
  }

  ghost predicate Refines(s: State, now: nat, seconds: nat) {
    forall keyId, window :: Agrees(s, keyId, window, now, seconds)
  }

  /** Every step keeps the counters in agreement with the log. */
  lemma StepRefines(s: State, e: Event, now: nat, seconds: nat)
    requires seconds >= 1 && now <= EventTime(e) && Refines(s, now, seconds)
    ensures Refines(Next(s, e, seconds), EventTime(e), seconds)
  {
    var t := Next(s, e, seconds);
    forall keyId, window ensures Agrees(t, keyId, window, EventTime(e), seconds) {
      assert Agrees(s, keyId, window, now, seconds);
      if e.Ask? && e.request.limit > 0 {
        if keyId == e.request.keyId && window == WindowStart(e.request.at, seconds) {
          HitAgrees(s, e.request, now, seconds);
        } else {
          OthersAgree(s, e.request, now, seconds, keyId, window);
        }
      }
    }
  }

  function LastTime(events: seq<Event>): nat { if events == [] then 0 else EventTime(events[|events| - 1]) }

  /** The expiring counters refine the log along every run. */
  lemma {:induction false} RunRefines(events: seq<Event>, seconds: nat)
    requires seconds >= 1 && InOrder(events)
    ensures Refines(Run(events, seconds), LastTime(events), seconds)
  {
    if events != [] {
      RunRefines(events[..|events| - 1], seconds);
      StepRefines(Run(events[..|events| - 1], seconds), events[|events| - 1], LastTime(events[..|events| - 1]),
        seconds);
    }
  }

  /** A request is allowed exactly when the hits already in its window leave room for it. */
  lemma AllowedIffRoom(events: seq<Event>, q: Request, seconds: nat)
    requires seconds >= 1 && InOrder(events + [Ask(q)]) && q.limit > 0
    ensures
      var s := Run(events, seconds);
      var hits := Hits(s.log, q.keyId, WindowStart(q.at, seconds));
      var r := Answer(s.store, q, seconds);
      && (r.allowed <==> hits < q.limit)
      && r.remaining == (if hits < q.limit then q.limit - hits - 1 else 0)
      && !r.degraded && r.limit == q.limit && (r.retryAfterSeconds == 0 <==> r.allowed)
  {
    var s := Run(events, seconds);
    BeforeLast(events, Ask(q));
    RunRefines(events, seconds);
    assert Agrees(s, q.keyId, WindowStart(q.at, seconds), LastTime(events), seconds);
    HitAgrees(s, q, LastTime(events), seconds);
    hide Run, Hits, FirstHit, WindowKey, WindowStart, Agrees, Refines, AfterScript;
  }

  lemma BeforeLast(events: seq<Event>, e: Event)
    requires InOrder(events + [e])
    ensures InOrder(events) && LastTime(events) <= EventTime(e)
  {
    var all := events + [e];
    assert forall i :: 0 <= i < |events| ==> events[i] == all[i];
    assert all[|events|] == e;
  }

  ghost predicate LimitIs(events: seq<Event>, keyId: string, window: nat, seconds: nat, limit: nat)
    requires seconds >= 1
  {
    forall e :: e in events && e.Ask? && e.request.keyId == keyId && WindowStart(e.request.at, seconds) == window
      ==> 1 <= e.request.limit <= limit
  }

  lemma OneMoreAllowed(s: State, q: Request, seconds: nat, keyId: string, window: nat, limit: nat)
    requires seconds >= 1 && q.limit > 0
    requires q.keyId == keyId && WindowStart(q.at, seconds) == window ==> q.limit <= limit
    requires Answer(s.store, q, seconds).allowed <==> Hits(s.log, q.keyId, WindowStart(q.at, seconds)) < q.limit
    requires AllowedHits(s.log, keyId, window) <= Hits(s.log, keyId, window) &&
      AllowedHits(s.log, keyId, window) <= limit
    ensures
      var log := Next(s, Ask(q), seconds).log;
      AllowedHits(log, keyId, window) <= Hits(log, keyId, window) && AllowedHits(log, keyId, window) <= limit
  {
    HitsSnoc(s.log, Hit(q.keyId, WindowStart(q.at, seconds), q.at, Answer(s.store, q, seconds).allowed), keyId, window);
    hide Hits, AllowedHits, WindowStart, Answer, Served;
  }

  /** At most `limit` requests of a key are allowed per window, in every run. */
  lemma {:induction false} AtMostLimitPerWindow(events: seq<Event>, keyId: string, window: nat, seconds: nat,
    limit: nat)
    requires seconds >= 1 && InOrder(events) && LimitIs(events, keyId, window, seconds, limit)
    ensures AllowedHits(Run(events, seconds).log, keyId, window) <= Hits(Run(events, seconds).log, keyId, window)
    ensures AllowedHits(Run(events, seconds).log, keyId, window) <= limit
  {
    if events != [] {
      var before, e := events[..|events| - 1], events[|events| - 1];
      assert events == before + [e];
      AtMostLimitPerWindow(before, keyId, window, seconds, limit);
      assert Run(events, seconds) == Next(Run(before, seconds), e, seconds);
      if e.Ask? && e.request.limit > 0 {
        var s := Run(before, seconds);
        var w := WindowStart(e.request.at, seconds);
        assert e in events;
        assert e.request.keyId == keyId && w == window ==> e.request.limit <= limit;
        hide *;
        AllowedIffRoom(before, e.request, seconds);
        OneMoreAllowed(s, e.request, seconds, keyId, window, limit);
      }
    }
  }

  // ---- Any span of one window's length ---------------------------------------------

  function AllowedBetween(log: seq<Hit>, keyId: string, start: nat, end: nat): nat {
    if log == [] then 0
    else
      var h := log[|log| - 1];
      AllowedBetween(log[..|log| - 1], keyId, start, end)
        + if h.allowed && h.keyId == keyId && start <= h.at < end then 1 else 0
  }

  ghost predicate WindowsRight(log: seq<Hit>, seconds: nat)
    requires seconds >= 1
  {
    forall h :: h in log ==> h.window == WindowStart(h.at, seconds)
  }

  lemma {:induction false} LogWindows(events: seq<Event>, seconds: nat)
    requires seconds >= 1
    ensures WindowsRight(Run(events, seconds).log, seconds)
  {
    if events != [] {
      LogWindows(events[..|events| - 1], seconds);
      hide WindowStart, Answer, Served;
    }
  }

  lemma TwoWindows(start: nat, at: nat, seconds: nat)
    requires seconds >= 1 && start <= at < start + 1000 * seconds
    ensures
      var w := WindowStart(start, seconds);
      WindowStart(at, seconds) == w || WindowStart(at, seconds) == w + seconds
  {
    WindowsAdvance(start, at, seconds);
    WindowBounds(start, seconds);
    WindowBounds(at, seconds);
    if WindowStart(start, seconds) < WindowStart(at, seconds) {
      WindowsApart(start, at, seconds);
      NextWindow(start, seconds);
      if WindowStart(start + 1000 * seconds, seconds) < WindowStart(at, seconds) {
        WindowsApart(start + 1000 * seconds, at, seconds);
      }
    }
  }

  lemma NextWindow(start: nat, seconds: nat)
    requires seconds >= 1
    ensures WindowStart(start + 1000 * seconds, seconds) == WindowStart(start, seconds) + seconds
  {
    var s := start / 1000;
    assert (start + 1000 * seconds) / 1000 == s + seconds;
    var q := s / seconds;
    assert s == q * seconds + s % seconds;
    assert s + seconds == (q + 1) * seconds + s % seconds;
    QuotientUnique(s + seconds, seconds, q + 1, s % seconds);
  }

  lemma {:induction false} SpanWithinWindows(log: seq<Hit>, keyId: string, start: nat, seconds: nat)
    requires seconds >= 1 && WindowsRight(log, seconds)
    ensures
      var w := WindowStart(start, seconds);
      AllowedBetween(log, keyId, start, start + 1000 * seconds) <=
        AllowedHits(log, keyId, w) + AllowedHits(log, keyId, w + seconds)
  {
    if log != [] {
      var h := log[|log| - 1];
      SpanWithinWindows(log[..|log| - 1], keyId, start, seconds);
      assert h in log;
      if start <= h.at < start + 1000 * seconds { TwoWindows(start, h.at, seconds); }
      hide WindowStart;
    }
  }

  /** At most twice the limit is allowed in any span as long as a window, wherever it starts. */
  lemma AtMostTwicePerSpan(events: seq<Event>, keyId: string, start: nat, seconds: nat, limit: nat)
    requires seconds >= 1 && InOrder(events)
    requires LimitIs(events, keyId, WindowStart(start, seconds), seconds, limit)
    requires LimitIs(events, keyId, WindowStart(start, seconds) + seconds, seconds, limit)
    ensures AllowedBetween(Run(events, seconds).log, keyId, start, start + 1000 * seconds) <= 2 * limit
  {
    hide *;
    AtMostLimitPerWindow(events, keyId, WindowStart(start, seconds), seconds, limit);
    AtMostLimitPerWindow(events, keyId, WindowStart(start, seconds) + seconds, seconds, limit);
    LogWindows(events, seconds);
    SpanWithinWindows(Run(events, seconds).log, keyId, start, seconds);
  }

  // ---- Where a refused caller lands when it waits ----------------------------------

  /** Milliseconds left before a counter first hit at `first` expires. */
  function Left(first: nat, at: nat, seconds: nat): int { first + 1000 * seconds - at }

  /** Redis rounds the time left down and the first hit came too early in its window to make up for it. */
  predicate RoundedTooFarDown(first: nat, window: nat, at: nat, seconds: nat) {
    var left := Left(first, at, seconds);
    left >= 1000 && first - 1000 * window < left % 1000 < 500
  }

  /** What a refused caller is told: the seconds left, rounded to the nearest, or a window when that is none. */
  predicate IsAdvertised(retry: int, left: int, seconds: nat) {
    if left >= 500 then 1000 * retry - 500 <= left < 1000 * retry + 500 else retry == seconds
  }

  lemma RetryInstant(first: nat, window: nat, at: nat, seconds: nat)
    requires seconds >= 1 && 1000 * window <= first <= at < 1000 * (window + seconds)
    ensures
      var ttl := (Left(first, at, seconds) + 500) / 1000;
      var retry := if ttl > 0 then ttl else seconds;
      && (at + 1000 * retry >= 1000 * (window + seconds) <==> !RoundedTooFarDown(first, window, at, seconds))
      && at + 1000 * (retry + 1) >= 1000 * (window + seconds) && 1 <= retry <= seconds
      && IsAdvertised(retry, Left(first, at, seconds), seconds)
  {
  }

  /**
   * Waiting the advertised seconds lands in a later window exactly when the TTL
   * was not rounded too far down.
   */
  lemma RetryLandsLater(events: seq<Event>, q: Request, seconds: nat)
    requires seconds >= 1 && InOrder(events + [Ask(q)]) && q.limit > 0
    requires !Answer(Run(events, seconds).store, q, seconds).allowed
    ensures
      var log := Run(events, seconds).log;
      var retry := Answer(Run(events, seconds).store, q, seconds).retryAfterSeconds;
      var w := WindowStart(q.at, seconds);
      && retry >= 0 && 1000 * w <= FirstHit(log, q.keyId, w)
      && (WindowStart(q.at + 1000 * retry, seconds) > w <==>
          !RoundedTooFarDown(FirstHit(log, q.keyId, w), w, q.at, seconds))
  {
    hide RoundedTooFarDown, WindowStart, FirstHit, Run, Answer, Hits;
    var retry := RefusedRetry(events, q, seconds);
    var w := WindowStart(q.at, seconds);
    var later := q.at + 1000 * retry;
    WindowBounds(later, seconds);
    WindowsAdvance(q.at, later, seconds);
    if later < 1000 * (w + seconds) {
      WindowBounds(q.at, seconds);
      SameWindow(q.at, later, seconds);
    }
  }

  lemma RefusedRetry(events: seq<Event>, q: Request, seconds: nat) returns (retry: nat)
    requires seconds >= 1 && InOrder(events + [Ask(q)]) && q.limit > 0
    requires !Answer(Run(events, seconds).store, q, seconds).allowed
    ensures retry == Answer(Run(events, seconds).store, q, seconds).retryAfterSeconds
    ensures
      var w := WindowStart(q.at, seconds);
      var first := FirstHit(Run(events, seconds).log, q.keyId, w);
      1000 * w <= first &&
        (q.at + 1000 * retry >= 1000 * (w + seconds) <==> !RoundedTooFarDown(first, w, q.at, seconds))
    ensures q.at + 1000 * (retry + 1) >= 1000 * (WindowStart(q.at, seconds) + seconds) && 1 <= retry <= seconds
    ensures
      var first := FirstHit(Run(events, seconds).log, q.keyId, WindowStart(q.at, seconds));
      IsAdvertised(retry, Left(first, q.at, seconds), seconds)
  {
    hide IsAdvertised;
    hide Run, Hits, FirstHit, WindowKey, WindowStart, Refines, InOrder;
    var s := Run(events, seconds);
    var w := WindowStart(q.at, seconds);
    var key := WindowKey(q.keyId, w);
    var first := FirstHit(s.log, q.keyId, w);
    BeforeLast(events, Ask(q));
    AllowedIffRoom(events, q, seconds);
    RunRefines(events, seconds);
    WindowBounds(q.at, seconds);
    assert Agrees(s, q.keyId, w, LastTime(events), seconds);
    FirstHitInPast(events, q.keyId, w, seconds);
    var after := AfterScript(s.store, key, seconds, q.at);
    assert after[key].expireAt == Some(first + 1000 * seconds);
    RetryInstant(first, w, q.at, seconds);
    retry := Answer(s.store, q, seconds).retryAfterSeconds;
  }

  /** The wait counts from the first hit in the window, whose counter expires a window later. */
  lemma RetryIsTimeLeft(events: seq<Event>, q: Request, seconds: nat)
    requires seconds >= 1 && InOrder(events + [Ask(q)]) && q.limit > 0
    requires !Answer(Run(events, seconds).store, q, seconds).allowed
    ensures
      var first := FirstHit(Run(events, seconds).log, q.keyId, WindowStart(q.at, seconds));
      var left := first + 1000 * seconds - q.at;
      var retry := Answer(Run(events, seconds).store, q, seconds).retryAfterSeconds;
      if left >= 500 then 1000 * retry - 500 <= left < 1000 * retry + 500 else retry == seconds
  {
    hide Run, Answer, FirstHit, WindowStart, InOrder;
    var retry := RefusedRetry(events, q, seconds);
  }

  /** A refused caller is never told to wait longer than a window, and one second more always reaches a later one. */
  lemma OneSecondMoreLandsLater(events: seq<Event>, q: Request, seconds: nat)
    requires seconds >= 1 && InOrder(events + [Ask(q)]) && q.limit > 0
    requires !Answer(Run(events, seconds).store, q, seconds).allowed
    ensures
      var retry := Answer(Run(events, seconds).store, q, seconds).retryAfterSeconds;
      1 <= retry <= seconds && WindowStart(q.at + 1000 * (retry + 1), seconds) > WindowStart(q.at, seconds)
  {
    hide *;
    var retry := RefusedRetry(events, q, seconds);
    WindowBounds(q.at + 1000 * (retry + 1), seconds);
  }

  lemma {:induction false} FirstHitInPast(events: seq<Event>, keyId: string, window: nat, seconds: nat)
    requires seconds >= 1 && InOrder(events)
    ensures FirstHit(Run(events, seconds).log, keyId, window) <= LastTime(events)
  {
    if events != [] {
      var before, e := events[..|events| - 1], events[|events| - 1];
      assert events == before + [e];
      FirstHitInPast(before, keyId, window, seconds);
      BeforeLast(before, e);
      if e.Ask? && e.request.limit > 0 {
        var s := Run(before, seconds);
        HitsSnoc(s.log,
          Hit(e.request.keyId, WindowStart(e.request.at, seconds), e.request.at,
            Answer(s.store, e.request, seconds).allowed), keyId, window);
        hide Hits, FirstHit, WindowStart, InOrder, Answer, Served;
      }
    }
  }

  ghost predicate WholeSeconds(events: seq<Event>) { forall e :: e in events ==> EventTime(e) % 1000 == 0 }

  lemma {:induction false} FirstHitWhole(events: seq<Event>, keyId: string, window: nat, seconds: nat)
    requires seconds >= 1 && WholeSeconds(events)
    ensures FirstHit(Run(events, seconds).log, keyId, window) % 1000 == 0
  {
    if events != [] {
      var before, e := events[..|events| - 1], events[|events| - 1];
      assert e in events;
      FirstHitWhole(before, keyId, window, seconds);
      if e.Ask? && e.request.limit > 0 {
        var s := Run(before, seconds);
        HitsSnoc(s.log,
          Hit(e.request.keyId, WindowStart(e.request.at, seconds), e.request.at,
            Answer(s.store, e.request, seconds).allowed), keyId, window);
        hide Hits, FirstHit, WindowStart, Answer, Served;
      }
    }
  }

  lemma NothingToRound(first: nat, window: nat, at: nat, seconds: nat)
    requires first % 1000 == 0 && at % 1000 == 0 && 1000 * window <= first
    ensures !RoundedTooFarDown(first, window, at, seconds)
  {
    assert Left(first, at, seconds) % 1000 == 0;
  }

  /** On a clock of whole seconds the advertised wait always lands in a later window. */
  lemma WholeSecondsRetryLandsLater(events: seq<Event>, q: Request, seconds: nat)
    requires seconds >= 1 && InOrder(events + [Ask(q)]) && q.limit > 0 && WholeSeconds(events + [Ask(q)])
    requires !Answer(Run(events, seconds).store, q, seconds).allowed
    ensures
      var retry := Answer(Run(events, seconds).store, q, seconds).retryAfterSeconds;
      retry >= 0 && WindowStart(q.at + 1000 * retry, seconds) > WindowStart(q.at, seconds)
  {
    assert Ask(q) in events + [Ask(q)] && EventTime(Ask(q)) == q.at;
    assert WholeSeconds(events);
    assert q.at % 1000 == 0;
    var s := Run(events, seconds);
    var w := WindowStart(q.at, seconds);
    hide RoundedTooFarDown, WindowStart, WholeSeconds, Answer, InOrder, Run, FirstHit;
    RetryLandsLater(events, q, seconds);
    FirstHitWhole(events, q.keyId, w, seconds);
    assert s == Run(events, seconds);
    var first := FirstHit(s.log, q.keyId, w);
    NothingToRound(first, w, q.at, seconds);
  }

  /** With a limit of one: a hit at 0 ms and another at 700 ms; the second is told 59 s and is refused again. */
  lemma RetryCanLandInTheSameWindow()
    ensures
      var first, second := Ask(Request("k", 1, 0)), Request("k", 1, 700);
      var r := Answer(Run([first], 60).store, second, 60);
      && InOrder([first] + [Ask(second)])
      && !r.allowed && r.retryAfterSeconds == 59
      && WindowStart(second.at + 1000 * r.retryAfterSeconds, 60) == WindowStart(second.at, 60)
  {
    var first := Ask(Request("k", 1, 0));
    var key := WindowKey("k", 0);
    assert [first][..0] == [];
    assert Run([], 60) == State(map[], []);
    assert Run([first], 60).store == map[key := Entry(1, Some(60000))];
  }
}
