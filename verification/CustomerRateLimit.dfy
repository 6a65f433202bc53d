/**
 * The per-customer limit on batches of messages
 * (backend/src/customers-depth/customer-rate-limit.service.ts).
 */
module CustomerRateLimit {
  import opened Text
  import opened RateLimiter
  import Numbers

  const WINDOW_SECONDS: nat := 60

  function KeyFor(tenantId: string, customerId: string): string { "customer:" + tenantId + ":" + customerId }

  /** Slots a send uses: its count truncated toward zero, and at least one. */
  function Slots(count: real): (n: nat)
    ensures n >= 1
    ensures count >= 1.0 ==> n as real <= count < n as real + 1.0
    ensures n == 1 <==> count < 2.0
  {
    var truncated := Numbers.Truncated(count);
    if truncated > 1 then truncated else 1
  }

  lemma ColonEndsTenant(text: string, tenantId: string, customerId: string, other: string, otherCustomer: string)
    requires text == tenantId + ":" + customerId && text == other + ":" + otherCustomer && ':' !in other
    ensures |other| <= |tenantId|
  {
    assert forall i :: 0 <= i < |other| ==> text[i] == other[i] && other[i] in other;
    assert text[|tenantId|] == ':';
  }

  /** Tenants without a colon in their name keep their customers' counters apart. */
  lemma CustomersApart(tenantId: string, customerId: string, otherTenant: string, otherCustomer: string)
    requires ':' !in tenantId && ':' !in otherTenant
    requires KeyFor(tenantId, customerId) == KeyFor(otherTenant, otherCustomer)
    ensures tenantId == otherTenant && customerId == otherCustomer
  {
    var text, n := tenantId + ":" + customerId, |tenantId|;
    assert KeyFor(tenantId, customerId)[9..] == text;
    assert KeyFor(otherTenant, otherCustomer)[9..] == otherTenant + ":" + otherCustomer;
    ColonEndsTenant(text, tenantId, customerId, otherTenant, otherCustomer);
    ColonEndsTenant(text, otherTenant, otherCustomer, tenantId, customerId);
    assert text[..n] == tenantId && text[..n] == otherTenant;
    assert text[n + 1..] == customerId && text[n + 1..] == otherCustomer;
  }

  /** What the clock said at one consume, and what became of its script. */
  datatype Tick = Tick(now: nat, fate: ScriptFate)

  /** The store after the slots of one send. */
  function AfterSlots(store: Store, keyId: string, limit: int, ticks: seq<Tick>): Store {
    if ticks == [] then store
    else
      var before, t := AfterSlots(store, keyId, limit, ticks[..|ticks| - 1]), ticks[|ticks| - 1];
      if t.fate == NeverRuns then before else Served(before, Request(keyId, limit, t.now), WINDOW_SECONDS)
  }

  /** The answer to the last of them, which alone decides. */
  function LastSlot(store: Store, keyId: string, limit: int, ticks: seq<Tick>): RateLimitResult
    requires ticks != []
  {
    var before, t := AfterSlots(store, keyId, limit, ticks[..|ticks| - 1]), ticks[|ticks| - 1];
    if t.fate != Answers then FailOpen(limit) else Answer(before, Request(keyId, limit, t.now), WINDOW_SECONDS)
  }

  datatype Outcome =
    | Unenforced(customerId: Option<string>)
    | Degraded(limit: int, remaining: int)
    | Enforced(limit: int, remaining: int)
    | TooManyRequests(limit: int, retryAfterSeconds: int)

  /** A customer is named, and has a limit. */
  predicate HasLimit(customerId: Option<string>, rateLimit: Option<int>) {
    customerId.Some? && customerId.value != "" && rateLimit.Some? && rateLimit.value > 0
  }

  class CustomerRateLimitService {
    const limiter: GatewayRateLimiter

    constructor (limiter: GatewayRateLimiter)
      ensures this.limiter == limiter
    {
      this.limiter := limiter;
    }

    /** `rateLimit` is the customer's column; a missing row or an unreadable value limits nothing. */
    method Consume(tenantId: string, customerId: Option<string>, rateLimit: Option<int>, count: real, ticks: seq<Tick>)
      returns (o: Outcome)
      requires |ticks| == Slots(count)
      modifies limiter.redis
      ensures !HasLimit(customerId, rateLimit) ==>
        o == Unenforced(customerId) && (limiter.redis != null ==> limiter.redis.store == old(limiter.redis.store))
      ensures HasLimit(customerId, rateLimit) && limiter.redis == null ==>
        o == Degraded(rateLimit.value, rateLimit.value)
      ensures HasLimit(customerId, rateLimit) && limiter.redis != null ==>
        var keyId, limit := KeyFor(tenantId, customerId.value), rateLimit.value;
        var answer := LastSlot(old(limiter.redis.store), keyId, limit, ticks);
        && limiter.redis.store == AfterSlots(old(limiter.redis.store), keyId, limit, ticks)
        && (ticks[|ticks| - 1].fate != Answers ==> o == Degraded(limit, limit))
        && (ticks[|ticks| - 1].fate == Answers && answer.allowed ==> o == Enforced(limit, answer.remaining))
        && (ticks[|ticks| - 1].fate == Answers && !answer.allowed ==>
            o == TooManyRequests(limit, answer.retryAfterSeconds))
    {
      hide Served, KeyFor;
      if customerId.None? || customerId.value == "" { return Unenforced(customerId); }
      var limit := if rateLimit.None? then 0 else rateLimit.value;
      if limit <= 0 { return Unenforced(customerId); }
      var keyId := KeyFor(tenantId, customerId.value);
      var redis := limiter.redis;
      ghost var start := if redis == null then map[] else redis.store;
      var result := limiter.Consume(keyId, limit, WINDOW_SECONDS, ticks[0].now, ticks[0].fate);
      assert ticks[..1] == [ticks[0]] && ticks[..1][..0] == [];
      var extra := 1;
      while extra < Slots(count)
        invariant 1 <= extra <= Slots(count)
        invariant redis == null ==> result == FailOpen(limit)
        invariant redis != null ==>
          redis.store == AfterSlots(start, keyId, limit, ticks[..extra]) &&
            result == LastSlot(start, keyId, limit, ticks[..extra])
      {
        result := limiter.Consume(keyId, limit, WINDOW_SECONDS, ticks[extra].now, ticks[extra].fate);
        assert ticks[..extra + 1][..extra] == ticks[..extra];
        extra := extra + 1;
      }
      assert ticks[..extra] == ticks;
      if result.degraded { return Degraded(limit, result.remaining); }
      if !result.allowed { return TooManyRequests(limit, result.retryAfterSeconds); }
      return Enforced(limit, result.remaining);
    }
  }

  // ---- Batches within whole runs ---------------------------------------------------

  /** One send that reaches Redis: its readings of the clock, one per slot. */
  datatype Batch = Batch(keyId: string, limit: int, at: seq<nat>)

  function Asks(b: Batch): seq<Event> {
    seq(|b.at|, i requires 0 <= i < |b.at| => Ask(Request(b.keyId, b.limit, b.at[i])))
  }

  function Ticks(b: Batch): seq<Tick> { seq(|b.at|, i requires 0 <= i < |b.at| => Tick(b.at[i], Answers)) }

  /** Window of its last slot, which decides. */
  function LastWindow(b: Batch): nat
    requires b.at != []
  {
    WindowStart(b.at[|b.at| - 1], WINDOW_SECONDS)
  }

  /** Readings that fall in a window. */
  function Within(at: seq<nat>, window: nat): (n: nat)
    ensures n <= |at|
  {
    if at == [] then 0
    else Within(at[..|at| - 1], window) + if WindowStart(at[|at| - 1], WINDOW_SECONDS) == window then 1 else 0
  }

  function Shorter(b: Batch): Batch
    requires b.at != []
  {
    b.(at := b.at[..|b.at| - 1])
  }

  lemma AsksSnoc(events: seq<Event>, b: Batch)
    requires b.at != []
    ensures events + Asks(b) == (events + Asks(Shorter(b))) + [Ask(Request(b.keyId, b.limit, b.at[|b.at| - 1]))]
    ensures (events + Asks(b))[..|events + Asks(b)| - 1] == events + Asks(Shorter(b))
    ensures Ticks(b)[..|b.at| - 1] == Ticks(Shorter(b))
  {
  }

  lemma NoSlots(events: seq<Event>, b: Batch)
    requires b.at == []
    ensures events + Asks(b) == events
    ensures forall store :: AfterSlots(store, b.keyId, b.limit, Ticks(b)) == store
  {
  }

  lemma TicksSnoc(b: Batch)
    requires b.at != []
    ensures Shorter(b).keyId == b.keyId && Shorter(b).limit == b.limit
    ensures Ticks(b) == Ticks(Shorter(b)) + [Tick(b.at[|b.at| - 1], Answers)]
  {
  }

  lemma OneMoreSlot(store: Store, keyId: string, limit: int, ticks: seq<Tick>, t: Tick)
    requires t.fate == Answers
    ensures AfterSlots(store, keyId, limit, ticks + [t]) ==
      Served(AfterSlots(store, keyId, limit, ticks), Request(keyId, limit, t.now), WINDOW_SECONDS)
  {
    hide Served;
    assert (ticks + [t])[..|ticks|] == ticks;
  }

  lemma SlotServed(store: Store, b: Batch)
    requires b.at != []
    ensures AfterSlots(store, b.keyId, b.limit, Ticks(b)) ==
      Served(AfterSlots(store, b.keyId, b.limit, Ticks(Shorter(b))),
        Request(b.keyId, b.limit, b.at[|b.at| - 1]), WINDOW_SECONDS)
  {
    hide *;
    TicksSnoc(b);
    OneMoreSlot(store, b.keyId, b.limit, Ticks(Shorter(b)), Tick(b.at[|b.at| - 1], Answers));
  }

  lemma RequestServed(events: seq<Event>, b: Batch)
    requires b.at != []
    ensures Run(events + Asks(b), WINDOW_SECONDS).store ==
      Served(Run(events + Asks(Shorter(b)), WINDOW_SECONDS).store,
        Request(b.keyId, b.limit, b.at[|b.at| - 1]), WINDOW_SECONDS)
  {
    AsksSnoc(events, b);
    hide Asks, Ticks, Answer, WindowStart, KeyOf, AfterScript;
  }

  /** The slots of a batch are requests of the run. */
  lemma {:induction false} SlotsAreRequests(events: seq<Event>, b: Batch)
    ensures Run(events + Asks(b), WINDOW_SECONDS).store ==
      AfterSlots(Run(events, WINDOW_SECONDS).store, b.keyId, b.limit, Ticks(b))
    decreases |b.at|
  {
    hide Run, AfterSlots, Served, Asks, Ticks;
    if b.at == [] {
      NoSlots(events, b);
    } else {
      SlotsAreRequests(events, Shorter(b));
      SlotServed(Run(events, WINDOW_SECONDS).store, b);
      RequestServed(events, b);
    }
  }

  /** Every slot of a batch is used, in its own window, whether or not the batch is accepted. */
  lemma {:induction false} SlotsUsed(events: seq<Event>, b: Batch, keyId: string, window: nat)
    requires b.limit > 0
    ensures
      var used := if b.keyId == keyId then Within(b.at, window) else 0;
      var before, after := Run(events, WINDOW_SECONDS).log, Run(events + Asks(b), WINDOW_SECONDS).log;
      Hits(after, keyId, window) == Hits(before, keyId, window) + used
    decreases |b.at|
  {
    if b.at == [] {
      assert events + Asks(b) == events;
    } else {
      AsksSnoc(events, b);
      SlotsUsed(events, Shorter(b), keyId, window);
      var s := Run(events + Asks(Shorter(b)), WINDOW_SECONDS);
      var q := Request(b.keyId, b.limit, b.at[|b.at| - 1]);
      assert Run(events + Asks(b), WINDOW_SECONDS) == Next(s, Ask(q), WINDOW_SECONDS);
      var w := WindowStart(q.at, WINDOW_SECONDS);
      HitsSnoc(s.log, Hit(q.keyId, w, q.at, Answer(s.store, q, WINDOW_SECONDS).allowed), keyId, window);
      hide Hits, Run, Served, Answer, WindowStart, Asks;
    }
  }

  /** The answer to the last slot, in terms of the hits in its window. */
  lemma LastSlotAnswers(events: seq<Event>, b: Batch)
    requires b.at != [] && b.limit > 0 && InOrder(events + Asks(b))
    ensures
      var w := LastWindow(b);
      var used := Hits(Run(events, WINDOW_SECONDS).log, b.keyId, w) + Within(b.at, w);
      var r := LastSlot(Run(events, WINDOW_SECONDS).store, b.keyId, b.limit, Ticks(b));
      && (r.allowed <==> used <= b.limit)
      && (r.allowed ==> r.remaining == b.limit - used)
      && (!r.allowed ==> 1 <= r.retryAfterSeconds <= 60)
  {
    hide Hits, Run, Answer, WindowStart, Asks, InOrder, AfterSlots;
    AsksSnoc(events, b);
    var before := events + Asks(Shorter(b));
    var q := Request(b.keyId, b.limit, b.at[|b.at| - 1]);
    AllowedIffRoom(before, q, WINDOW_SECONDS);
    SlotsAreRequests(events, Shorter(b));
    SlotsUsed(events, Shorter(b), b.keyId, LastWindow(b));
    if !Answer(Run(before, WINDOW_SECONDS).store, q, WINDOW_SECONDS).allowed {
      OneSecondMoreLandsLater(before, q, WINDOW_SECONDS);
    }
  }

  /**
   * A send after any run, every script answered: with `used` the hits in the window of its
   * last slot, its own included, it goes out with what is left, or is refused for at most a minute.
   */
  method ConsumeInRun(
    service: CustomerRateLimitService, tenantId: string, customerId: string, limit: int, count: real, at: seq<nat>,
    ghost events: seq<Event>)
    returns (o: Outcome)
    requires service.limiter.redis != null && service.limiter.redis.store == Run(events, WINDOW_SECONDS).store
    requires customerId != "" && limit > 0 && |at| == Slots(count)
    requires InOrder(events + Asks(Batch(KeyFor(tenantId, customerId), limit, at)))
    modifies service.limiter.redis
    ensures
      var b := Batch(KeyFor(tenantId, customerId), limit, at);
      var w := LastWindow(b);
      var used := Hits(Run(events, WINDOW_SECONDS).log, b.keyId, w) + Within(at, w);
      && (used <= limit ==> o == Enforced(limit, limit - used))
      && (used > limit ==> o.TooManyRequests? && o.limit == limit && 1 <= o.retryAfterSeconds <= 60)
      && service.limiter.redis.store == Run(events + Asks(b), WINDOW_SECONDS).store
  {
    hide Hits, Run, LastWindow, Within, Asks, InOrder, AfterSlots, LastSlot, KeyFor;
    ghost var b := Batch(KeyFor(tenantId, customerId), limit, at);
    LastSlotAnswers(events, b);
    SlotsAreRequests(events, b);
    var ticks := seq(|at|, i requires 0 <= i < |at| => Tick(at[i], Answers));
    assert ticks == Ticks(b);
    o := service.Consume(tenantId, Some(customerId), Some(limit), count, ticks);
  }

  /** Whether the batch is let through, coming after the given events. */
  function Accepted(events: seq<Event>, b: Batch): bool
    requires b.at != []
  {
    LastSlot(Run(events, WINDOW_SECONDS).store, b.keyId, b.limit, Ticks(b)).allowed
  }

  /**
   * A batch is accepted exactly when the window of its last slot has room for the
   * slots it has there; slots in earlier windows do not count.
   */
  lemma AcceptedIffRoom(events: seq<Event>, b: Batch)
    requires b.at != [] && b.limit > 0 && InOrder(events + Asks(b))
    ensures
      var w := LastWindow(b);
      Accepted(events, b) <==> Hits(Run(events, WINDOW_SECONDS).log, b.keyId, w) + Within(b.at, w) <= b.limit
  {
    hide Hits, Run, LastSlot, LastWindow, Within, Asks, InOrder, Ticks;
    LastSlotAnswers(events, b);
  }

  /** All its slots fall in one window. */
  predicate OneWindow(b: Batch)
    requires b.at != []
  {
    Within(b.at, LastWindow(b)) == |b.at|
  }

  /** Sends one after another, with any other traffic in between. */
  datatype Item = Send(batch: Batch) | Other(event: Event)

  function Events(items: seq<Item>): seq<Event> {
    if items == [] then []
    else
      var i := items[|items| - 1];
      Events(items[..|items| - 1]) + if i.Send? then Asks(i.batch) else [i.event]
  }

  /** A send of this key that is decided in the window. */
  predicate Counts(b: Batch, keyId: string, window: nat) { b.at != [] && b.keyId == keyId && LastWindow(b) == window }

  /** Messages of the accepted batches of a key that are decided in the window. */
  function AcceptedMessages(items: seq<Item>, keyId: string, window: nat): nat {
    if items == [] then 0
    else
      var before, i := items[..|items| - 1], items[|items| - 1];
      AcceptedMessages(before, keyId, window)
        + if i.Send? && Counts(i.batch, keyId, window) && Accepted(Events(before), i.batch) then |i.batch.at| else 0
  }

  /** Of these messages, those whose slot was taken from an earlier window. */
  function EarlyMessages(items: seq<Item>, keyId: string, window: nat): nat {
    if items == [] then 0
    else
      var before, i := items[..|items| - 1], items[|items| - 1];
      EarlyMessages(before, keyId, window)
        + if i.Send? && Counts(i.batch, keyId, window) && Accepted(Events(before), i.batch)
          then |i.batch.at| - Within(i.batch.at, window) else 0
  }

  /** The sends that count are under one limit. */
  ghost predicate Limited(items: seq<Item>, keyId: string, window: nat, limit: nat) {
    forall i :: i in items && i.Send? && Counts(i.batch, keyId, window) ==> i.batch.limit == limit > 0
  }

  lemma PrefixInOrder(a: seq<Event>, b: seq<Event>)
    requires InOrder(a + b)
    ensures InOrder(a)
  {
    forall i, j | 0 <= i < j < |a| ensures EventTime(a[i]) <= EventTime(a[j]) {
      assert (a + b)[i] == a[i] && (a + b)[j] == a[j];
    }
  }

  lemma {:induction false} MoreEventsMoreHits(events: seq<Event>, more: seq<Event>, keyId: string, window: nat)
    ensures Hits(Run(events + more, WINDOW_SECONDS).log, keyId, window) >= Hits(Run(events, WINDOW_SECONDS).log, keyId,
      window)
  {
    if more == [] {
      assert events + more == events;
    } else {
      var e := more[|more| - 1];
      MoreEventsMoreHits(events, more[..|more| - 1], keyId, window);
      assert (events + more)[..|events + more| - 1] == events + more[..|more| - 1];
      var s := Run(events + more[..|more| - 1], WINDOW_SECONDS);
      if e.Ask? && e.request.limit > 0 {
        HitsSnoc(s.log,
          Hit(e.request.keyId, WindowStart(e.request.at, WINDOW_SECONDS), e.request.at,
            Answer(s.store, e.request, WINDOW_SECONDS).allowed), keyId, window);
      }
      hide Hits, WindowStart, Answer, Served;
    }
  }

  /**
   * Over any run of batches, the accepted messages of a customer in a window exceed
   * its limit by no more than the messages whose slots were taken in earlier windows.
   */
  lemma {:induction false} AcceptedMessagesBounded(items: seq<Item>, keyId: string, window: nat, limit: nat)
    requires InOrder(Events(items)) && Limited(items, keyId, window, limit)
    ensures
      var own := AcceptedMessages(items, keyId, window) - EarlyMessages(items, keyId, window);
      own <= Hits(Run(Events(items), WINDOW_SECONDS).log, keyId, window) && own <= limit
  {
    if items != [] {
      var before, i := items[..|items| - 1], items[|items| - 1];
      var added := if i.Send? then Asks(i.batch) else [i.event];
      assert i in items && Limited(before, keyId, window, limit);
      assert Events(items) == Events(before) + added;
      PrefixInOrder(Events(before), added);
      AcceptedMessagesBounded(before, keyId, window, limit);
      MoreEventsMoreHits(Events(before), added, keyId, window);
      if i.Send? && Counts(i.batch, keyId, window) {
        AcceptedIffRoom(Events(before), i.batch);
        SlotsUsed(Events(before), i.batch, keyId, window);
      }
      hide Hits, Run, WindowStart, InOrder, Asks, Accepted, Within, LastWindow;
    }
  }

  /** Each send that counts keeps to one window. */
  ghost predicate NoneCross(items: seq<Item>, keyId: string, window: nat) {
    forall i :: i in items && i.Send? && Counts(i.batch, keyId, window) ==> OneWindow(i.batch)
  }

  lemma {:induction false} NoneEarly(items: seq<Item>, keyId: string, window: nat)
    requires NoneCross(items, keyId, window)
    ensures EarlyMessages(items, keyId, window) == 0
  {
    if items != [] {
      var before, i := items[..|items| - 1], items[|items| - 1];
      assert i in items && NoneCross(before, keyId, window);
      NoneEarly(before, keyId, window);
      hide Accepted, Within, LastWindow;
    }
  }

  /** So when no batch crosses into the window, they never exceed the limit there. */
  lemma AcceptedMessagesWithinLimit(items: seq<Item>, keyId: string, window: nat, limit: nat)
    requires InOrder(Events(items)) && Limited(items, keyId, window, limit) && NoneCross(items, keyId, window)
    ensures AcceptedMessages(items, keyId, window) <= limit
  {
    hide *;
    AcceptedMessagesBounded(items, keyId, window, limit);
    NoneEarly(items, keyId, window);
  }

  ghost predicate Rising(at: seq<nat>) { forall i, j :: 0 <= i < j < |at| ==> at[i] <= at[j] }

  lemma RisingAsks(b: Batch)
    requires Rising(b.at)
    ensures InOrder([] + Asks(b))
  {
  }

  lemma LastIsWithin(b: Batch)
    requires b.at != []
    ensures Within(b.at, LastWindow(b)) >= 1
  {
  }

  /** A batch sends no more messages than any limit that accepts it exactly when it keeps to one window. */
  lemma BoundedExactlyInOneWindow(b: Batch)
    requires b.at != [] && Rising(b.at)
    ensures OneWindow(b) <==> forall limit: nat :: limit > 0 && Accepted([], b.(limit := limit)) ==> |b.at| <= limit
  {
    hide Accepted, Within, LastWindow;
    LastIsWithin(b);
    forall limit: nat | limit > 0 ensures Accepted([], b.(limit := limit)) <==> Within(b.at, LastWindow(b)) <= limit {
      AcceptedAlone(b, limit);
    }
    assert Accepted([], b.(limit := Within(b.at, LastWindow(b))));
  }

  lemma AcceptedAlone(b: Batch, limit: nat)
    requires b.at != [] && Rising(b.at) && limit > 0
    ensures Accepted([], b.(limit := limit)) <==> Within(b.at, LastWindow(b)) <= limit
  {
    hide Accepted, Within, WindowStart, Hits;
    var c := b.(limit := limit);
    RisingAsks(c);
    NoHits(b.keyId, LastWindow(b));
    AcceptedIffRoom([], c);
    assert LastWindow(c) == LastWindow(b);
  }

  lemma NoHits(keyId: string, window: nat)
    ensures Hits(Run([], WINDOW_SECONDS).log, keyId, window) == 0
  {
  }

  /** All the slots but the last just before the turn of a minute, and the last just after it. */
  function AcrossTheTurn(n: nat): (at: seq<nat>)
    requires n >= 1
    ensures |at| == n && Rising(at)
  {
    seq(n, i => if i < n - 1 then 59_999 else 60_000)
  }

  lemma {:induction false} NoneWithin(at: seq<nat>, window: nat)
    requires forall i :: 0 <= i < |at| ==> WindowStart(at[i], WINDOW_SECONDS) != window
    ensures Within(at, window) == 0
  {
    hide WindowStart;
    if at != [] { NoneWithin(at[..|at| - 1], window); }
  }

  lemma OnlyTheLastWithin(n: nat)
    requires n >= 1
    ensures Within(AcrossTheTurn(n), 60) == 1
  {
    hide WindowStart;
    TurnOfTheMinute();
    NoneWithin(AcrossTheTurn(n)[..n - 1], 60);
  }

  lemma LastOfTheTurn(n: nat)
    requires n >= 1
    ensures WindowStart(AcrossTheTurn(n)[n - 1], WINDOW_SECONDS) == 60
  {
    hide WindowStart;
    TurnOfTheMinute();
  }

  /** Whatever its size, a batch is accepted at some timing under every limit. */
  lemma AcceptedAcrossTheTurn(keyId: string, n: nat, limit: nat)
    requires n >= 1 && limit > 0
    ensures Accepted([], Batch(keyId, limit, AcrossTheTurn(n)))
  {
    hide Accepted, Within, WindowStart, AcrossTheTurn;
    var b := Batch(keyId, limit, AcrossTheTurn(n));
    LastOfTheTurn(n);
    OnlyTheLastWithin(n);
    AcceptedAlone(b, limit);
  }

  lemma TurnCrosses(keyId: string, n: nat)
    requires n > 1
    ensures !OneWindow(Batch(keyId, 1, AcrossTheTurn(n)))
  {
    hide WindowStart, AcrossTheTurn, Within;
    LastOfTheTurn(n);
    OnlyTheLastWithin(n);
  }

  /** Only a single slot keeps to one window at every timing. */
  lemma OneWindowAtEveryTiming(keyId: string, n: nat)
    requires n >= 1
    ensures n == 1 <==> forall at :: |at| == n && Rising(at) ==> OneWindow(Batch(keyId, 1, at))
  {
    hide Within, LastWindow, AcrossTheTurn;
    if n == 1 {
      forall at | |at| == n ensures OneWindow(Batch(keyId, 1, at)) { LastIsWithin(Batch(keyId, 1, at)); }
    } else {
      TurnCrosses(keyId, n);
    }
  }

  /**
   * What a caller can tell from the count: a send keeps, at every timing, to every limit
   * that accepts it exactly when its count is below two, and to one given limit exactly
   * when its slots do not exceed that limit anyway.
   */
  lemma BoundedAtEveryTiming(keyId: string, count: real, limit: nat)
    requires limit > 0
    ensures count < 2.0 <==>
      forall at, l: nat ::
        |at| == Slots(count) && Rising(at) && l > 0 && Accepted([], Batch(keyId, l, at)) ==> |at| <= l
    ensures Slots(count) <= limit <==>
      forall at :: |at| == Slots(count) && Rising(at) && Accepted([], Batch(keyId, limit, at)) ==> |at| <= limit
  {
    hide Accepted, AcrossTheTurn, Rising;
    var n := Slots(count);
    AcceptedAcrossTheTurn(keyId, n, 1);
    AcceptedAcrossTheTurn(keyId, n, limit);
    assert |AcrossTheTurn(n)| == n;
  }

  /** With a limit of one message a minute, a batch of three goes out around the turn of a minute. */
  lemma BatchSlipsThrough()
    ensures Accepted([], Batch("k", 1, [59_998, 59_999, 60_000]))
  {
    hide Accepted, Hits, Within, WindowStart;
    var b := Batch("k", 1, [59_998, 59_999, 60_000]);
    RisingAsks(b);
    NoHits("k", 60);
    AcceptedIffRoom([], b);
    TurnOfTheMinute();
    OneOfThree(b.at[0], b.at[1], b.at[2], 60);
  }

  lemma TurnOfTheMinute()
    ensures WindowStart(59_998, WINDOW_SECONDS) == 0 && WindowStart(59_999, WINDOW_SECONDS) == 0
    ensures WindowStart(60_000, WINDOW_SECONDS) == 60
  {
  }

  lemma OneOfThree(x: nat, y: nat, z: nat, window: nat)
    requires WindowStart(x, WINDOW_SECONDS) != window && WindowStart(y, WINDOW_SECONDS) != window
    requires WindowStart(z, WINDOW_SECONDS) == window
    ensures Within([x, y, z], window) == 1
  {
    hide WindowStart;
    assert [x, y, z][..2] == [x, y] && [x, y][..1] == [x] && [x][..0] == [];
    assert Within([], window) == 0;
    assert Within([x], window) == 0;
    assert Within([x, y], window) == 0;
  }
}
