/**
 * Message quotas with lazily reset counters
 * (backend/src/customers-depth/customer-quota.service.ts).
 * Transactions are serial, as the row locks make them; one clock.
 */
module Quota {

  datatype Period = Daily | Monthly

  /** An instant by its UTC calendar parts. */
  datatype UtcTime = UtcTime(year: int, month: nat, day: nat, millis: nat)

  datatype Row = Row(limit: int, used: int, windowStart: UtcTime)

  datatype RowKey = RowKey(customerId: string, period: Period)

  type Rows = map<RowKey, Row>

  /** Whether the window that began at `start` is over. */
  predicate WindowElapsed(period: Period, start: UtcTime, now: UtcTime) {
    match period
    case Daily => start.year != now.year || start.month != now.month || start.day != now.day
    case Monthly => start.year != now.year || start.month != now.month
  }

  /** The same UTC day, or the same UTC month. */
  predicate SameWindow(period: Period, a: UtcTime, b: UtcTime) {
    a.year == b.year && a.month == b.month && (period == Daily ==> a.day == b.day)
  }

  /** What the row counts for the window of `now`. */
  function InUse(period: Period, row: Row, now: UtcTime): int {
    if SameWindow(period, row.windowStart, now) then row.used else 0
  }

  datatype Usage = Usage(period: Period, limit: int, used: int, remaining: int, windowStart: UtcTime)

  function ToUsage(period: Period, row: Row): Usage {
    Usage(period, row.limit, row.used, if row.limit - row.used > 0 then row.limit - row.used else 0, row.windowStart)
  }

  datatype Failure = BadRequest | NotFound | Exceeded(period: Period, used: int, limit: int)

  datatype Result<+T> = Ok(value: T) | Err(failure: Failure)

  /** A row after it is charged, its window reset first when that is over. */
  function Charged(period: Period, row: Row, count: int, now: UtcTime): Row {
    if WindowElapsed(period, row.windowStart, now) then Row(row.limit, count, now) else row.(used := row.used + count)
  }

  predicate Fits(rows: Rows, key: RowKey, count: int, now: UtcTime) {
    key in rows ==> Charged(key.period, rows[key], count, now).used <= rows[key].limit
  }

  predicate AllFit(rows: Rows, customerId: string, count: int, now: UtcTime) {
    Fits(rows, RowKey(customerId, Daily), count, now) && Fits(rows, RowKey(customerId, Monthly), count, now)
  }

  /** Charges every row of the customer, or none. */
  function AfterConsume(rows: Rows, customerId: string, count: int, now: UtcTime): Rows {
    if !AllFit(rows, customerId, count, now) then rows
    else map k | k in rows :: if k.customerId == customerId then Charged(k.period, rows[k], count, now) else rows[k]
  }

  /** Changes the cap and keeps the usage; a new row starts unused, now. */
  function AfterSet(rows: Rows, key: RowKey, limit: int, now: UtcTime): Rows {
    rows[key := if key in rows then rows[key].(limit := limit) else Row(limit, 0, now)]
  }

  /** The customer's periods, in the order the rows are read. */
  function Periods(rows: Rows, customerId: string): (r: seq<Period>)
    ensures forall p :: p in r <==> RowKey(customerId, p) in rows
    ensures forall i, j :: 0 <= i < j < |r| ==> r[i] != r[j]
  {
    assert forall p: Period {:trigger RowKey(customerId, p)} :: p.Daily? || p.Monthly?;
    (if RowKey(customerId, Daily) in rows then [Daily] else []) +
      (if RowKey(customerId, Monthly) in rows then [Monthly] else [])
  }

  datatype Effective = Effective(period: Period, row: Row, elapsed: bool, used: int)

  predicate IsEffective(e: Effective, period: Period, row: Row, count: int, now: UtcTime) {
    && e.period == period && e.row == row
    && e.elapsed == WindowElapsed(period, row.windowStart, now)
    && e.used == (if e.elapsed then 0 else row.used) + count
  }

  ghost predicate AreEffective(
    effective: seq<Effective>, periods: seq<Period>, rows: Rows, customerId: string, count: int, now: UtcTime)
  {
    && |effective| == |periods|
    && (forall j :: 0 <= j < |periods| ==> RowKey(customerId, periods[j]) in rows)
    && (forall j :: 0 <= j < |periods| ==>
        IsEffective(effective[j], periods[j], rows[RowKey(customerId, periods[j])], count, now))
  }

  /** One usage per configured period, read from the rows. */
  ghost predicate Reports(usages: seq<Usage>, rows: Rows, customerId: string) {
    var periods := Periods(rows, customerId);
    |usages| == |periods| && forall i :: 0 <= i < |periods| ==>
      var row := rows[RowKey(customerId, periods[i])];
      && usages[i].period == periods[i] && usages[i].limit == row.limit && usages[i].used == row.used
      && usages[i].windowStart == row.windowStart
      && usages[i].remaining == if row.used < row.limit then row.limit - row.used else 0
  }

  /** Each of the customer's rows counts the messages, in a new window if its own was over; the rest is as it was. */
  ghost predicate ChargedTo(before: Rows, rows: Rows, customerId: string, count: int, now: UtcTime) {
    rows.Keys == before.Keys && forall k :: k in rows ==>
      var row := before[k];
      if k.customerId != customerId then rows[k] == row
      else
        && rows[k].limit == row.limit && rows[k].used == InUse(k.period, row, now) + count
        && rows[k].windowStart == if SameWindow(k.period, row.windowStart, now) then row.windowStart else now
  }

  lemma ConsumeMeans(rows: Rows, customerId: string, count: int, now: UtcTime)
    ensures AllFit(rows, customerId, count, now) ==>
      ChargedTo(rows, AfterConsume(rows, customerId, count, now), customerId, count, now)
  {
  }

  lemma FitsMeans(rows: Rows, customerId: string, count: int, now: UtcTime)
    ensures AllFit(rows, customerId, count, now) <==>
      forall k :: k in rows && k.customerId == customerId ==> InUse(k.period, rows[k], now) + count <= rows[k].limit
  {
    assert forall k: RowKey :: k.customerId == customerId ==>
      k == RowKey(customerId, Daily) || k == RowKey(customerId, Monthly) by {
      forall k: RowKey | k.customerId == customerId
        ensures k == RowKey(customerId, Daily) || k == RowKey(customerId, Monthly)
      {
        if k.period == Daily {
          assert k == RowKey(customerId, Daily);
        } else {
          assert k == RowKey(customerId, Monthly);
        }
      }
    }
  }

  lemma ChargedIs(e: Effective, period: Period, row: Row, count: int, now: UtcTime)
    requires IsEffective(e, period, row, count, now)
    ensures e.period == period
    ensures Charged(period, row, count, now) == Row(e.row.limit, e.used, if e.elapsed then now else e.row.windowStart)
  {
  }

  /** The rows after the periods in `done` are charged, and what is reported of them. */
  ghost predicate Written(
    before: Rows, rows: Rows, updated: seq<Usage>, customerId: string, done: seq<Period>, count: int, now: UtcTime)
  {
    && rows.Keys == before.Keys && |updated| == |done|
    && (forall k :: k in rows && (k.customerId != customerId || k.period !in done) ==> rows[k] == before[k])
    && (forall j :: 0 <= j < |done| ==>
        var k := RowKey(customerId, done[j]);
        k in rows && rows[k] == Charged(done[j], before[k], count, now) && updated[j] == ToUsage(done[j], rows[k]))
  }

  lemma NothingWritten(rows: Rows, customerId: string, count: int, now: UtcTime)
    ensures Written(rows, rows, [], customerId, [], count, now)
  {
  }

  lemma OneMoreWritten(
    before: Rows, rows: Rows, updated: seq<Usage>, customerId: string, done: seq<Period>, count: int, now: UtcTime,
    p: Period)
    requires Written(before, rows, updated, customerId, done, count, now)
    requires p !in done && RowKey(customerId, p) in before
    ensures
      var key := RowKey(customerId, p);
      var row := Charged(p, before[key], count, now);
      Written(before, rows[key := row], updated + [ToUsage(p, row)], customerId, done + [p], count, now)
  {
    hide Charged, ToUsage;
  }

  lemma WrittenMeans(
    before: Rows, rows: Rows, updated: seq<Usage>, customerId: string, done: seq<Period>, count: int, now: UtcTime)
    requires Written(before, rows, updated, customerId, done, count, now)
    ensures rows.Keys == before.Keys && |updated| == |done|
    ensures forall k :: k in rows && (k.customerId != customerId || k.period !in done) ==> rows[k] == before[k]
    ensures forall j :: 0 <= j < |done| ==>
      var k := RowKey(customerId, done[j]);
      k in rows && rows[k] == Charged(done[j], before[k], count, now) && updated[j] == ToUsage(done[j], rows[k])
  {
    hide Charged, ToUsage;
  }

  lemma NothingToCharge(rows: Rows, customerId: string, count: int, now: UtcTime)
    requires Periods(rows, customerId) == []
    ensures AllFit(rows, customerId, count, now) && AfterConsume(rows, customerId, count, now) == rows
  {
    forall k | k in rows ensures k.customerId != customerId {
      assert k == RowKey(k.customerId, k.period) && k.period !in Periods(rows, customerId);
    }
  }

  lemma OneExceeds(rows: Rows, customerId: string, e: Effective, count: int, now: UtcTime)
    requires RowKey(customerId, e.period) in rows &&
      IsEffective(e, e.period, rows[RowKey(customerId, e.period)], count, now)
    requires e.used > e.row.limit
    ensures !AllFit(rows, customerId, count, now) && AfterConsume(rows, customerId, count, now) == rows
    ensures
      var row := rows[RowKey(customerId, e.period)];
      e.row.limit == row.limit && e.used == InUse(e.period, row, now) + count
  {
    assert !Fits(rows, RowKey(customerId, e.period), count, now);
    assert e.period == Daily || e.period == Monthly;
  }

  lemma AllCharged(rows: Rows, after: Rows, customerId: string, periods: seq<Period>, effective: seq<Effective>,
    count: int, now: UtcTime)
    requires periods == Periods(rows, customerId) && AreEffective(effective, periods, rows, customerId, count, now)
    requires forall j :: 0 <= j < |periods| ==> effective[j].used <= effective[j].row.limit
    requires after.Keys == rows.Keys
    requires forall k :: k in after && (k.customerId != customerId || k.period !in periods) ==> after[k] == rows[k]
    requires forall j :: 0 <= j < |periods| ==>
      var k := RowKey(customerId, periods[j]);
      k in after && after[k] == Charged(periods[j], rows[k], count, now)
    ensures AllFit(rows, customerId, count, now)
    ensures after == AfterConsume(rows, customerId, count, now)
  {
    hide Charged;
    forall k | k in rows && k.customerId == customerId
      ensures after[k] == Charged(k.period, rows[k], count, now) && Fits(rows, k, count, now)
    {
      assert k == RowKey(customerId, k.period) && k.period in periods;
      var j :| 0 <= j < |periods| && periods[j] == k.period;
      ChargedIs(effective[j], periods[j], rows[k], count, now);
    }
    assert RowKey(customerId, Daily).customerId == customerId && RowKey(customerId, Monthly).customerId == customerId;
  }

  lemma SamePeriods(rows: Rows, after: Rows, customerId: string)
    requires after.Keys == rows.Keys
    ensures Periods(after, customerId) == Periods(rows, customerId)
  {
    assert forall k :: k in after <==> k in rows.Keys;
  }

  class CustomerQuotaService {
    const customers: set<string>
    var rows: Rows

    constructor (customers: set<string>)
      ensures this.customers == customers && rows == map[]
    {
      this.customers := customers;
      rows := map[];
    }

    method SetQuota(customerId: string, period: Period, limit: int, now: UtcTime) returns (r: Result<Usage>)
      modifies this
      ensures limit < 0 ==> r == Err(BadRequest) && rows == old(rows)
      ensures limit >= 0 && customerId !in customers ==> r == Err(NotFound) && rows == old(rows)
      ensures limit >= 0 && customerId in customers ==>
        && rows == AfterSet(old(rows), RowKey(customerId, period), limit, now)
        && (RowKey(customerId, period) in old(rows) ==>
            rows[RowKey(customerId, period)] == old(rows)[RowKey(customerId, period)].(limit := limit))
        && (RowKey(customerId, period) !in old(rows) ==> rows[RowKey(customerId, period)] == Row(limit, 0, now))
        && var row := rows[RowKey(customerId, period)];
        r == Ok(Usage(period, limit, row.used, if row.used < limit then limit - row.used else 0, row.windowStart))
    {
      if limit < 0 { return Err(BadRequest); }
      if customerId !in customers { return Err(NotFound); }
      var key := RowKey(customerId, period);
      if key in rows {
        rows := rows[key := rows[key].(limit := limit)];
      } else {
        rows := rows[key := Row(limit, 0, now)];
      }
      return Ok(ToUsage(period, rows[key]));
    }

    method RemoveQuota(customerId: string, period: Period) returns (r: Result<bool>)
      modifies this
      ensures customerId !in customers ==> r == Err(NotFound) && rows == old(rows)
      ensures customerId in customers ==>
        r == Ok(RowKey(customerId, period) in old(rows)) && rows == old(rows) - {RowKey(customerId, period)}
    {
      if customerId !in customers { return Err(NotFound); }
      var key := RowKey(customerId, period);
      r := Ok(key in rows);
      rows := rows - {key};
    }

    /** What each row would show after the charge. */
    method ReadEffective(customerId: string, periods: seq<Period>, count: int, now: UtcTime)
      returns (effective: seq<Effective>)
      requires forall p :: p in periods ==> RowKey(customerId, p) in rows
      ensures AreEffective(effective, periods, rows, customerId, count, now)
    {
      effective := [];
      for i := 0 to |periods|
        invariant AreEffective(effective, periods[..i], rows, customerId, count, now)
      {
        assert periods[i] in periods;
        var row := rows[RowKey(customerId, periods[i])];
        var elapsed := WindowElapsed(periods[i], row.windowStart, now);
        effective := effective + [Effective(periods[i], row, elapsed, (if elapsed then 0 else row.used) + count)];
      }
    }

    method WriteEffective(customerId: string, periods: seq<Period>, effective: seq<Effective>, count: int, now: UtcTime)
      returns (updated: seq<Usage>)
      requires AreEffective(effective, periods, rows, customerId, count, now)
      requires forall i, j :: 0 <= i < j < |periods| ==> periods[i] != periods[j]
      modifies this
      ensures rows.Keys == old(rows).Keys && |updated| == |periods|
      ensures forall k :: k in rows && (k.customerId != customerId || k.period !in periods) ==> rows[k] == old(rows)[k]
      ensures forall j :: 0 <= j < |periods| ==>
        var k := RowKey(customerId, periods[j]);
        k in rows && rows[k] == Charged(periods[j], old(rows)[k], count, now) &&
          updated[j] == ToUsage(periods[j], rows[k])
    {
      hide Charged, ToUsage, IsEffective, Written;
      ghost var before := rows;
      updated := [];
      NothingWritten(rows, customerId, count, now);
      assert periods[..0] == [];
      for i := 0 to |effective|
        invariant Written(before, rows, updated, customerId, periods[..i], count, now)
      {
        var e := effective[i];
        var key := RowKey(customerId, periods[i]);
        ChargedIs(e, periods[i], before[key], count, now);
        OneMoreWritten(before, rows, updated, customerId, periods[..i], count, now, periods[i]);
        assert periods[..i + 1] == periods[..i] + [periods[i]];
        rows := rows[key := Row(e.row.limit, e.used, if e.elapsed then now else e.row.windowStart)];
        updated := updated + [ToUsage(e.period, rows[key])];
      }
      assert periods[..|effective|] == periods;
      WrittenMeans(before, rows, updated, customerId, periods, count, now);
    }

    /** Charges `count` messages to every configured period, or refuses and changes nothing. */
    method ConsumeInClient(customerId: string, count: int, now: UtcTime) returns (r: Result<seq<Usage>>)
      modifies this
      ensures rows == AfterConsume(old(rows), customerId, count, now)
      ensures r.Ok? <==> AllFit(old(rows), customerId, count, now)
      ensures r.Ok? <==> forall k :: k in old(rows) && k.customerId == customerId ==>
        InUse(k.period, old(rows)[k], now) + count <= old(rows)[k].limit
      ensures r.Ok? ==> ChargedTo(old(rows), rows, customerId, count, now) && Reports(r.value, rows, customerId)
      ensures r.Err? ==>
        && rows == old(rows) && r.failure.Exceeded?
        && var k := RowKey(customerId, r.failure.period);
        k in rows && r.failure.limit == rows[k].limit &&
          r.failure.used == InUse(k.period, rows[k], now) + count > r.failure.limit
    {
      FitsMeans(rows, customerId, count, now);
      ConsumeMeans(rows, customerId, count, now);
      hide AfterConsume, AllFit, Charged, Periods, ChargedTo, InUse;
      var periods := Periods(rows, customerId);
      var before := rows;
      if periods == [] {
        NothingToCharge(rows, customerId, count, now);
        return Ok([]);
      }
      var effective := ReadEffective(customerId, periods, count, now);
      for i := 0 to |effective|
        invariant forall j :: 0 <= j < i ==> effective[j].used <= effective[j].row.limit
      {
        if effective[i].used > effective[i].row.limit {
          assert periods[i] in periods;
          OneExceeds(rows, customerId, effective[i], count, now);
          return Err(Exceeded(effective[i].period, effective[i].used, effective[i].row.limit));
        }
      }
      var updated := WriteEffective(customerId, periods, effective, count, now);
      AllCharged(before, rows, customerId, periods, effective, count, now);
      SamePeriods(before, rows, customerId);
      return Ok(updated);
    }

    method Consume(customerId: string, count: int, now: UtcTime) returns (r: Result<seq<Usage>>)
      modifies this
      ensures count <= 0 ==> r == Err(BadRequest) && rows == old(rows)
      ensures count > 0 && customerId !in customers ==> r == Err(NotFound) && rows == old(rows)
      ensures count > 0 && customerId in customers ==>
        && rows == AfterConsume(old(rows), customerId, count, now)
        && (r.Ok? <==> AllFit(old(rows), customerId, count, now))
    {
      if count <= 0 { return Err(BadRequest); }
      if customerId !in customers { return Err(NotFound); }
      r := ConsumeInClient(customerId, count, now);
    }
  }

  // ---- Whole runs, against the plain log of accepted sends -------------------------

  predicate NotAfter(a: UtcTime, b: UtcTime) {
    || a.year < b.year
    || (a.year == b.year && a.month < b.month)
    || (a.year == b.year && a.month == b.month && a.day < b.day)
    || (a.year == b.year && a.month == b.month && a.day == b.day && a.millis <= b.millis)
  }

  datatype Event =
    | Send(customerId: string, count: int, at: UtcTime)
    | SetCap(key: RowKey, limit: int, at: UtcTime)
    | RemoveCap(key: RowKey, at: UtcTime)

  datatype Accepted = Accepted(customerId: string, count: int, at: UtcTime)

  /** `since` remembers how long the log was when each row was created. */
  datatype State = State(rows: Rows, log: seq<Accepted>, since: map<RowKey, nat>)

  function Next(s: State, e: Event): State {
    match e
    case Send(c, n, now) =>
      if AllFit(s.rows, c, n, now)
      then s.(rows := AfterConsume(s.rows, c, n, now), log := s.log + [Accepted(c, n, now)])
      else s
    case SetCap(key, limit, now) =>
      s.(rows := AfterSet(s.rows, key, limit, now), since := if key in s.rows then s.since else s.since[key := |s.log|])
    case RemoveCap(key, now) =>
      s.(rows := s.rows - {key}, since := s.since - {key})
  }

  function Run(events: seq<Event>): State {
    if events == [] then State(map[], [], map[]) else Next(Run(events[..|events| - 1]), events[|events| - 1])
  }

  ghost predicate InOrder(events: seq<Event>) {
    forall i, j :: 0 <= i < j < |events| ==> NotAfter(events[i].at, events[j].at)
  }

  /** Messages of a customer accepted since a log position, in the day or month of `now`. */
  function AcceptedIn(log: seq<Accepted>, since: nat, key: RowKey, now: UtcTime): int {
    if |log| <= since then 0
    else
      var a := log[|log| - 1];
      AcceptedIn(log[..|log| - 1], since, key, now)
        + if a.customerId == key.customerId && SameWindow(key.period, a.at, now) then a.count else 0
  }

  /** The row's counter is the log's sum, in every window from `last` on. */
  ghost predicate RowAgrees(s: State, key: RowKey, last: UtcTime) {
    key in s.rows ==>
      && key in s.since && s.since[key] <= |s.log|
      && NotAfter(s.rows[key].windowStart, last)
      && forall now :: NotAfter(last, now) ==> Counts(s, key, now)
  }

  ghost predicate Counts(s: State, key: RowKey, now: UtcTime) {
    key in s.rows && key in s.since && InUse(key.period, s.rows[key], now) == AcceptedIn(s.log, s.since[key], key, now)
  }

  lemma AcceptedSnoc(log: seq<Accepted>, a: Accepted, since: nat, key: RowKey, now: UtcTime)
    requires since <= |log|
    ensures AcceptedIn(log + [a], since, key, now) == AcceptedIn(log, since, key, now)
      + if a.customerId == key.customerId && SameWindow(key.period, a.at, now) then a.count else 0
  {
    assert (log + [a])[..|log|] == log;
  }

  /** Windows only move forward: what is over stays over. */
  lemma ElapsedStays(period: Period, start: UtcTime, mid: UtcTime, now: UtcTime)
    requires NotAfter(start, mid) && NotAfter(mid, now) && WindowElapsed(period, start, mid)
    ensures WindowElapsed(period, start, now)
  {
  }

  /** Two instants of one window see the same windows as over. */
  lemma SameWindowSame(period: Period, start: UtcTime, mid: UtcTime, now: UtcTime)
    requires !WindowElapsed(period, mid, now)
    ensures WindowElapsed(period, start, now) == WindowElapsed(period, start, mid)
  {
  }

  lemma SendAgrees(s: State, e: Event, key: RowKey, last: UtcTime)
    requires e.Send? && NotAfter(last, e.at) && RowAgrees(s, key, last) && AllFit(s.rows, e.customerId, e.count, e.at)
    ensures RowAgrees(Next(s, e), key, e.at)
  {
    var t := Next(s, e);
    if key in t.rows {
      forall now | NotAfter(e.at, now) ensures Counts(t, key, now) {
        assert Counts(s, key, now) && Counts(s, key, e.at);
        AcceptedSnoc(s.log, Accepted(e.customerId, e.count, e.at), s.since[key], key, now);
        hide AcceptedIn, AllFit;
        var row := s.rows[key];
        if WindowElapsed(key.period, row.windowStart, e.at) { ElapsedStays(key.period, row.windowStart, e.at, now); }
        if !WindowElapsed(key.period, e.at, now) { SameWindowSame(key.period, row.windowStart, e.at, now); }
      }
    }
  }

  lemma OtherAgrees(s: State, e: Event, key: RowKey, last: UtcTime)
    requires !e.Send? && NotAfter(last, e.at) && RowAgrees(s, key, last)
    ensures RowAgrees(Next(s, e), key, e.at)
  {
    var t := Next(s, e);
    if key in t.rows {
      forall now | NotAfter(e.at, now) ensures Counts(t, key, now) {
        assert key in s.rows ==> Counts(s, key, now);
      }
    }
  }

  ghost predicate Agrees(s: State, last: UtcTime) { forall key :: RowAgrees(s, key, last) }

  lemma StepAgrees(s: State, e: Event, last: UtcTime)
    requires Agrees(s, last) && NotAfter(last, e.at)
    ensures Agrees(Next(s, e), e.at)
  {
    forall key ensures RowAgrees(Next(s, e), key, e.at) {
      assert RowAgrees(s, key, last);
      if !e.Send? {
        OtherAgrees(s, e, key, last);
      } else if AllFit(s.rows, e.customerId, e.count, e.at) {
        SendAgrees(s, e, key, last);
      }
    }
  }

  /** Along every run each counter is the sum of what was accepted in its window since the row was made. */
  lemma {:induction false} RunAgrees(events: seq<Event>, now: UtcTime)
    requires InOrder(events) && (events != [] ==> NotAfter(events[|events| - 1].at, now))
    ensures Agrees(Run(events), now)
  {
    if events != [] {
      var before, e := events[..|events| - 1], events[|events| - 1];
      RunAgrees(before, e.at);
      StepAgrees(Run(before), e, e.at);
      forall key ensures RowAgrees(Run(events), key, now) {
        assert RowAgrees(Run(events), key, e.at);
      }
    }
  }

  /** A send is accepted exactly when it fits the cap of every configured period; a refusal changes no row. */
  lemma AcceptedIffItFits(events: seq<Event>, customerId: string, count: int, now: UtcTime)
    requires InOrder(events) && (events != [] ==> NotAfter(events[|events| - 1].at, now))
    ensures
      var s := Run(events);
      && (AllFit(s.rows, customerId, count, now) <==> forall key :: key in s.rows && key.customerId == customerId ==>
            key in s.since && AcceptedIn(s.log, s.since[key], key, now) + count <= s.rows[key].limit)
      && (!AllFit(s.rows, customerId, count, now) ==> Next(s, Send(customerId, count, now)) == s)
  {
    RunAgrees(events, now);
    var s := Run(events);
    forall key | key in s.rows && key.customerId == customerId
      ensures key in s.since &&
        (Fits(s.rows, key, count, now) <==> AcceptedIn(s.log, s.since[key], key, now) + count <= s.rows[key].limit)
    {
      assert RowAgrees(s, key, now) && Counts(s, key, now);
    }
    assert RowKey(customerId, Daily).customerId == customerId && RowKey(customerId, Monthly).customerId == customerId;
    forall key: RowKey | key.customerId == customerId
      ensures key == RowKey(customerId, Daily) || key == RowKey(customerId, Monthly)
    {
      if key.period == Daily {
        assert key == RowKey(customerId, Daily);
      } else {
        assert key == RowKey(customerId, Monthly);
      }
    }
    hide AcceptedIn, Charged, Agrees, Run;
  }

  /** Raising or lowering a cap neither forgives nor adds usage; an accepted send is never above a cap. */
  lemma AcceptedStaysWithinCap(events: seq<Event>, e: Event, key: RowKey)
    requires InOrder(events + [e]) && e.Send? && AllFit(Run(events).rows, e.customerId, e.count, e.at)
    requires key in Run(events).rows && key.customerId == e.customerId
    ensures
      var t := Run(events + [e]);
      key in t.rows && key in t.since && AcceptedIn(t.log, t.since[key], key, e.at) <= t.rows[key].limit
  {
    var all := events + [e];
    assert all[..|events|] == events;
    RunAgrees(all, e.at);
    var t := Run(all);
    assert RowAgrees(t, key, e.at) && Counts(t, key, e.at);
    assert key == RowKey(e.customerId, key.period);
    hide AcceptedIn, Run, Agrees;
    assert Fits(Run(events).rows, key, e.count, e.at) by { if key.period == Daily {} else {} }
  }
}
