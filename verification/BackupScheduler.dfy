/**
 * Backup schedules run by several replicas (backend/src/backup-dr/backup-dr.scheduler.ts;
 * dueSchedules and markScheduleRan of backend/src/backup-dr/backup-dr.repository.ts).
 *
 * A cycle's steps interleave with those of the cycles of other replicas.  Its lock
 * connection lasts as long as the cycle does.  Instants are milliseconds.
 */
module BackupScheduler {
  import opened Text

  datatype Row = Row(
    tenant: string, intervalMinutes: Option<int>, enabled: bool, lastRun: Option<int>, nextRun: Option<int>)

  type Rows = map<string, Row>

  /** Milliseconds from a run to the next: the interval, or a day when there is none. */
  function Gap(row: Row): (ms: int)
    ensures ms > 0
  {
    if row.intervalMinutes.Some? && row.intervalMinutes.value > 0
    then row.intervalMinutes.value * 60_000
    else 86_400_000
  }

  lemma GapIs(row: Row)
    ensures row.intervalMinutes.Some? && row.intervalMinutes.value > 0 ==>
      Gap(row) == row.intervalMinutes.value * 60 * 1000
    ensures row.intervalMinutes.None? || row.intervalMinutes.value <= 0 ==> Gap(row) == 24 * 60 * 60 * 1000
  {
  }

  function ComputeNextRun(row: Row, from: int): int { from + Gap(row) }

  predicate IsDue(row: Row, now: int) { row.enabled && (row.nextRun.None? || row.nextRun.value <= now) }

  function Marked(row: Row, now: int): Row { row.(lastRun := Some(now), nextRun := Some(ComputeNextRun(row, now))) }

  ghost predicate NoRepeats(ids: seq<string>) { forall i, j :: 0 <= i < j < |ids| ==> ids[i] != ids[j] }

  /** What reading the due schedules of a tenant may return: each of them once. */
  ghost predicate ListsDue(rows: Rows, tenant: string, now: int, due: seq<string>) {
    NoRepeats(due) && forall id :: id in due <==> id in rows && rows[id].tenant == tenant && IsDue(rows[id], now)
  }

  // ---- One tenant, from start to end -----------------------------------------------

  class BackupRepository {
    var rows: Rows

    constructor (rows: Rows)
      ensures this.rows == rows
    {
      this.rows := rows;
    }

    method MarkScheduleRan(id: string, ranAt: int, nextRunAt: int)
      modifies this
      ensures id in old(rows) ==>
        rows == old(rows)[id := old(rows)[id].(lastRun := Some(ranAt), nextRun := Some(nextRunAt))]
      ensures id !in old(rows) ==> rows == old(rows)
    {
      if id in rows { rows := rows[id := rows[id].(lastRun := Some(ranAt), nextRun := Some(nextRunAt))]; }
    }
  }

  /** Runs every due schedule once, whether or not its backup succeeds; none is due afterwards. */
  method RunTenant(repository: BackupRepository, tenant: string, now: int, due: seq<string>, outcomes: seq<bool>)
    returns (ran: nat)
    requires ListsDue(repository.rows, tenant, now, due) && |outcomes| == |due|
    modifies repository
    ensures ran == multiset(outcomes)[true]
    ensures repository.rows.Keys == old(repository.rows).Keys
    ensures forall id :: id in due <==>
      id in old(repository.rows) &&
      var row := old(repository.rows)[id];
      row.tenant == tenant && row.enabled && (row.nextRun.None? || row.nextRun.value <= now)
    ensures forall id :: id in repository.rows && id !in due ==> repository.rows[id] == old(repository.rows)[id]
    ensures forall id :: id in due ==>
      var row := old(repository.rows)[id];
      var ownMinutes := row.intervalMinutes.Some? && row.intervalMinutes.value > 0;
      var minutes := if ownMinutes then row.intervalMinutes.value else 24 * 60;
      repository.rows[id] == row.(lastRun := Some(now), nextRun := Some(now + minutes * 60 * 1000))
    ensures forall id :: id in repository.rows ==>
      var row := repository.rows[id];
      row.tenant == tenant && row.enabled ==> row.nextRun.Some? && row.nextRun.value > now
  {
    hide Marked, Gap, IsDue, ListsDue, MarkedUpTo;
    ghost var before := repository.rows;
    DueAreRows(before, tenant, now, due);
    NothingMarked(before, now);
    ran := 0;
    assert due[..0] == [] && outcomes[..0] == [];
    for i := 0 to |due|
      invariant ran == multiset(outcomes[..i])[true]
      invariant MarkedUpTo(before, repository.rows, due[..i], now)
    {
      var id := due[i];
      NextMarked(before, repository.rows, due[..i], id, now);
      var schedule := repository.rows[id];
      if outcomes[i] { ran := ran + 1; }
      assert outcomes[..i + 1] == outcomes[..i] + [outcomes[i]];
      assert due[..i + 1] == due[..i] + [id];
      MarkedIs(schedule, now);
      repository.MarkScheduleRan(id, now, ComputeNextRun(schedule, now));
    }
    assert due[..|due|] == due && outcomes[..|due|] == outcomes;
    TenantRan(before, repository.rows, due, tenant, now);
  }

  ghost predicate MarkedUpTo(before: Rows, rows: Rows, done: seq<string>, now: int) {
    rows.Keys == before.Keys &&
      forall id :: id in before ==> rows[id] == if id in done then Marked(before[id], now) else before[id]
  }

  lemma NothingMarked(rows: Rows, now: int)
    ensures MarkedUpTo(rows, rows, [], now)
  {
  }

  lemma DueAreRows(rows: Rows, tenant: string, now: int, due: seq<string>)
    requires ListsDue(rows, tenant, now, due)
    ensures forall i :: 0 <= i < |due| ==> due[i] in rows && due[i] !in due[..i]
  {
    hide IsDue;
    assert forall i :: 0 <= i < |due| ==> due[i] in due;
  }

  lemma NextMarked(before: Rows, rows: Rows, done: seq<string>, id: string, now: int)
    requires MarkedUpTo(before, rows, done, now) && id in before && id !in done
    ensures id in rows && rows[id] == before[id]
    ensures MarkedUpTo(before, rows[id := Marked(rows[id], now)], done + [id], now)
  {
    hide Marked;
  }

  lemma TenantRan(before: Rows, rows: Rows, due: seq<string>, tenant: string, now: int)
    requires ListsDue(before, tenant, now, due) && MarkedUpTo(before, rows, due, now)
    ensures rows.Keys == before.Keys
    ensures forall id :: id in due <==>
      id in before &&
      var row := before[id];
      row.tenant == tenant && row.enabled && (row.nextRun.None? || row.nextRun.value <= now)
    ensures forall id :: id in rows && id !in due ==> rows[id] == before[id]
    ensures forall id :: id in due ==>
      var row := before[id];
      var ownMinutes := row.intervalMinutes.Some? && row.intervalMinutes.value > 0;
      var minutes := if ownMinutes then row.intervalMinutes.value else 24 * 60;
      rows[id] == row.(lastRun := Some(now), nextRun := Some(now + minutes * 60 * 1000))
    ensures forall id :: id in rows ==>
      var row := rows[id];
      row.tenant == tenant && row.enabled ==> row.nextRun.Some? && row.nextRun.value > now
  {
    hide Marked, Gap;
    forall id | id in before { MarkedIs(before[id], now); }
  }

  lemma MarkedIs(row: Row, now: int)
    ensures Marked(row, now) == row.(lastRun := Some(now), nextRun := Some(ComputeNextRun(row, now)))
    ensures
      var ownMinutes := row.intervalMinutes.Some? && row.intervalMinutes.value > 0;
      ComputeNextRun(row, now) == now + (if ownMinutes then row.intervalMinutes.value else 24 * 60) * 60 * 1000 > now
    ensures IsDue(row, now) <==> row.enabled && (row.nextRun.None? || row.nextRun.value <= now)
  {
  }

  // ---- Interleaved cycles ----------------------------------------------------------

  /** One backup started for a schedule, at its cycle's own `now`; `marked` once the row records it. */
  datatype Started = Started(id: string, now: int, marked: bool)

  /** `due` is the current tenant's list; `active` the log position of a backup not yet marked. */
  datatype Phase = Waiting | Body(tenants: seq<string>, due: Option<seq<string>>, active: Option<nat>)

  datatype Cycle = Cycle(replica: nat, now: int, phase: Phase)

  datatype State = State(rows: Rows, lock: Option<nat>, running: set<nat>, cycles: map<nat, Cycle>, log: seq<Started>)

  datatype Step =
    | Start(c: nat, replica: nat, now: int)
    | TryLock(c: nat, tenants: seq<string>)
    | ConnectFails(c: nat)
    | OpenTenant(c: nat, due: seq<string>)
    | Backup(c: nat)
    | MarkRan(c: nat, recorded: bool)
    | CloseTenant(c: nat)
    | Release(c: nat)
    | Crash(c: nat)

  ghost predicate Enabled(s: State, step: Step) {
    if step.Start? then step.c !in s.cycles && step.replica !in s.running
    else
      && step.c in s.cycles
      && var p := s.cycles[step.c].phase;
      match step
      case TryLock(_, _) => p.Waiting?
      case ConnectFails(_) => p.Waiting?
      case OpenTenant(c, due) => p.Body? && p.tenants != [] && p.due.None? &&
        ListsDue(s.rows, p.tenants[0], s.cycles[c].now, due)
      case Backup(_) => p.Body? && p.due.Some? && p.due.value != [] && p.active.None?
      case MarkRan(_, _) => p.Body? && p.due.Some? && p.due.value != [] && p.active.Some?
      case CloseTenant(_) => p.Body? && p.tenants != [] && (p.due.None? || p.due.value == []) && p.active.None?
      case Release(_) => p.Body? && p.tenants == []
      case Crash(_) => true
      case Start(_, _, _) => true
  }

  /** The end of a cycle: its connection closes, which frees the lock, and the flag is cleared. */
  function Ended(s: State, c: nat): State
    requires c in s.cycles
  {
    s.(lock := if s.lock == Some(c) then None else s.lock,
       running := s.running - {s.cycles[c].replica},
       cycles := s.cycles - {c})
  }

  function Moved(s: State, c: nat, phase: Phase): State
    requires c in s.cycles
  {
    s.(cycles := s.cycles[c := s.cycles[c].(phase := phase)])
  }

  /** A step that is not enabled changes nothing. */
  ghost function Next(s: State, step: Step): State {
    if !Enabled(s, step) then s
    else
      match step
      case Start(c, replica, now) =>
        s.(running := s.running + {replica}, cycles := s.cycles[c := Cycle(replica, now, Waiting)])
      case TryLock(c, tenants) =>
        if s.lock.Some? then Ended(s, c) else Moved(s, c, Body(tenants, None, None)).(lock := Some(c))
      case ConnectFails(c) => Ended(s, c)
      case OpenTenant(c, due) => Moved(s, c, s.cycles[c].phase.(due := Some(due)))
      case Backup(c) =>
        var p := s.cycles[c].phase;
        Moved(s, c, p.(active := Some(|s.log|))).(log := s.log + [Started(p.due.value[0], s.cycles[c].now, false)])
      case MarkRan(c, recorded) =>
        var p := s.cycles[c].phase;
        var id := p.due.value[0];
        if !recorded || id !in s.rows || p.active.value >= |s.log| then Moved(s, c, p.(due := Some([]), active := None))
        else
          Moved(s, c, p.(due := Some(p.due.value[1..]), active := None)).(
            rows := s.rows[id := Marked(s.rows[id], s.cycles[c].now)],
            log := s.log[p.active.value := s.log[p.active.value].(marked := true)])
      case CloseTenant(c) =>
        var p := s.cycles[c].phase;
        Moved(s, c, p.(tenants := p.tenants[1..], due := None))
      case Release(c) => Ended(s, c)
      case Crash(c) => Ended(s, c)
  }

  ghost function Run(rows: Rows, steps: seq<Step>): State {
    if steps == [] then State(rows, None, {}, map[], []) else Next(Run(rows, steps[..|steps| - 1]), steps[|steps| - 1])
  }

  // ---- At most one body ------------------------------------------------------------

  ghost predicate InBody(s: State, c: nat) { c in s.cycles && s.cycles[c].phase.Body? }

  /** The lock is held by the one cycle in its body; a replica's flag is up while it has a cycle, and it has one. */
  ghost predicate Exclusive(s: State) {
    && (forall c: nat :: InBody(s, c) <==> s.lock == Some(c))
    && (forall c :: c in s.cycles ==> s.cycles[c].replica in s.running)
    && (forall c, d :: c in s.cycles && d in s.cycles && s.cycles[c].replica == s.cycles[d].replica ==> c == d)
  }

  lemma SameExclusive(s: State, t: State)
    requires t.lock == s.lock && t.running == s.running && t.cycles == s.cycles
    ensures Exclusive(t) == Exclusive(s)
  {
    assert forall c: nat :: InBody(t, c) == InBody(s, c);
  }

  lemma EndedExclusive(s: State, c: nat)
    requires Exclusive(s) && c in s.cycles
    ensures Exclusive(Ended(s, c))
  {
    assert forall d: nat :: InBody(Ended(s, c), d) <==> InBody(s, d) && d != c;
  }

  lemma MovedExclusive(s: State, c: nat, phase: Phase)
    requires Exclusive(s) && InBody(s, c) && phase.Body?
    ensures Exclusive(Moved(s, c, phase))
  {
    assert forall d: nat :: InBody(Moved(s, c, phase), d) <==> InBody(s, d);
  }

  lemma StartedExclusive(s: State, c: nat, replica: nat, now: int)
    requires Exclusive(s) && c !in s.cycles && replica !in s.running
    ensures Exclusive(s.(running := s.running + {replica}, cycles := s.cycles[c := Cycle(replica, now, Waiting)]))
  {
    var t := s.(running := s.running + {replica}, cycles := s.cycles[c := Cycle(replica, now, Waiting)]);
    assert forall d: nat :: InBody(t, d) <==> InBody(s, d);
  }

  lemma LockedExclusive(s: State, c: nat, phase: Phase)
    requires Exclusive(s) && s.lock.None? && c in s.cycles && phase.Body?
    ensures Exclusive(Moved(s, c, phase).(lock := Some(c)))
  {
    var t := Moved(s, c, phase).(lock := Some(c));
    forall d: nat ensures InBody(t, d) <==> d == c { assert !InBody(s, d); }
  }

  /** A step within a body moves that cycle only. */
  lemma WithinExclusive(s: State, step: Step)
    requires Exclusive(s) && Enabled(s, step)
    requires step.OpenTenant? || step.Backup? || step.MarkRan? || step.CloseTenant?
    ensures Exclusive(Next(s, step))
  {
    hide Exclusive, ListsDue, Marked, Ended;
    var t := Next(s, step);
    MovedExclusive(s, step.c, t.cycles[step.c].phase);
    SameExclusive(Moved(s, step.c, t.cycles[step.c].phase), t);
  }

  lemma StepKeepsExclusive(s: State, step: Step)
    requires Exclusive(s)
    ensures Exclusive(Next(s, step))
  {
    hide Exclusive, ListsDue, Marked, Moved, Ended;
    if Enabled(s, step) {
      var c := step.c;
      match step
      case Start(_, replica, now) => StartedExclusive(s, c, replica, now);
      case TryLock(_, tenants) =>
        if s.lock.Some? { EndedExclusive(s, c); } else { LockedExclusive(s, c, Body(tenants, None, None)); }
      case ConnectFails(_) => EndedExclusive(s, c);
      case Release(_) => EndedExclusive(s, c);
      case Crash(_) => EndedExclusive(s, c);
      case _ => WithinExclusive(s, step);
    }
  }

  /** In every interleaving, with any number of replicas, at most one cycle is in its body. */
  lemma {:induction false} AtMostOneBody(rows: Rows, steps: seq<Step>)
    ensures Exclusive(Run(rows, steps))
    ensures forall c: nat, d: nat :: InBody(Run(rows, steps), c) && InBody(Run(rows, steps), d) ==> c == d
  {
    if steps != [] {
      AtMostOneBody(rows, steps[..|steps| - 1]);
      StepKeepsExclusive(Run(rows, steps[..|steps| - 1]), steps[|steps| - 1]);
      hide Next;
    }
  }

  // ---- Runs of one schedule are apart ----------------------------------------------

  /** A recorded run keeps its schedule from running again before its gap has passed. */
  ghost predicate Apart(s: State, i: nat) {
    i < |s.log| && s.log[i].marked ==>
      && s.log[i].id in s.rows
      && var row := s.rows[s.log[i].id];
      && row.nextRun.Some? && row.nextRun.value >= s.log[i].now + Gap(row)
      && forall j :: i < j < |s.log| && s.log[j].id == s.log[i].id ==> s.log[j].now >= s.log[i].now + Gap(row)
  }

  /** The schedules a body has still to run are due; its unmarked backup is the last one started. */
  ghost predicate StillDue(s: State, c: nat) {
    InBody(s, c) ==>
      var p, now := s.cycles[c].phase, s.cycles[c].now;
      && (p.due.Some? ==> p.tenants != [] && NoRepeats(p.due.value))
      && (p.due.Some? ==> forall id :: id in p.due.value ==> id in s.rows && IsDue(s.rows[id], now))
      && (p.active.Some? ==>
          && p.due.Some? && p.due.value != []
          && p.active.value == |s.log| - 1 && s.log[|s.log| - 1] == Started(p.due.value[0], now, false))
  }

  ghost predicate Spaced(s: State) { (forall i: nat :: Apart(s, i)) && (forall c: nat :: StillDue(s, c)) }

  /** Configuration does not change, only when schedules ran. */
  ghost predicate SameConfig(a: Rows, b: Rows) {
    a.Keys == b.Keys && forall id :: id in a ==>
      Gap(a[id]) == Gap(b[id]) && a[id].enabled == b[id].enabled && a[id].tenant == b[id].tenant
  }

  lemma BackupKeepsSpaced(s: State, c: nat)
    requires Exclusive(s) && Spaced(s) && Enabled(s, Backup(c))
    ensures Spaced(Next(s, Backup(c)))
  {
    var t := Next(s, Backup(c));
    hide Gap, NoRepeats;
    assert StillDue(s, c) && InBody(s, c);
    var id := s.cycles[c].phase.due.value[0];
    assert id in s.cycles[c].phase.due.value;
    forall i: nat ensures Apart(t, i) {
      assert Apart(s, i);
    }
    forall d: nat ensures StillDue(t, d) { assert StillDue(s, d) && (InBody(s, d) <==> s.lock == Some(d)); }
  }

  lemma MarkKeepsSpaced(s: State, c: nat)
    requires Exclusive(s) && Spaced(s) && Enabled(s, MarkRan(c, true))
    ensures Spaced(Next(s, MarkRan(c, true)))
  {
    assert StillDue(s, c) && InBody(s, c);
    var due := s.cycles[c].phase.due.value;
    assert due[0] in due;
    var t := Next(s, MarkRan(c, true));
    MarkApart(s, t, |s.log| - 1, s.cycles[c].now);
    DueRest(s.rows, due, s.cycles[c].now);
    assert t.rows == s.rows[due[0] := Marked(s.rows[due[0]], s.cycles[c].now)];
    hide Apart, Gap, NoRepeats, Marked, IsDue;
    forall d: nat ensures StillDue(t, d) { assert StillDue(s, d) && (InBody(s, d) <==> s.lock == Some(d)); }
  }

  lemma DueRest(rows: Rows, due: seq<string>, now: int)
    requires due != [] && NoRepeats(due) && forall id :: id in due ==> id in rows && IsDue(rows[id], now)
    ensures NoRepeats(due[1..]) && due[0] !in due[1..]
    ensures forall id :: id in due[1..] ==> id in rows && id != due[0] && IsDue(rows[id], now)
  {
  }

  lemma MarkApart(s: State, t: State, k: nat, now: int)
    requires k == |s.log| - 1 && s.log[k].now == now && s.log[k].id in s.rows
    requires forall i: nat :: Apart(s, i)
    requires t.log == s.log[k := s.log[k].(marked := true)]
    requires t.rows == s.rows[s.log[k].id := Marked(s.rows[s.log[k].id], now)]
    ensures forall i: nat :: Apart(t, i)
  {
    var row := s.rows[s.log[k].id];
    assert Gap(Marked(row, now)) == Gap(row) && Marked(row, now).nextRun == Some(now + Gap(row));
    hide Marked, Gap;
    forall i: nat ensures Apart(t, i) { assert Apart(s, i); }
  }

  lemma OthersKeepSpaced(s: State, step: Step)
    requires Exclusive(s) && Spaced(s) && Enabled(s, step)
    requires !step.Backup? && !(step.MarkRan? && step.recorded)
    ensures Spaced(Next(s, step))
  {
    var t := Next(s, step);
    assert t.rows == s.rows && t.log == s.log;
    forall i: nat ensures Apart(t, i) { assert Apart(s, i); }
    hide Apart, Gap, NoRepeats;
    forall d: nat ensures StillDue(t, d) { assert StillDue(s, d) && (InBody(s, d) <==> s.lock == Some(d)); }
  }

  lemma StepKeepsSpaced(s: State, step: Step)
    requires Exclusive(s) && Spaced(s)
    ensures Spaced(Next(s, step))
  {
    if Enabled(s, step) {
      hide Exclusive, Spaced, Next, Enabled;
      if step.Backup? { BackupKeepsSpaced(s, step.c); }
      else if step.MarkRan? && step.recorded { MarkKeepsSpaced(s, step.c); assert step == MarkRan(step.c, true); }
      else { OthersKeepSpaced(s, step); }
    }
  }

  lemma {:induction false} RunKeepsSpaced(rows: Rows, steps: seq<Step>)
    ensures Spaced(Run(rows, steps))
  {
    if steps != [] {
      RunKeepsSpaced(rows, steps[..|steps| - 1]);
      AtMostOneBody(rows, steps[..|steps| - 1]);
      StepKeepsSpaced(Run(rows, steps[..|steps| - 1]), steps[|steps| - 1]);
      hide Next, Spaced, Exclusive;
    }
  }

  lemma StepKeepsConfig(s: State, step: Step)
    ensures SameConfig(s.rows, Next(s, step).rows)
  {
    hide Gap, ListsDue;
    if step.MarkRan? && Next(s, step).rows != s.rows {
      var id := s.cycles[step.c].phase.due.value[0];
      MarkedConfig(s.rows, id, s.cycles[step.c].now);
    }
  }

  lemma MarkedConfig(rows: Rows, id: string, now: int)
    requires id in rows
    ensures SameConfig(rows, rows[id := Marked(rows[id], now)])
  {
  }

  lemma {:induction false} RunKeepsConfig(rows: Rows, steps: seq<Step>)
    ensures SameConfig(rows, Run(rows, steps).rows)
  {
    if steps != [] {
      RunKeepsConfig(rows, steps[..|steps| - 1]);
      StepKeepsConfig(Run(rows, steps[..|steps| - 1]), steps[|steps| - 1]);
      hide Next;
    }
  }

  /**
   * In every interleaving, crashes and failed writes included: after a recorded run of a
   * schedule, no later run of it has a run time less than the schedule's gap ahead.
   */
  lemma RunsAreApart(rows: Rows, steps: seq<Step>, i: nat, j: nat)
    requires i < j < |Run(rows, steps).log|
    requires Run(rows, steps).log[i].id == Run(rows, steps).log[j].id && Run(rows, steps).log[i].marked
    ensures Run(rows, steps).log[i].id in rows
    ensures
      var first, second := Run(rows, steps).log[i], Run(rows, steps).log[j];
      var minutes := rows[first.id].intervalMinutes;
      && (minutes.Some? && minutes.value > 0 ==> second.now >= first.now + minutes.value * 60 * 1000)
      && (minutes.None? || minutes.value <= 0 ==> second.now >= first.now + 24 * 60 * 60 * 1000)
  {
    RunKeepsSpaced(rows, steps);
    RunKeepsConfig(rows, steps);
    assert Apart(Run(rows, steps), i);
    hide Run, Gap;
    GapIs(rows[Run(rows, steps).log[i].id]);
  }

  // ---- Without crashes and failed writes every run is recorded ----------------------

  ghost predicate Faultless(steps: seq<Step>) {
    forall k :: 0 <= k < |steps| ==> !steps[k].Crash? && (steps[k].MarkRan? ==> steps[k].recorded)
  }

  /** Only a backup whose cycle is about to record it may be unmarked. */
  ghost predicate Recorded(s: State) {
    forall k :: 0 <= k < |s.log| && !s.log[k].marked ==>
      s.lock.Some? && InBody(s, s.lock.value) && s.cycles[s.lock.value].phase.active == Some(k)
  }

  /** The one cycle in its body is about to mark a row that exists. */
  lemma MarkRecords(s: State, step: Step)
    requires Exclusive(s) && Spaced(s) && Recorded(s) && Enabled(s, step)
    requires step.MarkRan? && step.recorded
    ensures Recorded(Next(s, step))
  {
    assert InBody(s, step.c) <==> s.lock == Some(step.c);
    assert StillDue(s, step.c);
    var p := s.cycles[step.c].phase;
    assert p.due.value[0] in p.due.value;
    hide Apart, StillDue, ListsDue, NoRepeats, Marked, Exclusive;
  }

  lemma OthersRecord(s: State, step: Step)
    requires Exclusive(s) && Spaced(s) && Recorded(s) && Enabled(s, step)
    requires !step.Crash? && !step.MarkRan?
    ensures Recorded(Next(s, step))
  {
    hide Apart, NoRepeats, ListsDue, Marked;
    if step.c in s.cycles { assert InBody(s, step.c) <==> s.lock == Some(step.c); }
    assert StillDue(s, step.c);
    hide Exclusive, Spaced;
  }

  lemma StepKeepsRecorded(s: State, step: Step)
    requires Exclusive(s) && Spaced(s) && Recorded(s)
    requires !step.Crash? && (step.MarkRan? ==> step.recorded)
    ensures Recorded(Next(s, step))
  {
    hide Exclusive, Spaced, Recorded, Enabled;
    if Enabled(s, step) {
      if step.MarkRan? { MarkRecords(s, step); } else { OthersRecord(s, step); }
    }
  }

  lemma {:induction false} RunKeepsRecorded(rows: Rows, steps: seq<Step>)
    requires Faultless(steps)
    ensures Recorded(Run(rows, steps))
  {
    if steps != [] {
      RunKeepsRecorded(rows, steps[..|steps| - 1]);
      RunKeepsSpaced(rows, steps[..|steps| - 1]);
      AtMostOneBody(rows, steps[..|steps| - 1]);
      StepKeepsRecorded(Run(rows, steps[..|steps| - 1]), steps[|steps| - 1]);
      hide Next, Spaced, Exclusive, Recorded;
    }
  }

  /** Successive runs of one schedule are at least its interval, or a day, apart, even when backups fail. */
  lemma FaultlessRunsAreApart(rows: Rows, steps: seq<Step>, i: nat, j: nat)
    requires Faultless(steps) && i < j < |Run(rows, steps).log|
    requires Run(rows, steps).log[i].id == Run(rows, steps).log[j].id
    ensures Run(rows, steps).log[i].id in rows
    ensures
      var first, second := Run(rows, steps).log[i], Run(rows, steps).log[j];
      var minutes := rows[first.id].intervalMinutes;
      && (minutes.Some? && minutes.value > 0 ==> second.now >= first.now + minutes.value * 60 * 1000)
      && (minutes.None? || minutes.value <= 0 ==> second.now >= first.now + 24 * 60 * 60 * 1000)
  {
    var s := Run(rows, steps);
    RunKeepsRecorded(rows, steps);
    RunKeepsSpaced(rows, steps);
    if s.lock.Some? { assert StillDue(s, s.lock.value); }
    assert s.log[i].marked;
    RunsAreApart(rows, steps, i, j);
  }
}
