/**
 * Concurrent edits of backup schedules under If-Match (section 13.1.1 of RFC 9110):
 * updateSchedule and markScheduleRan of backend/src/backup-dr/backup-dr.repository.ts,
 * the PATCH handler of backup-dr.controller.ts and assertIfMatch of platform/etag.ts.
 *
 * Each repository call is one atomic step; requests and scheduler ticks interleave.
 */
module ScheduleVersions {
  import opened Text

  datatype Row = Row(
    name: string, cron: Option<string>, intervalMinutes: Option<int>, kind: string, retentionClass: string,
    enabled: bool, nextRunAt: Option<int>, lastRunAt: Option<int>, version: nat)

  /** A field that is None is left alone. */
  datatype Patch = Patch(
    name: Option<string>, cron: Option<Option<string>>, intervalMinutes: Option<Option<int>>, kind: Option<string>,
    retentionClass: Option<string>, enabled: Option<bool>, nextRunAt: Option<Option<int>>)

  function Or<T>(change: Option<T>, value: T): T { if change.Some? then change.value else value }

  /** The row after a patch, the version aside. */
  function Patched(row: Row, p: Patch): Row {
    Row(Or(p.name, row.name), Or(p.cron, row.cron), Or(p.intervalMinutes, row.intervalMinutes), Or(p.kind, row.kind),
        Or(p.retentionClass, row.retentionClass), Or(p.enabled, row.enabled), Or(p.nextRunAt, row.nextRunAt),
        row.lastRunAt, row.version)
  }

  // ---- The repository --------------------------------------------------------------

  datatype Column = Name | Cron | IntervalMinutes | Kind | RetentionClass | Enabled | NextRunAt

  const PATCH_COLUMNS := [Name, Cron, IntervalMinutes, Kind, RetentionClass, Enabled, NextRunAt]

  datatype Assignment =
    | SetName(name: string) | SetCron(cron: Option<string>) | SetInterval(minutes: Option<int>) | SetKind(kind: string)
    | SetRetention(retentionClass: string) | SetEnabled(enabled: bool) | SetNextRun(at: Option<int>)

  /** What a patch assigns to a column, if anything. */
  function AssignmentTo(p: Patch, c: Column): Option<Assignment> {
    match c
    case Name => if p.name.Some? then Some(SetName(p.name.value)) else None
    case Cron => if p.cron.Some? then Some(SetCron(p.cron.value)) else None
    case IntervalMinutes => if p.intervalMinutes.Some? then Some(SetInterval(p.intervalMinutes.value)) else None
    case Kind => if p.kind.Some? then Some(SetKind(p.kind.value)) else None
    case RetentionClass => if p.retentionClass.Some? then Some(SetRetention(p.retentionClass.value)) else None
    case Enabled => if p.enabled.Some? then Some(SetEnabled(p.enabled.value)) else None
    case NextRunAt => if p.nextRunAt.Some? then Some(SetNextRun(p.nextRunAt.value)) else None
  }

  function Assigned(row: Row, a: Assignment): Row {
    match a
    case SetName(x) => row.(name := x)
    case SetCron(x) => row.(cron := x)
    case SetInterval(x) => row.(intervalMinutes := x)
    case SetKind(x) => row.(kind := x)
    case SetRetention(x) => row.(retentionClass := x)
    case SetEnabled(x) => row.(enabled := x)
    case SetNextRun(x) => row.(nextRunAt := x)
  }

  function AllAssigned(row: Row, assignments: seq<Assignment>): Row {
    if assignments == [] then row
    else Assigned(AllAssigned(row, assignments[..|assignments| - 1]), assignments[|assignments| - 1])
  }

  function AssignmentsOf(p: Patch, columns: seq<Column>): seq<Assignment> {
    if columns == [] then []
    else
      var a := AssignmentTo(p, columns[|columns| - 1]);
      AssignmentsOf(p, columns[..|columns| - 1]) + if a.Some? then [a.value] else []
  }

  lemma OneMoreColumn(row: Row, p: Patch, columns: seq<Column>, c: Column)
    ensures
      var before := AllAssigned(row, AssignmentsOf(p, columns));
      AllAssigned(row, AssignmentsOf(p, columns + [c])) ==
        if AssignmentTo(p, c).Some? then Assigned(before, AssignmentTo(p, c).value) else before
  {
    assert (columns + [c])[..|columns|] == columns;
    var as0 := AssignmentsOf(p, columns);
    if AssignmentTo(p, c).Some? {
      assert (as0 + [AssignmentTo(p, c).value])[..|as0|] == as0;
    } else {
      assert as0 + [] == as0;
    }
  }

  /** The row after the first `n` columns of a patch. */
  function PatchedTo(row: Row, p: Patch, n: nat): Row {
    Row(if n > 0 then Or(p.name, row.name) else row.name,
        if n > 1 then Or(p.cron, row.cron) else row.cron,
        if n > 2 then Or(p.intervalMinutes, row.intervalMinutes) else row.intervalMinutes,
        if n > 3 then Or(p.kind, row.kind) else row.kind,
        if n > 4 then Or(p.retentionClass, row.retentionClass) else row.retentionClass,
        if n > 5 then Or(p.enabled, row.enabled) else row.enabled,
        if n > 6 then Or(p.nextRunAt, row.nextRunAt) else row.nextRunAt, row.lastRunAt, row.version)
  }

  lemma AssignedNext(row: Row, p: Patch, n: nat)
    requires n < 7
    ensures
      var before, a := PatchedTo(row, p, n), AssignmentTo(p, PATCH_COLUMNS[n]);
      PatchedTo(row, p, n + 1) == if a.Some? then Assigned(before, a.value) else before
  {
  }

  lemma NoColumns(row: Row, p: Patch)
    ensures AllAssigned(row, AssignmentsOf(p, [])) == PatchedTo(row, p, 0)
  {
  }

  lemma NextColumn(row: Row, p: Patch, n: nat)
    requires n < 7
    requires AllAssigned(row, AssignmentsOf(p, PATCH_COLUMNS[..n])) == PatchedTo(row, p, n)
    ensures AllAssigned(row, AssignmentsOf(p, PATCH_COLUMNS[..n + 1])) == PatchedTo(row, p, n + 1)
  {
    hide PatchedTo, Assigned, AssignmentTo, AllAssigned, AssignmentsOf;
    OneMoreColumn(row, p, PATCH_COLUMNS[..n], PATCH_COLUMNS[n]);
    AssignedNext(row, p, n);
    assert PATCH_COLUMNS[..n + 1] == PATCH_COLUMNS[..n] + [PATCH_COLUMNS[n]];
  }

  lemma {:induction false} AssignmentsPatchTo(row: Row, p: Patch, n: nat)
    requires n <= 7
    ensures AllAssigned(row, AssignmentsOf(p, PATCH_COLUMNS[..n])) == PatchedTo(row, p, n)
  {
    hide PatchedTo, Assigned, AssignmentTo, AllAssigned, AssignmentsOf;
    if n == 0 {
      NoColumns(row, p);
      assert PATCH_COLUMNS[..0] == [];
    } else {
      AssignmentsPatchTo(row, p, n - 1);
      NextColumn(row, p, n - 1);
    }
  }

  /** The assignments of all the columns make exactly the patched row. */
  lemma AssignmentsPatch(row: Row, p: Patch)
    ensures AllAssigned(row, AssignmentsOf(p, PATCH_COLUMNS)) == Patched(row, p)
  {
    AssignmentsPatchTo(row, p, 7);
    assert PATCH_COLUMNS[..7] == PATCH_COLUMNS;
    hide AllAssigned, AssignmentsOf;
  }

  datatype UpdateResult = Updated(row: Row) | Missing | EtagConflict

  type Rows = map<string, Row>

  predicate CanUpdate(rows: Rows, id: string, expected: Option<nat>) {
    id in rows && (expected.None? || rows[id].version == expected.value)
  }

  function AfterUpdate(rows: Rows, id: string, p: Patch, expected: Option<nat>): Rows {
    if CanUpdate(rows, id, expected) then rows[id := Patched(rows[id], p).(version := rows[id].version + 1)] else rows
  }

  class BackupRepository {
    var rows: Rows

    constructor ()
      ensures rows == map[]
    {
      rows := map[];
    }

    method UpdateSchedule(id: string, p: Patch, expectedVersion: Option<nat>) returns (r: UpdateResult)
      modifies this
      ensures rows == AfterUpdate(old(rows), id, p, expectedVersion)
      ensures id !in old(rows) ==> r == Missing
      ensures id in old(rows) && expectedVersion.Some? && expectedVersion.value != old(rows)[id].version ==>
        r == EtagConflict
      ensures CanUpdate(old(rows), id, expectedVersion) ==>
        r == Updated(rows[id]) && rows[id].version == old(rows)[id].version + 1
    {
      var assignments: seq<Assignment> := [];
      for i := 0 to |PATCH_COLUMNS|
        invariant assignments == AssignmentsOf(p, PATCH_COLUMNS[..i])
      {
        var a := AssignmentTo(p, PATCH_COLUMNS[i]);
        assert PATCH_COLUMNS[..i + 1][..i] == PATCH_COLUMNS[..i];
        if a.Some? { assignments := assignments + [a.value]; }
      }
      assert PATCH_COLUMNS[..|PATCH_COLUMNS|] == PATCH_COLUMNS;
      if !CanUpdate(rows, id, expectedVersion) { return if id in rows then EtagConflict else Missing; }
      AssignmentsPatch(rows[id], p);
      hide AllAssigned, AssignmentsOf, Patched;
      var row := AllAssigned(rows[id], assignments);
      rows := rows[id := row.(version := rows[id].version + 1)];
      return Updated(rows[id]);
    }

    /** A tick is not an operator's edit: the version stays. */
    method MarkScheduleRan(id: string, ranAt: int, nextRunAt: Option<int>)
      modifies this
      ensures rows == AfterTick(old(rows), id, ranAt, nextRunAt)
      ensures id in old(rows) ==>
        rows == old(rows)[id := old(rows)[id].(lastRunAt := Some(ranAt), nextRunAt := nextRunAt)]
    {
      if id in rows { rows := rows[id := rows[id].(lastRunAt := Some(ranAt), nextRunAt := nextRunAt)]; }
    }
  }

  function AfterTick(rows: Rows, id: string, ranAt: int, nextRunAt: Option<int>): Rows {
    if id in rows then rows[id := rows[id].(lastRunAt := Some(ranAt), nextRunAt := nextRunAt)] else rows
  }

  // ---- The PATCH handler -----------------------------------------------------------

  /** The If-Match header: absent, `*`, or one entity tag. */
  datatype IfMatch = Absent | Star | Tag(version: nat)

  /** The body of a request; `cron` is already trimmed, and text that is blank clears it. */
  datatype Body = Body(
    name: Option<string>, cron: Option<string>, intervalMinutes: Option<Option<int>>, kind: Option<string>,
    retentionClass: Option<string>, enabled: Option<bool>)

  datatype Opened = Ready(patch: Patch, expected: Option<nat>) | NotFound | PreconditionFailed | BadRequest

  /** The version the update must assert; None when it asserts none. */
  function Expected(h: IfMatch, version: nat): Option<nat> { if h == Absent then None else Some(version) }

  function PatchOf(b: Body, now: int): Patch {
    var minutes := if b.intervalMinutes.Some? then b.intervalMinutes.value else None;
    Patch(b.name,
          if b.cron.Some? then Some(if b.cron.value == "" then None else b.cron) else None,
          b.intervalMinutes, b.kind, b.retentionClass, b.enabled,
          if minutes.Some? then Some(Some(now + minutes.value * 60_000)) else None)
  }

  predicate NoCron(c: Option<string>) { c.None? || c.value == "" }

  /** The part of a PATCH before its update, on the row it has just read. */
  function OpenPatch(rows: Rows, id: string, h: IfMatch, b: Body, now: int): Opened {
    if id !in rows then NotFound
    else if h.Tag? && h.version != rows[id].version then PreconditionFailed
    else if b.intervalMinutes.Some? && b.intervalMinutes.value.Some? && b.intervalMinutes.value.value <= 0
    then BadRequest
    else
      var p := PatchOf(b, now);
      var cronAfter := Or(p.cron, rows[id].cron);
      if NoCron(cronAfter) && Or(p.intervalMinutes, rows[id].intervalMinutes).None? then BadRequest
      else Ready(p, Expected(h, rows[id].version))
  }

  /** A cron expression or an interval: what the handler asks of a schedule (without them it runs daily). */
  predicate HasCadence(row: Row) { !NoCron(row.cron) || row.intervalMinutes.Some? }

  /** How a request is answered before its update, in terms of the row it read. */
  lemma WhatOpens(rows: Rows, id: string, h: IfMatch, b: Body, now: int)
    ensures
      var o := OpenPatch(rows, id, h, b, now);
      && (o.NotFound? <==> id !in rows)
      && (o.PreconditionFailed? <==> id in rows && h.Tag? && h.version != rows[id].version)
      && (o.Ready? <==>
          && id in rows && (h.Tag? ==> h.version == rows[id].version)
          && (b.intervalMinutes.Some? && b.intervalMinutes.value.Some? ==> b.intervalMinutes.value.value > 0)
          && !((if b.cron.Some? then b.cron.value == "" else rows[id].cron.None? || rows[id].cron.value == "")
               && (if b.intervalMinutes.Some? then b.intervalMinutes.value else rows[id].intervalMinutes).None?))
      && (o.Ready? ==> o.expected == if h == Absent then None else Some(rows[id].version))
  {
  }

  /**
   * An edit that nothing else touches: the fields of the body, each if it is given, the next
   * run a new interval from now, and the next version.
   */
  lemma EditedRow(rows: Rows, id: string, h: IfMatch, b: Body, now: int)
    requires OpenPatch(rows, id, h, b, now).Ready?
    ensures
      var o, row := OpenPatch(rows, id, h, b, now), rows[id];
      var minutes := if b.intervalMinutes.Some? then b.intervalMinutes.value else None;
      AfterUpdate(rows, id, o.patch, o.expected) == rows[id := Row(
        if b.name.Some? then b.name.value else row.name,
        if b.cron.None? then row.cron else if b.cron.value == "" then None else b.cron,
        if b.intervalMinutes.Some? then b.intervalMinutes.value else row.intervalMinutes,
        if b.kind.Some? then b.kind.value else row.kind,
        if b.retentionClass.Some? then b.retentionClass.value else row.retentionClass,
        if b.enabled.Some? then b.enabled.value else row.enabled,
        if minutes.Some? then Some(now + minutes.value * 60 * 1000) else row.nextRunAt,
        row.lastRunAt,
        row.version + 1)]
  {
  }

  // ---- Interleaved requests --------------------------------------------------------

  /** A request that has been checked against the row `seen` and is about to update it. */
  datatype Pending = Pending(id: string, patch: Patch, expected: Option<nat>, seen: Row)

  datatype Step =
    | Create(id: string, row: Row)
    | Read(id: string)
    | Open(request: nat, id: string, header: IfMatch, body: Body, now: int)
    | Write(request: nat)
    | Tick(id: string, ranAt: int, nextRunAt: Option<int>)

  datatype Success = Success(id: string, expected: Option<nat>, before: Row, after: Row)

  /** `known` keeps every row anyone has read; `log` every update that went through. */
  datatype State = State(rows: Rows, known: set<(string, Row)>, pending: map<nat, Pending>, log: seq<Success>)

  function Next(s: State, step: Step): State {
    match step
    case Create(id, row) =>
      if id !in s.rows && HasCadence(row) then s.(rows := s.rows[id := row.(version := 0)]) else s
    case Read(id) => if id in s.rows then s.(known := s.known + {(id, s.rows[id])}) else s
    case Open(r, id, h, b, now) =>
      var o := OpenPatch(s.rows, id, h, b, now);
      if r in s.pending || !o.Ready? then s
      else s.(known := s.known + {(id, s.rows[id])},
        pending := s.pending[r := Pending(id, o.patch, o.expected, s.rows[id])])
    case Write(r) =>
      if r !in s.pending then s
      else
        var p := s.pending[r];
        var done := s.(pending := s.pending - {r});
        if !CanUpdate(s.rows, p.id, p.expected) then done
        else
          var rows := AfterUpdate(s.rows, p.id, p.patch, p.expected);
          done.(rows := rows, log := s.log + [Success(p.id, p.expected, s.rows[p.id], rows[p.id])])
    case Tick(id, ranAt, nextRunAt) => s.(rows := AfterTick(s.rows, id, ranAt, nextRunAt))
  }

  function Run(steps: seq<Step>): State {
    if steps == [] then State(map[], {}, map[], []) else Next(Run(steps[..|steps| - 1]), steps[|steps| - 1])
  }

  /** Equal in everything an operator edits, the two run times excepted. */
  predicate SameEdits(a: Row, b: Row) {
    a.(nextRunAt := None, lastRunAt := None) == b.(nextRunAt := None, lastRunAt := None)
  }

  /** A row once read is older than the current one, or the same edit of it. */
  ghost predicate ReadAgrees(s: State, id: string, seen: Row) {
    id in s.rows && seen.version <= s.rows[id].version &&
      (seen.version == s.rows[id].version ==> SameEdits(seen, s.rows[id]))
  }

  /** An update that went through lies in the past of its row. */
  ghost predicate Past(s: State, k: nat) {
    k < |s.log| ==>
      s.log[k].id in s.rows && s.log[k].after.version == s.log[k].before.version + 1 <= s.rows[s.log[k].id].version
  }

  ghost predicate PendingOk(s: State, r: nat) {
    r in s.pending ==>
      var p := s.pending[r];
      (p.id, p.seen) in s.known && (p.expected.Some? ==> p.expected.value == p.seen.version) &&
        HasCadence(Patched(p.seen, p.patch))
  }

  /** Later updates of a schedule start from higher versions. */
  ghost predicate Increasing(log: seq<Success>) {
    forall j, k :: 0 <= j < k < |log| && log[j].id == log[k].id ==> log[j].before.version < log[k].before.version
  }

  ghost predicate Inv(s: State) {
    && (forall id, seen :: (id, seen) in s.known ==> ReadAgrees(s, id, seen))
    && (forall k: nat :: Past(s, k))
    && (forall r: nat :: PendingOk(s, r))
    && Increasing(s.log)
  }

  /** What a step does to a row it may touch: the version grows, or the edits are the same. */
  ghost predicate Advances(a: Rows, b: Rows) {
    a.Keys <= b.Keys && forall id :: id in a ==>
      a[id].version <= b[id].version && (a[id].version == b[id].version ==> SameEdits(a[id], b[id]))
  }

  lemma StepAdvances(s: State, step: Step)
    ensures Advances(s.rows, Next(s, step).rows)
  {
    hide OpenPatch, HasCadence, Patched;
  }

  lemma StepKeepsReads(s: State, step: Step)
    requires Inv(s)
    ensures forall id, seen :: (id, seen) in Next(s, step).known ==> ReadAgrees(Next(s, step), id, seen)
  {
    StepAdvances(s, step);
    var t := Next(s, step);
    assert step.Open? && OpenPatch(s.rows, step.id, step.header, step.body, step.now).Ready? ==> step.id in s.rows;
    hide Past, PendingOk, Increasing, OpenPatch, HasCadence, Patched, AfterUpdate, AfterTick, CanUpdate;
    forall id, seen | (id, seen) in t.known ensures ReadAgrees(t, id, seen) {
      if (id, seen) in s.known { assert ReadAgrees(s, id, seen); }
    }
  }

  lemma OpenedKeepsCadence(rows: Rows, id: string, h: IfMatch, b: Body, now: int)
    requires OpenPatch(rows, id, h, b, now).Ready?
    ensures HasCadence(Patched(rows[id], OpenPatch(rows, id, h, b, now).patch))
  {
  }

  lemma StepKeepsPending(s: State, step: Step)
    requires Inv(s)
    ensures forall r: nat :: PendingOk(Next(s, step), r)
  {
    if step.Open? && OpenPatch(s.rows, step.id, step.header, step.body, step.now).Ready? {
      OpenedKeepsCadence(s.rows, step.id, step.header, step.body, step.now);
      assert step.header.Absent? ||
        OpenPatch(s.rows, step.id, step.header, step.body, step.now).expected == Some(s.rows[step.id].version);
      assert step.header.Absent? ==> OpenPatch(s.rows, step.id, step.header, step.body, step.now).expected == None;
    }
    var t := Next(s, step);
    hide Past, ReadAgrees, Increasing, OpenPatch, HasCadence, Patched, AfterUpdate, AfterTick, CanUpdate;
    forall r: nat ensures PendingOk(t, r) { assert PendingOk(s, r); }
  }

  lemma StepKeepsPast(s: State, step: Step)
    requires Inv(s)
    ensures (forall k: nat :: Past(Next(s, step), k)) && Increasing(Next(s, step).log)
  {
    StepAdvances(s, step);
    var t := Next(s, step);
    hide PendingOk, ReadAgrees, OpenPatch, HasCadence, Patched, SameEdits, AfterTick;
    forall k: nat ensures Past(t, k) { assert Past(s, k); }
    forall j, k | 0 <= j < k < |t.log| &&
      t.log[j].id == t.log[k].id ensures t.log[j].before.version < t.log[k].before.version {
      assert Past(s, j);
    }
  }

  lemma {:induction false} RunKeeps(steps: seq<Step>)
    ensures Inv(Run(steps))
  {
    if steps != [] {
      var s := Run(steps[..|steps| - 1]);
      RunKeeps(steps[..|steps| - 1]);
      StepKeepsReads(s, steps[|steps| - 1]);
      StepKeepsPending(s, steps[|steps| - 1]);
      StepKeepsPast(s, steps[|steps| - 1]);
      hide Next, Past, PendingOk, ReadAgrees, Increasing;
    }
  }

  /** Each successful update raises the version by exactly one, and no version is updated twice. */
  lemma OneUpdatePerVersion(steps: seq<Step>, j: nat, k: nat)
    requires j < |Run(steps).log| && k < |Run(steps).log|
    ensures Run(steps).log[j].after.version == Run(steps).log[j].before.version + 1
    ensures Run(steps).log[j].id == Run(steps).log[k].id ==>
      (Run(steps).log[j].before.version == Run(steps).log[k].before.version ==> j == k)
  {
    RunKeeps(steps);
    assert Past(Run(steps), j);
    hide Run, Past, ReadAgrees, PendingOk;
  }

  /** A tick never changes a version; only a successful update or a creation does. */
  lemma OnlyUpdatesBump(s: State, step: Step, id: string)
    requires id in s.rows && id in Next(s, step).rows && Next(s, step).rows[id].version != s.rows[id].version
    ensures step.Write? && |Next(s, step).log| == |s.log| + 1
    ensures
      var last := Next(s, step).log[|s.log|];
      last.id == id && last.before == s.rows[id] && last.after == Next(s, step).rows[id]
  {
    hide OpenPatch, HasCadence, Patched;
  }

  /**
   * An update under If-Match is applied to the very edit its requester read: whoever
   * read the row at the asserted version read the fields the update now starts from.
   */
  lemma IfMatchUpdatesWhatWasRead(steps: seq<Step>, r: nat, seen: Row)
    requires r in Run(steps).pending && Run(steps).pending[r].expected.Some?
    requires CanUpdate(Run(steps).rows, Run(steps).pending[r].id, Run(steps).pending[r].expected)
    requires (Run(steps).pending[r].id, seen) in Run(steps).known &&
      seen.version == Run(steps).pending[r].expected.value
    ensures SameEdits(seen, Run(steps).rows[Run(steps).pending[r].id])
  {
    RunKeeps(steps);
    assert ReadAgrees(Run(steps), Run(steps).pending[r].id, seen);
    hide Run, SameEdits, Past, PendingOk;
  }

  // ---- Every schedule keeps a cadence ----------------------------------------------

  predicate ClearsCron(b: Body) { b.cron == Some("") }

  predicate ClearsInterval(b: Body) { b.intervalMinutes == Some(None) }

  /** Does not clear one of cron and interval while leaving the other alone (clearing both is refused). */
  predicate Keeps(b: Body) {
    !(ClearsCron(b) && b.intervalMinutes.None?) && !(ClearsInterval(b) && b.cron.None?)
  }

  /** What a caller can check on one request: it carries If-Match, or its body cannot take the last cadence away. */
  predicate SafeEdit(h: IfMatch, b: Body) { h != Absent || Keeps(b) }

  ghost predicate AllSafe(steps: seq<Step>) {
    forall k :: 0 <= k < |steps| && steps[k].Open? ==> SafeEdit(steps[k].header, steps[k].body)
  }

  /** Whatever the row, what it loses it gets back. */
  predicate SafePatch(p: Patch) {
    && (p.cron.Some? && NoCron(p.cron.value) ==> p.intervalMinutes.Some? && p.intervalMinutes.value.Some?)
    && (p.intervalMinutes == Some(None) ==> p.cron.Some? && !NoCron(p.cron.value))
  }

  lemma SafePatchKeepsCadence(row: Row, p: Patch)
    requires SafePatch(p) && HasCadence(row)
    ensures HasCadence(Patched(row, p))
  {
  }

  lemma OpenedIsSafe(rows: Rows, id: string, h: IfMatch, b: Body, now: int)
    requires SafeEdit(h, b) && OpenPatch(rows, id, h, b, now).Ready?
    ensures
      var o := OpenPatch(rows, id, h, b, now);
      o.expected.Some? || SafePatch(o.patch)
  {
  }

  /** An edit in flight asserts the version it read, or is harmless on any row. */
  ghost predicate AllHarmless(s: State) {
    forall r: nat :: r in s.pending ==> s.pending[r].expected.Some? || SafePatch(s.pending[r].patch)
  }

  lemma PatchedAlike(a: Row, b: Row, p: Patch)
    requires SameEdits(a, b) && HasCadence(Patched(a, p))
    ensures HasCadence(Patched(b, p))
  {
  }

  ghost predicate AllHaveCadence(s: State) { forall id :: id in s.rows ==> HasCadence(s.rows[id]) }

  lemma WriteKeepsCadence(s: State, r: nat)
    requires Inv(s) && AllHarmless(s) && AllHaveCadence(s)
    ensures AllHaveCadence(Next(s, Write(r)))
  {
    if r in s.pending && CanUpdate(s.rows, s.pending[r].id, s.pending[r].expected) {
      var p := s.pending[r];
      assert PendingOk(s, r) && ReadAgrees(s, p.id, p.seen);
      if p.expected.Some? {
        PatchedAlike(p.seen, s.rows[p.id], p.patch);
      } else {
        SafePatchKeepsCadence(s.rows[p.id], p.patch);
      }
      assert HasCadence(Patched(s.rows[p.id], p.patch).(version := s.rows[p.id].version + 1));
    }
    hide Patched, HasCadence, SameEdits, SafePatch;
  }

  lemma StepKeepsCadence(s: State, step: Step)
    requires Inv(s) && AllHarmless(s) && AllHaveCadence(s) && (step.Open? ==> SafeEdit(step.header, step.body))
    ensures AllHarmless(Next(s, step)) && AllHaveCadence(Next(s, step))
  {
    hide Inv, Patched, SafePatch, SafeEdit, OpenPatch;
    if step.Write? { WriteKeepsCadence(s, step.request); }
    if step.Open? && OpenPatch(s.rows, step.id, step.header, step.body, step.now).Ready? {
      OpenedIsSafe(s.rows, step.id, step.header, step.body, step.now);
    }
  }

  /** When every edit is safe, every schedule keeps a cron expression or an interval, in every interleaving. */
  lemma {:induction false} SafeEditsKeepCadence(steps: seq<Step>)
    requires AllSafe(steps)
    ensures AllHarmless(Run(steps)) && AllHaveCadence(Run(steps))
  {
    if steps != [] {
      var before := steps[..|steps| - 1];
      assert AllSafe(before);
      SafeEditsKeepCadence(before);
      RunKeeps(before);
      StepKeepsCadence(Run(before), steps[|steps| - 1]);
      hide Next, Inv, AllHaveCadence, AllHarmless;
    }
  }

  const NIGHTLY := Row("nightly", Some("0 2 * * *"), Some(60), "full", "daily", true, None, None, 0)

  const UNCHANGED := Body(None, None, None, None, None, None)

  const NO_CRON := UNCHANGED.(cron := Some(""))

  const NO_INTERVAL := UNCHANGED.(intervalMinutes := Some(None))

  /** The edit, under If-Match, of the column that `b` leaves alone. */
  function Rival(b: Body): Body { if ClearsCron(b) then NO_INTERVAL else NO_CRON }

  /** Two requests read the same row: `b`, and one that clears the other column, under If-Match. */
  function Race(b: Body, now: int): seq<Step> {
    [Create("s", NIGHTLY)] + [Open(1, "s", Absent, b, now)] + [Open(2, "s", Star, Rival(b), now)] + [Write(2)] +
      [Write(1)]
  }

  lemma RunSnoc(steps: seq<Step>, step: Step)
    ensures Run(steps + [step]) == Next(Run(steps), step)
  {
    assert (steps + [step])[..|steps|] == steps;
  }

  lemma BothOpen(b: Body, now: int) returns (s: State)
    requires !Keeps(b)
    ensures s == Run([Create("s", NIGHTLY)] + [Open(1, "s", Absent, b, now)] + [Open(2, "s", Star, Rival(b), now)])
    ensures s.rows == map["s" := NIGHTLY]
    ensures s.pending ==
      map[1 := Pending("s", PatchOf(b, now), None, NIGHTLY),
        2 := Pending("s", PatchOf(Rival(b), now), Some(0), NIGHTLY)]
  {
    assert Run([]) == State(map[], {}, map[], []);
    var first, second := Open(1, "s", Absent, b, now), Open(2, "s", Star, Rival(b), now);
    var created := map["s" := NIGHTLY];
    assert OpenPatch(created, "s", Absent, b, now) == Ready(PatchOf(b, now), None);
    assert OpenPatch(created, "s", Star, Rival(b), now) == Ready(PatchOf(Rival(b), now), Some(0));
    hide Run, OpenPatch, PatchOf, Rival, Keeps;
    RunSnoc([], Create("s", NIGHTLY));
    assert [] + [Create("s", NIGHTLY)] == [Create("s", NIGHTLY)];
    RunSnoc([Create("s", NIGHTLY)], first);
    RunSnoc([Create("s", NIGHTLY)] + [first], second);
    s := Run([Create("s", NIGHTLY)] + [first] + [second]);
  }

  lemma BothWrite(s: State, p: Patch, q: Patch)
    requires s.rows == map["s" := NIGHTLY]
    requires s.pending == map[1 := Pending("s", p, None, NIGHTLY), 2 := Pending("s", q, Some(0), NIGHTLY)]
    ensures
      var t := Next(Next(s, Write(2)), Write(1));
      "s" in t.rows && t.rows["s"] == Patched(Patched(NIGHTLY, q).(version := 1), p).(version := 2)
  {
    hide Patched, HasCadence;
    var t := Next(s, Write(2));
    assert t.rows["s"] == Patched(NIGHTLY, q).(version := 1);
    assert t.pending[1] == Pending("s", p, None, NIGHTLY);
    PatchedVersion(t.rows["s"], p);
    assert Next(t, Write(1)).rows["s"] == Patched(t.rows["s"], p).(version := 2);
  }

  lemma PatchedVersion(row: Row, p: Patch)
    ensures Patched(row, p).version == row.version
  {
  }

  /** Every body that is not safe by itself can take the last cadence away, beside a request that is. */
  lemma UnsafeEditCanDropTheCadence(b: Body, now: int)
    requires !Keeps(b)
    ensures "s" in Run(Race(b, now)).rows && !HasCadence(Run(Race(b, now)).rows["s"])
  {
    var s := BothOpen(b, now);
    var ready := [Create("s", NIGHTLY)] + [Open(1, "s", Absent, b, now)] + [Open(2, "s", Star, Rival(b), now)];
    assert !HasCadence(Patched(Patched(NIGHTLY, PatchOf(Rival(b), now)).(version := 1),
      PatchOf(b, now)).(version := 2));
    hide Run, Next, Patched, PatchOf, Keeps, HasCadence;
    RunSnoc(ready, Write(2));
    RunSnoc(ready + [Write(2)], Write(1));
    BothWrite(s, PatchOf(b, now), PatchOf(Rival(b), now));
  }

  /** Every edit is safe, or is `b` without If-Match. */
  ghost predicate SafeBut(steps: seq<Step>, b: Body) {
    forall k :: 0 <= k < |steps| && steps[k].Open? ==>
      SafeEdit(steps[k].header, steps[k].body) || (steps[k].header == Absent && steps[k].body == b)
  }

  /**
   * A body may go without If-Match exactly when it keeps a cadence: then, and only
   * then, every run of it among safe edits leaves every schedule a cadence.
   */
  lemma SafeExactly(b: Body)
    ensures Keeps(b) <==> forall steps :: SafeBut(steps, b) ==> AllHaveCadence(Run(steps))
  {
    if Keeps(b) {
      forall steps | SafeBut(steps, b) ensures AllHaveCadence(Run(steps)) {
        assert AllSafe(steps);
        SafeEditsKeepCadence(steps);
      }
    } else {
      UnsafeEditCanDropTheCadence(b, 0);
      var steps := Race(b, 0);
      assert SafeBut(steps, b);
      hide Run, HasCadence, Keeps;
      assert !AllHaveCadence(Run(steps));
    }
  }
}
