/**
 * Gateway-wide throughput from stored bind snapshots, summed per poll and then bucketed
 * (backend/src/connectivity/gateway-performance.service.ts).
 * Rates are reals and never null; instants are milliseconds.
 */
module GatewayPerformance {
  import opened Text
  import opened Bits
  import opened Numbers

  // ---- The window ------------------------------------------------------------------

  const BUCKET_LADDER: seq<nat> := [60, 120, 300, 600, 1800, 3600]
  const TARGET_POINTS: nat := 48
  const MIN_WINDOW_MINUTES: nat := 5
  const MAX_WINDOW_MINUTES: nat := 10_080

  /** The first width that is wide enough, else the widest. */
  function FirstWidth(ladder: seq<nat>, ideal: real): (w: nat)
    requires ladder != []
    ensures w in ladder
  {
    if ladder[0] as real >= ideal || |ladder| == 1 then ladder[0] else FirstWidth(ladder[1..], ideal)
  }

  /** `minutes` is None when it is not a finite number. */
  function ResolveWindow(minutes: Option<real>): (r: (nat, nat))
    ensures MIN_WINDOW_MINUTES <= r.0 <= MAX_WINDOW_MINUTES && r.1 in BUCKET_LADDER
  {
    var requested := if minutes.Some? then Truncated(minutes.value) else 360;
    var atLeast := if requested < MIN_WINDOW_MINUTES then MIN_WINDOW_MINUTES else requested;
    var window := if atLeast > MAX_WINDOW_MINUTES then MAX_WINDOW_MINUTES else atLeast;
    (window, FirstWidth(BUCKET_LADDER, (window * 60) as real / TARGET_POINTS as real))
  }

  /** Six hours unless a number is given; else that many whole minutes, kept between five and a week. */
  lemma WindowIs(minutes: Option<real>)
    ensures
      var window := ResolveWindow(minutes).0;
      && (minutes.None? ==> window == 360)
      && (minutes.Some? && minutes.value < 5.0 ==> window == 5)
      && (minutes.Some? && minutes.value > 10_080.0 ==> window == 7 * 24 * 60)
      && (minutes.Some? && 5.0 <= minutes.value <= 10_080.0 ==>
          window as real <= minutes.value < (window + 1) as real)
  {
    hide FirstWidth;
  }

  lemma WidthIsFirst(minutes: Option<real>)
    ensures
      var r := ResolveWindow(minutes);
      r.1 == FirstWidth(BUCKET_LADDER, (r.0 * 60) as real / 48.0)
  {
    hide FirstWidth, Truncated;
  }

  lemma LadderIs()
    ensures forall w: nat :: w in BUCKET_LADDER <==> w in {60, 120, 300, 600, 1800, 3600}
  {
    var l := BUCKET_LADDER;
    assert l[0] in l && l[1] in l && l[2] in l && l[3] in l && l[4] in l && l[5] in l;
  }

  lemma WideEnough(w: nat, window: nat)
    ensures w as real >= (window * 60) as real / 48.0 <==> 48 * w >= window * 60
  {
  }

  /** The narrowest width that keeps the chart to its target, as long as there is one. */
  lemma WidthFits(minutes: Option<real>)
    ensures
      var r := ResolveWindow(minutes);
      && r.1 in {60, 120, 300, 600, 1800, 3600}
      && (r.0 <= 2880 ==> r.0 * 60 <= 48 * r.1)
      && (r.0 <= 2880 ==> forall w: nat :: w in {60, 120, 300, 600, 1800, 3600} && w < r.1 ==> 48 * w < r.0 * 60)
      && (r.0 > 2880 ==> r.1 == 3600 && r.0 * 60 <= 168 * r.1)
  {
    hide FirstWidth, ResolveWindow;
    var window := ResolveWindow(minutes).0;
    var ideal := (window * 60) as real / 48.0;
    WidthIsFirst(minutes);
    LadderIs();
    FirstWidthFits(BUCKET_LADDER, ideal);
    WideEnough(ResolveWindow(minutes).1, window);
    WideEnough(3600, window);
    forall w: nat | w in {60, 120, 300, 600, 1800, 3600} && w < ResolveWindow(minutes).1
      ensures 48 * w < window * 60
    {
      assert w in BUCKET_LADDER;
      WideEnough(w, window);
    }
  }

  lemma {:induction false} FirstWidthFits(ladder: seq<nat>, ideal: real)
    requires ladder != [] && forall i, j :: 0 <= i < j < |ladder| ==> ladder[i] < ladder[j]
    ensures ladder[|ladder| - 1] as real >= ideal ==> FirstWidth(ladder, ideal) as real >= ideal
    ensures (ladder[|ladder| - 1] as real) < ideal ==> FirstWidth(ladder, ideal) == ladder[|ladder| - 1]
    ensures forall w :: w in ladder && w < FirstWidth(ladder, ideal) ==> (w as real) < ideal
  {
    if !(ladder[0] as real >= ideal || |ladder| == 1) {
      var rest := ladder[1..];
      FirstWidthFits(rest, ideal);
      assert FirstWidth(ladder, ideal) == FirstWidth(rest, ideal) && rest[|rest| - 1] == ladder[|ladder| - 1];
      hide FirstWidth;
      assert forall w :: w in ladder ==> w == ladder[0] || w in rest;
    }
  }

  // ---- One sum per poll ------------------------------------------------------------

  datatype Snapshot = Snapshot(bind: nat, at: nat, outbound: real)

  datatype Poll = Poll(at: nat, outbound: real)

  /** Groups by instant, in ascending order. */
  function AddToPoll(polls: seq<Poll>, s: Snapshot): seq<Poll> {
    if polls == [] then [Poll(s.at, s.outbound)]
    else
      var before, last := polls[..|polls| - 1], polls[|polls| - 1];
      if last.at == s.at then before + [Poll(s.at, last.outbound + s.outbound)]
      else if last.at < s.at then polls + [Poll(s.at, s.outbound)]
      else AddToPoll(before, s) + [last]
  }

  function PerPoll(snapshots: seq<Snapshot>): seq<Poll> {
    if snapshots == [] then [] else AddToPoll(PerPoll(snapshots[..|snapshots| - 1]), snapshots[|snapshots| - 1])
  }

  ghost predicate Ascending(polls: seq<Poll>) { forall i, j :: 0 <= i < j < |polls| ==> polls[i].at < polls[j].at }

  /** The whole gateway's rate at an instant. */
  function SumAt(snapshots: seq<Snapshot>, at: nat): real {
    if snapshots == [] then 0.0
    else
      var s := snapshots[|snapshots| - 1];
      SumAt(snapshots[..|snapshots| - 1], at) + if s.at == at then s.outbound else 0.0
  }

  ghost predicate Observed(snapshots: seq<Snapshot>, at: nat) {
    exists k :: 0 <= k < |snapshots| && snapshots[k].at == at
  }

  function Lookup(polls: seq<Poll>, at: nat): Option<real> {
    if polls == [] then None
    else if polls[|polls| - 1].at == at then Some(polls[|polls| - 1].outbound)
    else Lookup(polls[..|polls| - 1], at)
  }

  lemma {:induction false} AddToPollLooksUp(polls: seq<Poll>, s: Snapshot, at: nat)
    requires Ascending(polls)
    ensures Lookup(AddToPoll(polls, s), at) ==
      if at != s.at then Lookup(polls, at)
      else Some((if Lookup(polls, at).Some? then Lookup(polls, at).value else 0.0) + s.outbound)
  {
    hide Lookup, AddToPoll, Ascending;
    if polls == [] {
      FirstPoll(s, at);
    } else {
      var before, last := polls[..|polls| - 1], polls[|polls| - 1];
      assert polls == before + [last];
      LookupSnoc(before, last, at);
      AddToPollIs(before, last, s);
      if last.at > s.at {
        AscendingBefore(polls);
        AddToPollLooksUp(before, s, at);
        LookupSnoc(AddToPoll(before, s), last, at);
      } else if last.at < s.at {
        LastIsLatest(polls, s.at);
        LookupSnoc(polls, Poll(s.at, s.outbound), at);
      } else {
        LookupSnoc(before, Poll(s.at, last.outbound + s.outbound), at);
      }
    }
  }

  lemma FirstPoll(s: Snapshot, at: nat)
    ensures Lookup([], at) == None && Lookup(AddToPoll([], s), at) == if at == s.at then Some(s.outbound) else None
  {
  }

  lemma LookupSnoc(before: seq<Poll>, last: Poll, at: nat)
    ensures Lookup(before + [last], at) == if last.at == at then Some(last.outbound) else Lookup(before, at)
  {
    assert (before + [last])[..|before|] == before;
  }

  lemma AddToPollIs(before: seq<Poll>, last: Poll, s: Snapshot)
    ensures AddToPoll(before + [last], s) ==
      if last.at == s.at then before + [Poll(s.at, last.outbound + s.outbound)]
      else if last.at < s.at then before + [last] + [Poll(s.at, s.outbound)]
      else AddToPoll(before, s) + [last]
  {
    assert (before + [last])[..|before|] == before;
  }

  lemma AscendingBefore(polls: seq<Poll>)
    requires Ascending(polls) && polls != []
    ensures Ascending(polls[..|polls| - 1])
  {
  }

  lemma LastIsLatest(polls: seq<Poll>, at: nat)
    requires Ascending(polls) && polls != [] && polls[|polls| - 1].at < at
    ensures Lookup(polls, at).None?
  {
    forall p | p in polls ensures p.at < at {
      var i :| 0 <= i < |polls| && polls[i] == p;
    }
    hide Lookup;
    BeforeLast(polls, at);
  }

  lemma {:induction false} BeforeLast(polls: seq<Poll>, at: nat)
    requires forall p :: p in polls ==> p.at < at
    ensures Lookup(polls, at).None?
  {
    if polls != [] {
      assert polls[|polls| - 1] in polls;
      BeforeLast(polls[..|polls| - 1], at);
    }
  }

  ghost predicate Below(polls: seq<Poll>, at: nat) { forall i :: 0 <= i < |polls| ==> polls[i].at < at }

  lemma {:induction false} AddToPollBelow(polls: seq<Poll>, s: Snapshot, at: nat)
    requires Below(polls, at) && s.at < at
    ensures Below(AddToPoll(polls, s), at)
  {
    if polls != [] && polls[|polls| - 1].at > s.at { AddToPollBelow(polls[..|polls| - 1], s, at); }
  }

  lemma AscendingSnoc(polls: seq<Poll>, last: Poll)
    ensures Ascending(polls + [last]) <==> Ascending(polls) && Below(polls, last.at)
  {
    var all := polls + [last];
    assert all[|polls|] == last && forall i :: 0 <= i < |polls| ==> all[i] == polls[i];
  }

  lemma BelowLater(polls: seq<Poll>, at: nat, later: nat)
    requires Below(polls, at) && at <= later
    ensures Below(polls, later)
  {
  }

  lemma {:induction false} AddToPollAscends(polls: seq<Poll>, s: Snapshot)
    requires Ascending(polls)
    ensures Ascending(AddToPoll(polls, s))
  {
    if polls != [] {
      var before, last := polls[..|polls| - 1], polls[|polls| - 1];
      assert polls == before + [last];
      AscendingSnoc(before, last);
      hide Ascending, Below;
      if last.at == s.at {
        AscendingSnoc(before, Poll(s.at, last.outbound + s.outbound));
      } else if last.at < s.at {
        BelowLater(before, last.at, s.at);
        assert Below(polls, s.at) by { BelowSnoc(before, last, s.at); }
        AscendingSnoc(polls, Poll(s.at, s.outbound));
      } else {
        AddToPollAscends(before, s);
        AddToPollBelow(before, s, last.at);
        AscendingSnoc(AddToPoll(before, s), last);
      }
    }
  }

  lemma BelowSnoc(polls: seq<Poll>, last: Poll, at: nat)
    requires Below(polls, at) && last.at < at
    ensures Below(polls + [last], at)
  {
  }

  lemma {:induction false} LookupAt(polls: seq<Poll>, k: nat)
    requires Ascending(polls) && k < |polls|
    ensures Lookup(polls, polls[k].at) == Some(polls[k].outbound)
  {
    if k < |polls| - 1 { LookupAt(polls[..|polls| - 1], k); }
  }

  lemma ObservedSnoc(before: seq<Snapshot>, s: Snapshot, at: nat)
    ensures Observed(before + [s], at) <==> Observed(before, at) || s.at == at
  {
    var all := before + [s];
    assert all[|before|] == s;
    if Observed(before, at) {
      var k :| 0 <= k < |before| && before[k].at == at;
      assert all[k].at == at;
    }
  }

  lemma OneSnapshot(before: seq<Snapshot>, s: Snapshot, at: nat)
    ensures PerPoll(before + [s]) == AddToPoll(PerPoll(before), s)
    ensures SumAt(before + [s], at) == SumAt(before, at) + if s.at == at then s.outbound else 0.0
  {
    assert (before + [s])[..|before|] == before;
    hide AddToPoll;
  }

  lemma {:induction false} PollsAscend(snapshots: seq<Snapshot>)
    ensures Ascending(PerPoll(snapshots))
  {
    if snapshots != [] {
      PollsAscend(snapshots[..|snapshots| - 1]);
      AddToPollAscends(PerPoll(snapshots[..|snapshots| - 1]), snapshots[|snapshots| - 1]);
      hide AddToPoll, Ascending;
    }
  }

  /** Each poll is the sum of the snapshots of its instant, and every observed instant is one poll. */
  lemma {:induction false} PollsAreSums(snapshots: seq<Snapshot>, at: nat)
    ensures Lookup(PerPoll(snapshots), at) == if Observed(snapshots, at) then Some(SumAt(snapshots, at)) else None
    ensures !Observed(snapshots, at) ==> SumAt(snapshots, at) == 0.0
  {
    hide *;
    if snapshots == [] {
      NoSnapshots(at);
    } else {
      var before, s := snapshots[..|snapshots| - 1], snapshots[|snapshots| - 1];
      assert snapshots == before + [s];
      PollsAreSums(before, at);
      NextSnapshot(before, s, at);
    }
  }

  lemma NoSnapshots(at: nat)
    ensures Lookup(PerPoll([]), at) == None && !Observed([], at) && SumAt([], at) == 0.0
  {
  }

  lemma NextSnapshot(before: seq<Snapshot>, s: Snapshot, at: nat)
    requires Lookup(PerPoll(before), at) == if Observed(before, at) then Some(SumAt(before, at)) else None
    requires !Observed(before, at) ==> SumAt(before, at) == 0.0
    ensures
      var now := before + [s];
      && Lookup(PerPoll(now), at) == (if Observed(now, at) then Some(SumAt(now, at)) else None)
      && (!Observed(now, at) ==> SumAt(now, at) == 0.0)
  {
    hide *;
    PollsAscend(before);
    ObservedSnoc(before, s, at);
    OneSnapshot(before, s, at);
    AddToPollLooksUp(PerPoll(before), s, at);
  }

  // ---- Buckets ---------------------------------------------------------------------

  /** `index` counts bucket widths since the epoch. */
  datatype Bucket = Bucket(index: nat, total: real, samples: nat, peak: real)

  function Larger(a: real, b: real): real { if a >= b then a else b }

  function IndexOf(at: nat, bucketSeconds: nat): nat
    requires bucketSeconds >= 1
  {
    Quotient(at, 1000 * bucketSeconds)
  }

  function AddToBucket(buckets: seq<Bucket>, p: Poll, bucketSeconds: nat): seq<Bucket>
    requires bucketSeconds >= 1
  {
    var index := IndexOf(p.at, bucketSeconds);
    if buckets != [] && buckets[|buckets| - 1].index == index then
      var last := buckets[|buckets| - 1];
      buckets[..|buckets| - 1] +
        [Bucket(index, last.total + p.outbound, last.samples + 1, Larger(last.peak, p.outbound))]
    else buckets + [Bucket(index, p.outbound, 1, p.outbound)]
  }

  function Buckets(polls: seq<Poll>, bucketSeconds: nat): seq<Bucket>
    requires bucketSeconds >= 1
  {
    if polls == [] then []
    else AddToBucket(Buckets(polls[..|polls| - 1], bucketSeconds), polls[|polls| - 1], bucketSeconds)
  }

  datatype Point = Point(at: nat, outbound: real, peakOutbound: real, samples: nat)

  ghost predicate Filled(buckets: seq<Bucket>) { forall k :: 0 <= k < |buckets| ==> buckets[k].samples > 0 }

  function PointOf(b: Bucket, bucketSeconds: nat): Point
    requires b.samples > 0
  {
    Point(b.index * bucketSeconds, Mean(b.total, b.samples), b.peak, b.samples)
  }

  lemma {:induction false} BucketsFilled(polls: seq<Poll>, bucketSeconds: nat)
    requires bucketSeconds >= 1
    ensures Filled(Buckets(polls, bucketSeconds)) && (polls != [] ==> Buckets(polls, bucketSeconds) != [])
  {
    if polls != [] {
      BucketsFilled(polls[..|polls| - 1], bucketSeconds);
      hide IndexOf, Larger;
    }
  }

  /** The points of the chart. */
  function Series(snapshots: seq<Snapshot>, bucketSeconds: nat): seq<Point>
    requires bucketSeconds >= 1
  {
    BucketsFilled(PerPoll(snapshots), bucketSeconds);
    var buckets := Buckets(PerPoll(snapshots), bucketSeconds);
    seq(|buckets|, k requires 0 <= k < |buckets| => PointOf(buckets[k], bucketSeconds))
  }

  // ---- The peak --------------------------------------------------------------------

  function MaxPeak(points: seq<Point>): real
    requires points != []
  {
    if |points| ==
      1 then points[0].peakOutbound else Larger(MaxPeak(points[..|points| - 1]), points[|points| - 1].peakOutbound)
  }

  /** The peak shown beside the chart: None without points. */
  function PeakOutbound(points: seq<Point>): Option<real> { if points == [] then None else Some(MaxPeak(points)) }

  lemma {:induction false} MaxPeakIsGreatest(points: seq<Point>)
    requires points != []
    ensures forall k :: 0 <= k < |points| ==> points[k].peakOutbound <= MaxPeak(points)
    ensures exists k :: 0 <= k < |points| && points[k].peakOutbound == MaxPeak(points)
  {
    var n := |points|;
    assert points[n - 1].peakOutbound <= MaxPeak(points);
    if n > 1 {
      var before := points[..n - 1];
      MaxPeakIsGreatest(before);
      var k :| 0 <= k < |before| && before[k].peakOutbound == MaxPeak(before);
      assert points[k] == before[k];
      assert forall j :: 0 <= j < n - 1 ==> points[j] == before[j];
      if MaxPeak(before) < points[n - 1].peakOutbound { assert points[n - 1].peakOutbound == MaxPeak(points); }
    }
  }

  /** A bucket's peak is one of its polls, and every poll is at most the peak of its bucket. */
  ghost predicate Covers(buckets: seq<Bucket>, polls: seq<Poll>, bucketSeconds: nat)
    requires bucketSeconds >= 1
  {
    && (forall i :: 0 <= i < |polls| ==> InSomeBucket(buckets, polls[i], bucketSeconds))
    && (forall k :: 0 <= k < |buckets| ==> IsSomePoll(buckets[k], polls, bucketSeconds))
  }

  ghost predicate InSomeBucket(buckets: seq<Bucket>, p: Poll, bucketSeconds: nat)
    requires bucketSeconds >= 1
  {
    exists k :: 0 <= k < |buckets| && buckets[k].index == IndexOf(p.at, bucketSeconds) && p.outbound <= buckets[k].peak
  }

  ghost predicate IsSomePoll(b: Bucket, polls: seq<Poll>, bucketSeconds: nat)
    requires bucketSeconds >= 1
  {
    exists i :: 0 <= i < |polls| && IndexOf(polls[i].at, bucketSeconds) == b.index && polls[i].outbound == b.peak
  }

  lemma AddedPrefix(buckets: seq<Bucket>, p: Poll, bucketSeconds: nat)
    requires bucketSeconds >= 1
    ensures
      var r := AddToBucket(buckets, p, bucketSeconds);
      |r| >= 1 && |r| - 1 <= |buckets| && forall k :: 0 <= k < |r| - 1 ==> r[k] == buckets[k]
  {
    hide IndexOf;
  }

  lemma StillInBucket(buckets: seq<Bucket>, p: Poll, q: Poll, bucketSeconds: nat)
    requires bucketSeconds >= 1 && InSomeBucket(buckets, q, bucketSeconds)
    ensures InSomeBucket(AddToBucket(buckets, p, bucketSeconds), q, bucketSeconds)
  {
    var k :| 0 <= k < |buckets| && buckets[k].index == IndexOf(q.at, bucketSeconds) && q.outbound <= buckets[k].peak;
    var r := AddToBucket(buckets, p, bucketSeconds);
    hide IndexOf;
    assert r[k].index == buckets[k].index && buckets[k].peak <= r[k].peak;
  }

  lemma NowInBucket(buckets: seq<Bucket>, p: Poll, bucketSeconds: nat)
    requires bucketSeconds >= 1
    ensures InSomeBucket(AddToBucket(buckets, p, bucketSeconds), p, bucketSeconds)
  {
    var r := AddToBucket(buckets, p, bucketSeconds);
    hide IndexOf;
    assert r[|r| - 1].index == IndexOf(p.at, bucketSeconds) && p.outbound <= r[|r| - 1].peak;
  }

  lemma StillAPoll(b: Bucket, polls: seq<Poll>, p: Poll, bucketSeconds: nat)
    requires bucketSeconds >= 1 && IsSomePoll(b, polls, bucketSeconds)
    ensures IsSomePoll(b, polls + [p], bucketSeconds)
  {
    hide IndexOf;
    var i :| 0 <= i < |polls| && IndexOf(polls[i].at, bucketSeconds) == b.index && polls[i].outbound == b.peak;
    assert (polls + [p])[i] == polls[i];
  }

  lemma AddedCovers(buckets: seq<Bucket>, polls: seq<Poll>, p: Poll, bucketSeconds: nat)
    requires bucketSeconds >= 1 && Covers(buckets, polls, bucketSeconds)
    ensures Covers(AddToBucket(buckets, p, bucketSeconds), polls + [p], bucketSeconds)
  {
    hide IndexOf, InSomeBucket, IsSomePoll, AddToBucket;
    AddedPrefix(buckets, p, bucketSeconds);
    var all, r := polls + [p], AddToBucket(buckets, p, bucketSeconds);
    forall i | 0 <= i < |all| ensures InSomeBucket(r, all[i], bucketSeconds) {
      if i < |polls| {
        StillInBucket(buckets, p, polls[i], bucketSeconds);
      } else {
        NowInBucket(buckets, p, bucketSeconds);
      }
    }
    forall k | 0 <= k < |r| ensures IsSomePoll(r[k], all, bucketSeconds) {
      if k < |r| - 1 {
        StillAPoll(buckets[k], polls, p, bucketSeconds);
      } else {
        LastIsSomePoll(buckets, polls, p, bucketSeconds);
      }
    }
  }

  lemma {:induction false} BucketsCover(polls: seq<Poll>, bucketSeconds: nat)
    requires bucketSeconds >= 1
    ensures Covers(Buckets(polls, bucketSeconds), polls, bucketSeconds)
  {
    hide Covers, AddToBucket;
    if polls == [] {
      NothingToCover(bucketSeconds);
    } else {
      var before, p := polls[..|polls| - 1], polls[|polls| - 1];
      BucketsCover(before, bucketSeconds);
      AddedCovers(Buckets(before, bucketSeconds), before, p, bucketSeconds);
      assert polls == before + [p];
    }
  }

  lemma NothingToCover(bucketSeconds: nat)
    requires bucketSeconds >= 1
    ensures Covers([], [], bucketSeconds)
  {
    hide InSomeBucket, IsSomePoll;
  }

  lemma LastIsSomePoll(buckets: seq<Bucket>, polls: seq<Poll>, p: Poll, bucketSeconds: nat)
    requires bucketSeconds >= 1 && (buckets != [] ==> IsSomePoll(buckets[|buckets| - 1], polls, bucketSeconds))
    ensures
      var r := AddToBucket(buckets, p, bucketSeconds);
      IsSomePoll(r[|r| - 1], polls + [p], bucketSeconds)
  {
    hide IndexOf;
    var all := polls + [p];
    assert all[|polls|] == p;
    if buckets != [] {
      var i :| 0 <= i < |polls| && IndexOf(polls[i].at, bucketSeconds) == buckets[|buckets| - 1].index &&
        polls[i].outbound == buckets[|buckets| - 1].peak;
      assert all[i] == polls[i];
    }
  }

  lemma SeriesPeaks(snapshots: seq<Snapshot>, bucketSeconds: nat)
    requires bucketSeconds >= 1 && snapshots != []
    ensures
      var points, buckets := Series(snapshots, bucketSeconds), Buckets(PerPoll(snapshots), bucketSeconds);
      points != [] && |points| == |buckets| && forall k :: 0 <= k < |points| ==>
        points[k].peakOutbound == buckets[k].peak
  {
    SomePoll(snapshots);
    BucketsFilled(PerPoll(snapshots), bucketSeconds);
    hide Buckets, PerPoll, Filled;
  }

  lemma BucketAbove(buckets: seq<Bucket>, polls: seq<Poll>, bucketSeconds: nat, i: nat) returns (k: nat)
    requires bucketSeconds >= 1 && Covers(buckets, polls, bucketSeconds) && i < |polls|
    ensures k < |buckets| && polls[i].outbound <= buckets[k].peak
    ensures buckets[k].index == IndexOf(polls[i].at, bucketSeconds)
  {
    hide IndexOf;
    assert InSomeBucket(buckets, polls[i], bucketSeconds);
    k :| 0 <= k < |buckets| && buckets[k].index == IndexOf(polls[i].at, bucketSeconds) &&
      polls[i].outbound <= buckets[k].peak;
  }

  lemma InItsWidth(at: nat, bucketSeconds: nat)
    requires bucketSeconds >= 1
    ensures
      var start := IndexOf(at, bucketSeconds) * bucketSeconds;
      start % bucketSeconds == 0 && 1000 * start <= at < 1000 * (start + bucketSeconds)
  {
    var q, d := IndexOf(at, bucketSeconds), 1000 * bucketSeconds;
    InBlock(at, q, d);
    assert q * d == 1000 * (q * bucketSeconds);
    QuotientUnique(q * bucketSeconds, bucketSeconds, q, 0);
  }

  /**
   * Every observed instant is shown by the point that starts its width, a multiple of the width, and
   * whose peak is at least the gateway-wide sum of that instant.
   */
  lemma InstantHasItsPoint(snapshots: seq<Snapshot>, bucketSeconds: nat, at: nat) returns (k: nat)
    requires bucketSeconds >= 1 && Observed(snapshots, at)
    ensures
      var points := Series(snapshots, bucketSeconds);
      && k < |points| && points[k].at % bucketSeconds == 0
      && 1000 * points[k].at <= at < 1000 * (points[k].at + bucketSeconds)
      && SumAt(snapshots, at) <= points[k].peakOutbound
  {
    hide Buckets, PerPoll, IndexOf, SumAt, Lookup, Covers;
    var polls := PerPoll(snapshots);
    BucketsCover(polls, bucketSeconds);
    PollsAreSums(snapshots, at);
    var i := FoundAt(polls, at);
    k := BucketAbove(Buckets(polls, bucketSeconds), polls, bucketSeconds, i);
    InItsWidth(at, bucketSeconds);
  }

  lemma NoPollAbovePeak(snapshots: seq<Snapshot>, bucketSeconds: nat, at: nat)
    requires bucketSeconds >= 1 && snapshots != [] && Observed(snapshots, at)
    ensures PeakOutbound(Series(snapshots, bucketSeconds)).Some?
    ensures SumAt(snapshots, at) <= PeakOutbound(Series(snapshots, bucketSeconds)).value
  {
    hide Buckets, PerPoll, Series, IndexOf, MaxPeak, SumAt, Observed, Lookup, Covers;
    var polls := PerPoll(snapshots);
    SeriesPeaks(snapshots, bucketSeconds);
    BucketsCover(polls, bucketSeconds);
    MaxPeakIsGreatest(Series(snapshots, bucketSeconds));
    PollsAreSums(snapshots, at);
    var i := FoundAt(polls, at);
    var k := BucketAbove(Buckets(polls, bucketSeconds), polls, bucketSeconds, i);
  }

  lemma PeakIsSomePoll(snapshots: seq<Snapshot>, bucketSeconds: nat) returns (at: nat)
    requires bucketSeconds >= 1 && snapshots != []
    ensures PeakOutbound(Series(snapshots, bucketSeconds)).Some?
    ensures Observed(snapshots, at) && SumAt(snapshots, at) == PeakOutbound(Series(snapshots, bucketSeconds)).value
  {
    hide Buckets, PerPoll, Series, IndexOf, MaxPeak, SumAt, Observed, Lookup, InSomeBucket;
    var polls := PerPoll(snapshots);
    var buckets := Buckets(polls, bucketSeconds);
    var points := Series(snapshots, bucketSeconds);
    SeriesPeaks(snapshots, bucketSeconds);
    BucketsCover(polls, bucketSeconds);
    MaxPeakIsGreatest(points);
    var k :| 0 <= k < |points| && points[k].peakOutbound == MaxPeak(points);
    assert IsSomePoll(buckets[k], polls, bucketSeconds);
    var i :| 0 <= i < |polls| && IndexOf(polls[i].at, bucketSeconds) == buckets[k].index &&
      polls[i].outbound == buckets[k].peak;
    at := polls[i].at;
    PollsAreSums(snapshots, at);
    PollsAscend(snapshots);
    LookupAt(polls, i);
  }

  /** The greatest bucket peak is the greatest gateway-wide rate of any poll. */
  lemma PeakIsGreatestPoll(snapshots: seq<Snapshot>, bucketSeconds: nat)
    requires bucketSeconds >= 1 && snapshots != []
    ensures PeakOutbound(Series(snapshots, bucketSeconds)).Some?
    ensures
      var peak := PeakOutbound(Series(snapshots, bucketSeconds)).value;
      && (forall at :: Observed(snapshots, at) ==> SumAt(snapshots, at) <= peak)
      && (exists at :: Observed(snapshots, at) && SumAt(snapshots, at) == peak)
  {
    hide PeakOutbound, Series, SumAt, Observed;
    var top := PeakIsSomePoll(snapshots, bucketSeconds);
    forall at | Observed(snapshots, at) ensures SumAt(snapshots, at) <=
      PeakOutbound(Series(snapshots, bucketSeconds)).value {
      NoPollAbovePeak(snapshots, bucketSeconds, at);
    }
  }

  lemma SomePoll(snapshots: seq<Snapshot>)
    requires snapshots != []
    ensures PerPoll(snapshots) != []
  {
  }

  lemma {:induction false} FoundAt(polls: seq<Poll>, at: nat) returns (i: nat)
    requires Lookup(polls, at).Some?
    ensures i < |polls| && polls[i].at == at && Some(polls[i].outbound) == Lookup(polls, at)
  {
    if polls[|polls| - 1].at == at { i := |polls| - 1; } else { i := FoundAt(polls[..|polls| - 1], at); }
  }

  // ---- Binds that peak together ----------------------------------------------------

  /** The highest rate seen on one bind. */
  function BindPeak(snapshots: seq<Snapshot>, bind: nat): real {
    if snapshots == [] then 0.0
    else
      var s, before := snapshots[|snapshots| - 1], BindPeak(snapshots[..|snapshots| - 1], bind);
      if s.bind == bind then Larger(before, s.outbound) else before
  }

  function BindRateAt(snapshots: seq<Snapshot>, bind: nat, at: nat): real {
    if snapshots == [] then 0.0
    else
      var s := snapshots[|snapshots| - 1];
      BindRateAt(snapshots[..|snapshots| - 1], bind, at) + if s.bind == bind && s.at == at then s.outbound else 0.0
  }

  function SumOfPeaks(snapshots: seq<Snapshot>, binds: seq<nat>): real {
    if binds == [] then 0.0 else SumOfPeaks(snapshots, binds[..|binds| - 1]) + BindPeak(snapshots, binds[|binds| - 1])
  }

  function SumOfRatesAt(snapshots: seq<Snapshot>, binds: seq<nat>, at: nat): real {
    if binds ==
      [] then 0.0 else SumOfRatesAt(snapshots, binds[..|binds| - 1], at) + BindRateAt(snapshots, binds[|binds| - 1], at)
  }

  /** Rates are not negative, and a poll records a bind at most once. */
  ghost predicate OncePerPoll(snapshots: seq<Snapshot>) {
    && (forall k :: 0 <= k < |snapshots| ==> snapshots[k].outbound >= 0.0)
    && (forall i, j :: 0 <= i < j < |snapshots| ==>
        snapshots[i].bind != snapshots[j].bind || snapshots[i].at != snapshots[j].at)
  }

  lemma {:induction false} RateWithinPeak(snapshots: seq<Snapshot>, bind: nat, at: nat)
    requires OncePerPoll(snapshots)
    ensures 0.0 <= BindRateAt(snapshots, bind, at) <= BindPeak(snapshots, bind)
    ensures (forall k :: 0 <= k < |snapshots| ==> snapshots[k].bind != bind || snapshots[k].at != at) ==>
      BindRateAt(snapshots, bind, at) == 0.0
  {
    if snapshots != [] { RateWithinPeak(snapshots[..|snapshots| - 1], bind, at); }
  }

  ghost predicate Distinct(binds: seq<nat>) { forall i, j :: 0 <= i < j < |binds| ==> binds[i] != binds[j] }

  lemma {:induction false} OneSnapshotMore(before: seq<Snapshot>, s: Snapshot, binds: seq<nat>, at: nat)
    requires Distinct(binds)
    ensures SumOfRatesAt(before + [s], binds, at) ==
      SumOfRatesAt(before, binds, at) + if s.at == at && s.bind in binds then s.outbound else 0.0
  {
    if binds != [] {
      var rest, b := binds[..|binds| - 1], binds[|binds| - 1];
      OneSnapshotMore(before, s, rest, at);
      assert (before + [s])[..|before|] == before;
      assert binds == rest + [b];
    }
  }

  lemma {:induction false} NothingYet(binds: seq<nat>, at: nat)
    ensures SumOfRatesAt([], binds, at) == 0.0
  {
    if binds != [] { NothingYet(binds[..|binds| - 1], at); }
  }

  /** The rates of the binds at an instant add up to the gateway's. */
  lemma {:induction false} BindsAddUp(snapshots: seq<Snapshot>, binds: seq<nat>, at: nat)
    requires Distinct(binds) && forall k :: 0 <= k < |snapshots| ==> snapshots[k].bind in binds
    ensures SumAt(snapshots, at) == SumOfRatesAt(snapshots, binds, at)
  {
    if snapshots == [] {
      NothingYet(binds, at);
    } else {
      var before, s := snapshots[..|snapshots| - 1], snapshots[|snapshots| - 1];
      assert snapshots == before + [s];
      BindsAddUp(before, binds, at);
      OneSnapshotMore(before, s, binds, at);
    }
  }

  lemma {:induction false} RatesWithinPeaks(snapshots: seq<Snapshot>, binds: seq<nat>, at: nat)
    requires OncePerPoll(snapshots)
    ensures SumOfRatesAt(snapshots, binds, at) <= SumOfPeaks(snapshots, binds)
  {
    if binds != [] {
      RatesWithinPeaks(snapshots, binds[..|binds| - 1], at);
      RateWithinPeak(snapshots, binds[|binds| - 1], at);
      hide BindRateAt, BindPeak;
    }
  }

  /** The gateway never peaks above the sum of its binds' own peaks. */
  lemma PeakWithinSumOfPeaks(snapshots: seq<Snapshot>, binds: seq<nat>, bucketSeconds: nat)
    requires bucketSeconds >= 1 && snapshots != [] && OncePerPoll(snapshots)
    requires Distinct(binds) && forall k :: 0 <= k < |snapshots| ==> snapshots[k].bind in binds
    ensures PeakOutbound(Series(snapshots, bucketSeconds)).Some?
    ensures PeakOutbound(Series(snapshots, bucketSeconds)).value <= SumOfPeaks(snapshots, binds)
  {
    PeakIsGreatestPoll(snapshots, bucketSeconds);
    var peak := PeakOutbound(Series(snapshots, bucketSeconds)).value;
    var at :| Observed(snapshots, at) && SumAt(snapshots, at) == peak;
    BindsAddUp(snapshots, binds, at);
    RatesWithinPeaks(snapshots, binds, at);
  }

  // ---- Means -----------------------------------------------------------------------

  function Total(polls: seq<Poll>): real {
    if polls == [] then 0.0 else Total(polls[..|polls| - 1]) + polls[|polls| - 1].outbound
  }

  function BucketTotals(buckets: seq<Bucket>): real {
    if buckets == [] then 0.0 else BucketTotals(buckets[..|buckets| - 1]) + buckets[|buckets| - 1].total
  }

  function BucketSamples(buckets: seq<Bucket>): nat {
    if buckets == [] then 0 else BucketSamples(buckets[..|buckets| - 1]) + buckets[|buckets| - 1].samples
  }

  /** Mean times samples, over the points. */
  function Weighted(points: seq<Point>): real {
    if points == [] then 0.0
    else Weighted(points[..|points| - 1]) + Times(points[|points| - 1].outbound, points[|points| - 1].samples)
  }

  function Samples(points: seq<Point>): nat {
    if points == [] then 0 else Samples(points[..|points| - 1]) + points[|points| - 1].samples
  }

  lemma AddedTotals(buckets: seq<Bucket>, p: Poll, bucketSeconds: nat)
    requires bucketSeconds >= 1
    ensures BucketTotals(AddToBucket(buckets, p, bucketSeconds)) == BucketTotals(buckets) + p.outbound
    ensures BucketSamples(AddToBucket(buckets, p, bucketSeconds)) == BucketSamples(buckets) + 1
  {
    var r := AddToBucket(buckets, p, bucketSeconds);
    hide IndexOf;
    if |r| > |buckets| { assert r[..|r| - 1] == buckets; } else { assert r[..|r| - 1] == buckets[..|buckets| - 1]; }
  }

  lemma {:induction false} BucketsTotal(polls: seq<Poll>, bucketSeconds: nat)
    requires bucketSeconds >= 1
    ensures BucketTotals(Buckets(polls, bucketSeconds)) == Total(polls)
    ensures BucketSamples(Buckets(polls, bucketSeconds)) == |polls|
  {
    if polls != [] {
      BucketsTotal(polls[..|polls| - 1], bucketSeconds);
      AddedTotals(Buckets(polls[..|polls| - 1], bucketSeconds), polls[|polls| - 1], bucketSeconds);
      hide AddToBucket, BucketTotals, BucketSamples;
    }
  }

  lemma {:induction false} PointsWeigh(buckets: seq<Bucket>, points: seq<Point>, bucketSeconds: nat)
    requires Filled(buckets) && |points| == |buckets|
    requires forall k :: 0 <= k < |buckets| ==> points[k] == PointOf(buckets[k], bucketSeconds)
    ensures Weighted(points) == BucketTotals(buckets) && Samples(points) == BucketSamples(buckets)
  {
    if buckets != [] {
      var n := |buckets|;
      PointsWeigh(buckets[..n - 1], points[..n - 1], bucketSeconds);
      MeanTimesCount(buckets[n - 1].total, buckets[n - 1].samples);
      hide Times, Mean;
    }
  }

  /** The sample-weighted mean of the bucket means is the mean over the polls. */
  lemma BucketMeansAverageOut(snapshots: seq<Snapshot>, bucketSeconds: nat)
    requires bucketSeconds >= 1
    ensures
      var points := Series(snapshots, bucketSeconds);
      Weighted(points) == Total(PerPoll(snapshots)) && Samples(points) == |PerPoll(snapshots)|
  {
    var buckets := Buckets(PerPoll(snapshots), bucketSeconds);
    BucketsFilled(PerPoll(snapshots), bucketSeconds);
    BucketsTotal(PerPoll(snapshots), bucketSeconds);
    PointsWeigh(buckets, Series(snapshots, bucketSeconds), bucketSeconds);
    hide Buckets, PerPoll, BucketTotals, BucketSamples, Weighted, Samples, Total, Filled;
  }

  // ---- How many points there are ---------------------------------------------------

  ghost predicate Rising(buckets: seq<Bucket>) {
    forall i, j :: 0 <= i < j < |buckets| ==> buckets[i].index < buckets[j].index
  }

  lemma IndexMonotone(a: nat, b: nat, bucketSeconds: nat)
    requires bucketSeconds >= 1 && a <= b
    ensures IndexOf(a, bucketSeconds) <= IndexOf(b, bucketSeconds)
  {
    var d := 1000 * bucketSeconds;
    var p, q := Quotient(a, d), Quotient(b, d);
    InBlock(a, p, d);
    InBlock(b, q, d);
    hide Quotient;
    Blocks(p, q, d);
  }

  lemma Blocks(p: nat, q: nat, d: nat)
    ensures q < p ==> q * d + d <= p * d
  {
    Multiples(q, p, d);
  }

  lemma IndexAfter(a: nat, k: nat, bucketSeconds: nat)
    requires bucketSeconds >= 1
    ensures IndexOf(a + k * (1000 * bucketSeconds), bucketSeconds) == IndexOf(a, bucketSeconds) + k
  {
    var d := 1000 * bucketSeconds;
    var q := Quotient(a, d);
    InBlock(a, q, d);
    InBlock(a + k * d, q + k, d);
    hide Quotient;
    assert (q + k) * d == q * d + k * d;
  }

  ghost predicate Spans(buckets: seq<Bucket>, first: nat, last: nat, bucketSeconds: nat)
    requires bucketSeconds >= 1
  {
    && buckets != []
    && buckets[0].index == IndexOf(first, bucketSeconds)
    && buckets[|buckets| - 1].index == IndexOf(last, bucketSeconds)
  }

  /** Buckets are in ascending order, each once, within the span of the polls. */
  lemma {:induction false} BucketsRise(polls: seq<Poll>, bucketSeconds: nat)
    requires bucketSeconds >= 1 && Ascending(polls)
    ensures Rising(Buckets(polls, bucketSeconds))
    ensures polls != [] ==> Spans(Buckets(polls, bucketSeconds), polls[0].at, polls[|polls| - 1].at, bucketSeconds)
  {
    if polls != [] {
      var before, p := polls[..|polls| - 1], polls[|polls| - 1];
      BucketsRise(before, bucketSeconds);
      hide IndexOf;
      if before != [] { IndexMonotone(before[|before| - 1].at, p.at, bucketSeconds); }
      AddedRises(Buckets(before, bucketSeconds), p, bucketSeconds);
      hide Rising, AddToBucket;
    }
  }

  lemma AddedRises(buckets: seq<Bucket>, p: Poll, bucketSeconds: nat)
    requires bucketSeconds >= 1 && Rising(buckets)
    requires buckets != [] ==> buckets[|buckets| - 1].index <= IndexOf(p.at, bucketSeconds)
    ensures
      var r := AddToBucket(buckets, p, bucketSeconds);
      && Rising(r) && r != [] && r[|r| - 1].index == IndexOf(p.at, bucketSeconds)
      && (buckets != [] ==> r[0].index == buckets[0].index)
  {
    hide IndexOf;
  }

  lemma {:induction false} RisingLength(buckets: seq<Bucket>)
    requires Rising(buckets) && buckets != []
    ensures |buckets| - 1 <= buckets[|buckets| - 1].index - buckets[0].index
  {
    if |buckets| > 1 { RisingLength(buckets[..|buckets| - 1]); }
  }

  lemma {:induction false} PollsObserved(snapshots: seq<Snapshot>, i: nat)
    requires i < |PerPoll(snapshots)|
    ensures Observed(snapshots, PerPoll(snapshots)[i].at)
  {
    PollsAreSums(snapshots, PerPoll(snapshots)[i].at);
    PollsAscend(snapshots);
    LookupAt(PerPoll(snapshots), i);
    hide PerPoll, Lookup;
  }

  lemma SeriesLength(snapshots: seq<Snapshot>, bucketSeconds: nat)
    requires bucketSeconds >= 1
    ensures |Series(snapshots, bucketSeconds)| == |Buckets(PerPoll(snapshots), bucketSeconds)|
    ensures PerPoll(snapshots) == [] ==> Buckets(PerPoll(snapshots), bucketSeconds) == []
  {
    hide PerPoll;
  }

  lemma PointsWithin(snapshots: seq<Snapshot>, since: nat, bucketSeconds: nat, widths: nat)
    requires bucketSeconds >= 1
    requires forall k :: 0 <= k < |snapshots| ==> since <= snapshots[k].at <= since + widths * (1000 * bucketSeconds)
    ensures |Series(snapshots, bucketSeconds)| <= widths + 1
  {
    hide Series, Buckets, PerPoll, Rising, IndexOf;
    SeriesLength(snapshots, bucketSeconds);
    var polls := PerPoll(snapshots);
    var buckets := Buckets(polls, bucketSeconds);
    if polls != [] {
      PollsAscend(snapshots);
      BucketsRise(polls, bucketSeconds);
      RisingLength(buckets);
      PollsObserved(snapshots, 0);
      PollsObserved(snapshots, |polls| - 1);
      var end := since + widths * (1000 * bucketSeconds);
      IndexMonotone(since, polls[0].at, bucketSeconds);
      IndexMonotone(polls[|polls| - 1].at, end, bucketSeconds);
      IndexAfter(since, widths, bucketSeconds);
    }
  }

  /** Any window yields at most 49 points up to 2880 minutes and at most 169 beyond. */
  lemma FewPoints(minutes: Option<real>, snapshots: seq<Snapshot>, now: nat)
    requires
      var window := ResolveWindow(minutes).0;
      forall k :: 0 <= k < |snapshots| ==> now - window * 60_000 <= snapshots[k].at <= now
    ensures
      var r := ResolveWindow(minutes);
      r.1 >= 1 && |Series(snapshots, r.1)| <= if r.0 <= 2880 then 49 else 169
  {
    var r := ResolveWindow(minutes);
    WidthFits(minutes);
    var widths: nat := if r.0 <= 2880 then 48 else 168;
    var since: nat := if now >= r.0 * 60_000 then now - r.0 * 60_000 else 0;
    assert r.0 * 60_000 <= widths * (1000 * r.1);
    assert r.1 >= 1;
    hide ResolveWindow, Series, FirstWidth;
    PointsWithin(snapshots, since, r.1, widths);
  }
}
