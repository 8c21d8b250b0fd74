/**
 Watch coverage of a lesson video: a packed bitmap of watched seconds per viewer and lesson, whose
 growth is bounded by the time since the first report.
 */
module WatchCoverage {
  import opened Common
  import opened Bits

  // ---- The seconds one report adds ----

  /** Marks the unmarked seconds of [from, to) in order until the budget is used up. */
  function Credit(marked: set<nat>, from: nat, to: nat, budget: int): set<nat>
    decreases if from < to then to - from else 0
  {
    if from >= to || budget <= 0 then marked
    else if from in marked then Credit(marked, from + 1, to, budget)
    else Credit(marked + {from}, from + 1, to, budget - 1)
  }

  function Missing(marked: set<nat>, from: nat, to: nat): set<nat> {
    set i: nat | from <= i < to && i !in marked
  }

  function Range(from: nat, to: nat): set<nat> { Missing({}, from, to) }

  /** `after` adds the first `budget` missing seconds of [from, to) to `before`, and nothing else. */
  ghost predicate AddsFirst(before: set<nat>, from: nat, to: nat, budget: int, after: set<nat>) {
    var missing := Missing(before, from, to);
    && before <= after <= before + missing
    && |after - before| == (if budget <= 0 then 0 else if budget <= |missing| then budget else |missing|)
    && (forall i, j :: i in missing && j in after - before && i < j ==> i in after)
  }

  lemma {:induction false} CreditAddsFirst(marked: set<nat>, from: nat, to: nat, budget: int)
    ensures AddsFirst(marked, from, to, budget, Credit(marked, from, to, budget))
    decreases if from < to then to - from else 0
  {
    if from >= to {
      assert Missing(marked, from, to) == {};
      assert marked - marked == {};
    } else if budget <= 0 {
      assert marked - marked == {};
    } else if from in marked {
      CreditAddsFirst(marked, from + 1, to, budget);
      assert Missing(marked, from + 1, to) == Missing(marked, from, to);
    } else {
      CreditAddsFirst(marked + {from}, from + 1, to, budget - 1);
      AddsOneMore(marked, from, to, budget, Credit(marked, from, to, budget));
    }
  }

  lemma MissingNext(marked: set<nat>, from: nat, to: nat)
    requires from < to && from !in marked
    ensures Missing(marked, from, to) == Missing(marked + {from}, from + 1, to) + {from}
    ensures |Missing(marked, from, to)| == |Missing(marked + {from}, from + 1, to)| + 1
  {
  }

  lemma AddedNext(marked: set<nat>, x: nat, after: set<nat>)
    requires x !in marked && x in after
    ensures after - marked == after - (marked + {x}) + {x}
    ensures |after - marked| == |after - (marked + {x})| + 1
  {
  }

  lemma AddsOneMore(marked: set<nat>, from: nat, to: nat, budget: int, after: set<nat>)
    requires from < to && budget > 0 && from !in marked
    requires AddsFirst(marked + {from}, from + 1, to, budget - 1, after)
    ensures AddsFirst(marked, from, to, budget, after)
  {
    MissingNext(marked, from, to);
    AddedNext(marked, from, after);
    var missing, rest := Missing(marked, from, to), Missing(marked + {from}, from + 1, to);
    forall i, j | i in missing && j in after - marked && i < j ensures i in after {
      assert j in after - (marked + {from}) && (i == from || i in rest);
    }
  }

  /** The description is exact: it leaves one possible outcome. */
  lemma AddsFirstIsUnique(before: set<nat>, from: nat, to: nat, budget: int, a: set<nat>, b: set<nat>)
    requires AddsFirst(before, from, to, budget, a) && AddsFirst(before, from, to, budget, b)
    ensures a == b
  {
    forall x ensures x in a <==> x in b {
      if x in a { Nested(before, from, to, budget, a, b, x); }
      if x in b { Nested(before, from, to, budget, b, a, x); }
    }
  }

  lemma Nested(before: set<nat>, from: nat, to: nat, budget: int, a: set<nat>, b: set<nat>, x: nat)
    requires AddsFirst(before, from, to, budget, a) && AddsFirst(before, from, to, budget, b)
    requires x in a
    ensures x in b
  {
    if x !in b {
      var missing := Missing(before, from, to);
      assert x in missing && x in a - before;
      forall y | y in b - before ensures y in a - before - {x} {
        assert y in missing && y < x;
      }
      SubsetSize(b - before, a - before - {x});
    }
  }

  // ---- The budget ----

  function Truncate(x: real): int { if x >= 0.0 then x.Floor else -((-x).Floor) }

  /** grace + rate x seconds since the first report, time never counting backwards. */
  function Allowed(graceSeconds: int, maxRate: real, nowMs: Time, firstMs: Time): real {
    graceSeconds as real + maxRate * (if nowMs > firstMs then (nowMs - firstMs) as real / 1000.0 else 0.0)
  }

  datatype Report = Report(fromSec: real, toSec: real, durationSec: int, nowMs: Time)

  datatype Rejection = EmptyInterval | NegativeStart | LongerThanVideo

  function Ceil(x: real): int { -((-x).Floor) }

  function Validate(r: Report): Option<Rejection> {
    if !(r.toSec > r.fromSec) then Some(EmptyInterval)
    else if r.fromSec < 0.0 then Some(NegativeStart)
    else if r.durationSec > 0 && r.toSec - r.fromSec > r.durationSec as real then Some(LongerThanVideo)
    else None
  }

  function FirstBucket(r: Report): int { r.fromSec.Floor }

  /** Exclusive; clamped to a known duration. */
  function EndBucket(r: Report): int {
    if r.durationSec > 0 && Ceil(r.toSec) > r.durationSec then r.durationSec else Ceil(r.toSec)
  }

  /** Whether the report reaches the stored bitmap at all. */
  predicate Counts(r: Report) { Validate(r).None? && FirstBucket(r) < EndBucket(r) }

  /** What is stored for one viewer and lesson, with the bitmap read as a set. */
  datatype Coverage = Coverage(marked: set<nat>, firstMs: Option<Time>)

  /** Every second of the interval, or as many as a limit on the total leaves room for. */
  function Limited(marked: set<nat>, from: nat, to: nat, limit: Option<int>): set<nat> {
    if limit.None? then marked + Range(from, to) else Credit(marked, from, to, limit.value - |marked|)
  }

  /** One recorded interval; a rate of 0 or less disables the limit and leaves the first-seen time alone. */
  function Recorded(c: Coverage, from: nat, to: nat, nowMs: Time, maxRate: real, graceSeconds: int): Coverage {
    if maxRate <= 0.0 then Coverage(Limited(c.marked, from, to, None), c.firstMs)
    else
      var first := if c.firstMs.Some? then c.firstMs.value else nowMs;
      Coverage(Limited(c.marked, from, to, Some(Truncate(Allowed(graceSeconds, maxRate, nowMs, first)))), Some(first))
  }

  function After(c: Coverage, r: Report, maxRate: real, graceSeconds: int): Coverage {
    if Counts(r) then Recorded(c, FirstBucket(r), EndBucket(r), r.nowMs, maxRate, graceSeconds) else c
  }

  // ---- Whole histories of one viewer and lesson ----

  const NOTHING := Coverage({}, None)

  function AfterAll(rs: seq<Report>, maxRate: real, graceSeconds: int): Coverage {
    if rs == [] then NOTHING
    else After(AfterAll(rs[..|rs| - 1], maxRate, graceSeconds), rs[|rs| - 1], maxRate, graceSeconds)
  }

  /** The time of the first report that counted, and the greatest time of any. */
  function FirstTime(rs: seq<Report>): Option<Time> {
    if rs == [] then None
    else
      var before := FirstTime(rs[..|rs| - 1]);
      if before.Some? || !Counts(rs[|rs| - 1]) then before else Some(rs[|rs| - 1].nowMs)
  }

  function LastTime(rs: seq<Report>): Option<Time> {
    if rs == [] then None
    else
      var before, r := LastTime(rs[..|rs| - 1]), rs[|rs| - 1];
      if !Counts(r) || (before.Some? && before.value >= r.nowMs) then before else Some(r.nowMs)
  }

  lemma ReportStaysWithinBudget(c: Coverage, r: Report, maxRate: real, graceSeconds: nat)
    requires maxRate > 0.0 && Counts(r)
    ensures var a := After(c, r, maxRate, graceSeconds);
            && c.marked <= a.marked
            && a.firstMs == Some(if c.firstMs.Some? then c.firstMs.value else r.nowMs)
            && (|a.marked| <= |c.marked|
                || |a.marked| as real <= Allowed(graceSeconds, maxRate, r.nowMs, a.firstMs.value))
  {
    var first := if c.firstMs.Some? then c.firstMs.value else r.nowMs;
    var allowed := Allowed(graceSeconds, maxRate, r.nowMs, first);
    var budget := Truncate(allowed) - |c.marked|;
    var a := After(c, r, maxRate, graceSeconds);
    CreditAddsFirst(c.marked, FirstBucket(r), EndBucket(r), budget);
    assert a.marked == c.marked + (a.marked - c.marked);
    assert (Truncate(allowed) as real) <= allowed || allowed < 0.0;
    assert allowed >= 0.0 by { AllowedGrows(graceSeconds, maxRate, first, r.nowMs, first); }
  }

  lemma AllowedGrows(graceSeconds: nat, maxRate: real, nowMs: Time, laterMs: Time, firstMs: Time)
    requires maxRate > 0.0 && (nowMs <= laterMs || nowMs <= firstMs)
    ensures 0.0 <= Allowed(graceSeconds, maxRate, nowMs, firstMs) <= Allowed(graceSeconds, maxRate, laterMs, firstMs)
  {
  }

  /**
   However the reports are spaced, and even if the clock goes backwards, the number of marked
   seconds never exceeds grace + rate x (greatest time seen - first time seen).
   */
  lemma {:induction false} CoverageIsBounded(rs: seq<Report>, maxRate: real, graceSeconds: nat)
    requires maxRate > 0.0
    ensures var c := AfterAll(rs, maxRate, graceSeconds);
            && c.firstMs == FirstTime(rs) && (LastTime(rs).Some? <==> FirstTime(rs).Some?)
            && (c.firstMs.None? ==> c.marked == {})
            && (c.firstMs.Some? ==>
                  && c.firstMs.value <= LastTime(rs).value
                  && |c.marked| as real <= Allowed(graceSeconds, maxRate, LastTime(rs).value, FirstTime(rs).value))
  {
    if rs != [] {
      var before, r := rs[..|rs| - 1], rs[|rs| - 1];
      CoverageIsBounded(before, maxRate, graceSeconds);
      if Counts(r) {
        var c, a := AfterAll(before, maxRate, graceSeconds), AfterAll(rs, maxRate, graceSeconds);
        ReportStaysWithinBudget(c, r, maxRate, graceSeconds);
        assert a == After(c, r, maxRate, graceSeconds);
        BoundCarriesOver(c, a, r, LastTime(before), LastTime(rs).value, maxRate, graceSeconds);
      }
    }
  }

  /** The bound after a report follows from the bound before it, as the greatest time never goes down. */
  lemma BoundCarriesOver(
    c: Coverage, a: Coverage, r: Report, last: Option<Time>, later: Time, maxRate: real, graceSeconds: nat)
    requires maxRate > 0.0 && a.firstMs.Some?
    requires later >= r.nowMs && (last.Some? ==> later >= last.value) && later >= a.firstMs.value
    requires c.firstMs.Some? <==> last.Some?
    requires c.firstMs.Some? ==>
               && c.firstMs == a.firstMs
               && |c.marked| as real <= Allowed(graceSeconds, maxRate, last.value, c.firstMs.value)
    requires c.firstMs.None? ==> c.marked == {}
    requires |a.marked| <= |c.marked| || |a.marked| as real <= Allowed(graceSeconds, maxRate, r.nowMs, a.firstMs.value)
    ensures |a.marked| as real <= Allowed(graceSeconds, maxRate, later, a.firstMs.value)
  {
    AllowedGrows(graceSeconds, maxRate, r.nowMs, later, a.firstMs.value);
    if last.Some? { AllowedGrows(graceSeconds, maxRate, last.value, later, a.firstMs.value); }
  }

  /** No marked second is ever unmarked, with or without the limit. */
  lemma {:induction false} CoverageOnlyGrows(rs: seq<Report>, n: nat, maxRate: real, graceSeconds: int)
    requires n <= |rs|
    ensures AfterAll(rs[..n], maxRate, graceSeconds).marked <= AfterAll(rs, maxRate, graceSeconds).marked
  {
    if n == |rs| {
      assert rs[..n] == rs;
    } else {
      var before, r := rs[..|rs| - 1], rs[|rs| - 1];
      CoverageOnlyGrows(before, n, maxRate, graceSeconds);
      assert before[..n] == rs[..n];
      var c := AfterAll(before, maxRate, graceSeconds);
      if Counts(r) {
        var first := if c.firstMs.Some? then c.firstMs.value else r.nowMs;
        CreditAddsFirst(c.marked, FirstBucket(r), EndBucket(r),
                        Truncate(Allowed(graceSeconds, maxRate, r.nowMs, first)) - |c.marked|);
      }
    }
  }

  // ---- Which seconds are marked ----

  /** The report is plausible: it goes forward, begins at 0 or later, and is no longer than a known duration. */
  predicate Plausible(r: Report) {
    0.0 <= r.fromSec < r.toSec && (r.durationSec > 0 ==> r.toSec - r.fromSec <= r.durationSec as real)
  }

  /** The second [i, i + 1) meets the reported interval and lies below a known duration. */
  predicate Meets(r: Report, i: nat) {
    r.fromSec < (i + 1) as real && (i as real) < r.toSec && (r.durationSec > 0 ==> i < r.durationSec)
  }

  /** A report is rejected exactly when it is not plausible. */
  lemma RejectedIff(r: Report)
    ensures Validate(r).None? <==> Plausible(r)
    ensures match Validate(r)
            case None => true
            case Some(EmptyInterval) => r.toSec <= r.fromSec
            case Some(NegativeStart) => r.fromSec < 0.0
            case Some(LongerThanVideo) => r.durationSec > 0 && r.toSec - r.fromSec > r.durationSec as real
  {
  }

  /** The seconds between the first and the last bucket are those the report meets. */
  lemma BucketsMeet(r: Report, i: nat)
    requires Plausible(r)
    ensures FirstBucket(r) <= i < EndBucket(r) <==> Meets(r, i)
    ensures Counts(r) <==> r.durationSec > 0 ==> r.fromSec < r.durationSec as real
  {
  }

  /** The first-seen time, once the report is recorded under a limit. */
  function First(c: Coverage, r: Report): Time { if c.firstMs.Some? then c.firstMs.value else r.nowMs }

  lemma AddedIsInRange(marked: set<nat>, from: nat, to: nat, limit: Option<int>, i: nat)
    requires i in Limited(marked, from, to, limit) && i !in marked
    ensures from <= i < to
  {
    if limit.Some? { CreditAddsFirst(marked, from, to, limit.value - |marked|); }
  }

  /** A report marks nothing but seconds it meets. */
  lemma MarksOnlyReported(c: Coverage, r: Report, maxRate: real, graceSeconds: int, i: nat)
    requires i in After(c, r, maxRate, graceSeconds).marked && i !in c.marked
    ensures Plausible(r) && Meets(r, i)
  {
    RejectedIff(r);
    BucketsMeet(r, i);
    var limit := if maxRate <= 0.0 then None else Some(Truncate(Allowed(graceSeconds, maxRate, r.nowMs, First(c, r))));
    AddedIsInRange(c.marked, FirstBucket(r), EndBucket(r), limit, i);
  }

  /** The first-seen time is written once, by a report that reaches the bitmap under a limit. */
  lemma FirstMsIs(c: Coverage, r: Report, maxRate: real, graceSeconds: int)
    ensures After(c, r, maxRate, graceSeconds).firstMs
            == if c.firstMs.None? && maxRate > 0.0 && Plausible(r)
                  && (r.durationSec > 0 ==> r.fromSec < r.durationSec as real)
               then Some(r.nowMs) else c.firstMs
  {
    RejectedIff(r);
    if Plausible(r) { BucketsMeet(r, 0); }
  }

  /** What the limit leaves out is left out because one more second would be above it. */
  lemma LeftOutIsAboveLimit(marked: set<nat>, from: nat, to: nat, limit: int, i: nat)
    requires from <= i < to && i !in Limited(marked, from, to, Some(limit))
    ensures marked <= Limited(marked, from, to, Some(limit))
    ensures |Limited(marked, from, to, Some(limit))| >= limit
  {
    var after := Credit(marked, from, to, limit - |marked|);
    CreditAddsFirst(marked, from, to, limit - |marked|);
    assert i in Missing(marked, from, to);
    if limit - |marked| >= |Missing(marked, from, to)| {
      AllMissingAdded(marked, from, to, limit - |marked|, after);
    }
    assert after == marked + (after - marked);
  }

  lemma TruncateIsNear(x: real)
    ensures x - 1.0 < Truncate(x) as real && (x >= 0.0 ==> Truncate(x) as real <= x)
  {
  }

  /** A plausible report leaves out a second it meets only when the limit is on and has no room for one more. */
  lemma LeavesOutOnlyAtLimit(c: Coverage, r: Report, maxRate: real, graceSeconds: int, i: nat)
    requires Plausible(r) && Meets(r, i) && i !in After(c, r, maxRate, graceSeconds).marked
    ensures maxRate > 0.0 && c.marked <= After(c, r, maxRate, graceSeconds).marked
    ensures var since := if c.firstMs.Some? && r.nowMs > c.firstMs.value then r.nowMs - c.firstMs.value else 0;
            (|After(c, r, maxRate, graceSeconds).marked| + 1) as real
            > graceSeconds as real + maxRate * (since as real / 1000.0)
  {
    RejectedIff(r);
    BucketsMeet(r, i);
    var allowed := Allowed(graceSeconds, maxRate, r.nowMs, First(c, r));
    LeftOutIsAboveLimit(c.marked, FirstBucket(r), EndBucket(r), Truncate(allowed), i);
    TruncateIsNear(allowed);
  }

  /** The seconds a report meets that are not marked yet. */
  ghost function NewSeconds(c: Coverage, r: Report): set<nat> {
    set i: nat | i < EndBucket(r) && Meets(r, i) && i !in c.marked
  }

  lemma LeavingOneOut(c: Coverage, r: Report, maxRate: real, graceSeconds: int, i: nat)
    requires Plausible(r) && Meets(r, i) && i !in After(c, r, maxRate, graceSeconds).marked
    requires c.marked <= After(c, r, maxRate, graceSeconds).marked
    ensures |After(c, r, maxRate, graceSeconds).marked| < |c.marked| + |NewSeconds(c, r)|
  {
    var a, missing := After(c, r, maxRate, graceSeconds).marked, NewSeconds(c, r);
    forall x | x in a - c.marked ensures x in missing - {i} {
      MarksOnlyReported(c, r, maxRate, graceSeconds, x);
      BucketsMeet(r, x);
    }
    BucketsMeet(r, i);
    SubsetSize(a - c.marked, missing - {i});
    assert a == c.marked + (a - c.marked);
  }

  /** A plausible report marks every second it meets when the limit is off or has room for all of them. */
  lemma MarksAllReported(c: Coverage, r: Report, maxRate: real, graceSeconds: int, i: nat)
    requires Plausible(r) && Meets(r, i)
    requires maxRate > 0.0 ==>
               var since := if c.firstMs.Some? && r.nowMs > c.firstMs.value then r.nowMs - c.firstMs.value else 0;
               (|c.marked| + |NewSeconds(c, r)|) as real <= graceSeconds as real + maxRate * (since as real / 1000.0)
    ensures i in After(c, r, maxRate, graceSeconds).marked
  {
    if i !in After(c, r, maxRate, graceSeconds).marked {
      LeavesOutOnlyAtLimit(c, r, maxRate, graceSeconds, i);
      LeavingOneOut(c, r, maxRate, graceSeconds, i);
    }
  }

  lemma AllMissingAdded(before: set<nat>, from: nat, to: nat, budget: int, after: set<nat>)
    requires AddsFirst(before, from, to, budget, after) && budget >= |Missing(before, from, to)|
    ensures Missing(before, from, to) <= after
  {
    var missing := Missing(before, from, to);
    if i :| i in missing && i !in after {
      assert after - before <= missing - {i};
      SubsetSize(after - before, missing - {i});
    }
  }

  /** Over any history a marked second was in some plausible report. */
  lemma {:induction false} MarkedWasReported(rs: seq<Report>, maxRate: real, graceSeconds: int, i: nat)
    requires i in AfterAll(rs, maxRate, graceSeconds).marked
    ensures exists k :: 0 <= k < |rs| && Plausible(rs[k]) && Meets(rs[k], i)
  {
    var before := rs[..|rs| - 1];
    if i in AfterAll(before, maxRate, graceSeconds).marked {
      MarkedWasReported(before, maxRate, graceSeconds, i);
      var k :| 0 <= k < |before| && Plausible(before[k]) && Meets(before[k], i);
      assert rs[k] == before[k];
    } else {
      MarksOnlyReported(AfterAll(before, maxRate, graceSeconds), rs[|rs| - 1], maxRate, graceSeconds, i);
    }
  }

  /** With the limit off, over any history exactly the seconds of plausible reports are marked. */
  lemma {:induction false} UnlimitedMarksReported(rs: seq<Report>, maxRate: real, graceSeconds: int, i: nat)
    requires maxRate <= 0.0
    ensures i in AfterAll(rs, maxRate, graceSeconds).marked
            <==> exists k :: 0 <= k < |rs| && Plausible(rs[k]) && Meets(rs[k], i)
  {
    if i in AfterAll(rs, maxRate, graceSeconds).marked { MarkedWasReported(rs, maxRate, graceSeconds, i); }
    if k :| 0 <= k < |rs| && Plausible(rs[k]) && Meets(rs[k], i) {
      var before, r := rs[..|rs| - 1], rs[|rs| - 1];
      if k < |before| {
        assert before[k] == rs[k];
        UnlimitedMarksReported(before, maxRate, graceSeconds, i);
        CoverageOnlyGrows(rs, |before|, maxRate, graceSeconds);
      } else {
        MarksAllReported(AfterAll(before, maxRate, graceSeconds), r, maxRate, graceSeconds, i);
      }
    }
  }

  /** The first report that reached the bitmap. */
  ghost predicate FirstCounted(rs: seq<Report>, k: nat) {
    k < |rs| && Counts(rs[k]) && forall j :: 0 <= j < k ==> !Counts(rs[j])
  }

  lemma {:induction false} FirstTimeIs(rs: seq<Report>, k: nat)
    requires FirstCounted(rs, k)
    ensures FirstTime(rs) == Some(rs[k].nowMs)
  {
    var n := |rs| - 1;
    if k < n {
      FirstTimeIs(rs[..n], k);
    } else {
      NothingCounted(rs[..n]);
    }
  }

  lemma {:induction false} NothingCounted(rs: seq<Report>)
    requires forall j :: 0 <= j < |rs| ==> !Counts(rs[j])
    ensures FirstTime(rs).None? && LastTime(rs).None?
  {
    if rs != [] { NothingCounted(rs[..|rs| - 1]); }
  }

  lemma {:induction false} LastTimeIsReported(rs: seq<Report>, latest: Time)
    requires forall j :: 0 <= j < |rs| ==> rs[j].nowMs <= latest
    ensures LastTime(rs).Some? ==> LastTime(rs).value <= latest
  {
    if rs != [] { LastTimeIsReported(rs[..|rs| - 1], latest); }
  }

  /**
   In terms of the reports alone: the number of marked seconds is at most the grace plus the rate
   times the seconds from the first report that counted to any moment no report is later than.
   */
  lemma CoverageGrowsWithTime(rs: seq<Report>, k: nat, latest: Time, maxRate: real, graceSeconds: nat)
    requires maxRate > 0.0 && FirstCounted(rs, k) && forall j :: 0 <= j < |rs| ==> rs[j].nowMs <= latest
    ensures |AfterAll(rs, maxRate, graceSeconds).marked| as real
            <= graceSeconds as real + maxRate * ((latest - rs[k].nowMs) as real / 1000.0)
  {
    CoverageIsBounded(rs, maxRate, graceSeconds);
    FirstTimeIs(rs, k);
    LastTimeIsReported(rs, latest);
    BoundUntil(|AfterAll(rs, maxRate, graceSeconds).marked|, LastTime(rs).value, latest, rs[k].nowMs,
               maxRate, graceSeconds);
  }

  lemma BoundUntil(count: nat, last: Time, latest: Time, first: Time, maxRate: real, graceSeconds: nat)
    requires maxRate > 0.0 && first <= last <= latest
    requires count as real <= Allowed(graceSeconds, maxRate, last, first)
    ensures count as real <= graceSeconds as real + maxRate * ((latest - first) as real / 1000.0)
  {
    AllowedGrows(graceSeconds, maxRate, last, latest, first);
    AllowedIs(graceSeconds, maxRate, latest, first);
  }

  lemma AllowedIs(graceSeconds: nat, maxRate: real, nowMs: Time, firstMs: Time)
    requires nowMs >= firstMs
    ensures Allowed(graceSeconds, maxRate, nowMs, firstMs)
            == graceSeconds as real + maxRate * ((nowMs - firstMs) as real / 1000.0)
  {
  }

  // ---- The stored bitmaps ----

  datatype Viewer = Viewer(sub: string, lessonId: string)

  function Seconds(marked: set<nat>, durationSec: nat): set<nat> { set i | i in marked && i < durationSec }

  /** A copy of the stored bytes, padded with zeros. */
  method Grown(stored: seq<bv8>, bytes: nat) returns (bm: array<bv8>)
    requires |stored| <= bytes
    ensures fresh(bm) && bm.Length == bytes && Marked(bm[..]) == Marked(stored)
  {
    bm := new bv8[bytes](i => if 0 <= i < |stored| then stored[i] else 0);
    forall i: nat ensures IsMarked(bm[..], i) <==> IsMarked(stored, i) {}
    assert forall i :: i in Marked(bm[..]) <==> i in Marked(stored);
  }

  method MarkAll(bm: array<bv8>, from: nat, to: nat)
    requires from <= to <= 8 * bm.Length
    modifies bm
    ensures Marked(bm[..]) == Marked(old(bm[..])) + Range(from, to)
  {
    for i := from to to
      invariant Marked(bm[..]) == Marked(old(bm[..])) + Range(from, i)
    {
      var _ := SetBit(bm, i);
      assert Range(from, i + 1) == Range(from, i) + {i};
    }
  }

  method MarkWithin(bm: array<bv8>, from: nat, to: nat, allowed: int)
    requires from <= to <= 8 * bm.Length
    modifies bm
    ensures Marked(bm[..]) == Credit(Marked(old(bm[..])), from, to, allowed)
  {
    var budget, i := allowed, from;
    while i < to && budget > 0
      invariant from <= i <= to
      invariant Credit(Marked(bm[..]), i, to, budget) == Credit(Marked(old(bm[..])), from, to, allowed)
    {
      ghost var marked := Marked(bm[..]);
      var added := SetBit(bm, i);
      if added { budget := budget - 1; } else { assert Marked(bm[..]) == marked; }
      i := i + 1;
    }
  }

  class CoverageStore {
    var bitmaps: map<Viewer, seq<bv8>>
    var firstSeen: map<Viewer, Time>

    ghost function Of(v: Viewer): Coverage reads this {
      Coverage(if v in bitmaps then Marked(bitmaps[v]) else {}, if v in firstSeen then Some(firstSeen[v]) else None)
    }

    /** The seconds allowed so far; the time of the first report is written once. */
    method AllowedTotal(v: Viewer, nowMs: Time, maxRate: real, graceSeconds: int) returns (total: int)
      modifies this`firstSeen
      ensures v in firstSeen && total == Truncate(Allowed(graceSeconds, maxRate, nowMs, firstSeen[v]))
      ensures firstSeen == if v in old(firstSeen) then old(firstSeen) else old(firstSeen)[v := nowMs]
    {
      var first := nowMs;
      if v in firstSeen { first := firstSeen[v]; } else { firstSeen := firstSeen[v := nowMs]; }
      var elapsedSec := 0.0;
      if nowMs - first > 0 { elapsedSec := (nowMs - first) as real / 1000.0; }
      total := Truncate(graceSeconds as real + maxRate * elapsedSec);
    }

    /** The stored bitmap, grown to at least needBytes. */
    method Load(v: Viewer, needBytes: nat) returns (bm: array<bv8>)
      ensures fresh(bm) && bm.Length >= needBytes && Marked(bm[..]) == Of(v).marked
    {
      assert Marked([]) == {};
      var stored := if v in bitmaps then bitmaps[v] else [];
      bm := Grown(stored, if |stored| < needBytes then needBytes else |stored|);
    }

    /** Reads the bitmap, marks what the limit on the total allows, and writes it back. */
    method Mark(v: Viewer, from: nat, to: nat, limit: Option<int>)
      requires from < to
      modifies this`bitmaps
      ensures Of(v).marked == Limited(old(Of(v)).marked, from, to, limit)
      ensures v in bitmaps && bitmaps == old(bitmaps)[v := bitmaps[v]]
    {
      var bm := Load(v, (to + 7) / 8);
      assert to <= 8 * ((to + 7) / 8);
      ghost var before := Marked(bm[..]);
      if limit.None? {
        MarkAll(bm, from, to);
      } else {
        var covered := CountOnes(bm);
        MarkWithin(bm, from, to, limit.value - covered);
      }
      assert Marked(bm[..]) == Limited(before, from, to, limit);
      bitmaps := bitmaps[v := bm[..]];
    }

    /** The transaction of one accepted report. */
    method Record(v: Viewer, from: nat, to: nat, nowMs: Time, maxRate: real, graceSeconds: int)
      requires from < to
      modifies this
      ensures Of(v) == Recorded(old(Of(v)), from, to, nowMs, maxRate, graceSeconds)
      ensures v in bitmaps && bitmaps == old(bitmaps)[v := bitmaps[v]]
      ensures firstSeen == old(firstSeen) || firstSeen == old(firstSeen)[v := nowMs]
    {
      var limit := None;
      if maxRate > 0.0 {
        var total := AllowedTotal(v, nowMs, maxRate, graceSeconds);
        limit := Some(total);
      }
      Mark(v, from, to, limit);
    }

    method AddWatchCoverage(v: Viewer, r: Report, maxRate: real, graceSeconds: int)
      returns (rejected: Option<Rejection>)
      modifies this
      ensures rejected == Validate(r)
      ensures rejected.None? <==> Plausible(r)
      ensures Of(v) == After(old(Of(v)), r, maxRate, graceSeconds)
      ensures forall u :: u != v ==> Of(u) == old(Of(u))
    {
      RejectedIff(r);
      rejected := None;
      if !(r.toSec > r.fromSec) { return Some(EmptyInterval); }
      if r.fromSec < 0.0 { return Some(NegativeStart); }
      if r.durationSec > 0 && r.toSec - r.fromSec > r.durationSec as real { return Some(LongerThanVideo); }
      var from := r.fromSec.Floor;
      var to := Ceil(r.toSec);
      if r.durationSec > 0 && to > r.durationSec { to := r.durationSec; }
      if to <= from { return; }
      Record(v, from, to, r.nowMs, maxRate, graceSeconds);
    }

    /** The watched share of [0, durationSec), or -1 when the duration is unknown. */
    method WatchCoverageFraction(v: Viewer, durationSec: int) returns (fraction: real)
      ensures durationSec <= 0 ==> fraction == -1.0
      ensures durationSec > 0 ==>
                && fraction == |Seconds(Of(v).marked, durationSec)| as real / durationSec as real
                && 0.0 <= fraction <= 1.0
    {
      if durationSec <= 0 { return -1.0; }
      var bm := if v in bitmaps then bitmaps[v] else [];
      if |bm| == 0 {
        assert Seconds(Of(v).marked, durationSec) == {};
        return 0.0;
      }
      var watched := 0;
      var fullBytes := durationSec / 8;
      if fullBytes > |bm| { fullBytes := |bm|; }
      assert MarkedBelow(bm, 0) == {};
      for i := 0 to fullBytes
        invariant watched == |MarkedBelow(bm, 8 * i)|
      {
        NextByte(bm, i);
        watched := watched + OnesCount(bm[i]);
      }
      var rem := durationSec % 8;
      if rem != 0 && fullBytes < |bm| {
        LowBits(bm, fullBytes, rem);
        watched := watched + OnesCount(bm[fullBytes] & LowMask(rem));
      }
      ghost var seen := Seconds(Of(v).marked, durationSec);
      assert watched == |seen| by {
        if fullBytes < |bm| {
          assert MarkedBelow(bm, durationSec) == seen;
        } else {
          assert MarkedBelow(bm, 8 * |bm|) == seen;
        }
      }
      SecondsBounded(Of(v).marked, durationSec);
      fraction := watched as real / durationSec as real;
      ShareOfWhole(watched, durationSec);
      if fraction < 0.0 { fraction := 0.0; }
      if fraction > 1.0 { fraction := 1.0; }
    }
  }

  lemma ShareOfWhole(part: nat, whole: nat)
    requires part <= whole && whole > 0
    ensures 0.0 <= part as real / whole as real <= 1.0
  {
  }

  lemma {:induction false} SecondsBounded(marked: set<nat>, durationSec: nat)
    ensures |Seconds(marked, durationSec)| <= durationSec
  {
    if durationSec > 0 {
      SecondsBounded(marked, durationSec - 1);
      SubsetSize(Seconds(marked, durationSec), Seconds(marked, durationSec - 1) + {durationSec - 1});
    } else {
      assert Seconds(marked, 0) == {};
    }
  }

  /** Over one viewer's history the share for a fixed duration never goes down. */
  lemma ShareNeverFalls(rs: seq<Report>, n: nat, maxRate: real, graceSeconds: int, durationSec: nat)
    requires n <= |rs| && durationSec > 0
    ensures |Seconds(AfterAll(rs[..n], maxRate, graceSeconds).marked, durationSec)| as real / durationSec as real
         <= |Seconds(AfterAll(rs, maxRate, graceSeconds).marked, durationSec)| as real / durationSec as real
  {
    CoverageOnlyGrows(rs, n, maxRate, graceSeconds);
    SubsetSize(Seconds(AfterAll(rs[..n], maxRate, graceSeconds).marked, durationSec),
               Seconds(AfterAll(rs, maxRate, graceSeconds).marked, durationSec));
  }
}
