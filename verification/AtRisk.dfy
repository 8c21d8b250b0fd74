/**
 Students at risk: from the engagement rows of a course, sorted by student and then in course
 order, the longest run of low-engagement lessons of every student who has two in a row.
 */
module AtRisk {
  import opened Common

  /** One attempt; fractions are reals in place of floating-point numbers. */
  datatype Row = Row(
    user: Uuid, displayName: string, email: string, lesson: Uuid, title: string, watch: real, score: real)

  datatype Point = Point(lesson: Uuid, title: string, engagement: int)

  datatype Student = Student(user: Uuid, displayName: string, email: string, lowStreak: seq<Point>)

  const ENGAGEMENT_WARN_THRESHOLD := 40
  const MIN_STREAK := 2

  function Clamp(v: real): real { if v < 0.0 then 0.0 else if v > 1.0 then 1.0 else v }

  /** Half of each, rounded half up to whole per cent. */
  function EngagementScore(watch: real, score: real): (e: int)
    ensures 0 <= e <= 100
  {
    (100.0 * (0.5 * Clamp(watch) + 0.5 * Clamp(score)) + 0.5).Floor
  }

  predicate Low(r: Row) { EngagementScore(r.watch, r.score) < ENGAGEMENT_WARN_THRESHOLD }

  /** v if it is a fraction, else the nearest one. */
  predicate NearestFraction(v: real, f: real) {
    0.0 <= f <= 1.0 && (0.0 <= v <= 1.0 ==> f == v) && (v < 0.0 ==> f == 0.0) && (v > 1.0 ==> f == 1.0)
  }

  /** The mean of both fractions as the nearest whole per cent, half a per cent counting up. */
  lemma EngagementIsNearest(watch: real, score: real, w: real, s: real)
    requires NearestFraction(watch, w) && NearestFraction(score, s)
    ensures EngagementScore(watch, score) as real - 0.5 <= 100.0 * ((w + s) / 2.0)
    ensures 100.0 * ((w + s) / 2.0) < EngagementScore(watch, score) as real + 0.5
  {
  }

  /** Rounding moves the threshold from 40 to 39.5 per cent. */
  lemma LowIff(r: Row, w: real, s: real)
    requires NearestFraction(r.watch, w) && NearestFraction(r.score, s)
    ensures Low(r) <==> 100.0 * ((w + s) / 2.0) < 39.5
  {
  }

  /** The sort order of the query keeps the rows of a student together. */
  predicate Grouped(rows: seq<Row>) {
    forall i, j, k :: 0 <= i <= j <= k < |rows| && rows[i].user == rows[k].user ==> rows[j].user == rows[i].user
  }

  predicate AllLow(rows: seq<Row>, from: nat, len: nat) {
    from + len <= |rows| && forall k :: from <= k < from + len ==> Low(rows[k])
  }

  /** Consecutive rows of one student, all low. */
  predicate Stretch(rows: seq<Row>, user: Uuid, from: nat, len: nat) {
    && AllLow(rows, from, len)
    && forall k :: from <= k < from + len ==> rows[k].user == user
  }

  /** The earliest of the longest stretches of one student. */
  ghost predicate Longest(rows: seq<Row>, user: Uuid, from: nat, len: nat) {
    && Stretch(rows, user, from, len)
    && forall f: nat, l: nat :: Stretch(rows, user, f, l) ==> l < len || (l == len && (l == 0 || from <= f))
  }

  function Points(rows: seq<Row>, from: nat, len: nat): (points: seq<Point>)
    requires from + len <= |rows|
    ensures |points| == len
    ensures forall k :: 0 <= k < len ==>
              && points[k].lesson == rows[from + k].lesson && points[k].title == rows[from + k].title
              && points[k].engagement == EngagementScore(rows[from + k].watch, rows[from + k].score)
  {
    seq(len, k requires 0 <= k < len =>
      var r := rows[from + k]; Point(r.lesson, r.title, EngagementScore(r.watch, r.score)))
  }

  predicate FirstOf(rows: seq<Row>, i: nat) { i < |rows| && forall k :: 0 <= k < i ==> rows[k].user != rows[i].user }

  /** What one entry says about the student whose rows begin at row i. */
  ghost predicate Describes(rows: seq<Row>, i: nat, s: Student) {
    && FirstOf(rows, i)
    && s.user == rows[i].user && s.displayName == rows[i].displayName && s.email == rows[i].email
    && |s.lowStreak| >= 2
    && exists from: nat ::
         Longest(rows, s.user, from, |s.lowStreak|) && s.lowStreak == Points(rows, from, |s.lowStreak|)
  }

  predicate Named(out: seq<Student>, user: Uuid) { exists n :: 0 <= n < |out| && out[n].user == user }

  // ---- The loops ----

  method BlockEnd(rows: seq<Row>, i: nat) returns (j: nat)
    requires i < |rows|
    ensures i < j <= |rows|
    ensures forall k :: i <= k < j ==> rows[k].user == rows[i].user
    ensures j == |rows| || rows[j].user != rows[i].user
  {
    j := i;
    while j < |rows| && rows[j].user == rows[i].user
      invariant i <= j <= |rows|
      invariant forall k :: i <= k < j ==> rows[k].user == rows[i].user
    {
      j := j + 1;
    }
  }

  /** Every low run within [i, k) that starts before `start` is no better than the best so far. */
  ghost predicate BestBefore(rows: seq<Row>, i: nat, k: nat, start: nat, from: nat, len: nat) {
    forall f: nat, l: nat :: i <= f < start && f + l <= k && l > 0 && AllLow(rows, f, l) ==>
      l < len || (l == len && from <= f)
  }

  /** The earliest of the longest low runs of the rows [i, j), as points. */
  ghost predicate BestOf(rows: seq<Row>, i: nat, j: nat, from: nat, best: seq<Point>) {
    && i <= from && from + |best| <= j <= |rows| && AllLow(rows, from, |best|)
    && best == Points(rows, from, |best|)
    && BestBefore(rows, i, j, j, from, |best|)
  }

  method LongestLowRun(rows: seq<Row>, i: nat, j: nat) returns (best: seq<Point>)
    requires i < j <= |rows|
    ensures exists from: nat :: BestOf(rows, i, j, from, best)
  {
    var current: seq<Point> := [];
    best := [];
    ghost var from := i;
    for k := i to j
      invariant |current| <= k - i && AllLow(rows, k - |current|, |current|)
      invariant current == Points(rows, k - |current|, |current|)
      invariant k - |current| == i || !Low(rows[k - |current| - 1])
      invariant i <= from && from + |best| <= k - |current| && AllLow(rows, from, |best|)
      invariant best == Points(rows, from, |best|)
      invariant BestBefore(rows, i, k, k - |current|, from, |best|)
    {
      var r := rows[k];
      var engagement := EngagementScore(r.watch, r.score);
      if engagement < ENGAGEMENT_WARN_THRESHOLD {
        current := current + [Point(r.lesson, r.title, engagement)];
      } else {
        ghost var start := k - |current|;
        if |current| > |best| {
          best, from := current, start;
        }
        current := [];
      }
    }
    if |current| > |best| {
      best, from := current, j - |current|;
    }
    assert BestOf(rows, i, j, from, best);
  }

  /** The best run of a student's block is the best of all the student's rows. */
  lemma BlockHoldsLongest(rows: seq<Row>, i: nat, j: nat, from: nat, len: nat)
    requires Grouped(rows) && FirstOf(rows, i) && i < j <= |rows|
    requires forall k :: i <= k < j ==> rows[k].user == rows[i].user
    requires j == |rows| || rows[j].user != rows[i].user
    requires i <= from && from + len <= j && AllLow(rows, from, len) && BestBefore(rows, i, j, j, from, len)
    ensures Longest(rows, rows[i].user, from, len)
  {
    forall f: nat, l: nat | Stretch(rows, rows[i].user, f, l) && l > 0
      ensures l < len || (l == len && from <= f)
    {
      assert rows[f].user == rows[i].user && rows[f + l - 1].user == rows[i].user;
      OwnRowsAreInBlock(rows, i, j, f);
      OwnRowsAreInBlock(rows, i, j, f + l - 1);
    }
  }

  lemma OwnRowsAreInBlock(rows: seq<Row>, i: nat, j: nat, k: nat)
    requires Grouped(rows) && FirstOf(rows, i) && i < j <= |rows| && k < |rows| && rows[k].user == rows[i].user
    requires j == |rows| || rows[j].user != rows[i].user
    ensures i <= k < j
  {
  }

  /** The entries so far: students in the order of their first rows, all before row i. */
  ghost predicate Lists(rows: seq<Row>, i: nat, out: seq<Student>, at: seq<nat>) {
    && |at| == |out|
    && (forall n :: 0 <= n < |out| ==> at[n] < i && Describes(rows, at[n], out[n]))
    && (forall m, n :: 0 <= m < n < |at| ==> at[m] < at[n])
  }

  /** Every student with a long enough stretch before row i has an entry. */
  ghost predicate Covers(rows: seq<Row>, i: nat, out: seq<Student>) {
    forall user, f: nat, l: nat :: Stretch(rows, user, f, l) && l >= 2 && f < i ==> Named(out, user)
  }

  lemma ListsOneMore(rows: seq<Row>, i: nat, j: nat, out: seq<Student>, at: seq<nat>, s: Student)
    requires Lists(rows, i, out, at) && Describes(rows, i, s) && i < j
    ensures Lists(rows, j, out + [s], at + [i])
  {
  }

  lemma CoversOneMore(rows: seq<Row>, i: nat, j: nat, len: nat, out: seq<Student>, after: seq<Student>)
    requires Covers(rows, i, out) && i < j <= |rows|
    requires forall k :: i <= k < j ==> rows[k].user == rows[i].user
    requires exists from: nat :: Longest(rows, rows[i].user, from, len)
    requires if len >= MIN_STREAK
             then |after| == |out| + 1 && after[..|out|] == out && after[|out|].user == rows[i].user
             else after == out
    ensures Covers(rows, j, after)
  {
    forall user, f: nat, l: nat | Stretch(rows, user, f, l) && l >= MIN_STREAK && f < j
      ensures Named(after, user)
    {
      if f < i {
        var n :| 0 <= n < |out| && out[n].user == user;
        assert after[n].user == user;
      } else {
        assert rows[f].user == user;
        assert len >= l;
        assert after[|out|].user == user;
      }
    }
  }

  /** The entry of the student whose rows are [i, j), if the longest run is long enough. */
  method EntryOf(rows: seq<Row>, i: nat, j: nat) returns (s: Student)
    requires Grouped(rows) && FirstOf(rows, i) && i < j <= |rows|
    requires forall k :: i <= k < j ==> rows[k].user == rows[i].user
    requires j == |rows| || rows[j].user != rows[i].user
    ensures s.user == rows[i].user && exists from: nat :: Longest(rows, rows[i].user, from, |s.lowStreak|)
    ensures |s.lowStreak| >= MIN_STREAK ==> Describes(rows, i, s)
  {
    var best := LongestLowRun(rows, i, j);
    ghost var from: nat :| BestOf(rows, i, j, from, best);
    BlockHoldsLongest(rows, i, j, from, |best|);
    var head := rows[i];
    s := Student(head.user, head.displayName, head.email, best);
  }

  /**
   One entry per student with at least two low lessons in a row and none for anyone else, in the
   order of the rows, each with the earliest of the student's longest such runs.
   */
  method BuildAtRiskStudents(rows: seq<Row>) returns (out: seq<Student>)
    requires Grouped(rows)
    ensures exists at :: Lists(rows, |rows|, out, at)
    ensures Covers(rows, |rows|, out)
  {
    out := [];
    ghost var at: seq<nat> := [];
    var i := 0;
    while i < |rows|
      invariant i <= |rows| && (i < |rows| ==> FirstOf(rows, i))
      invariant Lists(rows, i, out, at) && Covers(rows, i, out)
    {
      var j := BlockEnd(rows, i);
      var s := EntryOf(rows, i, j);
      ghost var before := out;
      if |s.lowStreak| >= MIN_STREAK {
        ListsOneMore(rows, i, j, out, at, s);
        out := out + [s];
        at := at + [i];
      }
      CoversOneMore(rows, i, j, |s.lowStreak|, before, out);
      NextBlockIsNew(rows, i, j);
      i := j;
    }
  }

  lemma NextBlockIsNew(rows: seq<Row>, i: nat, j: nat)
    requires Grouped(rows) && i < j <= |rows|
    requires forall k :: i <= k < j ==> rows[k].user == rows[i].user
    requires j == |rows| || rows[j].user != rows[i].user
    ensures j < |rows| ==> FirstOf(rows, j)
  {
  }

  // ---- Consecutive in the course? ----

  predicate AllDistinct(course: seq<Uuid>) { forall i, j :: 0 <= i < j < |course| ==> course[i] != course[j] }

  /** Where the lesson comes in the course. */
  function Place(course: seq<Uuid>, lesson: Uuid): (p: nat)
    requires lesson in course
    ensures p < |course| && course[p] == lesson
  {
    if course[0] == lesson then 0 else 1 + Place(course[1..], lesson)
  }

  /**
   The sort order of the query, as far as one student's rows go; a student has one attempt a lesson.
   Lessons may share their place in the database, so another student's rows may follow another order.
   */
  ghost predicate FollowsCourse(rows: seq<Row>, course: seq<Uuid>, user: Uuid) {
    && AllDistinct(course)
    && (forall i :: 0 <= i < |rows| && rows[i].user == user ==> rows[i].lesson in course)
    && forall i, j :: 0 <= i < j < |rows| && rows[i].user == user && rows[j].user == user ==>
         Place(course, rows[i].lesson) < Place(course, rows[j].lesson)
  }

  predicate Attempted(rows: seq<Row>, user: Uuid, lesson: Uuid) {
    exists i :: 0 <= i < |rows| && rows[i].user == user && rows[i].lesson == lesson
  }

  /** The k-th lesson of the streak is the k-th of the course from its first one on. */
  ghost predicate ConsecutiveInCourse(rows: seq<Row>, course: seq<Uuid>, user: Uuid, from: nat, len: nat)
    requires FollowsCourse(rows, course, user) && 0 < len && Stretch(rows, user, from, len)
  {
    forall k :: from <= k < from + len ==>
      Place(course, rows[k].lesson) == Place(course, rows[from].lesson) + (k - from)
  }

  /** No lesson of the course between the first and the last of the streak is without an attempt. */
  ghost predicate NoneSkipped(rows: seq<Row>, course: seq<Uuid>, user: Uuid, from: nat, len: nat)
    requires FollowsCourse(rows, course, user) && 0 < len && Stretch(rows, user, from, len)
  {
    forall p :: Place(course, rows[from].lesson) <= p <= Place(course, rows[from + len - 1].lesson) ==>
      Attempted(rows, user, course[p])
  }

  lemma PlaceIs(course: seq<Uuid>, p: nat)
    requires AllDistinct(course) && p < |course|
    ensures Place(course, course[p]) == p
  {
  }

  /** Between neighbouring rows of a student the course holds no lesson the student attempted. */
  lemma NextAttempt(rows: seq<Row>, course: seq<Uuid>, user: Uuid, k: nat)
    requires FollowsCourse(rows, course, user) && k + 1 < |rows| && rows[k].user == rows[k + 1].user == user
    requires Attempted(rows, user, course[Place(course, rows[k].lesson) + 1])
    ensures Place(course, rows[k + 1].lesson) == Place(course, rows[k].lesson) + 1
  {
    var p := Place(course, rows[k].lesson) + 1;
    PlaceIs(course, p);
    var i :| 0 <= i < |rows| && rows[i].user == user && rows[i].lesson == course[p];
    assert Place(course, rows[i].lesson) > Place(course, rows[k].lesson);
    assert i > k;
  }

  lemma {:induction false} ConsecutiveSoFar(
    rows: seq<Row>, course: seq<Uuid>, user: Uuid, from: nat, len: nat, k: nat)
    requires FollowsCourse(rows, course, user) && Stretch(rows, user, from, len) && from <= k < from + len
    requires NoneSkipped(rows, course, user, from, len)
    ensures Place(course, rows[k].lesson) == Place(course, rows[from].lesson) + (k - from)
  {
    if k > from {
      ConsecutiveSoFar(rows, course, user, from, len, k - 1);
      assert Place(course, rows[k - 1].lesson) < Place(course, rows[k].lesson);
      assert k == from + len - 1 || Place(course, rows[k].lesson) < Place(course, rows[from + len - 1].lesson);
      NextAttempt(rows, course, user, k - 1);
    }
  }

  /** A low streak is consecutive in the course exactly when it passes over no lesson the student never attempted. */
  lemma StreakIsConsecutiveIff(rows: seq<Row>, course: seq<Uuid>, user: Uuid, from: nat, len: nat)
    requires FollowsCourse(rows, course, user) && Stretch(rows, user, from, len) && 0 < len
    ensures ConsecutiveInCourse(rows, course, user, from, len) <==> NoneSkipped(rows, course, user, from, len)
  {
    var a := Place(course, rows[from].lesson);
    if ConsecutiveInCourse(rows, course, user, from, len) {
      forall p | a <= p <= Place(course, rows[from + len - 1].lesson) ensures Attempted(rows, user, course[p]) {
        var k := from + (p - a);
        assert Place(course, rows[k].lesson) == p && rows[k].user == user;
      }
    }
    if NoneSkipped(rows, course, user, from, len) {
      forall k | from <= k < from + len ensures Place(course, rows[k].lesson) == a + (k - from) {
        ConsecutiveSoFar(rows, course, user, from, len, k);
      }
    }
  }

  lemma TwoLowRows(a: Row, b: Row)
    requires a.user == b.user && Low(a) && Low(b)
    ensures Longest([a, b], a.user, 0, 2)
  {
  }

  /** A student listed for lessons 1 and 3 of a course who never attempted lesson 2. */
  lemma StreakCanSkip()
    ensures exists rows: seq<Row>, course: seq<Uuid>, s: Student ::
      && Grouped(rows) && FollowsCourse(rows, course, s.user) && |course| == 3 && Describes(rows, 0, s)
      && |s.lowStreak| == 2 && s.lowStreak[0].lesson == course[0] && s.lowStreak[1].lesson == course[2]
      && !Attempted(rows, s.user, course[1])
  {
    var r1, r3 := Row(9, "S", "s@x", 1, "One", 0.0, 0.0), Row(9, "S", "s@x", 3, "Three", 0.0, 0.0);
    var rows, course := [r1, r3], [1, 2, 3];
    PlaceIs(course, 0);
    PlaceIs(course, 2);
    assert course[0] == 1 && course[2] == 3;
    assert FollowsCourse(rows, course, 9);
    assert Low(r1) && Low(r3);
    TwoLowRows(r1, r3);
    var s := Student(9, "S", "s@x", Points(rows, 0, 2));
    assert Describes(rows, 0, s);
  }
}
