/**
 The in-memory upload limiter: a fixed window per (user, lesson), opened by the first request
 that finds none open.
 */
module UploadRateLimiter {
  import opened Common

  /** One counter; its window is [resetAt - window, resetAt]. */
  datatype Counter = Counter(count: nat, resetAt: Time)

  const MINUTE: Time := 60

  datatype Config = Unlimited | Limited(max: nat, window: Time)

  function Configured(perWindow: int, window: Time): (c: Config)
    ensures c.Limited? ==> c.max == perWindow > 0 && c.window > 0
    ensures c.Limited? ==> c.window == window || (window <= 0 && c.window == 60)
    ensures c.Unlimited? <==> perWindow <= 0
  {
    if perWindow <= 0 then Unlimited else Limited(perWindow, if window <= 0 then MINUTE else window)
  }

  // ---- One bucket ----

  function Reopened(window: Time, c: Option<Counter>, now: Time): Counter {
    if c.None? || now > c.value.resetAt then Counter(0, now + window) else c.value
  }

  predicate Grants(max: nat, window: Time, c: Option<Counter>, now: Time) { Reopened(window, c, now).count < max }

  function Hit(max: nat, window: Time, c: Option<Counter>, now: Time): Counter {
    var open := Reopened(window, c, now);
    if open.count < max then open.(count := open.count + 1) else open
  }

  /** The counter after the first n requests, at these times. */
  function After(max: nat, window: Time, times: seq<Time>, n: nat): Option<Counter>
    requires n <= |times|
  {
    if n == 0 then None else Some(Hit(max, window, After(max, window, times, n - 1), times[n - 1]))
  }

  predicate Granted(max: nat, window: Time, times: seq<Time>, i: nat)
    requires i < |times|
  {
    Grants(max, window, After(max, window, times, i), times[i])
  }

  /** How many of the first n requests were granted at a time in [from, to]. */
  function GrantsIn(max: nat, window: Time, times: seq<Time>, n: nat, from: Time, to: Time): nat
    requires n <= |times|
  {
    if n == 0 then 0
    else
      GrantsIn(max, window, times, n - 1, from, to)
      + if from <= times[n - 1] <= to && Granted(max, window, times, n - 1) then 1 else 0
  }

  predicate NonDecreasing(times: seq<Time>) { forall i, j :: 0 <= i <= j < |times| ==> times[i] <= times[j] }

  /** Requests before the interval do not count in it. */
  lemma {:induction false} NoGrantsBefore(max: nat, window: Time, times: seq<Time>, n: nat, from: Time, to: Time)
    requires n <= |times| && forall i :: 0 <= i < n ==> times[i] < from
    ensures GrantsIn(max, window, times, n, from, to) == 0
  {
    if n > 0 { NoGrantsBefore(max, window, times, n - 1, from, to); }
  }

  /**
   What the counter says about an interval as long as a window, by where its own window opened:
   past the interval, inside it, or before it.
   */
  lemma {:induction false} CounterBoundsInterval(max: nat, window: Time, times: seq<Time>, n: nat, from: Time)
    requires max > 0 && window > 0 && NonDecreasing(times) && 0 < n <= |times|
    ensures var c := After(max, window, times, n).value;
            var start, granted := c.resetAt - window, GrantsIn(max, window, times, n, from, from + window);
            && 1 <= c.count <= max && start <= times[n - 1]
            && (start > from + window ==> granted <= 2 * max - 1)
            && (from <= start <= from + window ==> granted <= max - 1 + c.count)
            && (start < from ==> granted <= c.count - 1)
  {
    if n > 1 {
      CounterBoundsInterval(max, window, times, n - 1, from);
      if times[n - 1] < from { NoGrantsBefore(max, window, times, n - 1, from, from + window); }
    }
  }

  /** No closed interval of one window's length sees more than 2 * max - 1 grants. */
  lemma AtMostTwoWindowsShort(max: nat, window: Time, times: seq<Time>, from: Time)
    requires max > 0 && window > 0 && NonDecreasing(times)
    ensures GrantsIn(max, window, times, |times|, from, from + window) <= 2 * max - 1
  {
    if times != [] { CounterBoundsInterval(max, window, times, |times|, from); }
  }

  /** One request at 0, max - 1 at the end of its window and max right after. */
  function Burst(max: nat, window: Time): seq<Time> {
    seq(2 * max, i => if i == 0 then 0 else if i < max then window else window + 1)
  }

  lemma {:induction false} BurstIsGranted(max: nat, window: Time, n: nat)
    requires max > 0 && window > 0 && 0 < n <= 2 * max
    ensures After(max, window, Burst(max, window), n)
            == Some(if n <= max then Counter(n, window) else Counter(n - max, window + 1 + window))
    ensures GrantsIn(max, window, Burst(max, window), n, 1, 1 + window) == n - 1
  {
    if n > 1 { BurstIsGranted(max, window, n - 1); }
  }

  /** The bound is met, so the limit is not a rolling one. */
  lemma BoundIsMet(max: nat, window: Time)
    requires max > 0 && window > 0
    ensures exists times :: NonDecreasing(times) && GrantsIn(max, window, times, |times|, 1, 1 + window) == 2 * max - 1
  {
    BurstIsGranted(max, window, 2 * max);
    assert NonDecreasing(Burst(max, window));
  }

  predicate RollsAt(max: nat, window: Time, times: seq<Time>, from: Time) {
    NonDecreasing(times) ==> GrantsIn(max, window, times, |times|, from, from + window) <= max
  }

  /** What a rolling window promises: at most max grants in any closed interval of its length. */
  ghost predicate IsRolling(max: nat, window: Time) {
    forall times: seq<Time>, from: Time :: RollsAt(max, window, times, from)
  }

  /** The limiter is one exactly when it grants one request per window. */
  lemma RollingIffOne(max: nat, window: Time)
    requires max > 0 && window > 0
    ensures IsRolling(max, window) <==> max == 1
  {
    BoundIsMet(max, window);
    var burst :| NonDecreasing(burst) && GrantsIn(max, window, burst, |burst|, 1, 1 + window) == 2 * max - 1;
    assert RollsAt(max, window, burst, 1) <==> max == 1;
    if max == 1 {
      forall times: seq<Time>, from: Time ensures RollsAt(max, window, times, from) {
        if NonDecreasing(times) { AtMostTwoWindowsShort(max, window, times, from); }
      }
    }
  }

  // ---- Within one window ----

  /** The request that opened the window current after n requests. */
  function Opener(max: nat, window: Time, times: seq<Time>, n: nat): (i: nat)
    requires 0 < n <= |times|
    ensures i < n
  {
    var c := After(max, window, times, n - 1);
    if n == 1 || c.None? || times[n - 1] > c.value.resetAt then n - 1 else Opener(max, window, times, n - 1)
  }

  function GrantsSince(max: nat, window: Time, times: seq<Time>, n: nat, i: nat): nat
    requires i <= n <= |times|
  {
    if i == n then 0
    else GrantsSince(max, window, times, n - 1, i) + if Granted(max, window, times, n - 1) then 1 else 0
  }

  /** The counter counts the grants of the current window, never above max. */
  lemma {:induction false} CounterCountsWindow(max: nat, window: Time, times: seq<Time>, n: nat)
    requires 0 < n <= |times|
    ensures var c := After(max, window, times, n).value;
            && c.count == GrantsSince(max, window, times, n, Opener(max, window, times, n)) <= max
            && c.resetAt == times[Opener(max, window, times, n)] + window
  {
    if n > 1 { CounterCountsWindow(max, window, times, n - 1); }
  }

  /** A request is refused exactly when its window is still open and has given max grants. */
  lemma RefusedIffWindowIsFull(max: nat, window: Time, times: seq<Time>, n: nat)
    requires max > 0 && n < |times|
    ensures !Granted(max, window, times, n)
            <==> && n > 0
                 && times[n] <= times[Opener(max, window, times, n)] + window
                 && GrantsSince(max, window, times, n, Opener(max, window, times, n)) == max
  {
    if n > 0 { CounterCountsWindow(max, window, times, n); }
  }

  /** Later requests change nothing about earlier ones. */
  lemma {:induction false} LaterDoesNotMatter(
    max: nat, window: Time, times: seq<Time>, t: Time, n: nat, from: Time, to: Time)
    requires n <= |times|
    ensures After(max, window, times + [t], n) == After(max, window, times, n)
    ensures GrantsIn(max, window, times + [t], n, from, to) == GrantsIn(max, window, times, n, from, to)
  {
    if n > 0 { LaterDoesNotMatter(max, window, times, t, n - 1, from, to); }
  }

  // ---- Buckets ----

  /** SplitN(key, "/", 4)[1], if the key has a slash. */
  function Lesson(key: string): (lesson: Option<string>)
    ensures lesson.None? <==> '/' !in key
    ensures lesson.Some? ==> '/' !in lesson.value
  {
    if key == [] then None
    else if key[0] == '/' then Some(UpToSlash(key[1..]))
    else Lesson(key[1..])
  }

  function UpToSlash(s: string): (part: string)
    ensures '/' !in part && part <= s
  {
    if s == [] || s[0] == '/' then [] else [s[0]] + UpToSlash(s[1..])
  }

  /** The lesson is what stands between the first slash and the next one, or the end. */
  lemma {:induction false} LessonIsSecondSegment(school: string, lesson: string, rest: string)
    requires '/' !in school && '/' !in lesson && (rest == "" || rest[0] == '/')
    ensures Lesson(school + "/" + lesson + rest) == Some(lesson)
  {
    var key := school + "/" + lesson + rest;
    if school == "" {
      assert key[1..] == lesson + rest;
      SegmentEnds(lesson, rest);
    } else {
      assert key[1..] == school[1..] + "/" + lesson + rest;
      LessonIsSecondSegment(school[1..], lesson, rest);
    }
  }

  lemma {:induction false} SegmentEnds(part: string, rest: string)
    requires '/' !in part && (rest == "" || rest[0] == '/')
    ensures UpToSlash(part + rest) == part
  {
    if part == "" {
      assert part + rest == rest;
    } else {
      assert (part + rest)[1..] == part[1..] + rest;
      SegmentEnds(part[1..], rest);
    }
  }

  /** Uploads below one lesson share a bucket, whatever else their keys say; keys without a lesson share another. */
  lemma BucketIsByLesson(user: string, school: string, lesson: string, rest: string)
    requires '/' !in school && '/' !in lesson && (rest == "" || rest[0] == '/')
    ensures BucketKey(user, school + "/" + lesson + rest) == user + "|" + (if lesson == "" then "malformed" else lesson)
    ensures BucketKey(user, school) == user + "|" + "malformed"
  {
    LessonIsSecondSegment(school, lesson, rest);
    assert user + "|malformed" == user + "|" + "malformed";
  }

  function BucketKey(userID: string, normalizedKey: string): string {
    var lesson := Lesson(normalizedKey);
    if lesson.None? || lesson.value == "" then userID + "|malformed" else userID + "|" + lesson.value
  }

  function Scope(normalizedKey: string): string {
    var lesson := Lesson(normalizedKey);
    if lesson.None? || lesson.value == "" then "malformed" else lesson.value
  }

  /** User ids hold no bar, so two requests share a bucket exactly when user and lesson agree. */
  lemma BucketsAreApart(user: string, key: string, user2: string, key2: string)
    requires '|' !in user && '|' !in user2
    ensures BucketKey(user, key) == BucketKey(user2, key2) <==> user == user2 && Scope(key) == Scope(key2)
  {
    var a, b := Scope(key), Scope(key2);
    assert BucketKey(user, key) == user + "|" + a && BucketKey(user2, key2) == user2 + "|" + b by {
      assert user + "|malformed" == user + "|" + "malformed" && user2 + "|malformed" == user2 + "|" + "malformed";
    }
    BarSplits(user, a, user2, b);
  }

  lemma BarSplits(user: string, a: string, user2: string, b: string)
    requires '|' !in user && '|' !in user2
    ensures user + "|" + a == user2 + "|" + b <==> user == user2 && a == b
  {
    var x, y := user + "|" + a, user2 + "|" + b;
    if x == y {
      assert x[|user|] == '|' && y[|user2|] == '|';
      assert forall i :: 0 <= i < |user| ==> x[i] != '|';
      assert forall i :: 0 <= i < |user2| ==> y[i] != '|';
      assert |user| == |user2|;
      assert user == x[..|user|] && user2 == y[..|user2|];
      assert a == x[|user| + 1..] && b == y[|user2| + 1..];
    }
  }

  datatype Request = Request(userID: string, key: string, at: Time)

  type Buckets = map<string, Counter>

  function Look(buckets: Buckets, b: string): Option<Counter> { if b in buckets then Some(buckets[b]) else None }

  predicate Allows(max: nat, window: Time, buckets: Buckets, r: Request) {
    r.userID == "" || Grants(max, window, Look(buckets, BucketKey(r.userID, r.key)), r.at)
  }

  function Served(max: nat, window: Time, buckets: Buckets, r: Request): Buckets {
    if r.userID == "" then buckets
    else
      var b := BucketKey(r.userID, r.key);
      buckets[b := Hit(max, window, Look(buckets, b), r.at)]
  }

  function ServedAll(max: nat, window: Time, rs: seq<Request>): Buckets {
    if rs == [] then map[]
    else Served(max, window, ServedAll(max, window, rs[..|rs| - 1]), rs[|rs| - 1])
  }

  /** Times of the requests that fall into one bucket. */
  function TimesOf(rs: seq<Request>, b: string): seq<Time> {
    if rs == [] then []
    else
      var r := rs[|rs| - 1];
      var before := TimesOf(rs[..|rs| - 1], b);
      if r.userID != "" && BucketKey(r.userID, r.key) == b then before + [r.at] else before
  }

  /** A bucket of the shared map is what its own requests alone would have made it. */
  lemma {:induction false} BucketsAreIndependent(max: nat, window: Time, rs: seq<Request>, b: string)
    ensures Look(ServedAll(max, window, rs), b) == After(max, window, TimesOf(rs, b), |TimesOf(rs, b)|)
  {
    if rs != [] {
      var before := rs[..|rs| - 1];
      BucketsAreIndependent(max, window, before, b);
      var times := TimesOf(before, b);
      LaterDoesNotMatter(max, window, times, rs[|rs| - 1].at, |times|, 0, 0);
    }
  }

  /** Requests on other buckets never change a decision. */
  lemma DecisionsAreLocal(max: nat, window: Time, rs: seq<Request>, other: seq<Request>, r: Request)
    requires r.userID != ""
    requires TimesOf(rs, BucketKey(r.userID, r.key)) == TimesOf(other, BucketKey(r.userID, r.key))
    ensures Allows(max, window, ServedAll(max, window, rs), r)
            <==> Allows(max, window, ServedAll(max, window, other), r)
  {
    BucketsAreIndependent(max, window, rs, BucketKey(r.userID, r.key));
    BucketsAreIndependent(max, window, other, BucketKey(r.userID, r.key));
  }

  /** A request without a user is let through and counted nowhere. */
  lemma AnonymousIsUnlimited(max: nat, window: Time, buckets: Buckets, r: Request)
    requires r.userID == ""
    ensures Allows(max, window, buckets, r) && Served(max, window, buckets, r) == buckets
  {
  }

  predicate InOrder(rs: seq<Request>) { forall i, j :: 0 <= i <= j < |rs| ==> rs[i].at <= rs[j].at }

  /** How many requests of one bucket were let through in [from, to]. */
  function AllowedIn(max: nat, window: Time, rs: seq<Request>, b: string, from: Time, to: Time): nat {
    if rs == [] then 0
    else
      var before, r := rs[..|rs| - 1], rs[|rs| - 1];
      AllowedIn(max, window, before, b, from, to)
      + if r.userID != "" && BucketKey(r.userID, r.key) == b && from <= r.at <= to
           && Allows(max, window, ServedAll(max, window, before), r) then 1 else 0
  }

  lemma {:induction false} TimesStayInOrder(rs: seq<Request>, b: string)
    requires InOrder(rs)
    ensures NonDecreasing(TimesOf(rs, b))
    ensures rs != [] ==> forall i :: 0 <= i < |TimesOf(rs, b)| ==> TimesOf(rs, b)[i] <= rs[|rs| - 1].at
  {
    if rs != [] {
      var before := rs[..|rs| - 1];
      TimesStayInOrder(before, b);
      if before != [] { assert before[|before| - 1].at <= rs[|rs| - 1].at; }
    }
  }

  lemma {:induction false} BucketCounts(max: nat, window: Time, rs: seq<Request>, b: string, from: Time, to: Time)
    ensures AllowedIn(max, window, rs, b, from, to) == GrantsIn(max, window, TimesOf(rs, b), |TimesOf(rs, b)|, from, to)
  {
    if rs != [] {
      var before := rs[..|rs| - 1];
      BucketCounts(max, window, before, b, from, to);
      BucketsAreIndependent(max, window, before, b);
      var times := TimesOf(before, b);
      LaterDoesNotMatter(max, window, times, rs[|rs| - 1].at, |times|, from, to);
    }
  }

  /** In any trace with a clock that never goes back, whatever the other buckets see. */
  lemma EveryBucketIsLimited(max: nat, window: Time, rs: seq<Request>, b: string, from: Time)
    requires max > 0 && window > 0 && InOrder(rs)
    ensures AllowedIn(max, window, rs, b, from, from + window) <= 2 * max - 1
  {
    TimesStayInOrder(rs, b);
    BucketCounts(max, window, rs, b, from, from + window);
    AtMostTwoWindowsShort(max, window, TimesOf(rs, b), from);
  }

  class InMemoryUploadRateLimiter {
    const max: nat
    const window: Time
    const normalize: string -> string
    var buckets: Buckets

    constructor (max: nat, window: Time, normalize: string -> string)
      ensures this.max == max && this.window == window && this.normalize == normalize
      ensures buckets == ServedAll(max, window, [])
    {
      this.max, this.window, this.normalize := max, window, normalize;
      buckets := map[];
    }

    method Allow(userID: string, key: string, now: Time) returns (allowed: bool)
      modifies this
      ensures var r := Request(userID, normalize(key), now);
              && allowed == Allows(max, window, old(buckets), r)
              && buckets == Served(max, window, old(buckets), r)
    {
      if userID == "" { return true; }
      var bucketKey := BucketKey(userID, normalize(key));
      if bucketKey !in buckets || now > buckets[bucketKey].resetAt {
        buckets := buckets[bucketKey := Counter(0, now + window)];
      }
      var c := buckets[bucketKey];
      if c.count >= max { return false; }
      buckets := buckets[bucketKey := c.(count := c.count + 1)];
      allowed := true;
    }
  }
}
