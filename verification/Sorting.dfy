/** The stable sort of the two languages' standard libraries, by a strict order. */
module Sorting {

  /** A strict weak order, as both libraries ask of their callers. */
  ghost predicate IsOrder<T(!new)>(less: (T, T) -> bool) {
    && (forall a, b :: less(a, b) ==> !less(b, a))
    && (forall a, b, c :: less(a, c) ==> less(a, b) || less(b, c))
  }

  predicate Sorted<T>(s: seq<T>, less: (T, T) -> bool) {
    forall i, j :: 0 <= i < j < |s| ==> !less(s[j], s[i])
  }

  function Insert<T>(x: T, s: seq<T>, less: (T, T) -> bool): seq<T> {
    if s == [] || !less(s[0], x) then [x] + s else [s[0]] + Insert(x, s[1..], less)
  }

  function Sort<T>(s: seq<T>, less: (T, T) -> bool): (r: seq<T>)
    ensures |r| == |s|
  {
    if s == [] then [] else InsertGrows(s[0], Sort(s[1..], less), less); Insert(s[0], Sort(s[1..], less), less)
  }

  lemma {:induction false} InsertGrows<T>(x: T, s: seq<T>, less: (T, T) -> bool)
    ensures |Insert(x, s, less)| == |s| + 1
  {
    if s != [] && less(s[0], x) { InsertGrows(x, s[1..], less); }
  }

  /** The elements that tie with v, in their order. */
  function Ties<T>(s: seq<T>, v: T, less: (T, T) -> bool): seq<T> {
    if s == [] then []
    else (if !less(s[0], v) && !less(v, s[0]) then [s[0]] else []) + Ties(s[1..], v, less)
  }

  lemma {:induction false} InsertKeepsElements<T>(x: T, s: seq<T>, less: (T, T) -> bool)
    ensures multiset(Insert(x, s, less)) == multiset(s) + multiset{x}
  {
    if s != [] && less(s[0], x) {
      InsertKeepsElements(x, s[1..], less);
      assert s == [s[0]] + s[1..];
    }
  }

  lemma {:induction false} SortKeepsElements<T>(s: seq<T>, less: (T, T) -> bool)
    ensures multiset(Sort(s, less)) == multiset(s)
  {
    if s != [] {
      SortKeepsElements(s[1..], less);
      InsertKeepsElements(s[0], Sort(s[1..], less), less);
      assert s == [s[0]] + s[1..];
    }
  }

  lemma {:induction false} InsertSorts<T(!new)>(x: T, s: seq<T>, less: (T, T) -> bool)
    requires IsOrder(less) && Sorted(s, less)
    ensures Sorted(Insert(x, s, less), less)
  {
    if s != [] {
      if less(s[0], x) {
        InsertSorts(x, s[1..], less);
        InsertKeepsElements(x, s[1..], less);
        var rest := Insert(x, s[1..], less);
        forall j | 0 <= j < |rest| ensures !less(rest[j], s[0]) {
          assert rest[j] in multiset(rest);
          assert rest[j] == x || rest[j] in s[1..];
        }
      } else {
        forall j | 0 <= j < |s| ensures !less(s[j], x) {
          if j > 0 { assert !less(s[j], s[0]); }
        }
      }
    }
  }

  lemma {:induction false} SortSorts<T(!new)>(s: seq<T>, less: (T, T) -> bool)
    requires IsOrder(less)
    ensures Sorted(Sort(s, less), less)
  {
    if s != [] {
      SortSorts(s[1..], less);
      InsertSorts(s[0], Sort(s[1..], less), less);
    }
  }

  lemma {:induction false} InsertKeepsTies<T(!new)>(x: T, s: seq<T>, v: T, less: (T, T) -> bool)
    requires IsOrder(less)
    ensures Ties(Insert(x, s, less), v, less) == Ties([x], v, less) + Ties(s, v, less)
  {
    if s != [] && less(s[0], x) {
      InsertKeepsTies(x, s[1..], v, less);
      var r := Insert(x, s, less);
      assert r[0] == s[0] && r[1..] == Insert(x, s[1..], less);
      assert [x][1..] == [];
    } else {
      assert ([x] + s)[1..] == s && [x][1..] == [];
    }
  }

  lemma TiesOfFirst<T>(s: seq<T>, v: T, less: (T, T) -> bool)
    requires s != []
    ensures Ties(s, v, less) == Ties([s[0]], v, less) + Ties(s[1..], v, less)
  {
  }

  /** Elements that tie keep their order. */
  lemma {:induction false} SortIsStable<T(!new)>(s: seq<T>, v: T, less: (T, T) -> bool)
    requires IsOrder(less)
    ensures Ties(Sort(s, less), v, less) == Ties(s, v, less)
  {
    if s != [] {
      var rest := Sort(s[1..], less);
      SortIsStable(s[1..], v, less);
      InsertKeepsTies(s[0], rest, v, less);
      TiesOfFirst(s, v, less);
      assert Sort(s, less) == Insert(s[0], rest, less);
    }
  }

  lemma {:induction false} TiesOf<T>(s: seq<T>, v: T, less: (T, T) -> bool, k: nat)
    requires k < |s| && !less(s[k], v) && !less(v, s[k])
    ensures Ties(s, v, less) != [] && Ties(s, v, less)[0] in s
    ensures k == 0 ==> Ties(s, v, less)[0] == s[0]
  {
    if k > 0 && (less(s[0], v) || less(v, s[0])) { TiesOf(s[1..], v, less, k - 1); }
  }

  lemma {:induction false} TiesFrom<T>(s: seq<T>, v: T, less: (T, T) -> bool)
    requires Ties(s, v, less) != []
    ensures exists k :: 0 <= k < |s| && s[k] == Ties(s, v, less)[0] && !less(s[k], v) && !less(v, s[k])
  {
    if less(s[0], v) || less(v, s[0]) {
      TiesFrom(s[1..], v, less);
      var k :| 0 <= k < |s| - 1 && s[1..][k] == Ties(s[1..], v, less)[0] && !less(s[1..][k], v) && !less(v, s[1..][k]);
      assert s[k + 1] == s[1..][k];
    } else {
      assert s[0] == Ties(s, v, less)[0];
    }
  }

  /** There is only one stable sort: two sorted lists with the same ties are equal. */
  lemma {:induction false} StableSortIsUnique<T(!new)>(a: seq<T>, b: seq<T>, less: (T, T) -> bool)
    requires IsOrder(less) && Sorted(a, less) && Sorted(b, less)
    requires forall v :: Ties(a, v, less) == Ties(b, v, less)
    ensures a == b
  {
    if a == [] || b == [] {
      if a != [] { TiesOf(a, a[0], less, 0); }
      if b != [] { TiesOf(b, b[0], less, 0); }
    } else {
      SameHead(a, b, less);
      forall v ensures Ties(a[1..], v, less) == Ties(b[1..], v, less) {
        assert Ties(a, v, less) == Ties(b, v, less);
        var ties, rest := Ties(a, v, less), Ties(a[1..], v, less);
        assert ties == ties[..|ties| - |rest|] + rest;
      }
      StableSortIsUnique(a[1..], b[1..], less);
    }
  }

  /** So whatever sorts and keeps ties in order, as the libraries promise, returns what Sort returns. */
  lemma SortIsTheStableSort<T(!new)>(s: seq<T>, result: seq<T>, less: (T, T) -> bool)
    requires IsOrder(less) && Sorted(result, less)
    requires forall v :: Ties(result, v, less) == Ties(s, v, less)
    ensures result == Sort(s, less)
  {
    SortSorts(s, less);
    forall v ensures Ties(result, v, less) == Ties(Sort(s, less), v, less) { SortIsStable(s, v, less); }
    StableSortIsUnique(result, Sort(s, less), less);
  }

  lemma SameHead<T(!new)>(a: seq<T>, b: seq<T>, less: (T, T) -> bool)
    requires IsOrder(less) && Sorted(a, less) && Sorted(b, less) && a != [] && b != []
    requires forall v :: Ties(a, v, less) == Ties(b, v, less)
    ensures a[0] == b[0]
  {
    TiesOf(a, a[0], less, 0);
    assert Ties(b, a[0], less) == Ties(a, a[0], less);
    TiesFrom(b, a[0], less);
    var k :| 0 <= k < |b| && b[k] == Ties(b, a[0], less)[0] && !less(b[k], a[0]) && !less(a[0], b[k]);
    TiesOf(b, b[0], less, 0);
    assert Ties(a, b[0], less) == Ties(b, b[0], less);
    TiesFrom(a, b[0], less);
    var j :| 0 <= j < |a| && a[j] == Ties(a, b[0], less)[0] && !less(a[j], b[0]) && !less(b[0], a[j]);
    assert !less(b[0], a[0]) by { if j > 0 { assert !less(a[j], a[0]); } }
    assert !less(a[0], b[0]) by { if k > 0 { assert !less(b[k], b[0]); } }
    TiesOf(b, a[0], less, 0);
  }

  /** A sorted list stays as it is. */
  lemma {:induction false} SortedStays<T>(s: seq<T>, less: (T, T) -> bool)
    requires Sorted(s, less)
    ensures Sort(s, less) == s
  {
    if s != [] {
      SortedStays(s[1..], less);
      assert s == [s[0]] + s[1..];
      if |s| > 1 { assert !less(s[1], s[0]); }
    }
  }

  // ---- Where an element lands ----

  function CountLess<T>(s: seq<T>, v: T, less: (T, T) -> bool): nat {
    if s == [] then 0 else (if less(s[0], v) then 1 else 0) + CountLess(s[1..], v, less)
  }

  /** How many elements come ahead of element k: those less than it, and those that tie with it and stand before it. */
  function Rank<T>(s: seq<T>, k: nat, less: (T, T) -> bool): nat
    requires k < |s|
  {
    if k == 0 then CountLess(s[1..], s[0], less)
    else Rank(s[1..], k - 1, less) + if less(s[k], s[0]) then 0 else 1
  }

  /** In a sorted list the lesser elements come first. */
  lemma {:induction false} LesserComeFirst<T(!new)>(s: seq<T>, v: T, less: (T, T) -> bool, k: nat)
    requires IsOrder(less) && Sorted(s, less) && k < |s|
    ensures CountLess(s, v, less) <= |s| && (less(s[k], v) <==> k < CountLess(s, v, less))
  {
    if k > 0 {
      LesserComeFirst(s[1..], v, less, k - 1);
      assert !less(s[k], s[0]);
    } else if |s| > 1 {
      LesserComeFirst(s[1..], v, less, 0);
      assert !less(s[1], s[0]);
    }
  }

  lemma {:induction false} InsertLands<T(!new)>(x: T, s: seq<T>, less: (T, T) -> bool)
    requires IsOrder(less) && Sorted(s, less)
    ensures CountLess(s, x, less) <= |s| && |Insert(x, s, less)| == |s| + 1
    ensures Insert(x, s, less)[CountLess(s, x, less)] == x
  {
    InsertGrows(x, s, less);
    if s != [] {
      LesserComeFirst(s, x, less, 0);
      if less(s[0], x) { InsertLands(x, s[1..], less); }
    }
  }

  lemma {:induction false} InsertShifts<T(!new)>(x: T, s: seq<T>, less: (T, T) -> bool, k: nat)
    requires IsOrder(less) && Sorted(s, less) && k < |s|
    ensures |Insert(x, s, less)| == |s| + 1
    ensures Insert(x, s, less)[if less(s[k], x) then k else k + 1] == s[k]
  {
    InsertGrows(x, s, less);
    if less(s[0], x) {
      if k > 0 { InsertShifts(x, s[1..], less, k - 1); }
    } else if k > 0 {
      assert !less(s[k], s[0]);
    }
  }

  lemma {:induction false} InsertCounts<T>(x: T, s: seq<T>, v: T, less: (T, T) -> bool)
    ensures CountLess(Insert(x, s, less), v, less) == CountLess(s, v, less) + if less(x, v) then 1 else 0
  {
    if s != [] && less(s[0], x) {
      InsertCounts(x, s[1..], v, less);
    } else {
      assert ([x] + s)[1..] == s;
    }
  }

  lemma {:induction false} SortCounts<T>(s: seq<T>, v: T, less: (T, T) -> bool)
    ensures CountLess(Sort(s, less), v, less) == CountLess(s, v, less)
  {
    if s != [] {
      SortCounts(s[1..], v, less);
      InsertCounts(s[0], Sort(s[1..], less), v, less);
    }
  }

  /** Sorting puts every element at its rank. */
  lemma {:induction false} SortPlaces<T(!new)>(s: seq<T>, less: (T, T) -> bool, k: nat)
    requires IsOrder(less) && k < |s|
    ensures Rank(s, k, less) < |s| && Sort(s, less)[Rank(s, k, less)] == s[k]
  {
    var rest := Sort(s[1..], less);
    SortSorts(s[1..], less);
    SortCounts(s[1..], s[0], less);
    if k == 0 {
      InsertLands(s[0], rest, less);
    } else {
      SortPlaces(s[1..], less, k - 1);
      InsertShifts(s[0], rest, less, Rank(s[1..], k - 1, less));
    }
  }

  /** The rank of a later element, seen from the first one. */
  lemma RankAfterFirst<T(!new)>(s: seq<T>, less: (T, T) -> bool, k: nat)
    requires IsOrder(less) && 0 < k < |s|
    ensures var q, c := Rank(s[1..], k - 1, less), Rank(s, 0, less);
            Rank(s, k, less) == if q < c then q else q + 1
  {
    SortPlaces(s[1..], less, k - 1);
    SortSorts(s[1..], less);
    SortCounts(s[1..], s[0], less);
    LesserComeFirst(Sort(s[1..], less), s[0], less, Rank(s[1..], k - 1, less));
  }

  lemma {:induction false} RanksDiffer<T(!new)>(s: seq<T>, less: (T, T) -> bool, j: nat, k: nat)
    requires IsOrder(less) && j < k < |s|
    ensures Rank(s, j, less) != Rank(s, k, less)
  {
    RankAfterFirst(s, less, k);
    if j > 0 {
      RankAfterFirst(s, less, j);
      RanksDiffer(s[1..], less, j - 1, k - 1);
    }
  }

  /** Every place of the sorted list is some element's. */
  lemma {:induction false} RankIsTaken<T(!new)>(s: seq<T>, less: (T, T) -> bool, place: nat) returns (k: nat)
    requires IsOrder(less) && place < |s|
    ensures k < |s| && Rank(s, k, less) == place
  {
    var c := Rank(s, 0, less);
    SortPlaces(s, less, 0);
    if place == c {
      k := 0;
    } else {
      var j := RankIsTaken(s[1..], less, if place < c then place else place - 1);
      k := j + 1;
      RankAfterFirst(s, less, k);
    }
  }
}
