/** LINQ `OrderBy(key)`: a stable sort on an integer key. Rankup and
    view-ranks order ranks by cost with it, and baltop orders accounts by
    balance with it before reversing the result. */
module Sorting {
  import opened Seqs

  predicate SortedBy<T>(s: seq<T>, key: T -> int) {
    forall i, j :: 0 <= i < j < |s| ==> key(s[i]) <= key(s[j])
  }

  predicate SortedDescendingBy<T>(s: seq<T>, key: T -> int) {
    forall i, j :: 0 <= i < j < |s| ==> key(s[i]) >= key(s[j])
  }

  /** Inserts `x` in front of the first element whose key is not below its
      own; InsertSorted shows that this keeps a sorted sequence sorted. */
  function Insert<T>(x: T, s: seq<T>, key: T -> int): (r: seq<T>)
    ensures multiset(r) == multiset(s) + multiset{x}
    ensures |r| == |s| + 1
  {
    if s == [] || key(x) <= key(s[0]) then [x] + s
    else
      assert s == [s[0]] + s[1..];
      [s[0]] + Insert(x, s[1..], key)
  }

  /** A bound below every key of `s` and below `key(x)` stays below every
      key after the insertion. */
  lemma {:induction false} InsertLowerBound<T>(x: T, s: seq<T>, key: T -> int, b: int)
    requires b <= key(x)
    requires forall i :: 0 <= i < |s| ==> b <= key(s[i])
    ensures forall i :: 0 <= i < |Insert(x, s, key)| ==> b <= key(Insert(x, s, key)[i])
  {
    if s != [] && key(x) > key(s[0]) {
      var rest := Insert(x, s[1..], key);
      forall i | 0 <= i < |s[1..]| ensures b <= key(s[1..][i]) {
        assert s[1..][i] == s[i + 1];
      }
      InsertLowerBound(x, s[1..], key, b);
      var r := [s[0]] + rest;
      forall i | 0 <= i < |r| ensures b <= key(r[i]) {
        if i > 0 {
          assert r[i] == rest[i - 1];
        }
      }
    }
  }

  lemma {:induction false} InsertSorted<T>(x: T, s: seq<T>, key: T -> int)
    requires SortedBy(s, key)
    ensures SortedBy(Insert(x, s, key), key)
  {
    if s != [] && key(x) > key(s[0]) {
      var rest := Insert(x, s[1..], key);
      InsertSorted(x, s[1..], key);
      forall i | 0 <= i < |s[1..]| ensures key(s[0]) <= key(s[1..][i]) {
        assert s[1..][i] == s[i + 1];
      }
      InsertLowerBound(x, s[1..], key, key(s[0]));
      var r := [s[0]] + rest;
      forall i, j | 0 <= i < j < |r| ensures key(r[i]) <= key(r[j]) {
        assert r[j] == rest[j - 1];
        if i > 0 {
          assert r[i] == rest[i - 1];
        }
      }
    }
  }

  /** The elements of `s` ordered by ascending key; elements with equal keys
      keep their relative order (see SortStable). */
  function SortBy<T>(s: seq<T>, key: T -> int): (r: seq<T>)
    ensures multiset(r) == multiset(s)
    ensures |r| == |s|
    ensures SortedBy(r, key)
  {
    if s == [] then []
    else
      assert s == [s[0]] + s[1..];
      InsertSorted(s[0], SortBy(s[1..], key), key);
      Insert(s[0], SortBy(s[1..], key), key)
  }

  /** The predicate "has key k", used to state stability. */
  function KeyIs<T>(key: T -> int, k: int): T -> bool {
    (y: T) => key(y) == k
  }

  lemma FilterCons<T>(x: T, s: seq<T>, p: T -> bool)
    ensures Filter([x] + s, p) == (if p(x) then [x] else []) + Filter(s, p)
  {
    assert ([x] + s)[1..] == s;
  }

  lemma InsertStableStep<T>(x: T, y: T, rest: seq<T>, s: seq<T>, p: T -> bool)
    requires !(p(x) && p(y))
    requires Filter(rest, p) == Filter([x] + s, p)
    ensures Filter([y] + rest, p) == Filter([x] + ([y] + s), p)
  {
    FilterCons(y, rest, p);
    FilterCons(x, s, p);
    FilterCons(x, [y] + s, p);
    FilterCons(y, s, p);
  }

  lemma {:induction false} InsertStable<T>(x: T, s: seq<T>, key: T -> int, k: int)
    requires SortedBy(s, key)
    ensures Filter(Insert(x, s, key), KeyIs(key, k)) == Filter([x] + s, KeyIs(key, k))
  {
    if s != [] && key(x) > key(s[0]) {
      var p := KeyIs(key, k);
      var y, t := s[0], s[1..];
      assert s == [y] + t;
      InsertStable(x, t, key, k);
      InsertStableStep(x, y, Insert(x, t, key), t, p);
    }
  }

  /** Stability: for every key, the elements carrying it come out of the sort
      in the order they went in. */
  lemma {:induction false} SortStable<T>(s: seq<T>, key: T -> int, k: int)
    ensures Filter(SortBy(s, key), KeyIs(key, k)) == Filter(s, KeyIs(key, k))
  {
    if s != [] {
      SortStable(s[1..], key, k);
      InsertStable(s[0], SortBy(s[1..], key), key, k);
      assert ([s[0]] + SortBy(s[1..], key))[1..] == SortBy(s[1..], key);
      assert s == [s[0]] + s[1..];
    }
  }

  lemma ReverseDescending<T>(s: seq<T>, key: T -> int)
    requires SortedBy(s, key)
    ensures SortedDescendingBy(Reverse(s), key)
  {
  }

  lemma ConsDescending<T>(x: T, rest: seq<T>, key: T -> int)
    requires SortedDescendingBy(rest, key)
    requires forall j :: 0 <= j < |rest| ==> key(x) >= key(rest[j])
    ensures SortedDescendingBy([x] + rest, key)
  {
    var r := [x] + rest;
    forall i, j | 0 <= i < j < |r| ensures key(r[i]) >= key(r[j]) {
      assert r[j] == rest[j - 1];
      if i > 0 {
        assert r[i] == rest[i - 1];
      }
    }
  }

  /** Keeping only some elements of a descending sequence leaves it descending. */
  lemma {:induction false} FilterDescending<T>(s: seq<T>, p: T -> bool, key: T -> int)
    requires SortedDescendingBy(s, key)
    ensures SortedDescendingBy(Filter(s, p), key)
  {
    if s != [] {
      var t := s[1..];
      var rest := Filter(t, p);
      assert SortedDescendingBy(t, key);
      FilterDescending(t, p, key);
      if p(s[0]) {
        forall j | 0 <= j < |rest| ensures key(s[0]) >= key(rest[j]) {
          FilterMembers(t, p, rest[j]);
          var m :| 0 <= m < |t| && t[m] == rest[j];
          assert s[m + 1] == rest[j];
        }
        ConsDescending(s[0], rest, key);
      }
    }
  }
}
