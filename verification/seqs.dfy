/** Sequence operations the bot performs on its lists: `List<T>.Reverse`,
    `List<T>.Remove` (first occurrence only), LINQ `Where`, and a first-match
    search. Each is a function whose contract says what the list operation
    promises. */
module Seqs {

  datatype Option<+T> = None | Some(value: T)

  /** The sequence in the opposite order, as `List<T>.Reverse()` leaves it. */
  function Reverse<T>(s: seq<T>): (r: seq<T>)
    ensures |r| == |s|
    ensures forall i :: 0 <= i < |s| ==> r[i] == s[|s| - 1 - i]
  {
    if s == [] then [] else Reverse(s[1..]) + [s[0]]
  }

  lemma {:induction false} ReversePermutes<T>(s: seq<T>)
    ensures multiset(Reverse(s)) == multiset(s)
  {
    if s != [] {
      ReversePermutes(s[1..]);
      assert s == [s[0]] + s[1..];
    }
  }

  lemma {:induction false} ReverseConcat<T>(a: seq<T>, b: seq<T>)
    ensures Reverse(a + b) == Reverse(b) + Reverse(a)
  {
    if a == [] {
      assert a + b == b;
    } else {
      assert (a + b)[1..] == a[1..] + b;
      ReverseConcat(a[1..], b);
    }
  }

  /** The elements of `s` that satisfy `p`, in their original order (LINQ
      `Where`); FilterMembers says which elements those are. */
  function Filter<T>(s: seq<T>, p: T -> bool): (r: seq<T>)
    ensures |r| <= |s|
    ensures forall i :: 0 <= i < |r| ==> p(r[i])
  {
    if s == [] then [] else (if p(s[0]) then [s[0]] else []) + Filter(s[1..], p)
  }

  /** An element survives the filter exactly when it is in `s` and satisfies `p`. */
  lemma {:induction false} FilterMembers<T>(s: seq<T>, p: T -> bool, x: T)
    ensures x in Filter(s, p) <==> x in s && p(x)
  {
    if s != [] {
      FilterMembers(s[1..], p, x);
      assert s == [s[0]] + s[1..];
    }
  }

  lemma {:induction false} FilterConcat<T>(a: seq<T>, b: seq<T>, p: T -> bool)
    ensures Filter(a + b, p) == Filter(a, p) + Filter(b, p)
  {
    if a == [] {
      assert a + b == b;
    } else {
      assert (a + b)[1..] == a[1..] + b;
      FilterConcat(a[1..], b, p);
    }
  }

  /** Filtering commutes with reversal: reversing first keeps the same
      elements, in reverse order. */
  lemma {:induction false} FilterReverse<T>(s: seq<T>, p: T -> bool)
    ensures Filter(Reverse(s), p) == Reverse(Filter(s, p))
  {
    if s != [] {
      var head := if p(s[0]) then [s[0]] else [];
      FilterReverse(s[1..], p);
      FilterConcat(Reverse(s[1..]), [s[0]], p);
      assert Filter([s[0]], p) == head by {
        assert [s[0]][1..] == [];
      }
      ReverseConcat(head, Filter(s[1..], p));
      assert Reverse(head) == head;
    }
  }

  /** Two filters may be applied in either order. */
  lemma {:induction false} FilterCommute<T>(s: seq<T>, p: T -> bool, q: T -> bool)
    ensures Filter(Filter(s, p), q) == Filter(Filter(s, q), p)
  {
    if s != [] {
      var x := s[0];
      var hp := if p(x) then [x] else [];
      var hq := if q(x) then [x] else [];
      FilterCommute(s[1..], p, q);
      FilterConcat(hp, Filter(s[1..], p), q);
      FilterConcat(hq, Filter(s[1..], q), p);
      assert [x][1..] == [];
      assert Filter(hp, q) == Filter(hq, p);
    }
  }

  /** Index of the first element satisfying `p`, or |s| when there is none. */
  function FirstIndex<T>(s: seq<T>, p: T -> bool): (k: nat)
    ensures k <= |s|
    ensures forall j :: 0 <= j < k ==> !p(s[j])
    ensures k < |s| ==> p(s[k])
  {
    if s == [] then 0 else if p(s[0]) then 0 else 1 + FirstIndex(s[1..], p)
  }

  /** Appending an element moves the first match only when there was none. */
  lemma {:induction false} FirstIndexSnoc<T>(s: seq<T>, x: T, p: T -> bool)
    ensures FirstIndex(s + [x], p) ==
      if FirstIndex(s, p) < |s| then FirstIndex(s, p) else if p(x) then |s| else |s| + 1
  {
    if s != [] {
      assert (s + [x])[1..] == s[1..] + [x];
      FirstIndexSnoc(s[1..], x, p);
    }
  }

  /** `List<T>.Remove(x)`: drops the first element equal to `x`, if any. */
  function RemoveFirst<T(==)>(s: seq<T>, x: T): (r: seq<T>)
    ensures x !in s ==> r == s
    ensures |r| == if x in s then |s| - 1 else |s|
  {
    if s == [] then []
    else
      assert s == [s[0]] + s[1..];
      if s[0] == x then s[1..] else [s[0]] + RemoveFirst(s[1..], x)
  }

  /** Removal takes away exactly one copy of `x` when there is one. */
  lemma {:induction false} RemoveFirstMultiset<T>(s: seq<T>, x: T)
    requires x in s
    ensures multiset(RemoveFirst(s, x)) == multiset(s) - multiset{x}
  {
    assert s == [s[0]] + s[1..];
    if s[0] != x {
      RemoveFirstMultiset(s[1..], x);
    }
  }

  /** The element removed is the one at the first position holding `x`;
      the others keep their order. */
  lemma {:induction false} RemoveFirstAt<T>(s: seq<T>, x: T, k: nat)
    requires k < |s| && s[k] == x && x !in s[..k]
    ensures RemoveFirst(s, x) == s[..k] + s[k + 1..]
  {
    if k > 0 {
      var t := s[1..];
      assert s[0] != x by {
        assert s[..k][0] == s[0];
      }
      assert t[..k - 1] == s[..k][1..];
      RemoveFirstAt(t, x, k - 1);
      assert s[..k] == [s[0]] + t[..k - 1];
      assert t[k..] == s[k + 1..];
    }
  }

  /** Removing `x` from a list that does not hold it after appending it
      gives the list back. */
  lemma {:induction false} RemoveFirstAppended<T>(s: seq<T>, x: T)
    requires x !in s
    ensures RemoveFirst(s + [x], x) == s
  {
    RemoveFirstAt(s + [x], x, |s|);
    assert (s + [x])[..|s|] == s;
  }

  /** Removal keeps every element other than `x`, and adds none. */
  lemma {:induction false} RemoveFirstMembers<T>(s: seq<T>, x: T, y: T)
    requires y != x
    ensures y in RemoveFirst(s, x) <==> y in s
  {
    if s != [] {
      assert s == [s[0]] + s[1..];
      if s[0] != x {
        RemoveFirstMembers(s[1..], x, y);
      }
    }
  }

  /** No element occurs twice: the lists the bot guards with a
      `Contains` check before adding keep this shape. */
  predicate Distinct<T(==)>(s: seq<T>) {
    forall i, j :: 0 <= i < j < |s| ==> s[i] != s[j]
  }

  /** Appending an element that is not yet present keeps a list distinct. */
  lemma DistinctAppend<T>(s: seq<T>, x: T)
    requires Distinct(s) && x !in s
    ensures Distinct(s + [x])
  {
    forall i, j | 0 <= i < j < |s| + 1
      ensures (s + [x])[i] != (s + [x])[j]
    {
      if j == |s| {
        assert s[i] in s;
      }
    }
  }

  /** In a distinct list, removal takes away every copy of `x` and keeps
      the list distinct. */
  lemma {:induction false} RemoveFirstDistinct<T>(s: seq<T>, x: T)
    requires Distinct(s)
    ensures Distinct(RemoveFirst(s, x)) && x !in RemoveFirst(s, x)
  {
    if s != [] {
      var t := s[1..];
      assert s == [s[0]] + t;
      assert Distinct(t) by {
        forall i, j | 0 <= i < j < |t| ensures t[i] != t[j] {
          assert t[i] == s[i + 1] && t[j] == s[j + 1];
        }
      }
      assert s[0] !in t by {
        forall j | 0 <= j < |t| ensures t[j] != s[0] {
          assert t[j] == s[j + 1];
        }
      }
      if s[0] != x {
        RemoveFirstDistinct(t, x);
        var r := RemoveFirst(t, x);
        assert s[0] !in r by {
          if s[0] in r {
            RemoveFirstMembers(t, x, s[0]);
          }
        }
        assert RemoveFirst(s, x) == [s[0]] + r;
        forall i, j | 0 <= i < j < |r| + 1
          ensures ([s[0]] + r)[i] != ([s[0]] + r)[j]
        {
          if i == 0 {
            assert ([s[0]] + r)[j] == r[j - 1];
          }
        }
      }
    }
  }

  /** A distinct list holds each value at most once. */
  lemma {:induction false} DistinctOnce<T>(s: seq<T>, x: T)
    requires Distinct(s)
    ensures multiset(s)[x] <= 1
  {
    if s != [] {
      var t := s[1..];
      assert s == [s[0]] + t;
      assert Distinct(t) by {
        forall i, j | 0 <= i < j < |t| ensures t[i] != t[j] {
          assert t[i] == s[i + 1] && t[j] == s[j + 1];
        }
      }
      DistinctOnce(t, x);
      if s[0] == x {
        assert x !in t by {
          forall j | 0 <= j < |t| ensures t[j] != x {
            assert t[j] == s[j + 1];
          }
        }
      }
    }
  }

  /** Two positions holding the same value count it twice. */
  lemma RepeatedTwice<T>(s: seq<T>, i: nat, j: nat)
    requires i < j < |s| && s[i] == s[j]
    ensures multiset(s)[s[i]] >= 2
  {
    assert s == s[..j] + [s[j]] + s[j + 1..];
    assert s[..j][i] == s[i];
  }

  /** A rearrangement of a distinct list is distinct. */
  lemma PermutationDistinct<T>(s: seq<T>, t: seq<T>)
    requires Distinct(s) && multiset(s) == multiset(t)
    ensures Distinct(t)
  {
    forall i, j | 0 <= i < j < |t| ensures t[i] != t[j] {
      if t[i] == t[j] {
        RepeatedTwice(t, i, j);
        DistinctOnce(s, t[i]);
      }
    }
  }
}
