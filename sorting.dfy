/**
 * The date sorts of the list views: `list.sort((a, b) => new Date(a.date) -
 * new Date(b.date))` (ascending) and its mirror (descending), computed by
 * insertion. The contracts state that the result is in order and is a
 * permutation of the input; that records with the same date keep their
 * relative order, as Array.prototype.sort guarantees, is not stated.
 */
module Sorting {
  import opened Common

  /** The comparator is negative: `a` must come before `b`. */
  predicate Precedes(a: string, b: string, asc: bool)
  {
    if asc then DateBefore(a, b) else DateBefore(b, a)
  }

  /** `a` may stand before `b` in a sorted list. */
  predicate InOrder(a: string, b: string, asc: bool)
  {
    !Precedes(b, a, asc)
  }

  ghost predicate Sorted<T>(s: seq<T>, key: T -> string, asc: bool)
  {
    forall i, j :: 0 <= i < j < |s| ==> InOrder(key(s[i]), key(s[j]), asc)
  }

  lemma InOrderTrans(a: string, b: string, c: string, asc: bool)
    requires InOrder(a, b, asc) && InOrder(b, c, asc)
    ensures InOrder(a, c, asc)
  {
    if asc { LexLeTrans(a, b, c); } else { LexLeTrans(c, b, a); }
  }

  lemma PrecedesInOrder(a: string, b: string, asc: bool)
    requires Precedes(a, b, asc)
    ensures InOrder(a, b, asc)
  {
    LexLeTotal(a, b);
  }

  /** Insert `x` after every element it does not strictly precede. */
  function Insert<T>(s: seq<T>, x: T, key: T -> string, asc: bool): (r: seq<T>)
    requires Sorted(s, key, asc)
    ensures Sorted(r, key, asc)
    ensures multiset(r) == multiset(s) + multiset{x}
    ensures |r| == |s| + 1
  {
    if s == [] then [x]
    else
      var last := s[|s| - 1];
      var init := s[..|s| - 1];
      assert s == init + [last];
      if !Precedes(key(x), key(last), asc) then
        SortedSnoc(s, x, key, asc);
        s + [x]
      else
        var r' := Insert(init, x, key, asc);
        PrecedesInOrder(key(x), key(last), asc);
        BoundedByLast(r', init, x, last, key, asc);
        SortedSnoc(r', last, key, asc);
        r' + [last]
  }

  /** A sorted list followed by an element no earlier than its last one is sorted. */
  lemma SortedSnoc<T>(s: seq<T>, y: T, key: T -> string, asc: bool)
    requires Sorted(s, key, asc) && s != [] && InOrder(key(s[|s| - 1]), key(y), asc)
    ensures Sorted(s + [y], key, asc)
  {
    forall i | 0 <= i < |s| ensures InOrder(key(s[i]), key(y), asc) {
      if i < |s| - 1 { InOrderTrans(key(s[i]), key(s[|s| - 1]), key(y), asc); }
    }
  }

  /**
   * The elements of `init` and `x`, in whatever order, may all stand before
   * `last` when `init + [last]` is sorted and `x` may stand before `last`.
   */
  lemma BoundedByLast<T>(r: seq<T>, init: seq<T>, x: T, last: T, key: T -> string, asc: bool)
    requires Sorted(init + [last], key, asc) && InOrder(key(x), key(last), asc)
    requires multiset(r) == multiset(init) + multiset{x} && r != []
    ensures InOrder(key(r[|r| - 1]), key(last), asc)
  {
    var y := r[|r| - 1];
    assert y in multiset(r);
    if y != x {
      assert y in multiset(init);
      var k :| 0 <= k < |init| && init[k] == y;
      assert (init + [last])[k] == y && (init + [last])[|init|] == last;
    }
  }

  /** The date sort; `asc` chooses the direction. */
  function SortByDate<T>(xs: seq<T>, key: T -> string, asc: bool): (r: seq<T>)
    ensures Sorted(r, key, asc)
    ensures multiset(r) == multiset(xs)
    ensures |r| == |xs|
  {
    if xs == [] then []
    else
      var init := xs[..|xs| - 1];
      assert xs == init + [xs[|xs| - 1]];
      Insert(SortByDate(init, key, asc), xs[|xs| - 1], key, asc)
  }

  /** An element that precedes nothing in `s` is placed at the end. */
  lemma InsertAtEnd<T>(s: seq<T>, x: T, key: T -> string, asc: bool)
    requires Sorted(s, key, asc)
    requires s == [] || !Precedes(key(x), key(s[|s| - 1]), asc)
    ensures Insert(s, x, key, asc) == s + [x]
  {
  }

  /** The prefix of a sorted list is sorted. */
  lemma SortedPrefix<T>(s: seq<T>, n: nat, key: T -> string, asc: bool)
    requires Sorted(s, key, asc) && n <= |s|
    ensures Sorted(s[..n], key, asc)
  {
  }

  /** A list that is already in order is returned as it is. */
  lemma {:induction false} SortSortedIsIdentity<T>(xs: seq<T>, key: T -> string, asc: bool)
    requires Sorted(xs, key, asc)
    ensures SortByDate(xs, key, asc) == xs
  {
    if xs != [] {
      var init := xs[..|xs| - 1];
      var x := xs[|xs| - 1];
      SortedPrefix(xs, |xs| - 1, key, asc);
      SortSortedIsIdentity(init, key, asc);
      if |init| > 0 {
        assert InOrder(key(init[|init| - 1]), key(x), asc);
      }
      InsertAtEnd(init, x, key, asc);
      assert xs == init + [x];
    }
  }

  /** Sorting an already sorted result again changes nothing. */
  lemma SortIdempotent<T>(xs: seq<T>, key: T -> string, asc: bool)
    ensures SortByDate(SortByDate(xs, key, asc), key, asc) == SortByDate(xs, key, asc)
  {
    SortSortedIsIdentity(SortByDate(xs, key, asc), key, asc);
  }

  /** Keeping some elements of a sorted list keeps it sorted. */
  lemma {:induction false} FilterSorted<T>(s: seq<T>, p: T -> bool, key: T -> string, asc: bool)
    requires Sorted(s, key, asc)
    ensures Sorted(Filter(s, p), key, asc)
  {
    if s != [] {
      SortedSuffix(s, key, asc);
      FilterSorted(s[1..], p, key, asc);
      var rest := Filter(s[1..], p);
      forall j | 0 <= j < |rest| ensures InOrder(key(s[0]), key(rest[j]), asc) {
        var k :| 0 <= k < |s[1..]| && s[1..][k] == rest[j];
        assert s[k + 1] == rest[j];
      }
    }
  }

  lemma SortedSuffix<T>(s: seq<T>, key: T -> string, asc: bool)
    requires Sorted(s, key, asc) && s != []
    ensures Sorted(s[1..], key, asc)
  {
    forall i, j | 0 <= i < j < |s| - 1 ensures InOrder(key(s[1..][i]), key(s[1..][j]), asc) {
      assert s[1..][i] == s[i + 1] && s[1..][j] == s[j + 1];
    }
  }
}
