/** Stable sorting by a comparator. `ge(a, b)` means "a may be listed before b". The frontend
    sorts with Array.prototype.sort, which is stable, and the repository queries sort with
    ORDER BY; both are modelled by the stable insertion sort SortBy: an element is placed after
    every earlier element it does not strictly precede, so equal keys keep their input order. */
module Ordering {

  /** A comparator that is total and transitive (a total preorder). */
  ghost predicate TotalPreorder<T(!new)>(ge: (T, T) -> bool)
  {
    && (forall a, b :: ge(a, b) || ge(b, a))
    && (forall a, b, c :: ge(a, b) && ge(b, c) ==> ge(a, c))
  }

  /** Every earlier element may be listed before every later one. */
  ghost predicate Sorted<T>(s: seq<T>, ge: (T, T) -> bool)
  {
    forall i, j :: 0 <= i < j < |s| ==> ge(s[i], s[j])
  }

  /** Places x after the leading run of elements that may precede it. */
  function Insert<T>(s: seq<T>, x: T, ge: (T, T) -> bool): (r: seq<T>)
    ensures multiset(r) == multiset(s) + multiset{x}
    ensures |r| == |s| + 1
  {
    if |s| == 0 then [x]
    else if ge(s[0], x) then
      assert s == [s[0]] + s[1..];
      [s[0]] + Insert(s[1..], x, ge)
    else [x] + s
  }

  /** Stable sort: insert the elements one by one in input order. */
  function SortBy<T>(s: seq<T>, ge: (T, T) -> bool): (r: seq<T>)
    ensures multiset(r) == multiset(s)
    ensures |r| == |s|
  {
    if |s| == 0 then []
    else
      assert s == s[..|s| - 1] + [s[|s| - 1]];
      Insert(SortBy(s[..|s| - 1], ge), s[|s| - 1], ge)
  }

  lemma {:induction false} InsertSorted<T(!new)>(s: seq<T>, x: T, ge: (T, T) -> bool)
    requires TotalPreorder(ge) && Sorted(s, ge)
    ensures Sorted(Insert(s, x, ge), ge)
  {
    if |s| == 0 {
    } else if ge(s[0], x) {
      InsertSorted(s[1..], x, ge);
      var tail := Insert(s[1..], x, ge);
      forall j | 0 <= j < |tail| ensures ge(s[0], tail[j]) {
        assert tail[j] in multiset(tail);
        assert tail[j] in multiset(s[1..]) || tail[j] == x;
        if tail[j] != x {
          var k :| 0 <= k < |s[1..]| && s[1..][k] == tail[j];
          assert s[k + 1] == tail[j];
        }
      }
    } else {
      assert ge(x, s[0]);
      forall j | 0 <= j < |s| ensures ge(x, s[j]) {
        if j > 0 { assert ge(s[0], s[j]); }
      }
    }
  }

  /** The result of SortBy is sorted. */
  lemma {:induction false} SortBySorted<T(!new)>(s: seq<T>, ge: (T, T) -> bool)
    requires TotalPreorder(ge)
    ensures Sorted(SortBy(s, ge), ge)
  {
    if |s| > 0 {
      SortBySorted(s[..|s| - 1], ge);
      InsertSorted(SortBy(s[..|s| - 1], ge), s[|s| - 1], ge);
    }
  }

  /** An element every listed element may precede goes last. */
  lemma {:induction false} InsertLast<T>(s: seq<T>, x: T, ge: (T, T) -> bool)
    requires forall i :: 0 <= i < |s| ==> ge(s[i], x)
    ensures Insert(s, x, ge) == s + [x]
  {
    if |s| > 0 {
      InsertLast(s[1..], x, ge);
      assert [s[0]] + (s[1..] + [x]) == s + [x];
    }
  }

  /** Sorting an already sorted sequence changes nothing (stability). */
  lemma {:induction false} SortBySortedIdentity<T>(s: seq<T>, ge: (T, T) -> bool)
    requires Sorted(s, ge)
    ensures SortBy(s, ge) == s
  {
    if |s| > 0 {
      var init := s[..|s| - 1];
      assert Sorted(init, ge);
      SortBySortedIdentity(init, ge);
      InsertLast(init, s[|s| - 1], ge);
      assert init + [s[|s| - 1]] == s;
    }
  }

  /** A prefix of a sorted sequence is sorted. */
  lemma PrefixSorted<T>(s: seq<T>, k: nat, ge: (T, T) -> bool)
    requires Sorted(s, ge) && k <= |s|
    ensures Sorted(s[..k], ge)
  {
  }

  /** Cutting a sorted sequence keeps the elements that may precede every dropped one: the
      kept prefix never loses to the dropped suffix. */
  lemma PrefixBeatsSuffix<T>(s: seq<T>, k: nat, ge: (T, T) -> bool)
    requires Sorted(s, ge) && k <= |s|
    ensures forall i, j :: 0 <= i < k <= j < |s| ==> ge(s[i], s[j])
  {
  }

  /** Sorting lists the same elements. */
  lemma SortByKeepsMembers<T>(s: seq<T>, ge: (T, T) -> bool)
    ensures forall x :: x in SortBy(s, ge) <==> x in s
  {
    var r := SortBy(s, ge);
    forall x ensures x in r <==> x in s {
      assert x in r <==> x in multiset(r);
      assert x in s <==> x in multiset(s);
    }
  }
}
