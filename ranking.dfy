/**
 * Ranking of the six categories by percentage, ascending, as the score
 * table is sorted before the weakest categories are picked.
 *
 * The comparator compares percentages only; the sort is stable and the
 * table starts in listing order, so ties keep listing order. That is the
 * same as sorting by the pair (percentage, listing position), a total order
 * on entries, which is what Precedes states.
 */
module Ranking {
  import opened Catalog

  /** One row of the score table: a category and its percentage. */
  datatype Entry = Entry(category: Category, percent: real)

  /** x comes no later than y: lower percentage first, ties in listing order. */
  predicate Precedes(x: Entry, y: Entry)
  {
    x.percent < y.percent || (x.percent == y.percent && Ordinal(x.category) <= Ordinal(y.category))
  }

  /** Precedes is a total order on entries. */
  lemma PrecedesTotalOrder(x: Entry, y: Entry, z: Entry)
    ensures Precedes(x, x)
    ensures Precedes(x, y) || Precedes(y, x)
    ensures Precedes(x, y) && Precedes(y, x) ==> x == y
    ensures Precedes(x, y) && Precedes(y, z) ==> Precedes(x, z)
  {
    if Precedes(x, y) && Precedes(y, x) {
      OrdinalInjective(x.category, y.category);
    }
  }

  predicate Sorted(s: seq<Entry>)
  {
    forall i, j :: 0 <= i < j < |s| ==> Precedes(s[i], s[j])
  }

  /** Inserts e before the first entry it precedes. */
  function Insert(e: Entry, s: seq<Entry>): seq<Entry>
  {
    if s == [] then [e]
    else if Precedes(e, s[0]) then [e] + s
    else [s[0]] + Insert(e, s[1..])
  }

  /** The ranked score table: the entries in ascending order of Precedes. */
  function Ranked(s: seq<Entry>): seq<Entry>
  {
    if s == [] then [] else Insert(s[0], Ranked(s[1..]))
  }

  lemma {:induction false} InsertSortedPermutation(e: Entry, s: seq<Entry>)
    requires Sorted(s)
    ensures Sorted(Insert(e, s))
    ensures multiset(Insert(e, s)) == multiset(s) + multiset{e}
  {
    if s == [] {
    } else if Precedes(e, s[0]) {
      forall j | 0 < j < |s| ensures Precedes(e, s[j]) {
        PrecedesTotalOrder(e, s[0], s[j]);
      }
    } else {
      assert s == [s[0]] + s[1..];
      InsertSortedPermutation(e, s[1..]);
      var r := Insert(e, s[1..]);
      PrecedesTotalOrder(e, s[0], e);
      forall j | 0 <= j < |r| ensures Precedes(s[0], r[j]) {
        assert r[j] in multiset(s[1..]) + multiset{e};
        if r[j] != e {
          assert r[j] in s[1..];
        }
      }
    }
  }

  /** Ranked is sorted and a permutation of its input. */
  lemma {:induction false} RankedSortedPermutation(s: seq<Entry>)
    ensures Sorted(Ranked(s))
    ensures multiset(Ranked(s)) == multiset(s)
  {
    if s != [] {
      RankedSortedPermutation(s[1..]);
      InsertSortedPermutation(s[0], Ranked(s[1..]));
      assert s == [s[0]] + s[1..];
    }
  }

  /** The head of a sorted sequence precedes each of its members. */
  lemma HeadPrecedes(s: seq<Entry>, x: Entry)
    requires Sorted(s) && x in s
    ensures Precedes(s[0], x)
  {
    var k :| 0 <= k < |s| && s[k] == x;
    if k == 0 {
      PrecedesTotalOrder(x, x, x);
    }
  }

  /** Under a total order there is only one sorted arrangement of a multiset. */
  lemma {:induction false} SortedUnique(a: seq<Entry>, b: seq<Entry>)
    requires Sorted(a) && Sorted(b)
    requires multiset(a) == multiset(b)
    ensures a == b
  {
    if a == [] {
      assert |b| == |multiset(b)| == 0;
    } else {
      assert |b| == |multiset(b)| == |a| > 0;
      assert a[0] in multiset(b) && b[0] in multiset(a);
      HeadPrecedes(a, b[0]);
      HeadPrecedes(b, a[0]);
      PrecedesTotalOrder(a[0], b[0], a[0]);
      assert a == [a[0]] + a[1..] && b == [b[0]] + b[1..];
      assert multiset(a[1..]) == multiset(a) - multiset{a[0]};
      assert multiset(b[1..]) == multiset(b) - multiset{b[0]};
      SortedUnique(a[1..], b[1..]);
    }
  }

  /** Every row of the ranked table comes from the input and every input row is ranked. */
  lemma RankedMembers(s: seq<Entry>, x: Entry)
    ensures x in Ranked(s) <==> x in s
  {
    RankedSortedPermutation(s);
    assert x in Ranked(s) <==> x in multiset(Ranked(s));
  }

  predicate DistinctCategories(s: seq<Entry>)
  {
    forall i, j :: 0 <= i < j < |s| ==> s[i].category != s[j].category
  }

  lemma {:induction false} InsertDistinct(e: Entry, s: seq<Entry>)
    requires DistinctCategories(s)
    requires forall x :: x in s ==> x.category != e.category
    ensures DistinctCategories(Insert(e, s))
  {
    if s != [] && !Precedes(e, s[0]) {
      InsertDistinct(e, s[1..]);
      var r := Insert(e, s[1..]);
      InsertMembers(e, s[1..]);
      forall j | 0 <= j < |r| ensures r[j].category != s[0].category {
        assert r[j] == e || r[j] in s[1..];
      }
    }
  }

  /** Insert adds e to the members of s and nothing else. */
  lemma {:induction false} InsertMembers(e: Entry, s: seq<Entry>)
    ensures forall x :: x in Insert(e, s) <==> x == e || x in s
  {
    if s != [] && !Precedes(e, s[0]) {
      InsertMembers(e, s[1..]);
      assert s == [s[0]] + s[1..];
    }
  }

  /** Ranking a table of distinct categories keeps them distinct. */
  lemma {:induction false} RankedDistinct(s: seq<Entry>)
    requires DistinctCategories(s)
    ensures DistinctCategories(Ranked(s))
  {
    if s != [] {
      RankedDistinct(s[1..]);
      forall x | x in Ranked(s[1..]) ensures x.category != s[0].category {
        RankedMembers(s[1..], x);
      }
      InsertDistinct(s[0], Ranked(s[1..]));
    }
  }

  /** Swaps two cells of the score table. */
  method Swap(a: array<Entry>, i: nat, j: nat)
    requires i < a.Length && j < a.Length
    modifies a
    ensures a[..] == old(a[..])[i := old(a[j])][j := old(a[i])]
    ensures multiset(a[..]) == old(multiset(a[..]))
  {
    a[i], a[j] := a[j], a[i];
  }

  /** s[..i+1] is sorted apart from the entry at j, which precedes everything after it. */
  predicate SiftingAt(s: seq<Entry>, j: nat, i: nat)
    requires j <= i < |s|
  {
    && (forall k, l :: 0 <= k < l <= i && k != j && l != j ==> Precedes(s[k], s[l]))
    && (forall l :: j < l <= i ==> Precedes(s[j], s[l]))
  }

  /** Swapping an out-of-order entry with its left neighbour moves the gap one place left. */
  lemma SiftStep(s: seq<Entry>, j: nat, i: nat)
    requires 0 < j <= i < |s|
    requires SiftingAt(s, j, i) && !Precedes(s[j - 1], s[j])
    ensures SiftingAt(s[j - 1 := s[j]][j := s[j - 1]], j - 1, i)
  {
    PrecedesTotalOrder(s[j - 1], s[j], s[j - 1]);
    var t := s[j - 1 := s[j]][j := s[j - 1]];
    forall l | j - 1 < l <= i
      ensures Precedes(t[j - 1], t[l])
    {
      if l > j {
        PrecedesTotalOrder(s[j], s[j - 1], s[l]);
      }
    }
  }

  /** Once the entry at j is in order with its left neighbour, s[..i+1] is sorted. */
  lemma SiftDone(s: seq<Entry>, j: nat, i: nat)
    requires j <= i < |s|
    requires SiftingAt(s, j, i) && (j == 0 || Precedes(s[j - 1], s[j]))
    ensures Sorted(s[..i + 1])
  {
    forall k, l | 0 <= k < l <= i
      ensures Precedes(s[k], s[l])
    {
      if l == j && k < j - 1 {
        PrecedesTotalOrder(s[k], s[j - 1], s[j]);
      }
    }
  }

  /**
   * Sorts the score table in place, ascending by percentage with ties in
   * listing order (insertion sort, which is stable).
   */
  method SortByPercent(a: array<Entry>)
    modifies a
    ensures Sorted(a[..])
    ensures multiset(a[..]) == old(multiset(a[..]))
  {
    var i := 0;
    while i < a.Length
      invariant 0 <= i <= a.Length
      invariant Sorted(a[..i])
      invariant multiset(a[..]) == old(multiset(a[..]))
    {
      var j := i;
      while j > 0 && !Precedes(a[j - 1], a[j])
        invariant 0 <= j <= i < a.Length
        invariant SiftingAt(a[..], j, i)
        invariant multiset(a[..]) == old(multiset(a[..]))
      {
        SiftStep(a[..], j, i);
        Swap(a, j - 1, j);
        j := j - 1;
      }
      SiftDone(a[..], j, i);
      i := i + 1;
    }
    assert a[..] == a[..i];
  }
}
