/** TowerDatabase: the tower catalogue, kept sorted by cost when sortByPrice is set. */
module Catalogue {
  import opened Towers

  /** Costs never decrease along the list. */
  predicate SortedByCost(s: seq<TowerConfig>)
  {
    forall x, y :: 0 <= x < y < |s| ==> s[x].cost <= s[y].cost
  }

  /** `c` inserted before the first tower of `s` that costs at least as much. */
  function Insert(c: TowerConfig, s: seq<TowerConfig>): seq<TowerConfig>
  {
    if s == [] then [c]
    else if c.cost <= s[0].cost then [c] + s
    else [s[0]] + Insert(c, s[1..])
  }

  /** The towers of `s` ordered by cost. */
  function InsertionSort(s: seq<TowerConfig>): seq<TowerConfig>
  {
    if s == [] then [] else Insert(s[|s| - 1], InsertionSort(s[..|s| - 1]))
  }

  /** A tower no dearer than the head of a sorted list can go in front of it. */
  lemma ConsSorted(h: TowerConfig, t: seq<TowerConfig>)
    requires SortedByCost(t) && (|t| > 0 ==> h.cost <= t[0].cost)
    ensures SortedByCost([h] + t)
  {
    var r := [h] + t;
    forall x, y | 0 <= x < y < |r|
      ensures r[x].cost <= r[y].cost
    {
      if x == 0 && y > 1 {
        assert r[y] == t[y - 1];
      }
    }
  }

  /** Insertion keeps a list sorted, and puts either `c` or the old head first. */
  lemma {:induction false} InsertSorted(c: TowerConfig, s: seq<TowerConfig>)
    requires SortedByCost(s)
    ensures SortedByCost(Insert(c, s))
    ensures |Insert(c, s)| == |s| + 1
    ensures Insert(c, s)[0] == c || (|s| > 0 && Insert(c, s)[0] == s[0])
    decreases |s|
  {
    if s != [] {
      if c.cost <= s[0].cost {
        ConsSorted(c, s);
      } else {
        var tail := s[1..];
        assert SortedByCost(tail) by {
          forall x, y | 0 <= x < y < |tail|
            ensures tail[x].cost <= tail[y].cost
          {
            assert tail[x] == s[x + 1] && tail[y] == s[y + 1];
          }
        }
        InsertSorted(c, tail);
        ConsSorted(s[0], Insert(c, tail));
      }
    }
  }

  /** Insertion adds exactly `c`. */
  lemma {:induction false} InsertPerm(c: TowerConfig, s: seq<TowerConfig>)
    ensures multiset(Insert(c, s)) == multiset(s) + multiset{c}
    decreases |s|
  {
    if s != [] && c.cost > s[0].cost {
      InsertPerm(c, s[1..]);
      assert s == [s[0]] + s[1..];
    }
  }

  /** The sort orders the towers by cost and keeps exactly the same towers. */
  lemma {:induction false} InsertionSortCorrect(s: seq<TowerConfig>)
    ensures SortedByCost(InsertionSort(s))
    ensures multiset(InsertionSort(s)) == multiset(s)
    decreases |s|
  {
    if s != [] {
      var front := s[..|s| - 1];
      InsertionSortCorrect(front);
      InsertSorted(s[|s| - 1], InsertionSort(front));
      InsertPerm(s[|s| - 1], InsertionSort(front));
      assert s == front + [s[|s| - 1]];
    }
  }

  /** Sorts the array by cost in place. Array.Sort is not stable, so nothing is promised about the order of
      towers of equal cost; insertion sort gives one admissible result. */
  method SortByCost(a: array<TowerConfig>)
    modifies a
    ensures a[..] == InsertionSort(old(a[..]))
    ensures SortedByCost(a[..])
    ensures multiset(a[..]) == multiset(old(a[..]))
  {
    var sorted := InsertionSort(a[..]);
    InsertionSortCorrect(a[..]);
    assert |multiset(sorted)| == |multiset(a[..])|;
    forall k | 0 <= k < a.Length {
      a[k] := sorted[k];
    }
    assert a[..] == sorted;
  }

  class TowerDatabase {
    var availableTowers: array?<TowerConfig>
    var sortByPrice: bool

    /** A new catalogue: no towers yet, sorting on. */
    constructor ()
      ensures availableTowers == null && sortByPrice
    {
      availableTowers := null;
      sortByPrice := true;
    }

    /** With sortByPrice and a catalogue, the catalogue is reordered by cost and keeps the same towers;
        without sortByPrice, or without a catalogue, nothing changes. */
    method OnValidate()
      modifies availableTowers
      ensures availableTowers == old(availableTowers) && sortByPrice == old(sortByPrice)
      ensures sortByPrice && availableTowers != null ==>
        SortedByCost(availableTowers[..]) && multiset(availableTowers[..]) == multiset(old(availableTowers[..]))
      ensures !sortByPrice && availableTowers != null ==> availableTowers[..] == old(availableTowers[..])
    {
      if sortByPrice && availableTowers != null {
        SortByCost(availableTowers);
      }
    }
  }
}
