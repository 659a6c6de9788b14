/** The insertion sort that internal/herder spells out three times: sortByIndex, sortReadyByIndex and
    the term list of newRedactor.  Only the key differs. */
module Sorting {

  ghost predicate SortedBy<T>(key: T -> int, s: seq<T>)
  {
    forall i, j | 0 <= i < j < |s| :: key(s[i]) <= key(s[j])
  }

  /** Sorted up to i, except that the element at j may still be too far back. */
  ghost predicate SortedBut<T>(key: T -> int, s: seq<T>, i: int, j: int)
  {
    forall p, q | 0 <= p < q <= i && q != j && q < |s| :: key(s[p]) <= key(s[q])
  }

  function Swapped<T>(s: seq<T>, i: nat, j: nat): seq<T>
    requires i < |s| && j < |s|
  {
    s[i := s[j]][j := s[i]]
  }

  lemma {:induction false} SwapKeepsMultiset<T>(s: seq<T>, i: nat, j: nat)
    requires i < |s| && j < |s|
    ensures multiset(Swapped(s, i, j)) == multiset(s)
  {
  }

  lemma {:induction false} SwapMovesBack<T>(key: T -> int, s: seq<T>, i: nat, j: nat)
    requires 0 < j <= i < |s| && SortedBut(key, s, i, j) && key(s[j]) < key(s[j - 1])
    ensures SortedBut(key, Swapped(s, j, j - 1), i, j - 1)
  {
  }

  lemma {:induction false} InItsPlace<T>(key: T -> int, s: seq<T>, i: nat, j: nat)
    requires j <= i < |s| && SortedBut(key, s, i, j) && (j > 0 ==> key(s[j - 1]) <= key(s[j]))
    ensures SortedBut(key, s, i, -1)
  {
    forall p | 0 <= p < j
      ensures key(s[p]) <= key(s[j])
    {
      assert p < j - 1 ==> key(s[p]) <= key(s[j - 1]);
    }
  }

  method InsertionSort<T>(a: array<T>, key: T -> int)
    modifies a
    ensures SortedBy(key, a[..])
    ensures multiset(a[..]) == multiset(old(a[..]))
  {
    var i := 1;
    while i < a.Length
      invariant a.Length == 0 || 1 <= i <= a.Length
      invariant SortedBut(key, a[..], i - 1, -1)
      invariant multiset(a[..]) == multiset(old(a[..]))
    {
      Insert(a, key, i);
      i := i + 1;
    }
  }

  /** The inner loop: move the element at i back to its place. */
  method Insert<T>(a: array<T>, key: T -> int, i: nat)
    requires i < a.Length && SortedBut(key, a[..], i - 1, -1)
    modifies a
    ensures SortedBut(key, a[..], i, -1)
    ensures multiset(a[..]) == multiset(old(a[..]))
  {
    var j := i;
    assert SortedBut(key, a[..], i, j);
    hide SortedBut;
    while j > 0 && key(a[j]) < key(a[j - 1])
      invariant 0 <= j <= i
      invariant SortedBut(key, a[..], i, j)
      invariant multiset(a[..]) == multiset(old(a[..]))
    {
      ghost var before := a[..];
      a[j], a[j - 1] := a[j - 1], a[j];
      assert a[..] == Swapped(before, j, j - 1);
      SwapKeepsMultiset(before, j, j - 1);
      SwapMovesBack(key, before, i, j);
      j := j - 1;
    }
    InItsPlace(key, a[..], i, j);
  }

  /** Sorting by index recovers a list whose index field is its position, from any permutation. */
  lemma {:induction false} SortRestoresIndexOrder<T>(key: T -> int, sorted: seq<T>, original: seq<T>, first: int)
    requires SortedBy(key, sorted)
    requires multiset(sorted) == multiset(original)
    requires forall i | 0 <= i < |original| :: key(original[i]) == first + i
    ensures sorted == original
  {
    assert |sorted| == |multiset(sorted)| == |original|;
    if original != [] {
      HeadIsFirst(key, sorted, original, first);
      TailsArePermutations(sorted, original);
      SortRestoresIndexOrder(key, sorted[1..], original[1..], first + 1);
      assert sorted == [sorted[0]] + sorted[1..];
    }
  }

  lemma {:induction false} TailsArePermutations<T>(s: seq<T>, t: seq<T>)
    requires |s| > 0 && |t| > 0 && s[0] == t[0]
    requires multiset(s) == multiset(t)
    ensures multiset(s[1..]) == multiset(t[1..])
  {
    assert s == [s[0]] + s[1..] && t == [t[0]] + t[1..];
    assert multiset(s[1..]) == multiset(s) - multiset{s[0]};
  }

  lemma {:induction false} HeadIsFirst<T>(key: T -> int, sorted: seq<T>, original: seq<T>, first: int)
    requires SortedBy(key, sorted)
    requires multiset(sorted) == multiset(original)
    requires |sorted| == |original| > 0
    requires forall i | 0 <= i < |original| :: key(original[i]) == first + i
    ensures sorted[0] == original[0]
  {
    assert original[0] in multiset(sorted);
    var p :| 0 <= p < |sorted| && sorted[p] == original[0];
    assert sorted[0] in multiset(original);
    var q :| 0 <= q < |original| && original[q] == sorted[0];
    if p > 0 {
      assert key(sorted[0]) <= key(sorted[p]);
    }
    assert q == 0;
  }
}
