/** Searching in strings, as Go's strings and bytes packages do. */
module Text {
  import Prelude

  predicate OccursAt(s: string, t: string, p: int)
  {
    0 <= p <= |s| - |t| && s[p..p + |t|] == t
  }

  ghost predicate Occurs(s: string, t: string)
  {
    exists p :: OccursAt(s, t, p)
  }

  /** strings.Index, from a position on. */
  function Index(s: string, t: string, from: nat): (p: int)
    requires from <= |s|
    ensures p == -1 || (from <= p && OccursAt(s, t, p))
    ensures forall q | from <= q && (p < 0 || q < p) :: !OccursAt(s, t, q)
    decreases |s| - from
  {
    if OccursAt(s, t, from) then from
    else if from == |s| then -1
    else Index(s, t, from + 1)
  }

  /** strings.IndexByte. */
  function Find(s: string, c: char): (p: int)
    ensures -1 <= p < |s|
    ensures p >= 0 ==> s[p] == c
  {
    if s == "" then -1
    else if s[0] == c then 0
    else var p := Find(s[1..], c); if p < 0 then -1 else p + 1
  }

  /** Occurrences in a stretch of a text are those of the text that lie inside it. */
  lemma {:induction false} OccursInStretch(s: string, lo: nat, hi: nat, t: string, p: int)
    requires lo <= hi <= |s|
    ensures OccursAt(s[lo..hi], t, p) <==> 0 <= p && lo + p + |t| <= hi && OccursAt(s, t, lo + p)
  {
    if 0 <= p && lo + p + |t| <= hi {
      Prelude.SliceOfSlice(s, lo, hi, p, |t|);
    }
  }

  /** Index is the least occurrence, so knowing that one is least settles it. */
  lemma {:induction false} IndexIs(s: string, t: string, p: nat)
    requires OccursAt(s, t, p) && forall q | 0 <= q < p :: !OccursAt(s, t, q)
    ensures Index(s, t, 0) == p
  {
  }

  lemma {:induction false} FindIsFirst(s: string, c: char)
    ensures Find(s, c) >= 0 ==> c !in s[..Find(s, c)]
    ensures Find(s, c) < 0 <==> c !in s
  {
    if s != "" && s[0] != c {
      FindIsFirst(s[1..], c);
      var p := Find(s[1..], c);
      if p >= 0 {
        assert s[..p + 1] == [s[0]] + s[1..][..p];
      }
    }
  }

  lemma {:induction false} FindIs(s: string, c: char, k: nat)
    requires k < |s| && s[k] == c && c !in s[..k]
    ensures Find(s, c) == k
    decreases k
  {
    if k > 0 {
      assert s[0] == s[..k][0] && s[..k] == [s[0]] + s[1..][..k - 1];
      FindIs(s[1..], c, k - 1);
    }
  }
}
