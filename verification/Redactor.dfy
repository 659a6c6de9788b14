/** internal/herder/images.go:165-209: keeping opaque image references out of diagnostics. */
module Redactor {
  import opened Prelude
  import opened Text
  import Sorting

  const TOKEN: string := "[opaque-runtime]"

  /** strings.ReplaceAll(s, t, r) for a nonempty t. */
  function ReplaceAll(s: string, t: string, r: string): string
    requires t != ""
    decreases |s|
  {
    var p := Index(s, t, 0);
    if p < 0 then s else s[..p] + r + ReplaceAll(s[p + |t|..], t, r)
  }

  function RedactWith(terms: seq<string>, s: string): string
    requires "" !in terms
  {
    if terms == [] then s else RedactWith(terms[1..], ReplaceAll(s, terms[0], TOKEN))
  }

  /** The reference's leading host component, "" for a bare repository name. */
  function RegistryHost(ref: string): string
  {
    var slash := Find(ref, '/');
    if slash < 0 || !exists c | c in ref[..slash] :: c in {'.', ':'} then "" else ref[..slash]
  }

  ghost predicate Longest(terms: seq<string>)
  {
    forall i, j | 0 <= i < j < |terms| :: |terms[j]| <= |terms[i]|
  }

  predicate LowerHex(c: char)
  {
    '0' <= c <= '9' || 'a' <= c <= 'f'
  }

  /** checkImageDigest: what every configured reference is, a repository and a sha256 digest. */
  ghost predicate Pinned(image: string)
  {
    exists repo, digest :: PinnedAs(image, repo, digest)
  }

  predicate PinnedAs(image: string, repo: string, digest: string)
  {
    && image == repo + "@sha256:" + digest && repo != "" && '@' !in repo
    && |digest| == 64 && forall c | c in digest :: LowerHex(c)
  }

  function Shorter(t: string): int { -|t| }

  function TermsOf(images: seq<string>): set<string>
  {
    if images == [] then {}
    else
      var last := images[|images| - 1];
      TermsOf(images[..|images| - 1]) + NonEmpty(last) + NonEmpty(RegistryHost(last))
  }

  function NonEmpty(t: string): set<string>
  {
    if t == "" then {} else {t}
  }

  /** newRedactor: the references and hosts to hide, each once, longest first, whatever order the
      configured images are met in. */
  method NewRedactor(images: seq<string>) returns (terms: seq<string>)
    ensures Longest(terms)
    ensures multiset(terms) == multiset(TermsOf(images))
  {
    var found: seq<string> := [];
    for i := 0 to |images|
      invariant multiset(found) == multiset(TermsOf(images[..i]))
    {
      assert images[..i + 1][..i] == images[..i];
      var image := images[i];
      var host := RegistryHost(image);
      ghost var seen := TermsOf(images[..i]);
      found := AddTerm(found, seen, image);
      found := AddTerm(found, seen + NonEmpty(image), host);
    }
    assert images[..|images|] == images;
    hide TermsOf;
    terms := LongestFirst(found);
  }

  method LongestFirst(found: seq<string>) returns (terms: seq<string>)
    ensures Longest(terms) && multiset(terms) == multiset(found)
  {
    var a := new string[|found|](i requires 0 <= i < |found| => found[i]);
    assert a[..] == found;
    Sorting.InsertionSort(a, Shorter);
    terms := a[..];
  }

  /** redact. */
  method Redact(terms: seq<string>, s: string) returns (out: string)
    requires "" !in terms
    ensures out == RedactWith(terms, s)
  {
    out := s;
    for i := 0 to |terms|
      invariant RedactWith(terms[i..], out) == RedactWith(terms, s)
    {
      assert terms[i..][1..] == terms[i + 1..];
      out := ReplaceAll(out, terms[i], TOKEN);
    }
  }

  method AddTerm(found: seq<string>, ghost seen: set<string>, t: string) returns (more: seq<string>)
    requires multiset(found) == multiset(seen)
    ensures multiset(more) == multiset(seen + NonEmpty(t))
  {
    assert t in found <==> t in multiset(found);
    if t == "" || t in found {
      assert seen + NonEmpty(t) == seen;
      return found;
    }
    more := found + [t];
  }

  // ---------------------------------------------------------------------------------------------
  // What one replacement can create
  // ---------------------------------------------------------------------------------------------

  /** The first a characters of m, then mid, then the last b characters of m. */
  function Around(m: string, a: nat, b: nat, mid: string): string
    requires a <= |m| && b <= |m|
  {
    m[..a] + mid + m[|m| - b..]
  }

  /** Replacing a j that stands between these parts of m, where no j starts earlier, completes an m. */
  ghost predicate Completes(r: string, j: string, m: string, a: nat, b: nat)
    requires j != ""
  {
    && a < |m| && b < |m|
    && Occurs(Around(m, a, b, r), m) && Index(Around(m, a, b, j), j, 0) == a
  }

  /** Replacing every j by r can create an m: a caller can check this, trying each a and b. */
  ghost predicate Creates(r: string, j: string, m: string)
    requires j != ""
  {
    exists a, b :: 0 <= a < |m| && 0 <= b < |m| && Completes(r, j, m, a, b)
  }

  lemma {:induction false} OccursInPart(s: string, lo: nat, hi: nat, u: string)
    requires lo <= hi <= |s| && Occurs(s[lo..hi], u)
    ensures Occurs(s, u)
  {
    var p :| OccursAt(s[lo..hi], u, p);
    OccursInStretch(s, lo, hi, u, p);
    assert OccursAt(s, u, lo + p);
  }

  /** An m in front + r + back lies in front, or in back, or across r with parts of m on its sides. */
  lemma {:induction false} OccursAcross(front: string, r: string, back: string, m: string, q: int)
    returns (a: nat, b: nat)
    requires m != "" && OccursAt(front + r + back, m, q)
    requires !Occurs(front, m) && !Occurs(back, m)
    ensures a < |m| && b < |m| && a <= |front| && b <= |back|
    ensures m[..a] == front[|front| - a..] && m[|m| - b..] == back[..b]
    ensures Occurs(Around(m, a, b, r), m)
  {
    hide OccursAt, Occurs, Around;
    var s, end := front + r + back, |front| + |r|;
    NotOnOneSide(front, r, back, m, q);
    a := if q < |front| then |front| - q else 0;
    b := if q + |m| > end then q + |m| - end else 0;
    PartsOf(front, r, back, m, q, a, b);
    OccursInStretch(s, |front| - a, end + b, m, q - (|front| - a));
    OccursHere(s[|front| - a..end + b], m, q - (|front| - a));
  }

  lemma {:induction false} OccursHere(s: string, t: string, p: int)
    requires OccursAt(s, t, p)
    ensures Occurs(s, t)
  {
  }

  lemma {:induction false} NotOnOneSide(front: string, r: string, back: string, m: string, q: int)
    requires m != "" && OccursAt(front + r + back, m, q)
    requires !Occurs(front, m) && !Occurs(back, m)
    ensures |front| < q + |m| && q < |front| + |r|
    ensures 0 <= q && q + |m| <= |front| + |r| + |back|
  {
    var s, end := front + r + back, |front| + |r|;
    assert 0 <= q && q + |m| <= |s|;
    assert front == s[0..|front|] && back == s[end..|s|];
    hide OccursAt;
    OccursInStretch(s, 0, |front|, m, q);
    OccursInStretch(s, end, |s|, m, q - end);
    assert !OccursAt(front, m, q) && !OccursAt(back, m, q - end);
  }

  lemma {:induction false} PartsOf(front: string, r: string, back: string, m: string, q: int, a: nat, b: nat)
    requires m != "" && OccursAt(front + r + back, m, q)
    requires a == if q < |front| then |front| - q else 0
    requires b == if q + |m| > |front| + |r| then q + |m| - (|front| + |r|) else 0
    requires |front| < q + |m| && q < |front| + |r|
    ensures a <= |front| && b <= |back| && a < |m| && b < |m|
    ensures m[..a] == front[|front| - a..] && m[|m| - b..] == back[..b]
    ensures Around(m, a, b, r) == (front + r + back)[|front| - a..|front| + |r| + b]
  {
    var s, end := front + r + back, |front| + |r|;
    assert 0 <= q && q + |m| <= |s| && s[q..q + |m|] == m;
    assert a <= |front| && b <= |back| && a < |m| && b < |m|;
    SliceAcross(front, r, back, a, b);
    if a > 0 {
      SliceOfSlice(s, q, q + |m|, 0, a);
      SliceAcross(front, r, back, a, 0);
      assert s[q..q + a] == front[|front| - a..];
    }
    if b > 0 {
      SliceOfSlice(s, q, q + |m|, |m| - b, b);
      assert s[end..end + b] == back[..b];
    }
  }

  /** The j whose replacement leaves r there was the leftmost one of the parts around it too. */
  lemma {:induction false} LeftmostAround(s: string, j: string, p: nat, m: string, a: nat, b: nat)
    requires j != "" && Index(s, j, 0) == p && a <= p && a < |m| && b < |m|
    requires m[..a] == s[p - a..p]
    ensures Index(Around(m, a, b, j), j, 0) == a
  {
    SameUpTo(s, j, p, m, a, b);
    hide Around, OccursAt;
    LeftmostAlike(s, p - a, Around(m, a, b, j), j, a);
  }

  lemma {:induction false} LeftmostAlike(s: string, lo: nat, x: string, j: string, a: nat)
    requires j != "" && Index(s, j, 0) == lo + a && lo + a + |j| <= |s| && a + |j| <= |x|
    requires x[0..a + |j|] == s[lo..lo + a + |j|]
    ensures Index(x, j, 0) == a
  {
    hide OccursAt;
    forall q | 0 <= q <= a
      ensures OccursAt(x, j, q) <==> OccursAt(s, j, lo + q)
    {
      OccursInStretch(x, 0, a + |j|, j, q);
      OccursInStretch(s, lo, lo + a + |j|, j, q);
    }
    IndexIs(x, j, a);
  }

  lemma {:induction false} SameUpTo(s: string, j: string, p: nat, m: string, a: nat, b: nat)
    requires OccursAt(s, j, p) && a <= p && a < |m| && b < |m| && m[..a] == s[p - a..p]
    ensures |Around(m, a, b, j)| == a + |j| + b && p + |j| <= |s|
    ensures Around(m, a, b, j)[0..a + |j|] == s[p - a..p + |j|]
  {
    assert s[p - a..p + |j|] == s[p - a..p] + s[p..p + |j|];
    FirstTwo(m[..a], j, m[|m| - b..]);
  }

  lemma {:induction false} FirstTwo(x: string, y: string, z: string)
    ensures (x + y + z)[0..|x| + |y|] == x + y
  {
  }

  /** An m in the outcome of a replacement was there before, unless the replacement can create it;
      and a replacement of m itself leaves no old one. */
  lemma {:induction false} ReplaceAllCreates(s: string, j: string, r: string, m: string)
    requires j != "" && m != "" && Occurs(ReplaceAll(s, j, r), m) && !Creates(r, j, m)
    ensures Occurs(s, m) && j != m
    decreases |s|
  {
    var p := Index(s, j, 0);
    if p >= 0 {
      var tail := s[p + |j|..];
      var back := ReplaceAll(tail, j, r);
      assert s[..p] == s[0..p] && tail == s[p + |j|..|s|];
      assert ReplaceAll(s, j, r) == s[..p] + r + back;
      hide ReplaceAll, OccursAt, Creates;
      if Occurs(s[..p], m) {
        OccursInPart(s, 0, p, m);
        NoneBeforeTheFirst(s, j);
      } else if Occurs(back, m) {
        ReplaceAllCreates(tail, j, r, m);
        OccursInPart(s, p + |j|, |s|, m);
      } else {
        MadeByReplacing(s, p, j, r, back, m);
      }
    }
  }

  /** An m that is in neither part beside the replaced j shows that the replacement can create it. */
  lemma {:induction false} MadeByReplacing(s: string, p: nat, j: string, r: string, back: string, m: string)
    requires j != "" && Index(s, j, 0) == p
    requires m != "" && Occurs(s[..p] + r + back, m) && !Occurs(s[..p], m) && !Occurs(back, m)
    ensures Creates(r, j, m)
  {
    var q :| OccursAt(s[..p] + r + back, m, q);
    var a, b := OccursAcross(s[..p], r, back, m, q);
    assert s[..p][p - a..] == s[p - a..p];
    LeftmostAround(s, j, p, m, a, b);
    assert Completes(r, j, m, a, b);
  }

  lemma {:induction false} NoneBeforeTheFirst(s: string, t: string)
    requires t != "" && Index(s, t, 0) >= 0
    ensures !Occurs(s[..Index(s, t, 0)], t)
  {
    var p := Index(s, t, 0);
    forall q
      ensures !OccursAt(s[..p], t, q)
    {
      assert s[..p] == s[0..p];
      OccursInStretch(s, 0, p, t, q);
    }
  }

  lemma {:induction false} NothingToReplace(s: string, j: string, r: string)
    requires j != "" && !Occurs(s, j)
    ensures ReplaceAll(s, j, r) == s
  {
  }

  lemma {:induction false} LongerDoesNotOccur(s: string, t: string)
    requires |s| <= |t| && s != t
    ensures !Occurs(s, t)
  {
    assert s[0..|s|] == s;
    if Occurs(s, t) {
      var p :| OccursAt(s, t, p);
    }
  }

  /** Replacing the one j that stands between parts of m. */
  lemma {:induction false} ReplaceAround(m: string, j: string, a: nat, b: nat, r: string)
    requires j != "" && a < |m| && b < |m| && Index(Around(m, a, b, j), j, 0) == a
    requires !Occurs(m[|m| - b..], j)
    ensures ReplaceAll(Around(m, a, b, j), j, r) == Around(m, a, b, r)
  {
    var x, back := Around(m, a, b, j), m[|m| - b..];
    assert x[..a] == m[..a] && x[a + |j|..] == back;
    NothingToReplace(back, j, r);
  }

  /** Replacing every m leaves none behind in any text, if and only if it cannot create one. */
  lemma {:induction false} ReplaceAllRemovesIff(m: string, r: string)
    requires m != ""
    ensures (forall s :: !Occurs(ReplaceAll(s, m, r), m)) <==> !Creates(r, m, m)
  {
    if Creates(r, m, m) {
      var a, b :| 0 <= a < |m| && 0 <= b < |m| && Completes(r, m, m, a, b);
      LongerDoesNotOccur(m[|m| - b..], m);
      ReplaceAround(m, m, a, b, r);
      assert Occurs(ReplaceAll(Around(m, a, b, m), m, r), m);
    } else {
      forall s
        ensures !Occurs(ReplaceAll(s, m, r), m)
      {
        if Occurs(ReplaceAll(s, m, r), m) {
          ReplaceAllCreates(s, m, r, m);
        }
      }
    }
  }

  // ---------------------------------------------------------------------------------------------
  // No configured term survives
  // ---------------------------------------------------------------------------------------------

  /** Term i cannot be created by its own replacement or a later one. */
  ghost predicate Gone(terms: seq<string>, i: int)
    requires "" !in terms && 0 <= i < |terms|
  {
    forall j | i <= j < |terms| :: !Creates(TOKEN, terms[j], terms[i])
  }

  /** Every term contains one that is gone for good once it has been replaced. */
  ghost predicate Secure(terms: seq<string>)
  {
    "" !in terms && forall k | 0 <= k < |terms| :: Covered(terms, k)
  }

  ghost predicate Covered(terms: seq<string>, k: int)
    requires "" !in terms && 0 <= k < |terms|
  {
    exists i :: 0 <= i < |terms| && Occurs(terms[k], terms[i]) && Gone(terms, i)
  }

  lemma {:induction false} NeverCreated(terms: seq<string>, s: string, m: string)
    requires "" !in terms && m != "" && !Occurs(s, m)
    requires forall j | 0 <= j < |terms| :: !Creates(TOKEN, terms[j], m)
    ensures !Occurs(RedactWith(terms, s), m)
    decreases |terms|
  {
    hide Creates;
    if terms != [] {
      var next := ReplaceAll(s, terms[0], TOKEN);
      if Occurs(next, m) {
        ReplaceAllCreates(s, terms[0], TOKEN, m);
      }
      NeverCreated(terms[1..], next, m);
    }
  }

  lemma {:induction false} GoneIsGone(terms: seq<string>, s: string, i: nat)
    requires "" !in terms && i < |terms| && Gone(terms, i)
    ensures !Occurs(RedactWith(terms, s), terms[i])
    decreases |terms|
  {
    hide Creates;
    var next := ReplaceAll(s, terms[0], TOKEN);
    if i > 0 {
      assert forall j | i - 1 <= j < |terms| - 1 :: terms[1..][j] == terms[j + 1];
      GoneIsGone(terms[1..], next, i - 1);
    } else {
      if Occurs(next, terms[0]) {
        ReplaceAllCreates(s, terms[0], TOKEN, terms[0]);
      }
      assert forall j | 0 <= j < |terms| - 1 :: terms[1..][j] == terms[j + 1];
      NeverCreated(terms[1..], next, terms[0]);
    }
  }

  /** redact leaves no occurrence of any term of a secure list in any text. */
  lemma {:induction false} RedactLeavesNoTerm(terms: seq<string>, s: string, t: string)
    requires Secure(terms) && t in terms
    ensures !Occurs(RedactWith(terms, s), t)
  {
    hide Gone, RedactWith, Occurs;
    var k :| 0 <= k < |terms| && terms[k] == t;
    assert Covered(terms, k);
    var i :| 0 <= i < |terms| && Occurs(terms[k], terms[i]) && Gone(terms, i);
    GoneIsGone(terms, s, i);
    if Occurs(RedactWith(terms, s), t) {
      OccursThrough(RedactWith(terms, s), t, terms[i]);
    }
  }

  lemma {:induction false} OccursThrough(s: string, t: string, u: string)
    requires Occurs(s, t) && Occurs(t, u)
    ensures Occurs(s, u)
  {
    var p :| OccursAt(s, t, p);
    OccursInPart(s, p, p + |t|, u);
  }

  /** Redacting the parts of m around term j shows an m: term j completes it, and no earlier term
      gets at the text before nor a later one after. */
  ghost predicate Betrays(terms: seq<string>, m: string, j: int, a: nat, b: nat)
    requires "" !in terms && 0 <= j < |terms|
  {
    && Completes(TOKEN, terms[j], m, a, b) && !Occurs(m[|m| - b..], terms[j])
    && (forall k | 0 <= k < j :: !Occurs(Around(m, a, b, terms[j]), terms[k]))
    && (forall k | j < k < |terms| :: !Occurs(Around(m, a, b, TOKEN), terms[k]))
  }

  lemma {:induction false} SurvivesAround(terms: seq<string>, m: string, j: nat, a: nat, b: nat)
    requires "" !in terms && j < |terms| && Betrays(terms, m, j, a, b)
    ensures a < |m| && b < |m| && Occurs(RedactWith(terms, Around(m, a, b, terms[j])), m)
    decreases |terms|
  {
    var s := Around(m, a, b, terms[j]);
    assert forall k | 0 <= k < |terms| - 1 :: terms[1..][k] == terms[k + 1];
    hide Around, ReplaceAll;
    if j == 0 {
      ReplaceAround(m, terms[0], a, b, TOKEN);
      hide Occurs;
      NothingToRedact(terms[1..], Around(m, a, b, TOKEN));
    } else {
      hide Occurs;
      NothingToReplace(s, terms[0], TOKEN);
      SurvivesAround(terms[1..], m, j - 1, a, b);
    }
  }

  lemma {:induction false} NothingToRedact(terms: seq<string>, s: string)
    requires "" !in terms && forall k | 0 <= k < |terms| :: !Occurs(s, terms[k])
    ensures RedactWith(terms, s) == s
    decreases |terms|
  {
    if terms != [] {
      NothingToReplace(s, terms[0], TOKEN);
      assert forall k | 0 <= k < |terms| - 1 :: terms[1..][k] == terms[k + 1];
      NothingToRedact(terms[1..], s);
    }
  }

  /** Term i contains no other one. */
  ghost predicate Bare(terms: seq<string>, i: int)
    requires 0 <= i < |terms|
  {
    forall k | 0 <= k < |terms| :: Occurs(terms[i], terms[k]) ==> terms[k] == terms[i]
  }

  /** Where the replacement of a later term can create a bare one, or its own can, there is a text
      that shows it. */
  ghost predicate Telling(terms: seq<string>)
    requires "" !in terms
  {
    forall i, j | 0 <= i <= j < |terms| && Bare(terms, i) && Creates(TOKEN, terms[j], terms[i]) ::
      exists a, b :: Betrays(terms, terms[i], j, a, b)
  }

  lemma {:induction false} BareInside(terms: seq<string>, k: nat) returns (i: nat)
    requires k < |terms|
    ensures i < |terms| && Bare(terms, i) && Occurs(terms[k], terms[i])
    decreases |terms[k]|
  {
    i := k;
    OccursInItself(terms[k]);
    if !Bare(terms, k) {
      var j :| 0 <= j < |terms| && Occurs(terms[k], terms[j]) && terms[j] != terms[k];
      ProperPartIsShorter(terms[k], terms[j]);
      i := BareInside(terms, j);
      OccursThrough(terms[k], terms[j], terms[i]);
    }
  }

  lemma {:induction false} OccursInItself(t: string)
    ensures Occurs(t, t)
  {
    assert OccursAt(t, t, 0);
  }

  lemma {:induction false} ProperPartIsShorter(s: string, t: string)
    requires Occurs(s, t) && s != t
    ensures |t| < |s|
  {
    if |s| <= |t| {
      LongerDoesNotOccur(s, t);
    }
  }

  /** redact keeps its promise over every text if and only if the list is secure, unless other terms
      get in the way of every text that would show a created one. */
  lemma {:induction false} RedactLeavesNoTermIff(terms: seq<string>)
    requires "" !in terms && Telling(terms)
    ensures (forall s, k | 0 <= k < |terms| :: !Occurs(RedactWith(terms, s), terms[k])) <==> Secure(terms)
  {
    hide RedactWith, Occurs, Bare, Betrays, Creates;
    if Secure(terms) {
      forall s, k | 0 <= k < |terms|
        ensures !Occurs(RedactWith(terms, s), terms[k])
      {
        RedactLeavesNoTerm(terms, s, terms[k]);
      }
    } else {
      var k :| 0 <= k < |terms| && !Covered(terms, k);
      var i := BareInside(terms, k);
      assert !Gone(terms, i);
      var j :| i <= j < |terms| && Creates(TOKEN, terms[j], terms[i]);
      var a, b :| Betrays(terms, terms[i], j, a, b);
      SurvivesAround(terms, terms[i], j, a, b);
      assert Occurs(RedactWith(terms, Around(terms[i], a, b, terms[j])), terms[i]);
    }
  }

  /** Callers that redact twice change nothing the second time. */
  lemma {:induction false} RedactIsIdempotent(terms: seq<string>, s: string)
    requires Secure(terms)
    ensures RedactWith(terms, RedactWith(terms, s)) == RedactWith(terms, s)
  {
    assert "" !in terms;
    hide RedactWith, Occurs, Secure;
    forall k | 0 <= k < |terms|
      ensures !Occurs(RedactWith(terms, s), terms[k])
    {
      RedactLeavesNoTerm(terms, s, terms[k]);
    }
    NothingToRedact(terms, RedactWith(terms, s));
  }

  // ---------------------------------------------------------------------------------------------
  // Longest first: a whole reference goes, not just its host
  // ---------------------------------------------------------------------------------------------

  /** No term stands in the token itself. */
  ghost predicate OutsideToken(terms: seq<string>)
  {
    "" !in terms && forall k | 0 <= k < |terms| :: !Occurs(TOKEN, terms[k])
  }

  /** A configured reference on its own becomes the token alone: no shorter term, such as its own
      registry host, gets at it first and leaves the rest of it standing. */
  lemma {:induction false} RedactHidesWholeTerm(terms: seq<string>, t: string)
    requires OutsideToken(terms) && Longest(terms) && t in terms
    ensures RedactWith(terms, t) == TOKEN
    decreases |terms|
  {
    assert forall k | 0 <= k < |terms| - 1 :: terms[1..][k] == terms[k + 1];
    if t == terms[0] {
      assert t[0..|t|] == t && OccursAt(t, t, 0);
      assert t[..0] == "" && t[|t|..] == "" && ReplaceAll("", t, TOKEN) == "";
      assert ReplaceAll(t, t, TOKEN) == TOKEN;
      NothingToRedact(terms[1..], TOKEN);
    } else {
      LongerDoesNotOccur(t, terms[0]);
      NothingToReplace(t, terms[0], TOKEN);
      RedactHidesWholeTerm(terms[1..], t);
    }
  }

  /** An occurrence of t in a + [c] + b lies on one side of c. */
  lemma {:induction false} OccursBesideSeparator(a: string, c: char, b: string, t: string, p: int)
    requires c !in t && OccursAt(a + [c] + b, t, p)
    ensures OccursAt(a, t, p) || OccursAt(b, t, p - |a| - 1)
  {
    var s := a + [c] + b;
    forall k | 0 <= k < |t|
      ensures s[p + k] == t[k] && s[p + k] != c
    {
      assert s[p..p + |t|][k] == s[p + k];
      assert t[k] in t;
    }
    assert s[|a|] == c;
    assert p + |t| <= |a| || |a| < p;
    if p + |t| <= |a| {
      assert s[p..p + |t|] == a[p..p + |t|];
    } else {
      assert s[p..p + |t|] == b[p - |a| - 1..p - |a| - 1 + |t|];
    }
  }

  lemma {:induction false} OccursBeside(a: string, c: char, b: string, t: string, p: int)
    ensures OccursAt(a, t, p) ==> OccursAt(a + [c] + b, t, p)
    ensures OccursAt(b, t, p) ==> OccursAt(a + [c] + b, t, |a| + 1 + p)
  {
    var s := a + [c] + b;
    if OccursAt(a, t, p) {
      assert s[p..p + |t|] == a[p..p + |t|];
    }
    if OccursAt(b, t, p) {
      assert s[|a| + 1 + p..|a| + 1 + p + |t|] == b[p..p + |t|];
    }
  }

  lemma {:induction false} IndexBeside(a: string, c: char, b: string, t: string)
    requires t != "" && c !in t
    ensures var i, j := Index(a, t, 0), Index(b, t, 0);
            Index(a + [c] + b, t, 0) == if i >= 0 then i else if j >= 0 then |a| + 1 + j else -1
  {
    var s := a + [c] + b;
    var i, j, k := Index(a, t, 0), Index(b, t, 0), Index(s, t, 0);
    OccursBeside(a, c, b, t, i);
    OccursBeside(a, c, b, t, j);
    if k >= 0 {
      OccursBesideSeparator(a, c, b, t, k);
      assert OccursAt(a, t, k) ==> 0 <= i <= k;
      assert OccursAt(b, t, k - |a| - 1) ==> 0 <= j <= k - |a| - 1;
    }
    assert i >= 0 ==> 0 <= k <= i;
    assert j >= 0 ==> 0 <= k <= |a| + 1 + j;
  }

  /** A replacement, told from its first occurrence on. */
  lemma {:induction false} ReplaceFirst(head: string, t: string, tail: string, r: string)
    requires t != "" && Index(head + t + tail, t, 0) == |head|
    ensures ReplaceAll(head + t + tail, t, r) == head + r + ReplaceAll(tail, t, r)
  {
    var s := head + t + tail;
    assert s[..|head|] == head && s[|head| + |t|..] == tail;
  }

  lemma {:induction false} CutAtFirst(s: string, t: string) returns (head: string, tail: string)
    requires t != "" && Index(s, t, 0) >= 0
    ensures |head| == Index(s, t, 0) && s == head + t + tail
  {
    head, tail := s[..Index(s, t, 0)], s[Index(s, t, 0) + |t|..];
  }

  /** Replacement works on either side of a character the term does not have. */
  lemma {:induction false} ReplaceAllSplits(a: string, c: char, b: string, t: string, r: string)
    requires t != "" && c !in t
    ensures ReplaceAll(a + [c] + b, t, r) == ReplaceAll(a, t, r) + [c] + ReplaceAll(b, t, r)
    decreases |a|
  {
    IndexBeside(a, c, b, t);
    if Index(a, t, 0) >= 0 {
      hide ReplaceAll, OccursAt, Index;
      var head, tail := CutAtFirst(a, t);
      ReplaceAllSplits(tail, c, b, t, r);
      ReplaceFirst(head, t, tail, r);
      JoinAfter(head, t, tail, [c], b);
      ReplaceFirst(head, t, tail + [c] + b, r);
      JoinAfter(head, r, ReplaceAll(tail, t, r), [c], ReplaceAll(b, t, r));
    } else if Index(b, t, 0) >= 0 {
      assert ReplaceAll(a, t, r) == a;
      hide ReplaceAll, OccursAt, Index;
      var head, tail := CutAtFirst(b, t);
      ReplaceFirst(head, t, tail, r);
      Regroup(a + [c], head, t, tail);
      assert |a + [c] + head| == |a| + 1 + |head|;
      ReplaceFirst(a + [c] + head, t, tail, r);
      Regroup(a + [c], head, r, ReplaceAll(tail, t, r));
    }
  }

  lemma {:induction false} JoinAfter(head: string, t: string, tail: string, c: string, b: string)
    ensures (head + t + tail) + c + b == head + t + (tail + c + b)
  {
    Regroup(head + t, tail, c, b);
  }

  lemma {:induction false} RedactSplits(terms: seq<string>, a: string, c: char, b: string)
    requires "" !in terms && forall t | t in terms :: c !in t
    ensures RedactWith(terms, a + [c] + b) == RedactWith(terms, a) + [c] + RedactWith(terms, b)
    decreases |terms|
  {
    if terms != [] {
      ReplaceAllSplits(a, c, b, terms[0], TOKEN);
      RedactSplits(terms[1..], ReplaceAll(a, terms[0], TOKEN), c, ReplaceAll(b, terms[0], TOKEN));
    }
  }

  /** In any message that sets a reference off by a character no term contains, the whole
      reference is hidden and the text around it is redacted on its own. */
  lemma {:induction false} RedactHidesDelimitedReference(terms: seq<string>, before: string, c: char, t: string,
                                                         after: string)
    requires OutsideToken(terms) && Longest(terms) && t in terms
    requires forall u | u in terms :: c !in u
    ensures RedactWith(terms, before + [c] + (t + [c] + after))
            == RedactWith(terms, before) + [c] + (TOKEN + [c] + RedactWith(terms, after))
  {
    RedactSplits(terms, before, c, t + [c] + after);
    RedactSplits(terms, t, c, after);
    RedactHidesWholeTerm(terms, t);
  }

  // ---------------------------------------------------------------------------------------------
  // Which configurations are secure
  // ---------------------------------------------------------------------------------------------

  /** m cannot overlap the token, not even in part. */
  ghost predicate Apart(m: string)
  {
    forall a, b | 0 <= a < |m| && 0 <= b < |m| :: !Occurs(Around(m, a, b, TOKEN), m)
  }

  /** The shortest term an image contributes. */
  function ShortTerm(image: string): string
  {
    if RegistryHost(image) != "" then RegistryHost(image) else image
  }

  /** The terms of a list are those of the images. */
  ghost predicate TermsFor(terms: seq<string>, images: seq<string>)
  {
    multiset(terms) == multiset(TermsOf(images))
  }

  lemma {:induction false} TermOfImage(images: seq<string>, t: string)
    requires t in TermsOf(images)
    ensures t != "" && exists image :: image in images && (t == image || t == RegistryHost(image))
  {
    if images != [] {
      var last, init := images[|images| - 1], images[..|images| - 1];
      if t in TermsOf(init) {
        TermOfImage(init, t);
        var image :| image in init && (t == image || t == RegistryHost(image));
        assert image in images;
      } else {
        assert last in images;
      }
    }
  }

  lemma {:induction false} ShortTermIsTerm(images: seq<string>, image: string)
    requires image in images && image != ""
    ensures ShortTerm(image) in TermsOf(images)
  {
    var last, init := images[|images| - 1], images[..|images| - 1];
    if image != last {
      assert image in init;
      ShortTermIsTerm(init, image);
    }
  }

  /** A term contains the shortest term of its image. */
  lemma {:induction false} TermsHoldShortTerms(image: string, t: string)
    requires t == image || (t == RegistryHost(image) && t != "")
    ensures Occurs(t, ShortTerm(image))
  {
    var host := ShortTerm(image);
    assert t[..|host|] == host && t[0..|host|] == t[..|host|];
    assert OccursAt(t, host, 0);
  }

  /** Whatever else is configured, a list is secure when the registry host of every image, or the
      whole reference where it has none, cannot overlap the token. */
  lemma {:induction false} ApartHostsAreSecure(images: seq<string>, terms: seq<string>)
    requires TermsFor(terms, images)
    requires forall image | image in images :: image != "" && Apart(ShortTerm(image))
    ensures Secure(terms)
  {
    hide ShortTerm, RegistryHost;
    InBag(terms, TermsOf(images));
    forall k | 0 <= k < |terms|
      ensures terms[k] != ""
      ensures "" !in terms ==> Covered(terms, k)
    {
      TermOfImage(images, terms[k]);
      var image :| image in images && (terms[k] == image || terms[k] == RegistryHost(image));
      TermsHoldShortTerms(image, terms[k]);
      ShortTermIsTerm(images, image);
      var i :| 0 <= i < |terms| && terms[i] == ShortTerm(image);
      if "" !in terms {
        ApartIsGone(terms, i);
      }
    }
  }

  lemma {:induction false} InBag(terms: seq<string>, s: set<string>)
    requires multiset(terms) == multiset(s)
    ensures forall t :: t in terms <==> t in s
  {
    forall t
      ensures t in terms <==> t in s
    {
      assert t in terms <==> t in multiset(terms);
    }
  }

  lemma {:induction false} ApartIsGone(terms: seq<string>, i: nat)
    requires "" !in terms && i < |terms| && Apart(terms[i])
    ensures Gone(terms, i)
  {
  }

  /** For one image redact keeps its promise over every text if and only if its shortest term, the
      host or else the reference, is not one whose replacement can create it. */
  lemma {:induction false} OneImageIff(image: string, terms: seq<string>)
    requires image != "" && Longest(terms) && TermsFor(terms, [image])
    ensures "" !in terms
    ensures (forall s, k | 0 <= k < |terms| :: !Occurs(RedactWith(terms, s), terms[k])) <==>
            !Creates(TOKEN, ShortTerm(image), ShortTerm(image))
  {
    TermsOfOne(image, terms);
    hide RedactWith, Creates, RegistryHost, TermsOf, Longest;
    if Creates(TOKEN, ShortTerm(image), ShortTerm(image)) {
      OneImageFails(image, terms);
    } else {
      OneImageIsSecure(image, terms);
      forall s, k | 0 <= k < |terms|
        ensures !Occurs(RedactWith(terms, s), terms[k])
      {
        RedactLeavesNoTerm(terms, s, terms[k]);
      }
    }
  }

  lemma {:induction false} OneImageIsSecure(image: string, terms: seq<string>)
    requires terms == (if RegistryHost(image) == "" then [image] else [image, RegistryHost(image)])
    requires image != "" && !Creates(TOKEN, ShortTerm(image), ShortTerm(image))
    ensures Secure(terms)
  {
    var last := |terms| - 1;
    hide Creates, RegistryHost, Occurs, TOKEN;
    TermsHoldShortTerms(image, image);
    TermsHoldShortTerms(image, terms[last]);
    assert terms[last] == ShortTerm(image) && Gone(terms, last);
  }

  lemma {:induction false} TermsOfOne(image: string, terms: seq<string>)
    requires image != "" && Longest(terms) && TermsFor(terms, [image])
    ensures terms == if RegistryHost(image) == "" then [image] else [image, RegistryHost(image)]
  {
    var host := RegistryHost(image);
    assert [image][..0] == [];
    assert TermsOf([image]) == {image} + NonEmpty(host);
    InBag(terms, TermsOf([image]));
    if host == "" {
      assert |terms| == |multiset(terms)| == |multiset({image})| == 1;
      assert terms[0] in terms;
    } else {
      assert |host| < |image|;
      assert {image} + NonEmpty(host) == {image, host};
      assert |terms| == |multiset(terms)| == |multiset({image, host})| == 2;
      assert terms[0] in terms && terms[1] in terms;
      assert terms == [terms[0], terms[1]];
      assert multiset(terms)[terms[0]] == 1;
    }
  }

  lemma {:induction false} OneImageFails(image: string, terms: seq<string>)
    requires terms == (if RegistryHost(image) == "" then [image] else [image, RegistryHost(image)])
    requires image != "" && Creates(TOKEN, ShortTerm(image), ShortTerm(image))
    ensures exists s, k :: 0 <= k < |terms| && Occurs(RedactWith(terms, s), terms[k])
  {
    hide Occurs, Around, Completes, Creates, TOKEN, RedactWith, RegistryHost;
    var m := ShortTerm(image);
    var a, b := PartsThatCreate(m);
    if RegistryHost(image) != "" {
      NoSlashAround(image, a, b);
    }
    BetraysItself(terms, m, a, b);
  }

  lemma {:induction false} PartsThatCreate(m: string) returns (a: nat, b: nat)
    requires m != "" && Creates(TOKEN, m, m)
    ensures a < |m| && b < |m| && Completes(TOKEN, m, m, a, b)
  {
    a, b :| 0 <= a < |m| && 0 <= b < |m| && Completes(TOKEN, m, m, a, b);
  }

  lemma {:induction false} BetraysItself(terms: seq<string>, m: string, a: nat, b: nat)
    requires "" !in terms && |terms| <= 2 && terms != [] && terms[|terms| - 1] == m
    requires Completes(TOKEN, m, m, a, b) && (|terms| == 2 ==> !Occurs(Around(m, a, b, m), terms[0]))
    ensures exists s, k :: 0 <= k < |terms| && Occurs(RedactWith(terms, s), terms[k])
  {
    var j := |terms| - 1;
    LongerDoesNotOccur(m[|m| - b..], m);
    hide Occurs, RedactWith, Around;
    assert Betrays(terms, m, j, a, b);
    SurvivesAround(terms, m, j, a, b);
    assert Occurs(RedactWith(terms, Around(m, a, b, m)), terms[j]);
  }

  /** The whole reference does not occur around its host: it has a slash. */
  lemma {:induction false} NoSlashAround(image: string, a: nat, b: nat)
    requires RegistryHost(image) != "" && a <= |RegistryHost(image)| && b <= |RegistryHost(image)|
    ensures var m := RegistryHost(image); !Occurs(Around(m, a, b, m), image)
  {
    var m := RegistryHost(image);
    FindIsFirst(image, '/');
    assert image[|m|] == '/' && '/' !in m;
    LacksChar(Around(m, a, b, m), image, |m|);
  }

  lemma {:induction false} LacksChar(s: string, t: string, k: nat)
    requires k < |t|
    ensures Occurs(s, t) ==> t[k] in s
  {
    if Occurs(s, t) {
      var p :| OccursAt(s, t, p);
      assert s[p..p + |t|][k] == s[p + k];
    }
  }

  // ---------------------------------------------------------------------------------------------
  // Usual references, and one that is not
  // ---------------------------------------------------------------------------------------------

  lemma {:induction false} TokenChars()
    ensures |TOKEN| == 16 && TOKEN[0] == '[' && TOKEN[15] == ']'
    ensures forall k | 0 <= k < 16 :: TOKEN[k] == '[' <==> k == 0
    ensures forall k | 0 <= k < 16 :: TOKEN[k] == ']' <==> k == 15
    ensures forall k | 0 <= k < 16 :: TOKEN[k] !in {'.', ':', '/', '@'}
  {
  }

  /** m at x lies across r at a, and spells it where they overlap. */
  ghost predicate LiesAt(m: string, r: string, a: int, x: int)
  {
    && x < a + |r| && a < x + |m|
    && forall i | 0 <= i < |m| && a <= x + i < a + |r| :: m[i] == r[x + i - a]
  }

  lemma {:induction false} LiesAcross(m: string, a: nat, b: nat, r: string)
    requires a < |m| && b < |m|
    ensures Occurs(Around(m, a, b, r), m) ==> exists x :: LiesAt(m, r, a, x)
  {
    var s := Around(m, a, b, r);
    if Occurs(s, m) {
      var x :| OccursAt(s, m, x);
      forall i | 0 <= i < |m| && a <= x + i < a + |r|
        ensures m[i] == r[x + i - a]
      {
        assert s[x..x + |m|][i] == s[x + i];
      }
      assert LiesAt(m, r, a, x);
    }
  }

  lemma {:induction false} ApartIfNowhere(m: string)
    requires forall a, x :: !LiesAt(m, TOKEN, a, x)
    ensures Apart(m)
  {
    hide LiesAt, TOKEN;
    forall a, b | 0 <= a < |m| && 0 <= b < |m|
      ensures !Occurs(Around(m, a, b, TOKEN), m)
    {
      LiesAcross(m, a, b, TOKEN);
    }
  }

  /** A term without brackets that has a dot or a colon cannot overlap the token. */
  lemma {:induction false} BracketFreeIsApart(m: string, k: nat)
    requires '[' !in m && ']' !in m && k < |m| && m[k] in {'.', ':'}
    ensures Apart(m)
  {
    TokenChars();
    hide TOKEN, Apart;
    assert forall i | 0 <= i < |m| :: m[i] in m;
    forall a, x
      ensures !LiesAt(m, TOKEN, a, x)
    {
      var front, back := a - x, a + 15 - x;
      assert 0 <= front < |m| ==> m[front] != '[';
      assert 0 <= back < |m| ==> m[back] != ']';
    }
    ApartIfNowhere(m);
  }

  /** Nor can an IPv6 literal, which has brackets around its colons, with a port or without. */
  lemma {:induction false} Ipv6LiteralIsApart(inner: string, port: string, k: nat)
    requires k < |inner| && inner[k] == ':' && '[' !in inner && ']' !in inner && '[' !in port && ']' !in port
    ensures Apart("[" + inner + "]" + port)
  {
    var m := "[" + inner + "]" + port;
    TokenChars();
    hide TOKEN, Apart;
    BracketsOf(inner, port, k);
    forall a, x
      ensures !LiesAt(m, TOKEN, a, x)
    {
      var front, back := a - x, a + 15 - x;
      assert 0 <= front < |m| ==> (m[front] == '[' <==> front == 0);
      assert 0 <= back < |m| ==> (m[back] == ']' <==> back == |inner| + 1);
    }
    ApartIfNowhere(m);
  }

  lemma {:induction false} BracketsOf(inner: string, port: string, k: nat)
    requires k < |inner| && inner[k] == ':' && '[' !in inner && ']' !in inner && '[' !in port && ']' !in port
    ensures var m := "[" + inner + "]" + port;
            && m[k + 1] == ':'
            && (forall i | 0 <= i < |m| :: m[i] == '[' <==> i == 0)
            && (forall i | 0 <= i < |m| :: m[i] == ']' <==> i == |inner| + 1)
  {
    var m := "[" + inner + "]" + port;
    forall i | 0 <= i < |m|
      ensures (m[i] == '[' <==> i == 0) && (m[i] == ']' <==> i == |inner| + 1)
    {
      if 0 < i <= |inner| {
        assert m[i] == inner[i - 1] && inner[i - 1] in inner;
      } else if i > |inner| + 1 {
        assert m[i] == port[i - |inner| - 2] && port[i - |inner| - 2] in port;
      }
    }
  }

  /** No term of digest-pinned images stands in the token: a reference has a colon, and a host counts
      as one only with a dot or a colon. */
  lemma {:induction false} PinnedTermsStandOutside(images: seq<string>, terms: seq<string>)
    requires TermsFor(terms, images) && forall image | image in images :: Pinned(image)
    ensures OutsideToken(terms)
  {
    hide TOKEN;
    InBag(terms, TermsOf(images));
    forall k | 0 <= k < |terms|
      ensures terms[k] != "" && !Occurs(TOKEN, terms[k])
    {
      assert terms[k] in TermsOf(images);
      TermOfImage(images, terms[k]);
      var image :| image in images && (terms[k] == image || terms[k] == RegistryHost(image));
      DotOrColon(image, terms[k]);
    }
  }

  lemma {:induction false} DotOrColon(image: string, t: string)
    requires Pinned(image) && t != "" && (t == image || t == RegistryHost(image))
    ensures !Occurs(TOKEN, t)
  {
    TokenChars();
    var repo, digest :| PinnedAs(image, repo, digest);
    if t == image {
      assert image[|repo| + 7] == ':';
      LacksChar(TOKEN, t, |repo| + 7);
    } else {
      var c :| c in t && c in {'.', ':'};
      var k :| 0 <= k < |t| && t[k] == c;
      LacksChar(TOKEN, t, k);
    }
  }

  /** A reference the code accepts and cannot keep hidden: its host starts as the token ends. */
  lemma {:induction false} ABracketDefeatsRedaction(digest: string, terms: seq<string>)
    requires |digest| == 64 && forall c | c in digest :: LowerHex(c)
    requires Longest(terms) && TermsFor(terms, ["].x/y@sha256:" + digest])
    ensures Pinned("].x/y@sha256:" + digest)
    ensures "" !in terms && exists s, k :: 0 <= k < |terms| && Occurs(RedactWith(terms, s), terms[k])
  {
    TheBracketImage(digest);
    EndsAsTheTokenDoes();
    HostDefeats("].x/y@sha256:" + digest, "].x", 0, 2, terms);
  }

  lemma {:induction false} TheBracketImage(digest: string)
    requires |digest| == 64 && forall c | c in digest :: LowerHex(c)
    ensures Pinned("].x/y@sha256:" + digest) && RegistryHost("].x/y@sha256:" + digest) == "].x"
  {
    assert PinnedAs("].x/y@sha256:" + digest, "].x/y", digest) by {
      assert "].x/y" + "@sha256:" + digest == "].x/y@sha256:" + digest;
    }
    hide Find, RegistryHost;
    HostUpToSlash("].x", "y@sha256:" + digest, 1);
    assert "].x" + ("/" + ("y@sha256:" + digest)) == "].x/y@sha256:" + digest;
  }

  lemma {:induction false} HostDefeats(image: string, host: string, a: nat, b: nat, terms: seq<string>)
    requires Longest(terms) && TermsFor(terms, [image])
    requires image != "" && host != "" && RegistryHost(image) == host && Completes(TOKEN, host, host, a, b)
    ensures "" !in terms && exists s, k :: 0 <= k < |terms| && Occurs(RedactWith(terms, s), terms[k])
  {
    assert Creates(TOKEN, host, host);
    hide TOKEN, Completes, Creates, RedactWith, RegistryHost, TermsOf;
    OneImageIff(image, terms);
  }

  /** The host of a reference is what stands before its first slash, if that has a dot or a colon. */
  lemma {:induction false} RegistryHostIff(ref: string, host: string)
    requires host != ""
    ensures RegistryHost(ref) == host <==>
            '/' !in host && host + "/" <= ref && exists k :: 0 <= k < |host| && host[k] in {'.', ':'}
  {
    FindIsFirst(ref, '/');
    if '/' !in host && host + "/" <= ref {
      assert ref[..|host|] == host && ref[|host|] == '/';
      FindIs(ref, '/', |host|);
    }
    if c :| c in host && c in {'.', ':'} {
      var k :| 0 <= k < |host| && host[k] == c;
    }
    hide Find;
    assert forall k | 0 <= k < |host| :: host[k] in host;
  }

  lemma {:induction false} HostUpToSlash(host: string, rest: string, k: nat)
    requires '/' !in host && k < |host| && host[k] in {'.', ':'}
    ensures RegistryHost(host + ("/" + rest)) == host
  {
    var ref := host + ("/" + rest);
    assert ref[..|host|] == host && ref[|host|] == '/';
    FindIs(ref, '/', |host|);
    assert host[k] in host;
  }

  lemma {:induction false} EndsAsTheTokenDoes()
    ensures Completes(TOKEN, "].x", "].x", 0, 2)
  {
    var m := "].x";
    var after := Around(m, 0, 2, TOKEN);
    assert m[..0] == "" && m[1..] == ".x";
    assert after[15..18] == m;
    assert OccursAt(after, m, 15);
    assert Around(m, 0, 2, m)[0..3] == m;
    IndexIs(Around(m, 0, 2, m), m, 0);
  }
}
