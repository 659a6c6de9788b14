/** Types and byte-level helpers shared by the models. */
module Prelude {

  datatype Option<+T> = None | Some(value: T)

  datatype Result<+T, +E> = Ok(value: T) | Err(error: E)

  type byte = b: int | 0 <= b < 256

  type bytes = seq<byte>

  /** binary.BigEndian.PutUint16(uint16(n)): the conversion drops the high bits. */
  function U16(n: nat): (b: bytes)
    ensures |b| == 2
  {
    [n / 0x100 % 0x100, n % 0x100]
  }

  function FromU16(b: bytes): nat
    requires |b| == 2
  {
    b[0] as int * 0x100 + b[1] as int
  }

  /** binary.BigEndian.PutUint32(uint32(n)). */
  function U32(n: nat): (b: bytes)
    ensures |b| == 4
  {
    U16(n / 0x1_0000) + U16(n)
  }

  function FromU32(b: bytes): nat
    requires |b| == 4
  {
    FromU16(b[..2]) * 0x1_0000 + FromU16(b[2..])
  }

  lemma {:induction false} U16Truncates(n: nat)
    ensures FromU16(U16(n)) == n % 0x1_0000
  {
    var high := n / 0x100;
    assert n == high / 0x100 * 0x1_0000 + (high % 0x100 * 0x100 + n % 0x100);
  }

  lemma {:induction false} U32Truncates(n: nat)
    ensures FromU32(U32(n)) == n % 0x1_0000_0000
  {
    var high := n / 0x1_0000;
    U16Truncates(high);
    U16Truncates(n);
    assert U32(n)[..2] == U16(high) && U32(n)[2..] == U16(n);
    HalvesMakeAWord(n);
  }

  lemma {:induction false} HalvesMakeAWord(n: nat)
    ensures n / 0x1_0000 % 0x1_0000 * 0x1_0000 + n % 0x1_0000 == n % 0x1_0000_0000
  {
    var q, r := n / 0x1_0000_0000, n % 0x1_0000_0000;
    assert n / 0x1_0000 == q * 0x1_0000 + r / 0x1_0000;
  }

  /** Concatenation of a list of sequences. */
  function Flatten<T>(ss: seq<seq<T>>): seq<T>
  {
    if ss == [] then [] else ss[0] + Flatten(ss[1..])
  }

  lemma {:induction false} Associates<T>(a: seq<T>, b: seq<T>, c: seq<T>)
    ensures a + (b + c) == a + b + c
  {
  }

  lemma {:induction false} HeadAndTail<T>(a: seq<T>, b: seq<T>)
    requires a != []
    ensures (a + b)[0] == a[0] && (a + b)[1..] == a[1..] + b
  {
  }

  lemma {:induction false} SliceOfSlice<T>(s: seq<T>, lo: nat, hi: nat, p: nat, n: nat)
    requires lo + p + n <= hi <= |s|
    ensures s[lo..hi][p..p + n] == s[lo + p..lo + p + n]
  {
    var x, y := s[lo..hi][p..p + n], s[lo + p..lo + p + n];
    forall k | 0 <= k < n
      ensures x[k] == y[k]
    {
      assert s[lo..hi][p + k] == s[lo + (p + k)];
    }
  }

  lemma {:induction false} SliceAcross<T>(front: seq<T>, mid: seq<T>, back: seq<T>, a: nat, b: nat)
    requires a <= |front| && b <= |back|
    ensures (front + mid + back)[|front| - a..|front| + |mid| + b] == front[|front| - a..] + mid + back[..b]
  {
  }

  /** The first element p does not hold of, or the length. */
  function FirstNot<T>(p: T -> bool, xs: seq<T>): (k: nat)
    ensures k <= |xs|
    ensures forall j | 0 <= j < k :: p(xs[j])
    ensures k < |xs| ==> !p(xs[k])
  {
    if xs == [] then 0
    else
      var init := xs[..|xs| - 1];
      var k := FirstNot(p, init);
      if k < |init| || !p(xs[|init|]) then k else |xs|
  }

  lemma {:induction false} FlattenAppend<T>(a: seq<seq<T>>, b: seq<seq<T>>)
    ensures Flatten(a + b) == Flatten(a) + Flatten(b)
  {
    if a == [] {
      assert a + b == b;
    } else {
      FlattenAppend(a[1..], b);
      HeadAndTail(a, b);
      Associates(a[0], Flatten(a[1..]), Flatten(b));
    }
  }

  lemma {:induction false} FlattenSnoc<T>(a: seq<seq<T>>, s: seq<T>)
    ensures Flatten(a + [s]) == Flatten(a) + s
  {
    FlattenAppend(a, [s]);
    assert [s][1..] == [];
  }

  lemma {:induction false} Regroup<T>(p: seq<T>, q: seq<T>, r: seq<T>, u: seq<T>)
    ensures (p + q) + r + u == p + (q + r + u)
    ensures p + q + (r + u) == p + q + r + u
  {
  }

  function Without<T>(s: seq<T>, k: nat): seq<T>
    requires k < |s|
  {
    s[..k] + s[k + 1..]
  }

  /** What is left when one element is taken out, as a list and as a bag. */
  lemma {:induction false} WithoutKeeps<T>(s: seq<T>, k: nat)
    requires k < |s|
    ensures |Without(s, k)| == |s| - 1
    ensures multiset(Without(s, k)) + multiset{s[k]} == multiset(s)
    ensures forall x :: x in s <==> x == s[k] || x in Without(s, k)
  {
    MultisetWithout(s, k);
    assert s == s[..k] + [s[k]] + s[k + 1..];
  }

  /** Taking one element out of a list takes it out of the bag of its elements. */
  lemma {:induction false} MultisetWithout<T>(s: seq<T>, k: nat)
    requires k < |s|
    ensures multiset(s[..k] + s[k + 1..]) + multiset{s[k]} == multiset(s)
  {
    assert s == s[..k] + [s[k]] + s[k + 1..];
  }

  lemma {:induction false} DropTheSame<T>(s: seq<T>, t: seq<T>, k: nat)
    requires |s| > 0 && k < |t| && t[k] == s[0] && multiset(s) == multiset(t)
    ensures multiset(s[1..]) == multiset(t[..k] + t[k + 1..])
  {
    assert s == [s[0]] + s[1..];
    assert t == t[..k] + [t[k]] + t[k + 1..];
    assert multiset(s[1..]) == multiset(s) - multiset{s[0]};
  }
}
