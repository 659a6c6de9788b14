/** sweep_plan_test.go:18-88: splitting the model catalog into batches for a live sweep. */
module SweepPlan {
  import opened Prelude

  const MAX_SWEEP_BATCH := 154

  datatype Batch = Batch(index: int, models: seq<string>)

  datatype PlanError = BatchTooSmall | BatchTooBig | UnknownModel

  predicate Known(typeOf: string -> Option<string>, m: string)
  {
    typeOf(m).Some?
  }

  predicate Gateway(typeOf: string -> Option<string>, m: string)
  {
    typeOf(m) == Some("ugw") || typeOf(m) == Some("uxg")
  }

  function Gateways(typeOf: string -> Option<string>, s: seq<string>): nat
  {
    if s == [] then 0 else (if Gateway(typeOf, s[0]) then 1 else 0) + Gateways(typeOf, s[1..])
  }

  /** ceil(n / max). */
  function Ceil(n: nat, max: nat): nat
    requires max > 0
  {
    (n + max - 1) / max
  }

  function BatchCount(gateways: nat, n: nat, max: nat): nat
    requires max > 0
  {
    if gateways > Ceil(n, max) then gateways else Ceil(n, max)
  }

  lemma {:induction false} CeilBounds(n: nat, max: nat, k: nat)
    requires max > 0
    ensures n <= Ceil(n, max) * max
    ensures k < Ceil(n, max) ==> k * max < n
  {
    var q := Ceil(n, max);
    assert n + max - 1 == q * max + (n + max - 1) % max;
    if k < q {
      ProductGrows(k + 1, q, max);
      assert (k + 1) * max == k * max + max;
    }
  }

  lemma {:induction false} ProductGrows(a: nat, b: nat, m: nat)
    requires a <= b
    ensures a * m <= b * m
  {
  }

  // ---------------------------------------------------------------------------------------------
  // What every plan within the limits costs
  // ---------------------------------------------------------------------------------------------

  /** Every model once, no batch over size, at most one gateway in each. */
  ghost predicate WithinLimits(typeOf: string -> Option<string>, models: seq<string>, max: nat,
                               batches: seq<seq<string>>)
  {
    && multiset(Flatten(batches)) == multiset(models)
    && forall i | 0 <= i < |batches| :: |batches[i]| <= max && Gateways(typeOf, batches[i]) <= 1
  }

  lemma {:induction false} GatewaysAppend(typeOf: string -> Option<string>, a: seq<string>, b: seq<string>)
    ensures Gateways(typeOf, a + b) == Gateways(typeOf, a) + Gateways(typeOf, b)
  {
    if a == [] {
      assert a + b == b;
    } else {
      GatewaysAppend(typeOf, a[1..], b);
      HeadAndTail(a, b);
    }
  }

  lemma {:induction false} GatewaysOfPermutation(typeOf: string -> Option<string>, s: seq<string>, t: seq<string>)
    requires multiset(s) == multiset(t)
    ensures Gateways(typeOf, s) == Gateways(typeOf, t)
    decreases |s|
  {
    assert |s| == |multiset(s)| == |t|;
    if s != [] {
      assert s[0] in multiset(t);
      var k :| 0 <= k < |t| && t[k] == s[0];
      DropTheSame(s, t, k);
      GatewaysOfPermutation(typeOf, s[1..], t[..k] + t[k + 1..]);
      assert t == t[..k] + ([t[k]] + t[k + 1..]);
      GatewaysAppend(typeOf, t[..k], [t[k]] + t[k + 1..]);
      GatewaysAppend(typeOf, t[..k], t[k + 1..]);
      assert ([t[k]] + t[k + 1..])[1..] == t[k + 1..];
    }
  }

  lemma {:induction false} BatchesBoundTheirTotal<T>(max: nat, batches: seq<seq<T>>)
    requires forall i | 0 <= i < |batches| :: |batches[i]| <= max
    ensures |Flatten(batches)| <= |batches| * max
  {
    if batches != [] {
      BatchesBoundTheirTotal(max, batches[1..]);
      assert |batches| * max == max + |batches[1..]| * max;
    }
  }

  lemma {:induction false} BatchesBoundTheirGateways(typeOf: string -> Option<string>, batches: seq<seq<string>>)
    requires forall i | 0 <= i < |batches| :: Gateways(typeOf, batches[i]) <= 1
    ensures Gateways(typeOf, Flatten(batches)) <= |batches|
  {
    if batches != [] {
      BatchesBoundTheirGateways(typeOf, batches[1..]);
      GatewaysAppend(typeOf, batches[0], Flatten(batches[1..]));
    }
  }

  /** No plan within the limits needs fewer boots than planSweep uses. */
  lemma {:induction false} BatchCountIsMinimal(typeOf: string -> Option<string>, models: seq<string>, max: nat,
                                               batches: seq<seq<string>>)
    requires max > 0 && WithinLimits(typeOf, models, max, batches)
    ensures |batches| >= BatchCount(Gateways(typeOf, models), |models|, max)
  {
    BatchesBoundTheirTotal(max, batches);
    BatchesBoundTheirGateways(typeOf, batches);
    GatewaysOfPermutation(typeOf, Flatten(batches), models);
    assert |models| == |multiset(models)| == |Flatten(batches)|;
    CeilBounds(|models|, max, |batches|);
  }

  // ---------------------------------------------------------------------------------------------
  // planSweep
  // ---------------------------------------------------------------------------------------------

  /** The two pools, in input order; None when a model is unknown. */
  method Split(models: seq<string>, typeOf: string -> Option<string>)
    returns (pools: Option<(seq<string>, seq<string>)>)
    ensures pools.Some? <==> forall m | m in models :: Known(typeOf, m)
    ensures pools.Some? ==>
              && multiset(pools.value.0) + multiset(pools.value.1) == multiset(models)
              && (forall i | 0 <= i < |pools.value.0| :: Gateway(typeOf, pools.value.0[i]))
              && (forall i | 0 <= i < |pools.value.1| :: !Gateway(typeOf, pools.value.1[i]))
  {
    var gateways, others: seq<string> := [], [];
    for i := 0 to |models|
      invariant forall k | 0 <= k < i :: Known(typeOf, models[k])
      invariant multiset(gateways) + multiset(others) == multiset(models[..i])
      invariant forall k | 0 <= k < |gateways| :: Gateway(typeOf, gateways[k])
      invariant forall k | 0 <= k < |others| :: !Gateway(typeOf, others[k])
    {
      var m := models[i];
      AddToEither(gateways, others, models, i);
      var t := typeOf(m);
      if t.None? {
        assert !Known(typeOf, m);
        return None;
      }
      if t.value == "ugw" || t.value == "uxg" {
        gateways := gateways + [m];
      } else {
        others := others + [m];
      }
    }
    assert models[..|models|] == models;
    return Some((gateways, others));
  }

  lemma {:induction false} AddToEither<T>(a: seq<T>, b: seq<T>, all: seq<T>, i: nat)
    requires i < |all| && multiset(a) + multiset(b) == multiset(all[..i])
    ensures multiset(a + [all[i]]) + multiset(b) == multiset(all[..i + 1])
    ensures multiset(a) + multiset(b + [all[i]]) == multiset(all[..i + 1])
  {
    assert all[..i + 1] == all[..i] + [all[i]];
  }

  /** The pools and the batch size; everything about the plan follows from these. */
  datatype Layout = Layout(gateways: seq<string>, others: seq<string>, max: nat)
  {
    /** What a batch starts with. */
    function Seed(i: nat): (s: seq<string>)
      ensures |s| <= 1
    {
      if i < |gateways| then [gateways[i]] else []
    }

    /** How many gateways the first i batches hold. */
    function Led(i: nat): nat
    {
      if i < |gateways| then i else |gateways|
    }

    /** How many of the others the first i batches hold: all their free slots, as far as they last. */
    function Placed(i: nat): (n: nat)
      requires max > 0
      ensures n <= |others|
    {
      var free := i * max - Led(i);
      LedFits(i);
      if free < |others| then free else |others|
    }

    lemma {:induction false} LedFits(i: nat)
      requires max > 0
      ensures Led(i) <= i * max
      ensures (i + 1) * max - Led(i + 1) == i * max - Led(i) + max - |Seed(i)|
    {
      ProductGrows(1, max, i);
      assert (i + 1) * max == i * max + max;
    }

    function Filled(i: nat): (b: seq<string>)
      requires max > 0
      ensures |b| <= max
    {
      LedFits(i);
      Seed(i) + others[Placed(i)..Placed(i + 1)]
    }

    function FilledUpTo(n: nat): (bs: seq<seq<string>>)
      requires max > 0
      ensures |bs| == n && forall i: nat | i < n :: bs[i] == Filled(i)
    {
      seq(n, i requires 0 <= i < n => Filled(i))
    }

    lemma {:induction false} PrefixesGrow(i: nat)
      requires max > 0
      ensures Placed(i) <= Placed(i + 1) && Led(i) <= Led(i + 1) <= |gateways|
      ensures FilledUpTo(i + 1) == FilledUpTo(i) + [Filled(i)]
      ensures Filled(i) == Seed(i) + others[Placed(i)..Placed(i + 1)]
      ensures gateways[..Led(i + 1)] == gateways[..Led(i)] + Seed(i)
      ensures others[..Placed(i + 1)] == others[..Placed(i)] + others[Placed(i)..Placed(i + 1)]
    {
      LedFits(i);
    }

    lemma {:induction false} NothingFilled()
      requires max > 0
      ensures multiset(Flatten(FilledUpTo(0))) == multiset(gateways[..Led(0)]) + multiset(others[..Placed(0)])
    {
    }

    /** The first n batches hold the first gateways and the first of the others. */
    lemma {:induction false} FilledHoldsPrefixes(n: nat)
      requires max > 0
      ensures multiset(Flatten(FilledUpTo(n))) == multiset(gateways[..Led(n)]) + multiset(others[..Placed(n)])
    {
      hide Layout.Led, Layout.Placed, Layout.Seed, Layout.Filled, Layout.FilledUpTo, Flatten;
      if n == 0 {
        NothingFilled();
      } else {
        FilledHoldsPrefixes(n - 1);
        PrefixesGrow(n - 1);
        FlattenSnoc(FilledUpTo(n - 1), Filled(n - 1));
        BagOfThree(Flatten(FilledUpTo(n - 1)), gateways[..Led(n - 1)], Seed(n - 1), others[..Placed(n - 1)],
                   others[Placed(n - 1)..Placed(n)], Filled(n - 1), gateways[..Led(n)], others[..Placed(n)]);
      }
    }

    /** With the batch count planSweep computes, the free slots suffice and no batch stays empty. */
    lemma {:induction false} CountSuffices(count: nat)
      requires max > 0 && count == BatchCount(|gateways|, |gateways| + |others|, max)
      ensures Led(count) == |gateways| && Placed(count) == |others|
      ensures forall i: nat | i < count :: Filled(i) != []
    {
      var n := |gateways| + |others|;
      CeilBounds(n, max, 0);
      ProductGrows(Ceil(n, max), count, max);
      forall i: nat | i < count
        ensures Filled(i) != []
      {
        if i >= |gateways| {
          CeilBounds(n, max, i);
          LedFits(i);
        }
      }
    }
  }

  lemma {:induction false} BagOfThree<T>(whole: seq<T>, g: seq<T>, s: seq<T>, o: seq<T>, t: seq<T>, both: seq<T>,
                                         gs: seq<T>, ot: seq<T>)
    requires multiset(whole) == multiset(g) + multiset(o) && both == s + t && gs == g + s && ot == o + t
    ensures multiset(whole + both) == multiset(gs) + multiset(ot)
  {
  }

  lemma {:induction false} NoGateways(typeOf: string -> Option<string>, s: seq<string>)
    requires forall i | 0 <= i < |s| :: !Gateway(typeOf, s[i])
    ensures Gateways(typeOf, s) == 0
  {
    if s != [] {
      NoGateways(typeOf, s[1..]);
    }
  }

  lemma {:induction false} AllGateways(typeOf: string -> Option<string>, s: seq<string>)
    requires forall i | 0 <= i < |s| :: Gateway(typeOf, s[i])
    ensures Gateways(typeOf, s) == |s|
  {
    if s != [] {
      AllGateways(typeOf, s[1..]);
    }
  }

  lemma {:induction false} Lengthen<T>(a: seq<T>, s: seq<T>, first: nat, end: nat)
    requires first <= end < |s|
    ensures a + s[first..end] + [s[end]] == a + s[first..end + 1]
  {
  }

  /** The two fill loops of planSweep. */
  method Fill(l: Layout, count: nat) returns (batches: seq<seq<string>>)
    requires l.max > 0
    ensures batches == l.FilledUpTo(count)
  {
    batches := seq(count, i requires 0 <= i < count => l.Seed(i));
    var next := 0;
    assert l.Placed(0) == 0;
    for i := 0 to count
      invariant |batches| == count && next == l.Placed(i)
      invariant forall k: nat | k < i :: batches[k] == l.Filled(k)
      invariant forall k: nat | i <= k < count :: batches[k] == l.Seed(k)
    {
      l.LedFits(i);
      ghost var start := next;
      while |batches[i]| < l.max && next < |l.others|
        invariant |batches| == count && start <= next <= |l.others|
        invariant batches[i] == l.Seed(i) + l.others[start..next] && |batches[i]| <= l.max
        invariant forall k: nat | k < i :: batches[k] == l.Filled(k)
        invariant forall k: nat | i < k < count :: batches[k] == l.Seed(k)
        decreases |l.others| - next
      {
        Lengthen(l.Seed(i), l.others, start, next);
        batches := batches[i := batches[i] + [l.others[next]]];
        next := next + 1;
      }
    }
  }

  /** Within the limits, indexed in order, without an empty batch, and as few batches as can be. */
  ghost predicate Balanced(typeOf: string -> Option<string>, models: seq<string>, max: nat, batches: seq<seq<string>>)
  {
    && max > 0
    && WithinLimits(typeOf, models, max, batches)
    && (forall i | 0 <= i < |batches| :: batches[i] != [])
    && |batches| == BatchCount(Gateways(typeOf, models), |models|, max)
  }

  lemma {:induction false} PoolsCount(typeOf: string -> Option<string>, models: seq<string>, l: Layout)
    requires multiset(l.gateways) + multiset(l.others) == multiset(models)
    requires forall i | 0 <= i < |l.gateways| :: Gateway(typeOf, l.gateways[i])
    requires forall i | 0 <= i < |l.others| :: !Gateway(typeOf, l.others[i])
    ensures |models| == |l.gateways| + |l.others|
    ensures Gateways(typeOf, models) == |l.gateways|
  {
    var all := l.gateways + l.others;
    assert multiset(all) == multiset(models);
    assert |all| == |multiset(all)| == |multiset(models)| == |models|;
    GatewaysOfPermutation(typeOf, all, models);
    GatewaysAppend(typeOf, l.gateways, l.others);
    AllGateways(typeOf, l.gateways);
    NoGateways(typeOf, l.others);
  }

  lemma {:induction false} OneGatewayEach(typeOf: string -> Option<string>, l: Layout, i: nat)
    requires l.max > 0
    requires forall i | 0 <= i < |l.others| :: !Gateway(typeOf, l.others[i])
    ensures Gateways(typeOf, l.Filled(i)) <= 1
  {
    l.LedFits(i);
    var rest := l.others[l.Placed(i)..l.Placed(i + 1)];
    GatewaysAppend(typeOf, l.Seed(i), rest);
    NoGateways(typeOf, rest);
    assert |l.Seed(i)| == 1 ==> l.Seed(i)[1..] == [];
  }

  lemma {:induction false} FilledIsBalanced(typeOf: string -> Option<string>, models: seq<string>, l: Layout,
                                            count: nat)
    requires l.max > 0 && count == BatchCount(|l.gateways|, |models|, l.max)
    requires multiset(l.gateways) + multiset(l.others) == multiset(models)
    requires forall i | 0 <= i < |l.gateways| :: Gateway(typeOf, l.gateways[i])
    requires forall i | 0 <= i < |l.others| :: !Gateway(typeOf, l.others[i])
    ensures Balanced(typeOf, models, l.max, l.FilledUpTo(count))
  {
    PoolsCount(typeOf, models, l);
    l.CountSuffices(count);
    l.FilledHoldsPrefixes(count);
    assert l.gateways[..|l.gateways|] == l.gateways && l.others[..|l.others|] == l.others;
    forall i: nat | i < count
      ensures Gateways(typeOf, l.FilledUpTo(count)[i]) <= 1 && l.FilledUpTo(count)[i] != []
    {
      OneGatewayEach(typeOf, l, i);
    }
  }

  function ModelsOf(plan: seq<Batch>): (bs: seq<seq<string>>)
    ensures |bs| == |plan| && forall i | 0 <= i < |plan| :: bs[i] == plan[i].models
  {
    seq(|plan|, i requires 0 <= i < |plan| => plan[i].models)
  }

  method PlanSweep(models: seq<string>, typeOf: string -> Option<string>, maxPerBatch: int)
    returns (plan: Result<seq<Batch>, PlanError>)
    ensures plan == Err(BatchTooSmall) <==> maxPerBatch < 1
    ensures plan == Err(BatchTooBig) <==> maxPerBatch > MAX_SWEEP_BATCH
    ensures plan == Err(UnknownModel) <==>
            1 <= maxPerBatch <= MAX_SWEEP_BATCH && exists m :: m in models && !Known(typeOf, m)
    ensures plan.Ok? ==>
              && Balanced(typeOf, models, maxPerBatch, ModelsOf(plan.value))
              && forall i | 0 <= i < |plan.value| :: plan.value[i].index == i
  {
    if maxPerBatch < 1 {
      return Err(BatchTooSmall);
    }
    if maxPerBatch > MAX_SWEEP_BATCH {
      return Err(BatchTooBig);
    }
    var pools := Split(models, typeOf);
    if pools.None? {
      return Err(UnknownModel);
    }
    var l := Layout(pools.value.0, pools.value.1, maxPerBatch);
    var count := (|models| + maxPerBatch - 1) / maxPerBatch;
    if |l.gateways| > count {
      count := |l.gateways|;
    }
    var filled := Fill(l, count);
    FilledIsBalanced(typeOf, models, l, count);
    var batches := seq(count, i requires 0 <= i < count => Batch(i, filled[i]));
    assert ModelsOf(batches) == filled;
    return Ok(batches);
  }
}
