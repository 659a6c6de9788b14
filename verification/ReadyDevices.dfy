/** internal/herder/run.go:517-534: what the ready event says about the fleet. */
module ReadyDevices {
  import opened Prelude
  import opened Protocol
  import opened Planning
  import opened Readiness
  import opened RunModel
  import Sorting

  function Tag(u: LiveUnit): (rs: seq<ReadyDevice>)
    ensures |rs| == |u.unit.devices|
  {
    seq(|u.unit.devices|, i requires 0 <= i < |u.unit.devices| => ReadyDevice(u.unit.devices[i], u.ip))
  }

  /** The unsorted entries: every device of every live unit under its unit's address. */
  function Tagged(units: seq<LiveUnit>): seq<ReadyDevice>
  {
    if units == [] then [] else Tag(units[0]) + Tagged(units[1..])
  }

  function UnitsOf(units: seq<LiveUnit>): (us: seq<Unit>)
    ensures |us| == |units|
  {
    seq(|units|, k requires 0 <= k < |units| => units[k].unit)
  }

  function Map<A, B>(f: A -> B, s: seq<A>): (t: seq<B>)
    ensures |t| == |s| && forall i | 0 <= i < |s| :: t[i] == f(s[i])
  {
    seq(|s|, i requires 0 <= i < |s| => f(s[i]))
  }

  function IdentityOf(r: ReadyDevice): Identity { r.identity }

  function ReadyIndex(r: ReadyDevice): int { r.identity.index }

  lemma {:induction false} MapAppend<A, B>(f: A -> B, s: seq<A>, t: seq<A>)
    ensures Map(f, s + t) == Map(f, s) + Map(f, t)
  {
  }

  lemma {:induction false} MapKeepsPermutations<A, B>(f: A -> B, s: seq<A>, t: seq<A>)
    requires multiset(s) == multiset(t)
    ensures multiset(Map(f, s)) == multiset(Map(f, t))
    decreases |s|
  {
    assert |s| == |multiset(s)| == |t|;
    if s != [] {
      assert s[0] in multiset(t);
      var k :| 0 <= k < |t| && t[k] == s[0];
      var rest := t[..k] + t[k + 1..];
      DropTheSame(s, t, k);
      MapKeepsPermutations(f, s[1..], rest);
      assert s[1..] == s[..0] + s[1..];
      MapWithout(f, s, 0, s[1..]);
      MapWithout(f, t, k, rest);
    }
  }

  lemma {:induction false} MapWithout<A, B>(f: A -> B, s: seq<A>, k: nat, rest: seq<A>)
    requires k < |s| && rest == s[..k] + s[k + 1..]
    ensures multiset(Map(f, s)) == multiset(Map(f, rest)) + multiset{f(s[k])}
  {
    var t := Map(f, s);
    MultisetWithout(t, k);
    assert t[..k] + t[k + 1..] == Map(f, rest);
  }

  lemma {:induction false} TaggedNamesTheDevices(units: seq<LiveUnit>)
    ensures Map(IdentityOf, Tagged(units)) == DevicesOf(UnitsOf(units))
  {
    if units != [] {
      TaggedNamesTheDevices(units[1..]);
      MapAppend(IdentityOf, Tag(units[0]), Tagged(units[1..]));
      assert Map(IdentityOf, Tag(units[0])) == units[0].unit.devices;
      assert UnitsOf(units)[1..] == UnitsOf(units[1..]);
    }
  }

  lemma {:induction false} TaggedFrom(units: seq<LiveUnit>, r: ReadyDevice) returns (k: nat)
    requires r in Tagged(units)
    ensures k < |units| && r.identity in units[k].unit.devices && r.ip == units[k].ip
  {
    if r in Tag(units[0]) {
      k := 0;
    } else {
      k := TaggedFrom(units[1..], r);
      k := k + 1;
    }
  }

  lemma {:induction false} MemberOfUnit(units: seq<Unit>, k: nat, x: Identity)
    requires k < |units| && x in units[k].devices
    ensures x in DevicesOf(units)
  {
    if k > 0 {
      MemberOfUnit(units[1..], k - 1, x);
    }
  }

  /** A device without duplicates among the planned ones rides in one unit only. */
  lemma {:induction false} OneUnitPerDevice(units: seq<Unit>, j: nat, k: nat, x: Identity)
    requires j < k < |units| && x in units[j].devices && x in units[k].devices
    ensures multiset(DevicesOf(units))[x] >= 2
  {
    DevicesOfSplit(units, j);
    var before, here, after := DevicesOf(units[..j]), units[j].devices, DevicesOf(units[j + 1..]);
    MemberOfUnit(units[j + 1..], k - j - 1, x);
    assert multiset(here)[x] >= 1 && multiset(after)[x] >= 1;
    assert multiset(before + here + after) == multiset(before) + multiset(here) + multiset(after);
  }

  lemma {:induction false} OccursOnce(ids: seq<Identity>, i: nat)
    requires i < |ids| && IndexedByPosition(ids)
    ensures multiset(ids)[ids[i]] == 1
  {
    assert ids == ids[..i] + [ids[i]] + ids[i + 1..];
    assert ids[i] !in ids[..i] && ids[i] !in ids[i + 1..];
  }

  /** The ready event is faithful to the allocation: one entry per request index, in request order,
      under the address of the one unit that holds the device, which is attached as planned. */
  ghost predicate Faithful(ids: seq<Identity>, plan: Plan, b: Backend, units: seq<LiveUnit>, ready: seq<ReadyDevice>)
  {
    && Map(IdentityOf, ready) == ids
    && forall i | 0 <= i < |ready| :: Held(plan, b, units, ready[i])
  }

  ghost predicate Held(plan: Plan, b: Backend, units: seq<LiveUnit>, r: ReadyDevice)
  {
    exists k: nat :: k < |units| && Holds(plan, b, units, k, r)
  }

  /** Live unit k, and no other, carries the entry's device, and it passed the topology check. */
  ghost predicate Holds(plan: Plan, b: Backend, units: seq<LiveUnit>, k: nat, r: ReadyDevice)
    requires k < |units|
  {
    && r.identity in units[k].unit.devices
    && (forall j: nat | j < |units| && r.identity in units[j].unit.devices :: j == k)
    && b.inspect(k).Seen? && Attached(plan, units[k].unit, b.inspect(k).state, r.ip)
  }

  lemma {:induction false} SortedTagsAreFaithful(ids: seq<Identity>, plan: Plan, b: Backend, units: seq<LiveUnit>,
                                                 ready: seq<ReadyDevice>)
    requires IndexedByPosition(ids) && Covers(plan.units, ids)
    requires UnitsOf(units) == plan.units && forall k: nat | k < |units| :: Inspected(plan, b, units, k)
    requires Sorting.SortedBy(ReadyIndex, ready) && multiset(ready) == multiset(Tagged(units))
    ensures Faithful(ids, plan, b, units, ready)
  {
    TaggedNamesTheDevices(units);
    MapKeepsPermutations(IdentityOf, ready, Tagged(units));
    var named := Map(IdentityOf, ready);
    assert Sorting.SortedBy(IndexOf, named);
    Sorting.SortRestoresIndexOrder(IndexOf, named, ids, 0);
    forall i: nat | i < |ready|
      ensures Held(plan, b, units, ready[i])
    {
      EntryIsHeld(ids, plan, b, units, ready, i);
    }
  }

  lemma {:induction false} EntryIsHeld(ids: seq<Identity>, plan: Plan, b: Backend, units: seq<LiveUnit>,
                                       ready: seq<ReadyDevice>, i: nat)
    requires IndexedByPosition(ids) && Covers(plan.units, ids)
    requires UnitsOf(units) == plan.units && forall k: nat | k < |units| :: Inspected(plan, b, units, k)
    requires multiset(ready) == multiset(Tagged(units)) && Map(IdentityOf, ready) == ids
    requires i < |ready|
    ensures Held(plan, b, units, ready[i])
  {
    assert ready[i] in multiset(Tagged(units));
    var k := TaggedFrom(units, ready[i]);
    var x := ready[i].identity;
    assert x == ids[i];
    OccursOnce(ids, i);
    assert Inspected(plan, b, units, k);
    AttachmentAcceptedIff(plan, units[k].unit, b.inspect(k).state, ready[i].ip);
    forall j: nat | j < |units| && x in units[j].unit.devices
      ensures j == k
    {
      assert UnitsOf(units)[j] == units[j].unit && UnitsOf(units)[k] == units[k].unit;
      if j < k {
        OneUnitPerDevice(plan.units, j, k, x);
      } else if k < j {
        OneUnitPerDevice(plan.units, k, j, x);
      }
    }
    assert Holds(plan, b, units, k, ready[i]);
  }

  // ---------------------------------------------------------------------------------------------
  // A backend that returns neither a handle nor an error
  // ---------------------------------------------------------------------------------------------

  ghost predicate AllLaunched(launch: nat -> Launched, n: nat)
  {
    forall i: nat | i < n :: launch(i).inst.Some?
  }

  lemma {:induction false} LiveOfCounts(plan: Plan, launch: nat -> Launched, n: nat)
    requires n <= |plan.units| && forall i | 0 <= i < |plan.units| :: plan.units[i].devices != []
    ensures AllLaunched(launch, n) ==> UnitsOf(LiveOf(plan, launch, n)) == plan.units[..n]
    ensures !AllLaunched(launch, n) ==> |DevicesOf(UnitsOf(LiveOf(plan, launch, n)))| < |DevicesOf(plan.units[..n])|
  {
    if n > 0 {
      LiveOfCounts(plan, launch, n - 1);
      assert plan.units[..n] == plan.units[..n - 1] + [plan.units[n - 1]];
      DevicesOfSnoc(plan.units[..n - 1], plan.units[n - 1]);
      var rest := LiveOf(plan, launch, n - 1);
      if launch(n - 1).inst.Some? {
        assert UnitsOf(LiveOf(plan, launch, n)) == UnitsOf(rest) + [plan.units[n - 1]];
        DevicesOfSnoc(UnitsOf(rest), plan.units[n - 1]);
      } else if AllLaunched(launch, n - 1) {
        assert !AllLaunched(launch, n);
      }
    }
  }

  /** start has no error for a Launch that yields nothing at all, so a ready fleet covers the whole
      request exactly when every Launch yielded a handle. */
  lemma {:induction false} ReadyIsCompleteIff(ids: seq<Identity>, plan: Plan, b: Backend, units: seq<LiveUnit>,
                                              ready: seq<ReadyDevice>)
    requires IndexedByPosition(ids) && Covers(plan.units, ids)
    requires forall i | 0 <= i < |plan.units| :: plan.units[i].devices != []
    requires SameContainers(units, LiveOf(plan, b.launch, |plan.units|))
    requires forall k: nat | k < |units| :: Inspected(plan, b, units, k)
    requires Sorting.SortedBy(ReadyIndex, ready) && multiset(ready) == multiset(Tagged(units))
    ensures Faithful(ids, plan, b, units, ready) <==> AllLaunched(b.launch, |plan.units|)
  {
    var live := LiveOf(plan, b.launch, |plan.units|);
    assert UnitsOf(units) == UnitsOf(live);
    assert plan.units[..|plan.units|] == plan.units;
    LiveOfCounts(plan, b.launch, |plan.units|);
    if AllLaunched(b.launch, |plan.units|) {
      SortedTagsAreFaithful(ids, plan, b, units, ready);
    } else {
      TaggedNamesTheDevices(units);
      assert |ready| == |multiset(ready)| == |Tagged(units)|;
      assert |ids| == |multiset(ids)| == |DevicesOf(plan.units)|;
    }
  }

  /** readyDevices: tag every device with its unit's address, then sort by request index. */
  method Collect(units: seq<LiveUnit>) returns (out: seq<ReadyDevice>)
    ensures Sorting.SortedBy(ReadyIndex, out) && multiset(out) == multiset(Tagged(units))
  {
    var flat: seq<ReadyDevice> := [];
    for k := 0 to |units|
      invariant flat + Tagged(units[k..]) == Tagged(units)
    {
      var here: seq<ReadyDevice> := [];
      for i := 0 to |units[k].unit.devices|
        invariant here == Tag(units[k])[..i]
      {
        here := here + [ReadyDevice(units[k].unit.devices[i], units[k].ip)];
      }
      assert units[k..][1..] == units[k + 1..];
      assert flat + (Tag(units[k]) + Tagged(units[k + 1..])) == flat + Tag(units[k]) + Tagged(units[k + 1..]);
      flat := flat + here;
    }
    var a := new ReadyDevice[|flat|](i requires 0 <= i < |flat| => flat[i]);
    assert a[..] == flat;
    Sorting.InsertionSort(a, ReadyIndex);
    out := a[..];
  }
}
