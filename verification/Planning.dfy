/** internal/herder/plan.go: mapping identities to synthetic or opaque execution. */
module Planning {
  import opened Prelude
  import opened Protocol
  import Sorting

  datatype UnitKind = Synthetic | Opaque

  datatype Unit = Unit(kind: UnitKind, image: string, capAdd: seq<string>, devices: seq<Identity>)

  datatype Plan = Plan(runID: string, network: string, informURL: string, units: seq<Unit>)

  datatype ModelRuntime = ModelRuntime(image: string, capAdd: seq<string>)

  /** RuntimeConfig: the runner-local mapping from model to opaque runtime. */
  type RuntimeConfig = map<string, ModelRuntime>

  /** registry is the public synthetic registry, emu.Profile. */
  datatype PlanInput = PlanInput(runID: string, network: string, informURL: string, devices: seq<Identity>,
                                 runtime: RuntimeConfig, syntheticImage: string, registry: string -> bool)

  /** The MAC to assign to the unit's endpoint, "" for the synthetic batch. */
  function EndpointMAC(u: Unit): string
  {
    if u.kind != Opaque || |u.devices| != 1 then "" else u.devices[0].mac
  }

  function DevicesOf(units: seq<Unit>): seq<Identity>
  {
    if units == [] then [] else units[0].devices + DevicesOf(units[1..])
  }

  function Unmapped(devices: seq<Identity>, runtime: RuntimeConfig): seq<Identity>
  {
    if devices == [] then []
    else
      var rest, d := Unmapped(devices[..|devices| - 1], runtime), devices[|devices| - 1];
      if d.model in runtime then rest else rest + [d]
  }

  function Mapped(devices: seq<Identity>, runtime: RuntimeConfig): seq<Identity>
  {
    if devices == [] then []
    else
      var rest, d := Mapped(devices[..|devices| - 1], runtime), devices[|devices| - 1];
      if d.model in runtime then rest + [d] else rest
  }

  /** The topology the contract fixes: one unit per mapped device, one batch for all the others. */
  ghost predicate Topology(units: seq<Unit>, devices: seq<Identity>, runtime: RuntimeConfig, image: string)
  {
    && Covers(units, devices)
    && Shaped(units, runtime, image, Unmapped(devices, runtime))
  }

  /** Every device rides in exactly one place. */
  ghost predicate Covers(units: seq<Unit>, devices: seq<Identity>)
  {
    multiset(DevicesOf(units)) == multiset(devices)
  }

  ghost predicate Shaped(units: seq<Unit>, runtime: RuntimeConfig, image: string, batch: seq<Identity>)
  {
    && (forall i | 0 <= i < |units| :: UnitShaped(units[i], runtime, image, batch))
    && (forall i, j | 0 <= i < j < |units| :: units[i].kind == Opaque || units[j].kind == Opaque)
  }

  predicate UnitShaped(u: Unit, runtime: RuntimeConfig, image: string, batch: seq<Identity>)
  {
    if u.kind == Synthetic then u == Unit(Synthetic, image, [], batch) && batch != []
    else
      && |u.devices| == 1
      && u.devices[0].model in runtime
      && u.image == runtime[u.devices[0].model].image
      && u.capAdd == runtime[u.devices[0].model].capAdd
  }

  /** Units appear in the order of their first device. */
  ghost predicate InRequestOrder(units: seq<Unit>)
  {
    && (forall i | 0 <= i < |units| :: units[i].devices != [])
    && forall i, j | 0 <= i < j < |units| :: units[i].devices[0].index < units[j].devices[0].index
  }

  ghost predicate IndexedByPosition(devices: seq<Identity>)
  {
    forall i | 0 <= i < |devices| :: devices[i].index == i
  }

  lemma {:induction false} DevicesOfAppend(a: seq<Unit>, b: seq<Unit>)
    ensures DevicesOf(a + b) == DevicesOf(a) + DevicesOf(b)
  {
    if a == [] {
      assert a + b == b;
    } else {
      DevicesOfAppend(a[1..], b);
      HeadAndTail(a, b);
      Associates(a[0].devices, DevicesOf(a[1..]), DevicesOf(b));
    }
  }

  lemma {:induction false} DevicesOfSplit(units: seq<Unit>, k: nat)
    requires k < |units|
    ensures DevicesOf(units) == DevicesOf(units[..k]) + units[k].devices + DevicesOf(units[k + 1..])
  {
    var tail := units[k..];
    assert units == units[..k] + tail;
    DevicesOfAppend(units[..k], tail);
    assert tail[0] == units[k] && tail[1..] == units[k + 1..];
    assert DevicesOf(tail) == units[k].devices + DevicesOf(units[k + 1..]);
  }

  lemma {:induction false} DevicesOfSnoc(units: seq<Unit>, u: Unit)
    ensures DevicesOf(units + [u]) == DevicesOf(units) + u.devices
  {
    DevicesOfAppend(units, [u]);
    assert [u][1..] == [];
  }

  lemma {:induction false} FilterSnoc(devices: seq<Identity>, i: nat, runtime: RuntimeConfig)
    requires i < |devices|
    ensures devices[..i + 1] == devices[..i] + [devices[i]]
    ensures Unmapped(devices[..i + 1], runtime) ==
            Unmapped(devices[..i], runtime) + (if devices[i].model in runtime then [] else [devices[i]])
    ensures Mapped(devices[..i + 1], runtime) ==
            Mapped(devices[..i], runtime) + (if devices[i].model in runtime then [devices[i]] else [])
  {
    assert devices[..i + 1][..i] == devices[..i];
  }

  /** Filling the empty batch adds the batch to the plan and nothing else. */
  lemma {:induction false} FillBatch(units: seq<Unit>, k: nat, u: Unit)
    requires k < |units| && units[k].devices == []
    ensures multiset(DevicesOf(units[k := u])) == multiset(DevicesOf(units)) + multiset(u.devices)
  {
    DevicesOfSplit(units, k);
    DevicesOfSplit(units[k := u], k);
    assert units[k := u][..k] == units[..k] && units[k := u][k + 1..] == units[k + 1..];
    MultisetOfInsert(DevicesOf(units[..k]), u.devices, DevicesOf(units[k + 1..]));
  }

  lemma {:induction false} MultisetOfInsert<T>(a: seq<T>, x: seq<T>, b: seq<T>)
    ensures multiset(a + x + b) == multiset(a + [] + b) + multiset(x)
  {
    assert a + [] + b == a + b;
  }

  lemma {:induction false} FiltersPartition(devices: seq<Identity>, runtime: RuntimeConfig)
    ensures multiset(Mapped(devices, runtime)) + multiset(Unmapped(devices, runtime)) == multiset(devices)
  {
    if devices != [] {
      var init := devices[..|devices| - 1];
      FiltersPartition(init, runtime);
      assert devices == init + [devices[|devices| - 1]];
    }
  }

  /** What the plan would be if planning stopped after the devices read so far. */
  function Assembled(units: seq<Unit>, first: int, image: string, synthetic: seq<Identity>): seq<Unit>
    requires first < |units|
  {
    if first < 0 then units else units[first := Unit(Synthetic, image, [], synthetic)]
  }

  /** In order, with every first device among the first n of the request. */
  ghost predicate OrderedBelow(units: seq<Unit>, n: nat)
  {
    InRequestOrder(units) && forall i | 0 <= i < |units| :: units[i].devices[0].index < n
  }

  /** The plan for the first i devices. */
  ghost predicate PlanFor(built: seq<Unit>, devices: seq<Identity>, i: nat, runtime: RuntimeConfig, image: string)
    requires i <= |devices|
  {
    && Shaped(built, runtime, image, Unmapped(devices[..i], runtime))
    && (IndexedByPosition(devices) ==> OrderedBelow(built, i))
  }

  lemma {:induction false} ShapedWithOneMore(units: seq<Unit>, u: Unit, runtime: RuntimeConfig, image: string,
                          batch: seq<Identity>, batch': seq<Identity>)
    requires Shaped(units, runtime, image, batch)
    requires UnitShaped(u, runtime, image, batch')
    requires batch' == batch || forall k | 0 <= k < |units| :: units[k].kind == Opaque
    requires u.kind == Opaque || forall k | 0 <= k < |units| :: units[k].kind == Opaque
    ensures Shaped(units + [u], runtime, image, batch')
  {
    forall k | 0 <= k < |units|
      ensures UnitShaped(units[k], runtime, image, batch')
    {
      assert UnitShaped(units[k], runtime, image, batch);
    }
  }

  lemma {:induction false} AddUnit(built: seq<Unit>, devices: seq<Identity>, i: nat, runtime: RuntimeConfig,
                                   image: string, u: Unit)
    requires i < |devices| && u.devices == [devices[i]]
    requires PlanFor(built, devices, i, runtime, image)
    requires UnitShaped(u, runtime, image, Unmapped(devices[..i + 1], runtime))
    requires if u.kind == Opaque then devices[i].model in runtime
             else devices[i].model !in runtime && forall k | 0 <= k < |built| :: built[k].kind == Opaque
    ensures PlanFor(built + [u], devices, i + 1, runtime, image)
  {
    FilterSnoc(devices, i, runtime);
    ShapedWithOneMore(built, u, runtime, image, Unmapped(devices[..i], runtime), Unmapped(devices[..i + 1], runtime));
  }

  lemma {:induction false} ShapedWithBatch(units: seq<Unit>, k: nat, u: Unit, runtime: RuntimeConfig, image: string,
                        batch: seq<Identity>, batch': seq<Identity>)
    requires Shaped(units, runtime, image, batch)
    requires k < |units| && units[k].kind == Synthetic
    requires u.kind == Synthetic && UnitShaped(u, runtime, image, batch')
    ensures Shaped(units[k := u], runtime, image, batch')
  {
    forall j | 0 <= j < |units| && j != k
      ensures units[j].kind == Opaque && UnitShaped(units[j], runtime, image, batch')
    {
      assert UnitShaped(units[j], runtime, image, batch);
    }
  }

  lemma {:induction false} OrderedWithBatch(units: seq<Unit>, k: nat, u: Unit, n: nat)
    requires OrderedBelow(units, n) && k < |units|
    requires u.devices != [] && u.devices[0] == units[k].devices[0]
    ensures OrderedBelow(units[k := u], n + 1)
  {
    forall j | 0 <= j < |units|
      ensures units[k := u][j].devices != [] && units[k := u][j].devices[0] == units[j].devices[0]
    {
    }
  }

  lemma {:induction false} GrowBatch(built: seq<Unit>, k: nat, devices: seq<Identity>, i: nat, runtime: RuntimeConfig,
                                     image: string)
    requires i < |devices| && k < |built| && built[k].kind == Synthetic
    requires PlanFor(built, devices, i, runtime, image)
    requires devices[i].model !in runtime
    ensures PlanFor(built[k := Unit(Synthetic, image, [], Unmapped(devices[..i + 1], runtime))],
                    devices, i + 1, runtime, image)
  {
    FilterSnoc(devices, i, runtime);
    var was, now := Unmapped(devices[..i], runtime), Unmapped(devices[..i + 1], runtime);
    var batch := Unit(Synthetic, image, [], now);
    assert UnitShaped(built[k], runtime, image, was);
    ShapedWithBatch(built, k, batch, runtime, image, was, now);
    if IndexedByPosition(devices) {
      OrderedWithBatch(built, k, batch, i);
    }
  }

  method CheckRegistry(input: PlanInput) returns (known: bool)
    ensures known <==> forall d | d in input.devices :: input.registry(d.model)
  {
    for i := 0 to |input.devices|
      invariant forall k | 0 <= k < i :: input.registry(input.devices[k].model)
    {
      if !input.registry(input.devices[i].model) {
        return false;
      }
    }
    return true;
  }

  /** BuildPlan's loop state after i devices.  first is the batch's place among the units, or -1;
      the batch's devices are kept apart until all of them are known. */
  ghost predicate Partitioned(units: seq<Unit>, first: int, synthetic: seq<Identity>,
                              devices: seq<Identity>, i: nat, runtime: RuntimeConfig, image: string)
    requires i <= |devices|
  {
    && -1 <= first < |units|
    && synthetic == Unmapped(devices[..i], runtime)
    && DevicesOf(units) == Mapped(devices[..i], runtime)
    && (if first < 0 then synthetic == [] && forall k | 0 <= k < |units| :: units[k].kind == Opaque
        else synthetic != [] && units[first] == Unit(Synthetic, "", [], []))
    && PlanFor(Assembled(units, first, image, synthetic), devices, i, runtime, image)
  }

  lemma {:induction false} AssembledSnoc(units: seq<Unit>, first: int, image: string, synthetic: seq<Identity>, u: Unit)
    requires first < |units|
    ensures Assembled(units + [u], first, image, synthetic) == Assembled(units, first, image, synthetic) + [u]
    ensures first >= 0 ==> (units + [u])[first] == units[first]
    ensures (units + [u])[|units|] == u
  {
  }

  lemma {:induction false} MappedPlan(units: seq<Unit>, first: int, synthetic: seq<Identity>, devices: seq<Identity>,
                                      i: nat, runtime: RuntimeConfig, image: string, u: Unit)
    requires i < |devices| && devices[i].model in runtime && first < |units|
    requires u == Unit(Opaque, runtime[devices[i].model].image, runtime[devices[i].model].capAdd, [devices[i]])
    requires PlanFor(Assembled(units, first, image, synthetic), devices, i, runtime, image)
    ensures PlanFor(Assembled(units + [u], first, image, synthetic), devices, i + 1, runtime, image)
  {
    AddUnit(Assembled(units, first, image, synthetic), devices, i, runtime, image, u);
    AssembledSnoc(units, first, image, synthetic, u);
  }

  lemma {:induction false} PartitionMapped(units: seq<Unit>, first: int, synthetic: seq<Identity>,
                        devices: seq<Identity>, i: nat, runtime: RuntimeConfig, image: string, u: Unit)
    requires i < |devices| && devices[i].model in runtime
    requires u == Unit(Opaque, runtime[devices[i].model].image, runtime[devices[i].model].capAdd, [devices[i]])
    requires Partitioned(units, first, synthetic, devices, i, runtime, image)
    ensures Partitioned(units + [u], first, synthetic, devices, i + 1, runtime, image)
  {
    FilterSnoc(devices, i, runtime);
    MappedPlan(units, first, synthetic, devices, i, runtime, image, u);
    AssembledSnoc(units, first, image, synthetic, u);
    DevicesOfSnoc(units, u);
  }

  lemma {:induction false} PartitionOpensBatch(units: seq<Unit>, devices: seq<Identity>, i: nat,
                                               runtime: RuntimeConfig, image: string)
    requires i < |devices| && devices[i].model !in runtime
    requires Partitioned(units, -1, [], devices, i, runtime, image)
    ensures Partitioned(units + [Unit(Synthetic, "", [], [])], |units|, [devices[i]], devices, i + 1, runtime, image)
  {
    FilterSnoc(devices, i, runtime);
    var batch := Unit(Synthetic, image, [], [devices[i]]);
    AddUnit(units, devices, i, runtime, image, batch);
    assert Assembled(units + [Unit(Synthetic, "", [], [])], |units|, image, [devices[i]]) == units + [batch];
    DevicesOfSnoc(units, Unit(Synthetic, "", [], []));
  }

  lemma {:induction false} PartitionGrowsBatch(units: seq<Unit>, first: nat, synthetic: seq<Identity>,
                            devices: seq<Identity>, i: nat, runtime: RuntimeConfig, image: string)
    requires i < |devices| && devices[i].model !in runtime
    requires Partitioned(units, first, synthetic, devices, i, runtime, image)
    ensures Partitioned(units, first, synthetic + [devices[i]], devices, i + 1, runtime, image)
  {
    FilterSnoc(devices, i, runtime);
    var built := Assembled(units, first, image, synthetic);
    var batch := Unit(Synthetic, image, [], synthetic + [devices[i]]);
    GrowBatch(built, first, devices, i, runtime, image);
    assert Assembled(units, first, image, synthetic + [devices[i]]) == built[first := batch];
  }

  method Partition(devices: seq<Identity>, runtime: RuntimeConfig, ghost image: string)
    returns (units: seq<Unit>, first: int, synthetic: seq<Identity>)
    ensures Partitioned(units, first, synthetic, devices, |devices|, runtime, image)
  {
    units, first, synthetic := [], -1, [];
    for i := 0 to |devices|
      invariant Partitioned(units, first, synthetic, devices, i, runtime, image)
    {
      var d := devices[i];
      if d.model !in runtime {
        if first < 0 {
          PartitionOpensBatch(units, devices, i, runtime, image);
          first := |units|;
          units := units + [Unit(Synthetic, "", [], [])];
        } else {
          PartitionGrowsBatch(units, first, synthetic, devices, i, runtime, image);
        }
        synthetic := synthetic + [d];
      } else {
        var u := Unit(Opaque, runtime[d.model].image, runtime[d.model].capAdd, [d]);
        PartitionMapped(units, first, synthetic, devices, i, runtime, image, u);
        units := units + [u];
      }
    }
  }

  /** BuildPlan: which requests have a plan, and what every plan looks like. */
  method BuildPlan(input: PlanInput) returns (plan: Result<Plan, Failure>)
    ensures plan == Err(Failure(SyntheticModelUnknown, Validate, [])) <==>
            exists d :: d in input.devices && !input.registry(d.model)
    ensures plan == Err(Failure(SyntheticImageRequired, Validate, [])) <==>
            && (forall d | d in input.devices :: input.registry(d.model))
            && Unmapped(input.devices, input.runtime) != [] && input.syntheticImage == ""
    ensures plan.Err? ==> plan.error.code in {SyntheticModelUnknown, SyntheticImageRequired}
    ensures plan.Err? ==> plan.error.phase == Validate && plan.error.devices == []
    ensures plan.Ok? ==>
              && (plan.value.runID, plan.value.network, plan.value.informURL)
                 == (input.runID, input.network, input.informURL)
              && Topology(plan.value.units, input.devices, input.runtime, input.syntheticImage)
    ensures plan.Ok? && IndexedByPosition(input.devices) ==> InRequestOrder(plan.value.units)
  {
    var known := CheckRegistry(input);
    if !known {
      return Err(Failure(SyntheticModelUnknown, Validate, []));
    }
    var units, first, synthetic := Partition(input.devices, input.runtime, input.syntheticImage);
    assert input.devices[..|input.devices|] == input.devices;
    FiltersPartition(input.devices, input.runtime);
    if first >= 0 {
      if input.syntheticImage == "" {
        return Err(Failure(SyntheticImageRequired, Validate, []));
      }
      FillBatch(units, first, units[first].(image := input.syntheticImage, devices := synthetic));
      units := units[first := units[first].(image := input.syntheticImage, devices := synthetic)];
    }
    return Ok(Plan(input.runID, input.network, input.informURL, units));
  }

  /** Plan.Images: what must be pulled, each image once, in the order units first need them. */
  method Images(p: Plan) returns (out: seq<string>, ghost at: seq<nat>)
    ensures |at| == |out|
    ensures forall k | 0 <= k < |out| :: at[k] < |p.units| && p.units[at[k]].image == out[k]
    ensures forall k, l | 0 <= k < l < |out| :: at[k] < at[l] && out[k] != out[l]
    ensures forall i | 0 <= i < |p.units| :: p.units[i].image in out
  {
    var seen: set<string> := {};
    out, at := [], [];
    for i := 0 to |p.units|
      invariant |at| == |out|
      invariant seen == set x | x in out
      invariant forall k | 0 <= k < |out| :: at[k] < i && p.units[at[k]].image == out[k]
      invariant forall k, l | 0 <= k < l < |out| :: at[k] < at[l] && out[k] != out[l]
      invariant forall j | 0 <= j < i :: p.units[j].image in out
    {
      var image := p.units[i].image;
      if image in seen {
        continue;
      }
      seen := seen + {image};
      out, at := out + [image], at + [i];
    }
  }

  function IndexOf(id: Identity): int { id.index }

  /** Plan.Devices gives back the planned identities in request order. */
  method Devices(p: Plan, ghost devices: seq<Identity>) returns (out: seq<Identity>)
    requires multiset(DevicesOf(p.units)) == multiset(devices)
    requires IndexedByPosition(devices)
    ensures out == devices
  {
    var flat := DevicesOf(p.units);
    var a := new Identity[|flat|](i requires 0 <= i < |flat| => flat[i]);
    assert a[..] == flat;
    Sorting.InsertionSort(a, IndexOf);
    out := a[..];
    Sorting.SortRestoresIndexOrder(IndexOf, out, devices, 0);
  }
}
