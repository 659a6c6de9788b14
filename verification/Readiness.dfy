/** internal/herder/readiness.go: the verdicts on one inspected container. */
module Readiness {
  import opened Prelude
  import opened Protocol
  import opened Planning
  import Hex

  datatype Endpoint = Endpoint(ipv4: string, mac: string)

  datatype ContainerState = ContainerState(running: bool, health: string, exitCode: int, restartCount: int,
                                           startedAt: string, networks: map<string, Endpoint>, hostPortBindings: int)

  /** strings.EqualFold, on the hexadecimal spellings it is used for. */
  predicate SameMac(got: string, want: string)
  {
    Hex.Upper(got) == Hex.Upper(want)
  }

  function CheckAttachment(plan: Plan, unit: Unit, state: ContainerState): Result<string, Failure>
  {
    var failed := Err(Failure(ContainerStartFailed, Start, []));
    if |state.networks| != 1 then failed
    else if plan.network !in state.networks then failed
    else
      var endpoint := state.networks[plan.network];
      if state.hostPortBindings > 0 then failed
      else if EndpointMAC(unit) != "" && !SameMac(endpoint.mac, EndpointMAC(unit)) then
        Err(Failure(EndpointMACMismatch, Start, []))
      else if endpoint.ipv4 == "" then failed
      else Ok(endpoint.ipv4)
  }

  /** What a unit that passed is known to be: on the caller's network alone, publishing nothing,
      under the requested MAC, with the reported address. */
  ghost predicate Attached(plan: Plan, unit: Unit, state: ContainerState, ip: string)
  {
    && state.networks.Keys == {plan.network}
    && state.networks[plan.network].ipv4 == ip && ip != ""
    && state.hostPortBindings <= 0
    && (unit.kind == Opaque && |unit.devices| == 1 && unit.devices[0].mac != "" ==>
          SameMac(state.networks[plan.network].mac, unit.devices[0].mac))
  }

  /** An opaque unit where it belongs, but not under the MAC that was asked for. */
  ghost predicate Misaddressed(plan: Plan, unit: Unit, state: ContainerState)
  {
    && state.networks.Keys == {plan.network} && state.hostPortBindings <= 0
    && unit.kind == Opaque && |unit.devices| == 1 && unit.devices[0].mac != ""
    && !SameMac(state.networks[plan.network].mac, unit.devices[0].mac)
  }

  lemma {:induction false} OneNetwork(m: map<string, Endpoint>, name: string)
    requires name in m
    ensures |m| == 1 <==> m.Keys == {name}
  {
    if |m| == 1 {
      assert |m.Keys - {name}| == 0;
      assert m.Keys == {name} + (m.Keys - {name});
    }
    if m.Keys == {name} {
      assert |m| == |m.Keys|;
    }
  }

  lemma {:induction false} AttachmentAcceptedIff(plan: Plan, unit: Unit, state: ContainerState, ip: string)
    ensures CheckAttachment(plan, unit, state) == Ok(ip) <==> Attached(plan, unit, state, ip)
    ensures CheckAttachment(plan, unit, state).Err? ==> CheckAttachment(plan, unit, state).error.OnMatrix()
    ensures CheckAttachment(plan, unit, state) == Err(Failure(EndpointMACMismatch, Start, [])) <==>
            Misaddressed(plan, unit, state)
    ensures CheckAttachment(plan, unit, state) == Err(Failure(ContainerStartFailed, Start, [])) <==>
            !Misaddressed(plan, unit, state) && forall i :: !Attached(plan, unit, state, i)
  {
    if plan.network in state.networks {
      OneNetwork(state.networks, plan.network);
    }
    var verdict := CheckAttachment(plan, unit, state);
    assert verdict.Ok? ==> Attached(plan, unit, state, verdict.value);
  }

  /** The post-ready verdict; None means nothing to report. */
  function CheckRuntimeState(plan: Plan, unit: Unit, baseline: ContainerState, state: ContainerState): Option<Failure>
  {
    if !state.running then Some(Failure(DeviceExited, Runtime, []))
    else if state.health == "unhealthy" then Some(Failure(DeviceUnhealthy, Runtime, []))
    else if state.restartCount != baseline.restartCount || state.startedAt != baseline.startedAt then
      Some(Failure(DeviceRestarted, Runtime, []))
    else if |state.networks| != 1 then Some(Failure(NetworkDetached, Runtime, []))
    else if plan.network !in state.networks then Some(Failure(NetworkDetached, Runtime, []))
    else None
  }

  /** The container the herder started, still running undisturbed where it was put. */
  ghost predicate Undisturbed(plan: Plan, baseline: ContainerState, state: ContainerState)
  {
    && state.running && state.health != "unhealthy"
    && state.restartCount == baseline.restartCount
    && state.startedAt == baseline.startedAt
    && state.networks.Keys == {plan.network}
  }

  lemma {:induction false} RuntimeStateCleanIff(plan: Plan, unit: Unit, baseline: ContainerState, state: ContainerState)
    ensures CheckRuntimeState(plan, unit, baseline, state).None? <==> Undisturbed(plan, baseline, state)
    ensures var f := CheckRuntimeState(plan, unit, baseline, state); f.Some? ==> f.value.OnMatrix()
  {
    if plan.network in state.networks {
      OneNetwork(state.networks, plan.network);
    }
  }

  /** Which code a disturbed container gets: gone, unwell, another one under the same name, or moved,
      the first of these that applies. */
  lemma {:induction false} RuntimeCodes(plan: Plan, unit: Unit, baseline: ContainerState, state: ContainerState,
                                        f: Failure)
    requires CheckRuntimeState(plan, unit, baseline, state) == Some(f)
    ensures f.phase == Runtime && f.devices == []
    ensures f.code == DeviceExited <==> !state.running
    ensures f.code == DeviceUnhealthy <==> state.running && state.health == "unhealthy"
    ensures f.code == DeviceRestarted <==>
            && state.running && state.health != "unhealthy"
            && !(state.restartCount == baseline.restartCount && state.startedAt == baseline.startedAt)
    ensures f.code == NetworkDetached <==>
            && state.running && state.health != "unhealthy"
            && state.restartCount == baseline.restartCount && state.startedAt == baseline.startedAt
            && state.networks.Keys != {plan.network}
  {
    if plan.network in state.networks {
      OneNetwork(state.networks, plan.network);
    }
  }
}
