/** The world of one herder run (internal/herder/run.go): the Docker backend, the contexts and
    stdout as oracles, and the pure rules the run applies to their answers. */
module RunModel {
  import opened Prelude
  import opened Protocol
  import opened Allocation
  import opened Planning
  import opened Readiness

  /** ctx.Err() at one moment. */
  datatype Ctx = Live | Canceled | DeadlineExceeded

  type Done = c: Ctx | c != Live witness Canceled

  /** The moments at which startup looks at its context. */
  datatype Point =
    | AtBackend | AtDaemon | AtNetwork | AtCapabilities | AtPrepare | AfterPrepare
    | AtLaunch(unit: nat) | AfterLaunch | AtHealth(unit: nat) | AfterHealth
    | AtInspect(unit: nat) | AfterInspect

  datatype Instance = Instance(id: string)

  datatype Launched = Launched(inst: Option<Instance>, err: Option<Error>)

  datatype Inspection = Seen(state: ContainerState) | Lost(err: Error)

  /** One turn of monitor's loop: the context when the turn begins, the context if it is what the
      select sees (Live when the ticker fires instead), the context when a failed inspection is
      classified, and the inspections themselves by position among the live units. */
  datatype Round = Round(top: Ctx, select: Ctx, onLoss: Ctx, inspect: nat -> Inspection)

  /** Everything Docker may answer.  Launch is asked per planned unit, the rest per live unit. */
  datatype Backend = Backend(
    checkDaemon: Option<Error>,
    checkNetwork: Option<Error>,
    checkCapabilities: Plan -> Option<Error>,
    prepare: Plan -> Option<Error>,
    launch: nat -> Launched,
    waitHealthy: nat -> Option<Error>,
    inspect: nat -> Inspection,
    rounds: seq<Round>,
    ending: Done,
    terminate: nat -> Option<Error>,
    remaining: Result<int, Error>)

  /** request and config are None when decoding them fails; signals is how many stop signals have
      been delivered when stopReason looks. */
  datatype Options = Options(
    runID: string, network: string, informURL: string, syntheticImage: string,
    registry: string -> bool,
    backend: Option<Backend>, newBackend: Result<Backend, Error>,
    request: Option<seq<RequestDevice>>, config: Option<RuntimeConfig>, random: bytes,
    informURLValid: bool, reaper: Option<Error>,
    ctx: Point -> Ctx, signals: nat)

  /** One launched unit and the state it was ready in. */
  datatype LiveUnit = LiveUnit(unit: Unit, inst: Instance, baseline: Option<ContainerState>, ip: string)

  datatype Action =
    | Launch(unit: nat)
    | Terminate(position: nat, inst: Instance)
    | Submitted(ev: Event)

  // ---------------------------------------------------------------------------------------------
  // classify
  // ---------------------------------------------------------------------------------------------

  /** errors.Is(err, cause) for the two context outcomes. */
  predicate Is(err: Error, cause: Done)
  {
    if cause == Canceled then err.canceled else err.deadline
  }

  /** The error value ctx.Err() itself. */
  function CtxError(c: Done): Error
  {
    Error(c == Canceled, c == DeadlineExceeded, None)
  }

  function Classify(ctx: Ctx, err: Error, fallback: Code, phase: Phase): Error
  {
    if ctx != Live && Is(err, ctx) then
      if ctx == DeadlineExceeded then Failing(StartupTimeout, phase) else ERR_STOPPED
    else if err.failure.Some? then Error(false, false, err.failure)
    else Failing(fallback, phase)
  }

  /** withDevices: a failure that names no devices gets the unit's. */
  function WithDevices(err: Error, unit: Unit): Error
  {
    if err.failure.Some? && err.failure.value.devices == [] then
      err.(failure := Some(err.failure.value.(devices := unit.devices)))
    else err
  }

  function ClassifyUnit(ctx: Ctx, err: Error, fallback: Code, phase: Phase, unit: Unit): Error
  {
    WithDevices(Classify(ctx, err, fallback, phase), unit)
  }

  /** An error the writer will not refuse to report. */
  predicate Reportable(err: Error)
  {
    err.failure.Some? ==> err.failure.value.OnMatrix()
  }

  /** A stop is reported only when the operation's own context was canceled and that is what ended
      it; a failure that had already happened keeps its code. */
  lemma {:induction false} ClassifyStopsOnlyOnCancellation(ctx: Ctx, err: Error, fallback: Code, phase: Phase)
    ensures Classify(ctx, err, fallback, phase).failure.None? <==> ctx == Canceled && err.canceled
    ensures !(ctx != Live && Is(err, ctx)) && err.failure.Some? ==>
              Classify(ctx, err, fallback, phase).failure == err.failure
  {
  }

  /** What a classified error is reported as: a stop, a startup timeout of this phase, the failure it
      already was, or the fallback of this phase; and it no longer carries a context outcome. */
  lemma {:induction false} ClassifyCodes(ctx: Ctx, err: Error, fallback: Code, phase: Phase)
    ensures var e, own := Classify(ctx, err, fallback, phase), err.failure;
            var stop, late := ctx == Canceled && err.canceled, ctx == DeadlineExceeded && err.deadline;
            && !e.canceled && !e.deadline
            && (e.failure == None <==> stop)
            && (late ==> e.failure == Some(Failure(StartupTimeout, phase, [])))
            && (!stop && !late && own.Some? ==> e.failure == own)
            && (!stop && !late && own.None? ==> e.failure == Some(Failure(fallback, phase, [])))
  {
  }

  /** With a unit to blame, the devices named are the unit's unless the failure names its own. */
  lemma {:induction false} ClassifyUnitNamesDevices(ctx: Ctx, err: Error, fallback: Code, phase: Phase, unit: Unit)
    ensures var plain, e := Classify(ctx, err, fallback, phase), ClassifyUnit(ctx, err, fallback, phase, unit);
            && (e.failure.Some? <==> plain.failure.Some?)
            && (e.failure.Some? ==>
                  && e.failure.value.code == plain.failure.value.code
                  && e.failure.value.phase == plain.failure.value.phase
                  && e.failure.value.devices ==
                     if plain.failure.value.devices != [] then plain.failure.value.devices else unit.devices)
  {
  }

  /** Classification stays on the matrix exactly when a deadline cannot be blamed on a phase
      that has no startup_timeout. */
  lemma {:induction false} ClassifyStaysOnMatrixIff(ctx: Ctx, err: Error, fallback: Code, phase: Phase)
    requires Reportable(err) && AllowsPhase(fallback, phase)
    ensures Reportable(Classify(ctx, err, fallback, phase)) <==>
            !(ctx == DeadlineExceeded && err.deadline && phase in {Runtime, Cleanup})
  {
    match phase
    case Validate =>
    case Pull =>
    case Start =>
    case Health =>
    case Runtime =>
    case Cleanup =>
  }

  // ---------------------------------------------------------------------------------------------
  // validate: which check fails first
  // ---------------------------------------------------------------------------------------------

  /** Capabilities, then the images, then the context. */
  function PrepareVerdict(opts: Options, b: Backend, plan: Plan): Result<Plan, Error>
  {
    if b.checkCapabilities(plan).Some? then
      Err(Classify(opts.ctx(AtCapabilities), b.checkCapabilities(plan).value, CapabilityUnsupported, Validate))
    else if b.prepare(plan).Some? then
      Err(Classify(opts.ctx(AtPrepare), b.prepare(plan).value, ImagePullFailed, Pull))
    else if opts.ctx(AfterPrepare) != Live then
      Err(Classify(opts.ctx(AfterPrepare), CtxError(opts.ctx(AfterPrepare)), StartupTimeout, Pull))
    else Ok(plan)
  }

  /** A plan for the identities as the options ask for it. */
  ghost predicate PlanOf(opts: Options, config: RuntimeConfig, ids: seq<Identity>, plan: Plan)
  {
    && Topology(plan.units, ids, config, opts.syntheticImage)
    && InRequestOrder(plan.units)
    && plan.network == opts.network && plan.runID == opts.runID && plan.informURL == opts.informURL
  }

  /** validate once the identities are resolved. */
  ghost predicate PlanningVerdict(opts: Options, b: Backend, config: RuntimeConfig, ids: seq<Identity>,
                                  planned: Result<Plan, Error>)
  {
    if !opts.informURLValid then planned == Err(Failing(InformURLInvalid, Validate))
    else if opts.reaper.Some? then planned == Err(opts.reaper.value)
    else if b.checkDaemon.Some? then
      planned == Err(Classify(opts.ctx(AtDaemon), b.checkDaemon.value, DockerUnavailable, Validate))
    else if b.checkNetwork.Some? then
      planned == Err(Classify(opts.ctx(AtNetwork), b.checkNetwork.value, NetworkNotFound, Validate))
    else if exists d :: d in ids && !opts.registry(d.model) then
      planned == Err(Failing(SyntheticModelUnknown, Validate))
    else if Unmapped(ids, config) != [] && opts.syntheticImage == "" then
      planned == Err(Failing(SyntheticImageRequired, Validate))
    else exists plan :: PlanOf(opts, config, ids, plan) && planned == PrepareVerdict(opts, b, plan)
  }

  /** The outcome of validate: the first check that fails, or a plan when all of them pass. */
  ghost predicate ValidateVerdict(opts: Options, ids: seq<Identity>, planned: Result<Plan, Error>)
  {
    if TheBackend(opts).None? then
      planned == Err(Classify(opts.ctx(AtBackend), opts.newBackend.error, DockerUnavailable, Validate))
    else if opts.request.None? then planned == Err(Failing(InvalidRequest, Validate))
    else if opts.config.None? then planned == Err(Failing(InvalidRuntimeConfig, Validate))
    else
      var resolved := AllocateResult(opts.request.value, opts.random).0;
      if resolved.None? then planned == Err(Failing(InvalidRequest, Validate))
      else
        ids == resolved.value
        && PlanningVerdict(opts, TheBackend(opts).value, opts.config.value, ids, planned)
  }

  /** Every check of validate passes for this plan. */
  ghost predicate AllChecksPass(opts: Options, ids: seq<Identity>, plan: Plan)
  {
    && TheBackend(opts).Some? && opts.request.Some? && opts.config.Some?
    && AllocateResult(opts.request.value, opts.random).0 == Some(ids)
    && opts.informURLValid && opts.reaper.None?
    && TheBackend(opts).value.checkDaemon.None? && TheBackend(opts).value.checkNetwork.None?
    && (forall d | d in ids :: opts.registry(d.model))
    && (opts.syntheticImage == "" ==> Unmapped(ids, opts.config.value) == [])
    && PlanOf(opts, opts.config.value, ids, plan)
    && TheBackend(opts).value.checkCapabilities(plan).None? && TheBackend(opts).value.prepare(plan).None?
    && opts.ctx(AfterPrepare) == Live
  }

  /** validate lets a plan through if and only if it is the one asked for and every check passes. */
  lemma {:induction false} ValidatePassesIff(opts: Options, ids: seq<Identity>, plan: Plan)
    ensures ValidateVerdict(opts, ids, Ok(plan)) <==> AllChecksPass(opts, ids, plan)
  {
    hide PlanOf, Classify, Unmapped, AllocateResult, PlanningVerdict, TheBackend;
    if TheBackend(opts).Some? && opts.config.Some? {
      PlanningPassesIff(opts, TheBackend(opts).value, opts.config.value, ids, plan);
    }
  }

  lemma {:induction false} PlanningPassesIff(opts: Options, b: Backend, config: RuntimeConfig, ids: seq<Identity>,
                                             plan: Plan)
    ensures PlanningVerdict(opts, b, config, ids, Ok(plan)) <==>
            && opts.informURLValid && opts.reaper.None? && b.checkDaemon.None? && b.checkNetwork.None?
            && (forall d | d in ids :: opts.registry(d.model))
            && (opts.syntheticImage == "" ==> Unmapped(ids, config) == [])
            && PlanOf(opts, config, ids, plan)
            && b.checkCapabilities(plan).None? && b.prepare(plan).None? && opts.ctx(AfterPrepare) == Live
  {
    hide PlanOf, Classify, Unmapped;
  }

  /** The checks of validate that need no plan. */
  datatype Check =
    | BackendMade | RequestRead | ConfigRead | Resolved | InformURLOk | ReaperOn | DaemonUp | NetworkThere
    | ModelsKnown | ImageGiven

  const CHECKS := [BackendMade, RequestRead, ConfigRead, Resolved, InformURLOk, ReaperOn, DaemonUp, NetworkThere,
                   ModelsKnown, ImageGiven]

  ghost predicate Passes(opts: Options, ids: seq<Identity>, c: Check)
  {
    match c
    case BackendMade => TheBackend(opts).Some?
    case RequestRead => opts.request.Some?
    case ConfigRead => opts.config.Some?
    case Resolved => opts.request.Some? ==> AllocateResult(opts.request.value, opts.random).0.Some?
    case InformURLOk => opts.informURLValid
    case ReaperOn => opts.reaper.None?
    case DaemonUp => TheBackend(opts).Some? ==> TheBackend(opts).value.checkDaemon.None?
    case NetworkThere => TheBackend(opts).Some? ==> TheBackend(opts).value.checkNetwork.None?
    case ModelsKnown => forall d | d in ids :: opts.registry(d.model)
    case ImageGiven => opts.config.Some? && opts.syntheticImage == "" ==> Unmapped(ids, opts.config.value) == []
  }

  /** What a failing check is reported as; Docker's own answers are classified. */
  ghost predicate BlamedFor(opts: Options, ids: seq<Identity>, c: Check, e: Error)
    requires !Passes(opts, ids, c)
  {
    match c
    case BackendMade => e == Classify(opts.ctx(AtBackend), opts.newBackend.error, DockerUnavailable, Validate)
    case RequestRead => e == Failing(InvalidRequest, Validate)
    case ConfigRead => e == Failing(InvalidRuntimeConfig, Validate)
    case Resolved => e == Failing(InvalidRequest, Validate)
    case InformURLOk => e == Failing(InformURLInvalid, Validate)
    case ReaperOn => opts.reaper == Some(e)
    case DaemonUp =>
      e == Classify(opts.ctx(AtDaemon), TheBackend(opts).value.checkDaemon.value, DockerUnavailable, Validate)
    case NetworkThere =>
      e == Classify(opts.ctx(AtNetwork), TheBackend(opts).value.checkNetwork.value, NetworkNotFound, Validate)
    case ModelsKnown => e == Failing(SyntheticModelUnknown, Validate)
    case ImageGiven => e == Failing(SyntheticImageRequired, Validate)
  }

  /** The n-th check is the first to fail. */
  ghost predicate FirstFailing(opts: Options, ids: seq<Identity>, n: int)
  {
    0 <= n < |CHECKS| && !Passes(opts, ids, CHECKS[n]) && forall m | 0 <= m < n :: Passes(opts, ids, CHECKS[m])
  }

  /** Without a plan, validate reports the first of these checks to fail. */
  lemma {:induction false} ValidateBlamesFirst(opts: Options, ids: seq<Identity>, planned: Result<Plan, Error>, n: nat)
    requires ValidateVerdict(opts, ids, planned) && FirstFailing(opts, ids, n)
    ensures planned.Err? && BlamedFor(opts, ids, CHECKS[n], planned.error)
  {
    hide AllocateResult, Classify, Unmapped, PrepareVerdict, PlanOf;
    assert n > 0 ==> Passes(opts, ids, CHECKS[0]);
    assert n > 1 ==> Passes(opts, ids, CHECKS[1]);
    assert n > 2 ==> Passes(opts, ids, CHECKS[2]);
    assert n > 3 ==> Passes(opts, ids, CHECKS[3]);
    assert n > 4 ==> Passes(opts, ids, CHECKS[4]);
    assert n > 5 ==> Passes(opts, ids, CHECKS[5]);
    assert n > 6 ==> Passes(opts, ids, CHECKS[6]);
    assert n > 7 ==> Passes(opts, ids, CHECKS[7]);
    assert n > 8 ==> Passes(opts, ids, CHECKS[8]);
  }

  // ---------------------------------------------------------------------------------------------
  // start: what per-unit outcomes amount to
  // ---------------------------------------------------------------------------------------------

  /** The first position with an error, or the length. */
  function FirstError(errs: seq<Option<Error>>): (k: nat)
    ensures k <= |errs|
    ensures k < |errs| ==> errs[k].Some?
    ensures forall j: nat | j < k :: errs[j].None?
  {
    if errs == [] then 0
    else
      var init := errs[..|errs| - 1];
      var k := FirstError(init);
      if k < |init| || errs[|init|].Some? then k else |errs|
  }

  function LaunchErrors(backend: Backend, n: nat): (errs: seq<Option<Error>>)
    ensures |errs| == n && forall i: nat | i < n :: errs[i] == backend.launch(i).err
  {
    seq(n, i requires 0 <= i < n => backend.launch(i).err)
  }

  function HealthErrors(backend: Backend, n: nat): (errs: seq<Option<Error>>)
    ensures |errs| == n && forall k: nat | k < n :: errs[k] == backend.waitHealthy(k)
  {
    seq(n, k requires 0 <= k < n => backend.waitHealthy(k))
  }

  function AttachmentErrors(plan: Plan, backend: Backend, ctx: Point -> Ctx,
                            live: seq<LiveUnit>): (errs: seq<Option<Error>>)
    ensures |errs| == |live|
    ensures forall k: nat | k < |live| :: errs[k] == AttachmentError(plan, backend, ctx, live[k].unit, k)
  {
    seq(|live|, k requires 0 <= k < |live| => AttachmentError(plan, backend, ctx, live[k].unit, k))
  }

  /** The live units of the first n planned ones, in plan order, whatever order Launch returned in. */
  function LiveOf(plan: Plan, launch: nat -> Launched, n: nat): seq<LiveUnit>
    requires n <= |plan.units|
  {
    if n == 0 then []
    else
      var rest, got := LiveOf(plan, launch, n - 1), launch(n - 1).inst;
      if got.Some? then rest + [LiveUnit(plan.units[n - 1], got.value, None, "")] else rest
  }

  /** The same containers, whatever start has learned about them since. */
  ghost predicate SameContainers(a: seq<LiveUnit>, b: seq<LiveUnit>)
  {
    && |a| == |b|
    && forall k | 0 <= k < |a| :: a[k].inst == b[k].inst && a[k].unit == b[k].unit
  }

  /** What the first n launches amount to. */
  function LaunchVerdict(plan: Plan, backend: Backend, ctx: Point -> Ctx, n: nat): Option<Error>
    requires n <= |plan.units|
  {
    var l := FirstError(LaunchErrors(backend, n));
    if l < n then
      Some(ClassifyUnit(ctx(AtLaunch(l)), backend.launch(l).err.value, ContainerStartFailed, Start, plan.units[l]))
    else None
  }

  lemma {:induction false} InspectedAreMonitorable(plan: Plan, b: Backend, units: seq<LiveUnit>)
    requires forall k: nat | k < |units| :: Inspected(plan, b, units, k)
    ensures AllInspected(units)
  {
    forall k | 0 <= k < |units|
      ensures units[k].baseline.Some?
    {
      assert Inspected(plan, b, units, k);
    }
  }

  /** The outcome of start, as a function of the per-unit outcomes alone. */
  function StartVerdict(plan: Plan, backend: Backend, ctx: Point -> Ctx): Option<Error>
  {
    var launch := LaunchVerdict(plan, backend, ctx, |plan.units|);
    if launch.Some? then launch
    else if ctx(AfterLaunch) != Live then
      Some(Classify(ctx(AfterLaunch), CtxError(ctx(AfterLaunch)), StartupTimeout, Start))
    else HealthVerdict(plan, backend, ctx, LiveOf(plan, backend.launch, |plan.units|))
  }

  function HealthVerdict(plan: Plan, backend: Backend, ctx: Point -> Ctx, live: seq<LiveUnit>): Option<Error>
  {
    var h := FirstError(HealthErrors(backend, |live|));
    if h < |live| then
      Some(ClassifyUnit(ctx(AtHealth(h)), backend.waitHealthy(h).value, DeviceUnhealthy, Health, live[h].unit))
    else if ctx(AfterHealth) != Live then
      Some(Classify(ctx(AfterHealth), CtxError(ctx(AfterHealth)), StartupTimeout, Health))
    else
      var problems := AttachmentErrors(plan, backend, ctx, live);
      if FirstError(problems) < |live| then problems[FirstError(problems)]
      else if ctx(AfterInspect) != Live then
        Some(Classify(ctx(AfterInspect), CtxError(ctx(AfterInspect)), StartupTimeout, Start))
      else None
  }

  ghost predicate AllLaunch(plan: Plan, b: Backend)
  {
    forall i: nat | i < |plan.units| :: b.launch(i).err.None?
  }

  ghost predicate AllHealthy(b: Backend, live: nat)
  {
    forall k: nat | k < live :: b.waitHealthy(k).None?
  }

  /** Live unit k can be inspected and is where it belongs. */
  ghost predicate InPlace(plan: Plan, b: Backend, unit: Unit, k: nat)
  {
    b.inspect(k).Seen? && exists ip :: Attached(plan, unit, b.inspect(k).state, ip)
  }

  ghost predicate AllInPlace(plan: Plan, b: Backend, live: seq<LiveUnit>)
  {
    forall k: nat | k < |live| :: InPlace(plan, b, live[k].unit, k)
  }

  /** What a fleet whose launches are over still has to pass. */
  ghost predicate StaysUp(plan: Plan, b: Backend, ctx: Point -> Ctx, live: seq<LiveUnit>)
  {
    && AllHealthy(b, |live|) && ctx(AfterHealth) == Live
    && AllInPlace(plan, b, live) && ctx(AfterInspect) == Live
  }

  /** The whole fleet comes up in time. */
  ghost predicate ComesUp(plan: Plan, b: Backend, ctx: Point -> Ctx)
  {
    && AllLaunch(plan, b) && ctx(AfterLaunch) == Live
    && StaysUp(plan, b, ctx, LiveOf(plan, b.launch, |plan.units|))
  }

  lemma {:induction false} FirstErrorIff(errs: seq<Option<Error>>, k: nat)
    ensures FirstError(errs) == k <==>
            k <= |errs| && (k < |errs| ==> errs[k].Some?) && forall j: nat | j < k :: errs[j].None?
  {
    var first := FirstError(errs);
    if k < first {
      assert errs[k].None?;
    }
  }

  lemma {:induction false} InPlaceIff(plan: Plan, b: Backend, ctx: Point -> Ctx, unit: Unit, k: nat)
    ensures AttachmentError(plan, b, ctx, unit, k).None? <==> InPlace(plan, b, unit, k)
  {
    if b.inspect(k).Seen? {
      var state := b.inspect(k).state;
      forall ip
        ensures CheckAttachment(plan, unit, state) == Ok(ip) <==> Attached(plan, unit, state, ip)
      {
        AttachmentAcceptedIff(plan, unit, state, ip);
      }
    }
  }

  lemma {:induction false} HealthPassesIff(plan: Plan, b: Backend, ctx: Point -> Ctx, live: seq<LiveUnit>)
    ensures HealthVerdict(plan, b, ctx, live).None? <==> StaysUp(plan, b, ctx, live)
  {
    FirstErrorIff(HealthErrors(b, |live|), |live|);
    FirstErrorIff(AttachmentErrors(plan, b, ctx, live), |live|);
    hide AttachmentError, InPlace, ClassifyUnit, Classify;
    forall k: nat | k < |live|
      ensures AttachmentErrors(plan, b, ctx, live)[k].None? <==> InPlace(plan, b, live[k].unit, k)
    {
      InPlaceIff(plan, b, ctx, live[k].unit, k);
    }
  }

  /** start returns no error if and only if every Launch succeeds, every live unit turns healthy and is
      found in place, and the context is live after each of these stages. */
  lemma {:induction false} StartSucceedsIff(plan: Plan, b: Backend, ctx: Point -> Ctx)
    ensures StartVerdict(plan, b, ctx).None? <==> ComesUp(plan, b, ctx)
  {
    FirstErrorIff(LaunchErrors(b, |plan.units|), |plan.units|);
    hide HealthVerdict, StaysUp, LiveOf, ClassifyUnit, Classify;
    HealthPassesIff(plan, b, ctx, LiveOf(plan, b.launch, |plan.units|));
  }

  /** The first thing that goes wrong while the fleet comes up: a stage is looked at only when those
      before it passed, and in a stage the first unit in plan order. */
  ghost predicate FirstFailure(plan: Plan, b: Backend, ctx: Point -> Ctx, err: Error)
  {
    var live := LiveOf(plan, b.launch, |plan.units|);
    || (exists i: nat :: LaunchFails(plan, b, ctx, i, err))
    || (AllLaunch(plan, b)
        && (|| Expires(ctx(AfterLaunch), Start, err)
            || (ctx(AfterLaunch) == Live && FirstFailureUp(plan, b, ctx, live, err))))
  }

  ghost predicate FirstFailureUp(plan: Plan, b: Backend, ctx: Point -> Ctx, live: seq<LiveUnit>, err: Error)
  {
    || (exists k: nat :: HealthFails(b, ctx, live, k, err))
    || (AllHealthy(b, |live|)
        && (|| Expires(ctx(AfterHealth), Health, err)
            || (ctx(AfterHealth) == Live
                && (|| (exists k: nat :: OutOfPlace(plan, b, ctx, live, k, err))
                    || (AllInPlace(plan, b, live) && Expires(ctx(AfterInspect), Start, err))))))
  }

  /** The context ran out after a stage. */
  predicate Expires(ctx: Ctx, phase: Phase, err: Error)
  {
    || (ctx == Canceled && err == ERR_STOPPED)
    || (ctx == DeadlineExceeded && err == Failing(StartupTimeout, phase))
  }

  ghost predicate LaunchFails(plan: Plan, b: Backend, ctx: Point -> Ctx, i: nat, err: Error)
  {
    && i < |plan.units| && b.launch(i).err.Some? && (forall j: nat | j < i :: b.launch(j).err.None?)
    && err == ClassifyUnit(ctx(AtLaunch(i)), b.launch(i).err.value, ContainerStartFailed, Start, plan.units[i])
  }

  ghost predicate HealthFails(b: Backend, ctx: Point -> Ctx, live: seq<LiveUnit>, k: nat, err: Error)
  {
    && k < |live| && b.waitHealthy(k).Some? && AllHealthy(b, k)
    && err == ClassifyUnit(ctx(AtHealth(k)), b.waitHealthy(k).value, DeviceUnhealthy, Health, live[k].unit)
  }

  ghost predicate OutOfPlace(plan: Plan, b: Backend, ctx: Point -> Ctx, live: seq<LiveUnit>, k: nat, err: Error)
  {
    && k < |live| && !InPlace(plan, b, live[k].unit, k)
    && (forall j: nat | j < k :: InPlace(plan, b, live[j].unit, j))
    && Misplaced(plan, b, ctx, live[k].unit, k, err)
  }

  /** The failure of a unit that cannot be inspected or is not where it belongs. */
  ghost predicate Misplaced(plan: Plan, b: Backend, ctx: Point -> Ctx, unit: Unit, k: nat, err: Error)
  {
    match b.inspect(k)
    case Lost(e) => err == ClassifyUnit(ctx(AtInspect(k)), e, DockerUnavailable, Start, unit)
    case Seen(state) =>
      var code := if Misaddressed(plan, unit, state) then EndpointMACMismatch else ContainerStartFailed;
      err == Error(false, false, Some(Failure(code, Start, unit.devices)))
  }

  lemma {:induction false} MisplacedIs(plan: Plan, b: Backend, ctx: Point -> Ctx, unit: Unit, k: nat, err: Error)
    requires !InPlace(plan, b, unit, k)
    ensures AttachmentError(plan, b, ctx, unit, k) == Some(err) <==> Misplaced(plan, b, ctx, unit, k, err)
  {
    if b.inspect(k).Seen? {
      AttachmentAcceptedIff(plan, unit, b.inspect(k).state, "");
      InPlaceIff(plan, b, ctx, unit, k);
    }
  }

  lemma {:induction false} HealthStage(b: Backend, ctx: Point -> Ctx, live: seq<LiveUnit>, err: Error)
    ensures var h := FirstError(HealthErrors(b, |live|));
            && (h == |live| <==> AllHealthy(b, |live|))
            && ((exists k: nat :: HealthFails(b, ctx, live, k, err)) <==>
                  && h < |live|
                  && err == ClassifyUnit(ctx(AtHealth(h)), b.waitHealthy(h).value, DeviceUnhealthy, Health,
                                         live[h].unit))
  {
    hide ClassifyUnit;
    var h := FirstError(HealthErrors(b, |live|));
    assert forall k: nat :: HealthFails(b, ctx, live, k, err) ==> k == h;
    if h < |live| {
      assert AllHealthy(b, h);
      assert err == ClassifyUnit(ctx(AtHealth(h)), b.waitHealthy(h).value, DeviceUnhealthy, Health, live[h].unit) ==>
               HealthFails(b, ctx, live, h, err);
    }
  }

  lemma {:induction false} PlaceStage(plan: Plan, b: Backend, ctx: Point -> Ctx, live: seq<LiveUnit>, err: Error)
    ensures var errs := AttachmentErrors(plan, b, ctx, live);
            var a := FirstError(errs);
            && (a == |live| <==> AllInPlace(plan, b, live))
            && ((exists k: nat :: OutOfPlace(plan, b, ctx, live, k, err)) <==> a < |live| && errs[a] == Some(err))
  {
    hide AttachmentError, InPlace, Misplaced;
    var errs := AttachmentErrors(plan, b, ctx, live);
    var a := FirstError(errs);
    forall k: nat | k < |live|
      ensures errs[k].None? <==> InPlace(plan, b, live[k].unit, k)
    {
      InPlaceIff(plan, b, ctx, live[k].unit, k);
    }
    assert forall k: nat :: OutOfPlace(plan, b, ctx, live, k, err) ==> k == a;
    if a < |live| {
      MisplacedIs(plan, b, ctx, live[a].unit, a, err);
      assert errs[a] == Some(err) ==> OutOfPlace(plan, b, ctx, live, a, err);
    }
  }

  lemma {:induction false} HealthFailsAsIff(plan: Plan, b: Backend, ctx: Point -> Ctx, live: seq<LiveUnit>, err: Error)
    ensures HealthVerdict(plan, b, ctx, live) == Some(err) <==> FirstFailureUp(plan, b, ctx, live, err)
  {
    hide HealthFails, OutOfPlace, AllHealthy, AllInPlace, ClassifyUnit, AttachmentError;
    HealthStage(b, ctx, live, err);
    PlaceStage(plan, b, ctx, live, err);
  }

  /** And an error it returns is that of the first unit to fail in the first stage to fail. */
  lemma {:induction false} StartFailsAsIff(plan: Plan, b: Backend, ctx: Point -> Ctx, err: Error)
    ensures StartVerdict(plan, b, ctx) == Some(err) <==> FirstFailure(plan, b, ctx, err)
  {
    var n := |plan.units|;
    var l := FirstError(LaunchErrors(b, n));
    hide HealthVerdict, FirstFailureUp, LiveOf, ClassifyUnit;
    assert forall i: nat :: LaunchFails(plan, b, ctx, i, err) ==> i == l;
    HealthFailsAsIff(plan, b, ctx, LiveOf(plan, b.launch, n), err);
    assert l < n && StartVerdict(plan, b, ctx) == Some(err) ==> LaunchFails(plan, b, ctx, l, err);
  }

  lemma {:induction false} HealthVerdictMeans(plan: Plan, b: Backend, ctx: Point -> Ctx, live: seq<LiveUnit>)
    ensures var verdict := HealthVerdict(plan, b, ctx, live);
            && (verdict.None? <==> StaysUp(plan, b, ctx, live))
            && (verdict.Some? ==> FirstFailureUp(plan, b, ctx, live, verdict.value))
  {
    hide HealthVerdict, StaysUp, FirstFailureUp;
    var verdict := HealthVerdict(plan, b, ctx, live);
    HealthPassesIff(plan, b, ctx, live);
    HealthFailsAsIff(plan, b, ctx, live, if verdict.Some? then verdict.value else ERR_STOPPED);
  }

  lemma {:induction false} StartVerdictMeans(plan: Plan, b: Backend, ctx: Point -> Ctx)
    ensures var verdict := StartVerdict(plan, b, ctx);
            && (verdict.None? <==> ComesUp(plan, b, ctx))
            && (verdict.Some? ==> FirstFailure(plan, b, ctx, verdict.value))
  {
    hide StartVerdict, ComesUp, FirstFailure;
    var verdict := StartVerdict(plan, b, ctx);
    StartSucceedsIff(plan, b, ctx);
    StartFailsAsIff(plan, b, ctx, if verdict.Some? then verdict.value else ERR_STOPPED);
  }

  /** Live unit k as start leaves it after a successful inspection. */
  ghost predicate Inspected(plan: Plan, backend: Backend, units: seq<LiveUnit>, k: nat)
    requires k < |units|
  {
    && backend.inspect(k).Seen?
    && units[k].baseline == Some(backend.inspect(k).state)
    && CheckAttachment(plan, units[k].unit, backend.inspect(k).state) == Ok(units[k].ip)
  }

  lemma {:induction false} InspectedOneMore(plan: Plan, b: Backend, first: seq<LiveUnit>, was: seq<LiveUnit>, k: nat,
                                            state: ContainerState, ip: string)
    requires k < |was| && SameContainers(was, first) && forall j: nat | j < k :: Inspected(plan, b, was, j)
    requires b.inspect(k) == Seen(state) && CheckAttachment(plan, was[k].unit, state) == Ok(ip)
    ensures var next := was[k := was[k].(baseline := Some(state), ip := ip)];
            SameContainers(next, first) && forall j: nat | j <= k :: Inspected(plan, b, next, j)
  {
    var next := was[k := was[k].(baseline := Some(state), ip := ip)];
    forall j: nat | j <= k
      ensures Inspected(plan, b, next, j)
    {
      assert j < k ==> next[j] == was[j] && Inspected(plan, b, was, j);
    }
  }

  /** What inspecting live unit k after health makes start return, if anything. */
  function AttachmentError(plan: Plan, backend: Backend, ctx: Point -> Ctx, unit: Unit, k: nat): Option<Error>
  {
    match backend.inspect(k)
    case Lost(err) => Some(ClassifyUnit(ctx(AtInspect(k)), err, DockerUnavailable, Start, unit))
    case Seen(state) =>
      match CheckAttachment(plan, unit, state)
      case Err(f) => Some(WithDevices(Error(false, false, Some(f)), unit))
      case Ok(_) => None
  }

  // ---------------------------------------------------------------------------------------------
  // monitor: the declarative verdict
  // ---------------------------------------------------------------------------------------------

  const DOCKER_FAILURE_LIMIT := 3

  /** What one unit contributes to a round. */
  predicate Clean(plan: Plan, units: seq<LiveUnit>, r: Round, k: nat)
    requires k < |units| && units[k].baseline.Some?
  {
    && r.inspect(k).Seen?
    && CheckRuntimeState(plan, units[k].unit, units[k].baseline.value, r.inspect(k).state).None?
  }

  ghost predicate AllInspected(units: seq<LiveUnit>)
  {
    forall k | 0 <= k < |units| :: units[k].baseline.Some?
  }

  /** Unit k is the first of the round that is not clean. */
  ghost predicate FirstUnclean(plan: Plan, units: seq<LiveUnit>, r: Round, k: nat)
    requires AllInspected(units)
  {
    k < |units| && !Clean(plan, units, r, k) && forall j: nat | j < k :: Clean(plan, units, r, j)
  }

  /** The round meets a state violation before any failed inspection. */
  ghost predicate Violates(plan: Plan, units: seq<LiveUnit>, r: Round)
    requires AllInspected(units)
  {
    exists k: nat :: FirstUnclean(plan, units, r, k) && r.inspect(k).Seen?
  }

  /** The round meets a failed inspection before any state violation. */
  ghost predicate Loses(plan: Plan, units: seq<LiveUnit>, r: Round)
    requires AllInspected(units)
  {
    exists k: nat :: FirstUnclean(plan, units, r, k) && r.inspect(k).Lost?
  }

  /** Whether monitor must return in round i. */
  ghost predicate Ends(plan: Plan, units: seq<LiveUnit>, rounds: seq<Round>, i: nat)
    requires AllInspected(units) && i < |rounds|
  {
    || rounds[i].top != Live
    || rounds[i].select != Live
    || Violates(plan, units, rounds[i])
    || (i >= 2 && forall j | i - 2 <= j <= i :: Loses(plan, units, rounds[j]))
  }

  /** Round i is where monitor returns, or i rounds go by and the context ends it between polls. */
  ghost predicate EndsAt(plan: Plan, units: seq<LiveUnit>, rounds: seq<Round>, i: nat)
    requires AllInspected(units)
  {
    && i <= |rounds|
    && (forall j: nat | j < i :: !Ends(plan, units, rounds, j))
    && (i < |rounds| ==> Ends(plan, units, rounds, i))
  }

  /** What monitor returns when it returns in round i. */
  ghost predicate Verdict(plan: Plan, units: seq<LiveUnit>, backend: Backend, i: nat, err: Error)
    requires AllInspected(units) && i <= |backend.rounds|
  {
    if i == |backend.rounds| then
      err == Classify(backend.ending, CtxError(backend.ending), DockerUnavailable, Runtime)
    else
      var r := backend.rounds[i];
      if r.top != Live then err == Classify(r.top, CtxError(r.top), DockerUnavailable, Runtime)
      else if r.select != Live then err == Classify(r.select, CtxError(r.select), DockerUnavailable, Runtime)
      else exists k: nat :: FirstUnclean(plan, units, r, k) && err == UncleanError(plan, units, r, k)
  }

  function UncleanError(plan: Plan, units: seq<LiveUnit>, r: Round, k: nat): Error
    requires k < |units| && units[k].baseline.Some?
  {
    match r.inspect(k)
    case Lost(err) => ClassifyUnit(r.onLoss, err, DockerUnavailable, Runtime, units[k].unit)
    case Seen(state) =>
      WithDevices(Error(false, false, CheckRuntimeState(plan, units[k].unit, units[k].baseline.value, state)),
                  units[k].unit)
  }

  /** A round that lets monitor go on shows every container it looked at undisturbed. */
  lemma {:induction false} QuietRoundsObserveTheBaseline(plan: Plan, units: seq<LiveUnit>, rounds: seq<Round>, i: nat,
                                                         k: nat)
    requires AllInspected(units) && i < |rounds| && k < |units|
    requires !Ends(plan, units, rounds, i)
    requires forall j: nat | j < k :: rounds[i].inspect(j).Seen?
    requires rounds[i].inspect(k).Seen?
    ensures Undisturbed(plan, units[k].baseline.value, rounds[i].inspect(k).state)
  {
    var r := rounds[i];
    RuntimeStateCleanIff(plan, units[k].unit, units[k].baseline.value, r.inspect(k).state);
    if !Clean(plan, units, r, k) {
      var first := LeastUnclean(plan, units, r, k);
    }
  }

  lemma {:induction false} LeastUnclean(plan: Plan, units: seq<LiveUnit>, r: Round, k: nat) returns (first: nat)
    requires AllInspected(units) && k < |units| && !Clean(plan, units, r, k)
    ensures first <= k && FirstUnclean(plan, units, r, first)
  {
    first := 0;
    while Clean(plan, units, r, first)
      invariant first <= k
      invariant forall j: nat | j < first :: Clean(plan, units, r, j)
      decreases k - first
    {
      first := first + 1;
    }
  }

  lemma {:induction false} FirstUncleanIsUnique(plan: Plan, units: seq<LiveUnit>, r: Round, k: nat, k': nat)
    requires AllInspected(units)
    requires FirstUnclean(plan, units, r, k) && FirstUnclean(plan, units, r, k')
    ensures k == k'
  {
  }

  lemma {:induction false} CleanRoundHasNoUnclean(plan: Plan, units: seq<LiveUnit>, r: Round)
    requires AllInspected(units)
    requires forall k: nat | k < |units| :: Clean(plan, units, r, k)
    ensures !Violates(plan, units, r) && !Loses(plan, units, r)
  {
  }

  lemma {:induction false} LosingRoundDoesNotViolate(plan: Plan, units: seq<LiveUnit>, r: Round, k: nat)
    requires AllInspected(units) && FirstUnclean(plan, units, r, k) && r.inspect(k).Lost?
    ensures Loses(plan, units, r) && !Violates(plan, units, r)
  {
    forall j: nat | FirstUnclean(plan, units, r, j)
      ensures j == k
    {
      FirstUncleanIsUnique(plan, units, r, j, k);
    }
  }

  /** The first n live units all answer, and are undisturbed. */
  ghost predicate AllQuiet(plan: Plan, units: seq<LiveUnit>, r: Round, n: nat)
    requires AllInspected(units) && n <= |units|
  {
    forall k: nat | k < n ::
      r.inspect(k).Seen? && Undisturbed(plan, units[k].baseline.value, r.inspect(k).state)
  }

  /** The first unit that is not quiet does not answer. */
  ghost predicate NoAnswer(plan: Plan, units: seq<LiveUnit>, r: Round)
    requires AllInspected(units)
  {
    exists k: nat :: k < |units| && r.inspect(k).Lost? && AllQuiet(plan, units, r, k)
  }

  ghost predicate ThreeInARow(plan: Plan, units: seq<LiveUnit>, rounds: seq<Round>, i: nat)
    requires AllInspected(units)
  {
    && i + 2 < |rounds| && NoAnswer(plan, units, rounds[i])
    && NoAnswer(plan, units, rounds[i + 1]) && NoAnswer(plan, units, rounds[i + 2])
  }

  lemma {:induction false} CleanIff(plan: Plan, units: seq<LiveUnit>, r: Round, k: nat)
    requires AllInspected(units) && k < |units|
    ensures Clean(plan, units, r, k) <==>
            r.inspect(k).Seen? && Undisturbed(plan, units[k].baseline.value, r.inspect(k).state)
  {
    if r.inspect(k).Seen? {
      RuntimeStateCleanIff(plan, units[k].unit, units[k].baseline.value, r.inspect(k).state);
    }
  }

  /** A round violates nothing if and only if all is quiet up to its first unit that does not answer. */
  lemma {:induction false} RoundMeans(plan: Plan, units: seq<LiveUnit>, r: Round)
    requires AllInspected(units)
    ensures Loses(plan, units, r) <==> NoAnswer(plan, units, r)
    ensures Violates(plan, units, r) <==> !AllQuiet(plan, units, r, |units|) && !NoAnswer(plan, units, r)
  {
    hide Undisturbed;
    forall k: nat | k < |units|
      ensures Clean(plan, units, r, k) <==>
              r.inspect(k).Seen? && Undisturbed(plan, units[k].baseline.value, r.inspect(k).state)
    {
      CleanIff(plan, units, r, k);
    }
    hide Clean;
    forall k: nat | k < |units|
      ensures FirstUnclean(plan, units, r, k) ==> AllQuiet(plan, units, r, k) && !AllQuiet(plan, units, r, |units|)
      ensures r.inspect(k).Lost? && AllQuiet(plan, units, r, k) ==> FirstUnclean(plan, units, r, k)
    {
    }
    if !AllQuiet(plan, units, r, |units|) {
      var k: nat :| k < |units| && !Clean(plan, units, r, k);
      var first := LeastUnclean(plan, units, r, k);
      assert FirstUnclean(plan, units, r, first);
      forall j: nat | FirstUnclean(plan, units, r, j)
        ensures j == first
      {
        FirstUncleanIsUnique(plan, units, r, j, first);
      }
    }
  }

  lemma {:induction false} EndsIff(plan: Plan, units: seq<LiveUnit>, rounds: seq<Round>, i: nat)
    requires AllInspected(units) && i < |rounds|
    ensures Ends(plan, units, rounds, i) <==>
            || rounds[i].top != Live || rounds[i].select != Live
            || (!AllQuiet(plan, units, rounds[i], |units|) && !NoAnswer(plan, units, rounds[i]))
            || (i >= 2 && ThreeInARow(plan, units, rounds, i - 2))
  {
    hide Loses, Violates, NoAnswer, AllQuiet;
    RoundMeans(plan, units, rounds[i]);
    if i >= 2 {
      RoundMeans(plan, units, rounds[i - 2]);
      RoundMeans(plan, units, rounds[i - 1]);
      forall j | i - 2 <= j <= i
        ensures ThreeInARow(plan, units, rounds, i - 2) ==> Loses(plan, units, rounds[j])
      {
        assert rounds[j] in {rounds[i - 2], rounds[i - 1], rounds[i]};
      }
    }
  }

  /** monitor goes through all these rounds if and only if the context stays live, nothing is disturbed
      before a unit that does not answer, and no three rounds in a row end in such a unit. */
  lemma {:induction false} MonitorGoesOnIff(plan: Plan, units: seq<LiveUnit>, rounds: seq<Round>)
    requires AllInspected(units)
    ensures EndsAt(plan, units, rounds, |rounds|) <==>
            && (forall i | 0 <= i < |rounds| ::
                  && rounds[i].top == Live && rounds[i].select == Live
                  && (AllQuiet(plan, units, rounds[i], |units|) || NoAnswer(plan, units, rounds[i])))
            && forall i: nat :: !ThreeInARow(plan, units, rounds, i)
  {
    hide NoAnswer, AllQuiet, Ends;
    forall i: nat | i < |rounds|
      ensures Ends(plan, units, rounds, i) <==>
              || rounds[i].top != Live || rounds[i].select != Live
              || (!AllQuiet(plan, units, rounds[i], |units|) && !NoAnswer(plan, units, rounds[i]))
              || (i >= 2 && ThreeInARow(plan, units, rounds, i - 2))
    {
      EndsIff(plan, units, rounds, i);
    }
    if i: nat :| ThreeInARow(plan, units, rounds, i) {
      assert Ends(plan, units, rounds, i + 2);
    }
  }

  // ---------------------------------------------------------------------------------------------
  // finish
  // ---------------------------------------------------------------------------------------------

  /** Cleanup is complete when every live unit terminated without error and no container carrying
      the run's label is left. */
  predicate CleanedUp(b: Backend, live: nat)
  {
    && (forall k | 0 <= k < live :: b.terminate(k).None?)
    && b.remaining.Ok? && b.remaining.value <= 0
  }

  /** The single terminal event of a run. */
  function TerminalEvent(opts: Options, cause: Error, complete: bool, dockerLost: bool): Event
  {
    if !complete then
      var code := if cause.failure.Some? then cause.failure.value.code
                  else if dockerLost then DockerUnavailable
                  else NO_CODE;
      var devices := if cause.failure.Some? then cause.failure.value.devices else [];
      Failed(FailedEvent(opts.runID, Cleanup, CleanupFailed, code, false, devices))
    else if cause.failure.Some? then
      var f := cause.failure.value;
      Failed(FailedEvent(opts.runID, f.phase, f.code, NO_CODE, true, f.devices))
    else Stopped(opts.runID, if opts.signals > 0 then "signal" else "canceled")
  }

  /** The terminal event is one the writer accepts unless its cause is off the matrix and nothing
      outranks it. */
  lemma {:induction false} TerminalEventPublishableIff(opts: Options, cause: Error, complete: bool, dockerLost: bool)
    ensures Publishable(TerminalEvent(opts, cause, complete, dockerLost)) <==> !complete || Reportable(cause)
  {
  }

  /** What the terminal event tells: the run, how the cleanup went, and the cause, whose devices it
      names either way; a stop says whether a signal asked for it. */
  lemma {:induction false} TerminalEventTells(opts: Options, cause: Error, complete: bool, dockerLost: bool)
    ensures var ev, f := TerminalEvent(opts, cause, complete, dockerLost), cause.failure;
            && ev.Terminal()
            && (ev.Stopped? <==> complete && f.None?)
            && (ev.Stopped? ==>
                  ev.runID == opts.runID && ev.reason == if opts.signals == 0 then "canceled" else "signal")
            && (ev.Failed? ==>
                  && ev.payload.runID == opts.runID && ev.payload.cleanupComplete == complete
                  && ev.payload.devices == (if f.None? then [] else f.value.devices))
            && (ev.Failed? && complete ==>
                  (ev.payload.code, ev.payload.phase, ev.payload.cause) == (f.value.code, f.value.phase, NO_CODE))
            && (!complete ==> ev.payload.code == CleanupFailed && ev.payload.phase == Cleanup)
            && (!complete && f.Some? ==> ev.payload.cause == f.value.code)
            && (!complete && f.None? ==> ev.payload.cause == if dockerLost then DockerUnavailable else NO_CODE)
  {
  }

  // ---------------------------------------------------------------------------------------------
  // What the environment is trusted with
  // ---------------------------------------------------------------------------------------------

  function TheBackend(opts: Options): Option<Backend>
  {
    if opts.backend.Some? then opts.backend
    else if opts.newBackend.Ok? then Some(opts.newBackend.value)
    else None
  }

  predicate OptionReportable(err: Option<Error>)
  {
    err.Some? ==> Reportable(err.value)
  }

  ghost predicate BackendOnMatrix(b: Backend)
  {
    && OptionReportable(b.checkDaemon) && OptionReportable(b.checkNetwork)
    && (forall p :: OptionReportable(b.checkCapabilities(p)) && OptionReportable(b.prepare(p)))
    && (forall i :: OptionReportable(b.launch(i).err))
    && (forall k :: OptionReportable(b.waitHealthy(k)))
    && (forall k :: b.inspect(k).Lost? ==> Reportable(b.inspect(k).err))
    && (forall i, k: nat | 0 <= i < |b.rounds|
        && b.rounds[i].inspect(k).Lost? :: Reportable(b.rounds[i].inspect(k).err))
  }

  /** The parent context carries no deadline, so the run context can only ever be canceled. */
  ghost predicate NoParentDeadline(b: Backend)
  {
    && b.ending == Canceled
    && forall i | 0 <= i < |b.rounds| ::
         DeadlineExceeded !in {b.rounds[i].top, b.rounds[i].select, b.rounds[i].onLoss}
  }

  /** The reaper check and the backend report failures the protocol knows. */
  ghost predicate Labelled(opts: Options)
  {
    && (opts.reaper.Some? ==> opts.reaper.value.failure.Some? && Reportable(opts.reaper.value))
    && (opts.newBackend.Err? ==> Reportable(opts.newBackend.error))
    && (TheBackend(opts).Some? ==> BackendOnMatrix(TheBackend(opts).value))
  }

  /** And the parent context has no deadline of its own. */
  ghost predicate Trusted(opts: Options)
  {
    Labelled(opts) && (TheBackend(opts).Some? ==> NoParentDeadline(TheBackend(opts).value))
  }

  /** Some look at the run's contexts found them canceled. */
  ghost predicate CancellationSeen(opts: Options)
  {
    (exists p :: opts.ctx(p) == Canceled) || (TheBackend(opts).Some? && MonitorCanceled(TheBackend(opts).value))
  }

  ghost predicate MonitorCanceled(b: Backend)
  {
    || b.ending == Canceled
    || exists i :: 0 <= i < |b.rounds| && Canceled in {b.rounds[i].top, b.rounds[i].select, b.rounds[i].onLoss}
  }

  lemma {:induction false} AttachmentErrorReportable(plan: Plan, b: Backend, ctx: Point -> Ctx, unit: Unit, k: nat)
    requires BackendOnMatrix(b)
    ensures OptionReportable(AttachmentError(plan, b, ctx, unit, k))
  {
    if b.inspect(k).Seen? {
      AttachmentAcceptedIff(plan, unit, b.inspect(k).state, "");
    }
  }

  lemma {:induction false} HealthVerdictReportable(plan: Plan, b: Backend, ctx: Point -> Ctx, live: seq<LiveUnit>)
    requires BackendOnMatrix(b)
    ensures OptionReportable(HealthVerdict(plan, b, ctx, live))
  {
    hide AttachmentError, HealthErrors;
    var problems := AttachmentErrors(plan, b, ctx, live);
    var a := FirstError(problems);
    if a < |live| {
      AttachmentErrorReportable(plan, b, ctx, live[a].unit, a);
    }
  }

  lemma {:induction false} StartVerdictReportable(plan: Plan, b: Backend, ctx: Point -> Ctx)
    requires BackendOnMatrix(b)
    ensures OptionReportable(StartVerdict(plan, b, ctx))
  {
    HealthVerdictReportable(plan, b, ctx, LiveOf(plan, b.launch, |plan.units|));
  }

  /** The look that ends the monitor finds a deadline, which only a parent context can have. */
  ghost predicate EndedByDeadline(plan: Plan, units: seq<LiveUnit>, b: Backend, i: nat)
    requires AllInspected(units) && i <= |b.rounds|
  {
    if i == |b.rounds| then b.ending == DeadlineExceeded
    else
      var r := b.rounds[i];
      if r.top != Live then r.top == DeadlineExceeded
      else if r.select != Live then r.select == DeadlineExceeded
      else exists k: nat :: FirstUnclean(plan, units, r, k) && DeadlineBlamed(r, k)
  }

  predicate DeadlineBlamed(r: Round, k: nat)
  {
    r.onLoss == DeadlineExceeded && r.inspect(k).Lost? && r.inspect(k).err.deadline
  }

  /** What monitor returns is reportable if and only if it is not ended by a deadline: phase runtime
      has no startup_timeout, so a parent context with a deadline ends it with a failure no writer
      publishes. */
  lemma {:induction false} VerdictReportableIff(plan: Plan, units: seq<LiveUnit>, b: Backend, i: nat, err: Error)
    requires AllInspected(units) && i <= |b.rounds| && Verdict(plan, units, b, i, err)
    requires BackendOnMatrix(b)
    ensures Reportable(err) <==> !EndedByDeadline(plan, units, b, i)
    ensures EndedByDeadline(plan, units, b, i) ==>
              err.failure.Some? && err.failure.value.code == StartupTimeout && err.failure.value.phase == Runtime
  {
    if i < |b.rounds| && b.rounds[i].top == Live && b.rounds[i].select == Live {
      var r := b.rounds[i];
      var k: nat :| FirstUnclean(plan, units, r, k) && err == UncleanError(plan, units, r, k);
      forall j: nat | FirstUnclean(plan, units, r, j)
        ensures j == k
      {
        FirstUncleanIsUnique(plan, units, r, j, k);
      }
      UncleanReportableIff(plan, units, r, k);
    }
  }

  lemma {:induction false} UncleanReportableIff(plan: Plan, units: seq<LiveUnit>, r: Round, k: nat)
    requires k < |units| && units[k].baseline.Some? && !Clean(plan, units, r, k)
    requires r.inspect(k).Lost? ==> Reportable(r.inspect(k).err)
    ensures var err := UncleanError(plan, units, r, k);
            && (Reportable(err) <==> !DeadlineBlamed(r, k))
            && (DeadlineBlamed(r, k) ==>
                  err.failure.Some? && err.failure.value.code == StartupTimeout && err.failure.value.phase == Runtime)
  {
    match r.inspect(k)
    case Lost(e) => ClassifyStaysOnMatrixIff(r.onLoss, e, DockerUnavailable, Runtime);
    case Seen(state) => RuntimeStateCleanIff(plan, units[k].unit, units[k].baseline.value, state);
  }

  lemma {:induction false} EndsAtIsUnique(plan: Plan, units: seq<LiveUnit>, rounds: seq<Round>, i: nat, j: nat)
    requires AllInspected(units) && EndsAt(plan, units, rounds, i) && EndsAt(plan, units, rounds, j)
    ensures i == j
  {
    hide Ends;
  }

  lemma {:induction false} NoDeadlineEnds(plan: Plan, units: seq<LiveUnit>, b: Backend, i: nat)
    requires AllInspected(units) && i <= |b.rounds| && NoParentDeadline(b)
    ensures !EndedByDeadline(plan, units, b, i)
  {
    if i < |b.rounds| {
      assert DeadlineExceeded !in {b.rounds[i].top, b.rounds[i].select, b.rounds[i].onLoss};
    }
  }

  lemma {:induction false} StartVerdictStopsOnlyOnCancellation(plan: Plan, b: Backend, ctx: Point -> Ctx)
    requires StartVerdict(plan, b, ctx).Some? && StartVerdict(plan, b, ctx).value.failure.None?
    ensures exists p :: ctx(p) == Canceled
  {
    var live := LiveOf(plan, b.launch, |plan.units|);
    var l := FirstError(LaunchErrors(b, |plan.units|));
    var h := FirstError(HealthErrors(b, |live|));
    var a := FirstError(AttachmentErrors(plan, b, ctx, live));
    assert Canceled in {ctx(AtLaunch(l)), ctx(AfterLaunch), ctx(AtHealth(h)), ctx(AfterHealth), ctx(AtInspect(a)),
           ctx(AfterInspect)};
  }

  lemma {:induction false} VerdictStopsOnlyOnCancellation(plan: Plan, units: seq<LiveUnit>, b: Backend, i: nat,
                                                          err: Error)
    requires AllInspected(units) && i <= |b.rounds| && Verdict(plan, units, b, i, err)
    requires err.failure.None?
    ensures MonitorCanceled(b)
  {
    if i < |b.rounds| {
      var r := b.rounds[i];
      assert Canceled in {r.top, r.select, r.onLoss} by {
        if r.top == Live && r.select == Live {
          var k: nat :| FirstUnclean(plan, units, r, k) && err == UncleanError(plan, units, r, k);
        }
      }
    }
  }

  /** What validate hands to start. */
  ghost predicate Planned(opts: Options, plan: Plan, ids: seq<Identity>)
  {
    && opts.request.Some? && Acceptable(opts.request.value) && Allocated(opts.request.value, ids)
    && opts.config.Some? && PlanOf(opts, opts.config.value, ids, plan) && IndexedByPosition(ids)
  }

  lemma {:induction false} AllocatedAreIndexed(devices: seq<RequestDevice>, ids: seq<Identity>)
    requires Allocated(devices, ids)
    ensures IndexedByPosition(ids)
  {
    forall i: nat | i < |ids|
      ensures ids[i].index == i
    {
      assert ResolvedFrom(Supplied(devices[i], i), ids[i]);
    }
  }

  lemma {:induction false} PrepareErrorReportable(opts: Options, b: Backend, plan: Plan)
    requires PrepareVerdict(opts, b, plan).Err?
    ensures BackendOnMatrix(b) ==> Reportable(PrepareVerdict(opts, b, plan).error)
    ensures PrepareVerdict(opts, b, plan).error.failure.None? ==> exists p :: opts.ctx(p) == Canceled
  {
  }

  /** A failing validate reports a failure on the matrix, or a stop only after a cancellation. */
  lemma {:induction false} ValidateErrorReportable(opts: Options, ids: seq<Identity>, err: Error)
    requires ValidateVerdict(opts, ids, Err(err)) && Labelled(opts)
    ensures Reportable(err)
    ensures err.failure.None? ==> exists p :: opts.ctx(p) == Canceled
  {
    if TheBackend(opts).Some? && opts.request.Some? && opts.config.Some? {
      var resolved := AllocateResult(opts.request.value, opts.random).0;
      if resolved.Some? {
        PlanningErrorReportable(opts, TheBackend(opts).value, opts.config.value, ids, err);
      }
    }
  }

  lemma {:induction false} PlanningErrorReportable(opts: Options, b: Backend, config: RuntimeConfig, ids: seq<Identity>,
                                                   err: Error)
    requires PlanningVerdict(opts, b, config, ids, Err(err)) && BackendOnMatrix(b)
    requires opts.reaper.Some? ==> opts.reaper.value.failure.Some? && Reportable(opts.reaper.value)
    ensures Reportable(err)
    ensures err.failure.None? ==> exists p :: opts.ctx(p) == Canceled
  {
    if exists plan :: PlanOf(opts, config, ids, plan) && Err(err) == PrepareVerdict(opts, b, plan) {
      var plan :| PlanOf(opts, config, ids, plan) && Err(err) == PrepareVerdict(opts, b, plan);
      PrepareErrorReportable(opts, b, plan);
    }
  }
}
