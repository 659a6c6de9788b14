/** internal/herder/run.go: the state machine of one herder run. */
module Run {
  import opened Prelude
  import opened Protocol
  import opened Allocation
  import opened Planning
  import opened Readiness
  import opened RunModel
  import opened ReadyDevices

  const EXIT_OK := 0
  const EXIT_FAILURE := 1

  /** One Terminate per live unit. */
  function Terminations(units: seq<LiveUnit>): (ts: seq<Action>)
    ensures |ts| == |units|
  {
    seq(|units|, k requires 0 <= k < |units| => Terminate(k, units[k].inst))
  }

  /** Whatever order the terminations came in, each live unit's is among them once. */
  lemma {:induction false} EachUnitTerminatedOnce(units: seq<LiveUnit>, ts: seq<Action>, k: nat)
    requires multiset(ts) == multiset(Terminations(units)) && k < |units|
    ensures multiset(ts)[Terminate(k, units[k].inst)] == 1
  {
    var all := Terminations(units);
    assert all == all[..k] + [all[k]] + all[k + 1..];
    assert all[k] !in all[..k] && all[k] !in all[k + 1..];
  }

  function Launches(n: nat): (ls: seq<Action>)
    ensures |ls| == n
  {
    seq(n, i requires 0 <= i < n => Launch(i))
  }

  /** One run told in order: what was planned and launched, the ready devices submitted, why the run
      ended, the terminations, and the terminal event submitted (the last two are None when
      `started` could not be written). */
  datatype Story = Story(plan: Option<Plan>, ids: seq<Identity>, launches: seq<Action>,
                         ready: Option<seq<ReadyDevice>>, cause: Option<Error>, terminations: seq<Action>,
                         ev: Option<Event>)

  /** Before anything but `started` was submitted. */
  const UNTOLD := Story(None, [], [], None, None, [], None)

  function Only<T>(x: Option<T>, f: T -> Action): seq<Action>
  {
    if x.Some? then [f(x.value)] else []
  }

  /** The log a story tells. */
  function LogOf(runID: string, s: Story): seq<Action>
  {
    [Submitted(Started(runID))] + s.launches + Only(s.ready, (d: seq<ReadyDevice>) => Submitted(Ready(runID, d)))
    + s.terminations + Only(s.ev, (ev: Event) => Submitted(ev))
  }

  /** What a reader of stdout has been told: the story's submissions, each as it was made, as far as
      they were written. */
  function StreamOf(runID: string, s: Story, ready: bool, ending: bool): seq<Event>
  {
    [Started(runID)] + (if ready && s.ready.Some? then [Ready(runID, s.ready.value)] else [])
    + (if ending && s.ev.Some? then [s.ev.value] else [])
  }

  lemma {:induction false} StreamGrows(runID: string, s: Story, d: seq<ReadyDevice>, cause: Option<Error>,
                                       ts: seq<Action>, ev: Event, ready: bool)
    requires s.ev.None?
    ensures var whole := s.(cause := cause, terminations := ts, ev := Some(ev));
            && StreamOf(runID, whole, ready, true) == StreamOf(runID, s, ready, false) + [ev]
            && StreamOf(runID, whole, ready, false) == StreamOf(runID, s, ready, false)
    ensures var told := s.(ready := Some(d));
            && StreamOf(runID, told, true, false) == [Started(runID)] + [Ready(runID, d)]
            && StreamOf(runID, told, false, false) == [Started(runID)]
  {
  }

  lemma {:induction false} LogGrows(runID: string, s: Story, ls: seq<Action>, d: seq<ReadyDevice>,
                                    cause: Error, ts: seq<Action>, ev: Event)
    requires s.terminations == [] && s.ev.None?
    ensures LogOf(runID, s.(cause := Some(cause), terminations := ts, ev := Some(ev))) ==
            LogOf(runID, s) + ts + [Submitted(ev)]
    ensures s.ready.None? ==> LogOf(runID, s.(ready := Some(d))) == LogOf(runID, s) + [Submitted(Ready(runID, d))]
    ensures s.ready.None? && s.launches == [] ==> LogOf(runID, s.(launches := ls)) == LogOf(runID, s) + ls
  {
  }

  lemma {:induction false} LogTellsNoPlan(runID: string, s: Story, plan: Option<Plan>, ids: seq<Identity>)
    ensures LogOf(runID, s.(plan := plan, ids := ids)) == LogOf(runID, s)
  {
  }

  /** The live units are exactly the handles Launch returned, in plan order. */
  ghost predicate Handled(opts: Options, units: seq<LiveUnit>, s: Story)
  {
    match s.plan
    case None => units == [] && s.launches == [] && s.ready.None?
    case Some(plan) =>
      && TheBackend(opts).Some? && Planned(opts, plan, s.ids)
      && multiset(s.launches) == multiset(Launches(|plan.units|)) && (forall x | x in s.launches :: x.Launch?)
      && SameContainers(units, LiveOf(plan, TheBackend(opts).value.launch, |plan.units|))
  }

  /** A ready event in the stream is the one submitted, and says what the plan promised. */
  ghost predicate ReadySaid(opts: Options, units: seq<LiveUnit>, s: Story, written: seq<Event>)
  {
    forall ev | ev in written && ev.Ready? ::
      && s.ready == Some(ev.devices) && s.plan.Some? && TheBackend(opts).Some?
      && (Faithful(s.ids, s.plan.value, TheBackend(opts).value, units, ev.devices) <==>
          AllLaunched(TheBackend(opts).value.launch, |s.plan.value.units|))
  }

  /** Why the run ended: the check validate failed at; else what start returned; else, once ready was
      submitted, a refused ready event or the verdict of the monitor. */
  ghost predicate Because(opts: Options, units: seq<LiveUnit>, s: Story, readyWritten: bool, cause: Error)
  {
    match s.plan
    case None => ValidateVerdict(opts, s.ids, Err(cause)) && s.ready.None?
    case Some(plan) =>
      && TheBackend(opts).Some? && ValidateVerdict(opts, s.ids, Ok(plan))
      && var b := TheBackend(opts).value;
         var start := StartVerdict(plan, b, opts.ctx);
         if start.Some? then cause == start.value && s.ready.None?
         else s.ready.Some? && EndedUp(opts, plan, b, units, readyWritten, cause)
  }

  /** Why a run that came up ended. */
  ghost predicate EndedUp(opts: Options, plan: Plan, b: Backend, units: seq<LiveUnit>, readyWritten: bool, cause: Error)
  {
    && AllInspected(units) && (forall k: nat | k < |units| :: Inspected(plan, b, units, k))
    && if !readyWritten then cause == ERR_STOPPED
       else exists i: nat :: EndsAt(plan, units, b.rounds, i) && Verdict(plan, units, b, i, cause)
  }

  /** Every live unit is terminated exactly once, and then the one terminal event that the cause and
      the cleanup call for is submitted. */
  ghost predicate Ended(opts: Options, units: seq<LiveUnit>, s: Story)
  {
    && s.cause.Some?
    && (forall x | x in s.terminations :: x.Terminate?)
    && multiset(s.terminations) == multiset(Terminations(units))
    && s.ev == Some(TerminalEvent(opts, s.cause.value, Complete(opts, |units|), DockerLost(opts)))
  }

  /** Without a backend there is nothing to clean up. */
  predicate Complete(opts: Options, live: nat)
  {
    TheBackend(opts).Some? ==> CleanedUp(TheBackend(opts).value, live)
  }

  predicate DockerLost(opts: Options)
  {
    TheBackend(opts).Some? && TheBackend(opts).value.remaining.Err?
  }

  /** The exit status of a run, given its terminal event and whether a stop was written. */
  function ExitOf(ev: Event, stopWritten: bool): int
  {
    if ev.Failed? && ev.payload.cleanupComplete then ExitStatus(ev.payload.code)
    else if ev.Stopped? && stopWritten then EXIT_OK
    else EXIT_FAILURE
  }

  predicate ReadyWritten(written: seq<Event>)
  {
    exists ev | ev in written :: ev.Ready?
  }

  predicate StoppedWritten(written: seq<Event>)
  {
    exists ev | ev in written :: ev.Stopped?
  }

  predicate ReportsIncomplete(ev: Event)
  {
    ev.Failed? && !ev.payload.cleanupComplete && ev.payload.code == CleanupFailed
  }

  /** A failure with a code outside the matrix after a complete cleanup: the writer refuses it, and
      the zero row it reads gives exit status 0. */
  predicate ReadsZeroRow(ev: Event)
  {
    ev.Failed? && ev.payload.cleanupComplete && ev.payload.code.Unlisted?
  }

  /** What one terminal submission does to a stream that has none yet: over a working stdout it ends
      the stream exactly when the event is on the matrix. */
  lemma {:induction false} EndingIsWritten(accepts: nat -> bool, w: WriterState, ev: Event)
    requires WriterInv(accepts, w) && w.started && !w.terminal && ev.Terminal()
    ensures var w' := Submit(accepts, w, ev).0;
            && (StoppedWritten(w'.written) <==> ev.Stopped? && Submit(accepts, w, ev).1.None?)
            && (StoppedWritten(w'.written) <==> ev.Stopped? && !w'.broken)
            && (!w'.broken ==> (w'.terminal <==> Publishable(ev)))
            && (w.broken ==> w'.broken)
            && (ReadyWritten(w'.written) <==> ReadyWritten(w.written))
            && (forall e | e in w'.written && e.Ready? :: e in w.written)
            && w'.written == w.written + (if w'.terminal then [ev] else [])
  {
    SubmitWritesIff(accepts, w, ev);
    var w' := Submit(accepts, w, ev).0;
    assert forall e | e in w'.written :: e in w.written || e == ev;
    assert forall e | e in w.written :: e in w'.written;
    if w'.written != w.written {
      assert w'.written[|w.written|] == ev;
    }
  }

  /** The ready submission of a stream that only started. */
  lemma {:induction false} ReadyIsWritten(accepts: nat -> bool, w: WriterState, ev: Event)
    requires WriterInv(accepts, w) && w.started && !w.terminal && !w.broken && !ReadyWritten(w.written) && ev.Ready?
    ensures var (w', refusal) := Submit(accepts, w, ev);
            && (ReadyWritten(w'.written) <==> !w'.broken)
            && (refusal.Some? <==> w'.broken)
            && w'.started && !w'.terminal
            && (forall e | e in w'.written && e.Ready? :: e == ev)
            && w'.written == w.written + (if w'.broken then [] else [ev])
  {
    SubmitWritesIff(accepts, w, ev);
    var w' := Submit(accepts, w, ev).0;
    assert forall k | 0 <= k < |w.written| :: w.written[k] in w.written;
    assert forall e | e in w'.written :: e in w.written || e == ev;
    if w'.written != w.written {
      assert w'.written[|w.written|] == ev;
    }
  }

  lemma {:induction false} SaidOfFewer(opts: Options, units: seq<LiveUnit>, s: Story, before: seq<Event>,
                                       after: seq<Event>)
    requires ReadySaid(opts, units, s, before) && forall e | e in after && e.Ready? :: e in before
    ensures ReadySaid(opts, units, s, after)
  {
    hide Faithful;
  }

  /** How a story ends does not bear on what came before. */
  lemma {:induction false} EndingTellsNothingElse(opts: Options, units: seq<LiveUnit>, s: Story, written: seq<Event>,
                                                  cause: Error, whole: Story)
    requires Handled(opts, units, s) && ReadySaid(opts, units, s, written)
    requires Because(opts, units, s, ReadyWritten(written), cause)
    requires whole == s.(cause := whole.cause, terminations := whole.terminations, ev := whole.ev)
    ensures Handled(opts, units, whole) && ReadySaid(opts, units, whole, written)
    ensures Because(opts, units, whole, ReadyWritten(written), cause)
  {
    hide ValidateVerdict, StartVerdict, EndedUp, Planned, Faithful;
  }

  // ---------------------------------------------------------------------------------------------
  // What a cause means
  // ---------------------------------------------------------------------------------------------

  /** The monitor was ended by a deadline, which only a parent context can have. */
  ghost predicate DeadlineEnded(opts: Options, units: seq<LiveUnit>, s: Story, readyWritten: bool)
  {
    && s.plan.Some? && TheBackend(opts).Some? && AllInspected(units) && readyWritten
    && StartVerdict(s.plan.value, TheBackend(opts).value, opts.ctx).None?
    && exists i: nat :: EndsAt(s.plan.value, units, TheBackend(opts).value.rounds, i)
                        && EndedByDeadline(s.plan.value, units, TheBackend(opts).value, i)
  }

  /** Over a backend that labels its own failures correctly, everything a run can end with is on the
      matrix, except for a deadline of the parent context that ends the monitor. */
  lemma {:induction false} CauseReportableIff(opts: Options, units: seq<LiveUnit>, s: Story, readyWritten: bool,
                                              cause: Error)
    requires Labelled(opts) && Because(opts, units, s, readyWritten, cause)
    ensures Reportable(cause) <==> !DeadlineEnded(opts, units, s, readyWritten)
  {
    if s.plan.None? {
      ValidateErrorReportable(opts, s.ids, cause);
    } else {
      var plan, b := s.plan.value, TheBackend(opts).value;
      StartVerdictReportable(plan, b, opts.ctx);
      if StartVerdict(plan, b, opts.ctx).None? && readyWritten {
        MonitorReportableIff(plan, b, units, cause);
      }
    }
  }

  lemma {:induction false} MonitorReportableIff(plan: Plan, b: Backend, units: seq<LiveUnit>, cause: Error)
    requires AllInspected(units) && BackendOnMatrix(b)
    requires exists i: nat :: EndsAt(plan, units, b.rounds, i) && Verdict(plan, units, b, i, cause)
    ensures Reportable(cause) <==>
            !exists i: nat :: EndsAt(plan, units, b.rounds, i) && EndedByDeadline(plan, units, b, i)
  {
    hide EndedByDeadline, Verdict, Ends, BackendOnMatrix, Reportable;
    var i: nat :| EndsAt(plan, units, b.rounds, i) && Verdict(plan, units, b, i, cause);
    VerdictReportableIff(plan, units, b, i, cause);
    forall j: nat | EndsAt(plan, units, b.rounds, j)
      ensures j == i
    {
      EndsAtIsUnique(plan, units, b.rounds, i, j);
    }
  }

  /** A stop that is not due to a refused ready event follows a cancellation. */
  lemma {:induction false} StopFollowsCancellation(opts: Options, units: seq<LiveUnit>, s: Story, readyWritten: bool,
                                                   cause: Error)
    requires Labelled(opts) && Because(opts, units, s, readyWritten, cause) && cause.failure.None?
    requires s.ready.Some? ==> readyWritten
    ensures CancellationSeen(opts)
  {
    if s.plan.None? {
      ValidateErrorReportable(opts, s.ids, cause);
    } else {
      var plan, b := s.plan.value, TheBackend(opts).value;
      if StartVerdict(plan, b, opts.ctx).Some? {
        StartVerdictStopsOnlyOnCancellation(plan, b, opts.ctx);
      } else {
        var i: nat :| EndsAt(plan, units, b.rounds, i) && Verdict(plan, units, b, i, cause);
        VerdictStopsOnlyOnCancellation(plan, units, b, i, cause);
      }
    }
  }

  class Run {
    const opts: Options
    const out: Writer
    var backend: Option<Backend>
    var phase: Phase
    var stopped: bool
    var units: seq<LiveUnit>
    /** What the run has done so far, in order. */
    var log: seq<Action>

    constructor (opts: Options, out: Writer)
      ensures this.opts == opts && this.out == out && backend == opts.backend
      ensures units == [] && log == [] && !stopped
    {
      this.opts, this.out, backend := opts, out, opts.backend;
      phase, stopped, units, log := Validate, false, [], [];
    }

    /** watchSignals over the signals delivered so far: only the first of a run asks for
        cancellation, every later one is drained. */
    method WatchSignals(signals: nat) returns (cancels: seq<nat>)
      modifies this`stopped
      ensures cancels == if old(stopped) || signals == 0 then [] else [0]
      ensures stopped <==> old(stopped) || signals > 0
    {
      cancels := [];
      for n := 0 to signals
        invariant stopped <==> old(stopped) || n > 0
        invariant cancels == if old(stopped) || n == 0 then [] else [0]
      {
        var first := !stopped;
        stopped := true;
        if first {
          cancels := cancels + [n];
        }
      }
    }

    /** The parallel launches of start: goroutines run and finish in any order, each writing only
        its own slot, so the slots end up holding the per-unit outcomes. */
    method LaunchAll(plan: Plan, b: Backend) returns (results: seq<Launched>, ghost ls: seq<Action>)
      modifies this`log
      ensures |results| == |plan.units| && forall i: nat | i < |results| :: results[i] == b.launch(i)
      ensures log == old(log) + ls && multiset(ls) == multiset(Launches(|plan.units|))
      ensures forall x | x in ls :: x.Launch?
    {
      var n := |plan.units|;
      results := seq(n, _ => Launched(None, None));
      var waiting := Launches(n);
      ls := [];
      assert forall i | 0 <= i < n :: waiting[i] == Launch(i);
      hide Launches, Without;
      while waiting != []
        invariant |results| == n
        invariant log == old(log) + ls && forall x | x in ls :: x.Launch?
        invariant multiset(ls) + multiset(waiting) == multiset(Launches(n))
        invariant forall w | w in waiting :: w.Launch? && w.unit < n
        invariant forall i: nat | i < n :: Launch(i) in waiting || results[i] == b.launch(i)
        decreases |waiting|
      {
        var k :| 0 <= k < |waiting|;
        var job := waiting[k];
        results := results[job.unit := b.launch(job.unit)];
        WithoutKeeps(waiting, k);
        waiting := Without(waiting, k);
        log, ls := log + [job], ls + [job];
      }
    }

    /** The parallel health waits, likewise. */
    method WaitAll(b: Backend) returns (errs: seq<Option<Error>>)
      ensures |errs| == |units| && forall k: nat | k < |errs| :: errs[k] == b.waitHealthy(k)
    {
      var n := |units|;
      errs := seq(n, _ => None);
      var waiting: seq<nat> := seq(n, k requires 0 <= k < n => k);
      forall k: nat | k < n
        ensures k in waiting
      {
        assert waiting[k] == k;
      }
      while waiting != []
        invariant |errs| == n
        invariant forall k | k in waiting :: k < n
        invariant forall k: nat | k < n :: k in waiting || errs[k] == b.waitHealthy(k)
        decreases |waiting|
      {
        var at :| 0 <= at < |waiting|;
        var k := waiting[at];
        assert k in waiting;
        errs := errs[k := b.waitHealthy(k)];
        WithoutKeeps(waiting, at);
        waiting := Without(waiting, at);
      }
    }

    /** The parallel terminations of cleanup: every live unit is terminated once, in any order. */
    method TerminateAll(b: Backend) returns (errs: seq<Option<Error>>, ghost ts: seq<Action>)
      modifies this`log
      ensures |errs| == |units| && forall k: nat | k < |errs| :: errs[k] == b.terminate(k)
      ensures log == old(log) + ts && multiset(ts) == multiset(Terminations(units))
      ensures forall x | x in ts :: x.Terminate?
    {
      ghost var live := units;
      var n := |units|;
      errs := seq(n, _ => None);
      var waiting := Terminations(units);
      ts := [];
      assert forall k | 0 <= k < n :: waiting[k] == Terminate(k, live[k].inst);
      hide Terminations, Without;
      while waiting != []
        invariant |errs| == n
        invariant log == old(log) + ts && forall x | x in ts :: x.Terminate?
        invariant multiset(ts) + multiset(waiting) == multiset(Terminations(live))
        invariant forall w | w in waiting :: w.Terminate? && w.position < n && w.inst == live[w.position].inst
        invariant forall k: nat | k < n :: Terminate(k, live[k].inst) in waiting || errs[k] == b.terminate(k)
        decreases |waiting|
      {
        var at :| 0 <= at < |waiting|;
        var job := waiting[at];
        assert job in waiting;
        errs := errs[job.position := b.terminate(job.position)];
        WithoutKeeps(waiting, at);
        waiting := Without(waiting, at);
        log, ts := log + [job], ts + [job];
      }
    }

    /** start: bring every planned unit up, wait for health, then check the topology. */
    method StartUnits(plan: Plan, b: Backend) returns (err: Option<Error>, ghost ls: seq<Action>)
      requires units == []
      modifies this
      ensures backend == old(backend) && stopped == old(stopped)
      ensures log == old(log) + ls && multiset(ls) == multiset(Launches(|plan.units|))
      ensures forall x | x in ls :: x.Launch?
      ensures err == StartVerdict(plan, b, opts.ctx)
      ensures err.None? <==> ComesUp(plan, b, opts.ctx)
      ensures err.Some? ==> FirstFailure(plan, b, opts.ctx, err.value)
      ensures SameContainers(units, LiveOf(plan, b.launch, |plan.units|))
      ensures err.None? ==> forall k: nat | k < |units| :: Inspected(plan, b, units, k)
    {
      hide ComesUp, FirstFailure, LiveOf;
      StartVerdictMeans(plan, b, opts.ctx);
      phase := Start;
      var results;
      results, ls := LaunchAll(plan, b);
      var first := Record(plan, b, results);
      if first.Some? {
        return first, ls;
      }
      if opts.ctx(AfterLaunch) != Live {
        return Some(Classify(opts.ctx(AfterLaunch), CtxError(opts.ctx(AfterLaunch)), StartupTimeout, Start)), ls;
      }
      err := HealthThenInspect(plan, b);
    }

    /** Everything that came up is recorded before a failure is reported. */
    method Record(plan: Plan, b: Backend, results: seq<Launched>) returns (first: Option<Error>)
      requires |results| == |plan.units| && forall i: nat | i < |results| :: results[i] == b.launch(i)
      requires units == []
      modifies this`units
      ensures units == LiveOf(plan, b.launch, |plan.units|)
      ensures first == LaunchVerdict(plan, b, opts.ctx, |plan.units|)
    {
      first := None;
      for i := 0 to |results|
        invariant units == LiveOf(plan, b.launch, i)
        invariant first == LaunchVerdict(plan, b, opts.ctx, i)
      {
        assert LaunchErrors(b, i + 1)[..i] == LaunchErrors(b, i);
        if results[i].inst.Some? {
          units := units + [LiveUnit(plan.units[i], results[i].inst.value, None, "")];
        }
        if results[i].err.Some? && first.None? {
          first := Some(ClassifyUnit(opts.ctx(AtLaunch(i)), results[i].err.value, ContainerStartFailed, Start,
                                     plan.units[i]));
        }
      }
    }

    method HealthThenInspect(plan: Plan, b: Backend) returns (err: Option<Error>)
      modifies this`phase, this`units
      ensures err == HealthVerdict(plan, b, opts.ctx, old(units))
      ensures err.None? <==> StaysUp(plan, b, opts.ctx, old(units))
      ensures err.Some? ==> FirstFailureUp(plan, b, opts.ctx, old(units), err.value)
      ensures SameContainers(units, old(units))
      ensures err.None? ==> forall k: nat | k < |units| :: Inspected(plan, b, units, k)
    {
      hide StaysUp, FirstFailureUp;
      HealthVerdictMeans(plan, b, opts.ctx, units);
      phase := Health;
      var waitErrs := WaitAll(b);
      assert waitErrs == HealthErrors(b, |units|);
      for i := 0 to |waitErrs|
        invariant forall j: nat | j < i :: waitErrs[j].None?
      {
        if waitErrs[i].Some? {
          return Some(ClassifyUnit(opts.ctx(AtHealth(i)), waitErrs[i].value, DeviceUnhealthy, Health, units[i].unit));
        }
      }
      if opts.ctx(AfterHealth) != Live {
        return Some(Classify(opts.ctx(AfterHealth), CtxError(opts.ctx(AfterHealth)), StartupTimeout, Health));
      }
      var problem := InspectAll(plan, b);
      if problem.Some? {
        return problem;
      }
      if opts.ctx(AfterInspect) != Live {
        return Some(Classify(opts.ctx(AfterInspect), CtxError(opts.ctx(AfterInspect)), StartupTimeout, Start));
      }
      return None;
    }

    /** The topology check that ends start. */
    method InspectAll(plan: Plan, b: Backend) returns (problem: Option<Error>)
      modifies this`phase, this`units
      ensures var problems := AttachmentErrors(plan, b, opts.ctx, old(units));
              problem == if FirstError(problems) < |problems| then problems[FirstError(problems)] else None
      ensures SameContainers(units, old(units))
      ensures problem.None? ==> forall k: nat | k < |units| :: Inspected(plan, b, units, k)
    {
      phase := Start;
      ghost var problems := AttachmentErrors(plan, b, opts.ctx, units);
      for k := 0 to |units|
        invariant SameContainers(units, old(units))
        invariant forall j: nat | j < k :: Inspected(plan, b, units, j)
        invariant forall j: nat | j < k :: problems[j].None?
      {
        assert units[k].unit == old(units)[k].unit;
        match b.inspect(k) {
          case Lost(e) =>
            return Some(ClassifyUnit(opts.ctx(AtInspect(k)), e, DockerUnavailable, Start, units[k].unit));
          case Seen(state) =>
            match CheckAttachment(plan, units[k].unit, state) {
              case Err(f) =>
                return Some(WithDevices(Error(false, false, Some(f)), units[k].unit));
              case Ok(ip) =>
                InspectedOneMore(plan, b, old(units), units, k, state, ip);
                units := units[k := units[k].(baseline := Some(state), ip := ip)];
                assert problems[k].None?;
            }
        }
      }
      return None;
    }

    /** monitor: poll the live units until a round ends the run.  at is the round it returned in, or
        the number of rounds when the context ended the run between polls. */
    method Monitor(plan: Plan, b: Backend) returns (err: Error, at: nat)
      requires AllInspected(units)
      modifies this`phase
      ensures EndsAt(plan, units, b.rounds, at) && Verdict(plan, units, b, at, err)
    {
      phase := Runtime;
      var consecutive := 0;
      at := 0;
      while at < |b.rounds|
        invariant at <= |b.rounds| && 0 <= consecutive < DOCKER_FAILURE_LIMIT && consecutive <= at
        invariant forall i: nat | i < at :: !Ends(plan, units, b.rounds, i)
        invariant forall i | at - consecutive <= i < at :: Loses(plan, units, b.rounds[i])
        invariant consecutive < at ==> !Loses(plan, units, b.rounds[at - consecutive - 1])
      {
        var r := b.rounds[at];
        if r.top != Live {
          return Classify(r.top, CtxError(r.top), DockerUnavailable, Runtime), at;
        }
        if r.select != Live {
          return Classify(r.select, CtxError(r.select), DockerUnavailable, Runtime), at;
        }
        var lost := false;
        var k := 0;
        while k < |units|
          invariant 0 <= k <= |units| && !lost
          invariant forall j: nat | j < k :: Clean(plan, units, r, j)
        {
          match r.inspect(k) {
            case Lost(e) =>
              LosingRoundDoesNotViolate(plan, units, r, k);
              consecutive := consecutive + 1;
              if consecutive >= DOCKER_FAILURE_LIMIT {
                return ClassifyUnit(r.onLoss, e, DockerUnavailable, Runtime, units[k].unit), at;
              }
              lost := true;
              break;
            case Seen(state) =>
              var violation := CheckRuntimeState(plan, units[k].unit, units[k].baseline.value, state);
              if violation.Some? {
                assert FirstUnclean(plan, units, r, k);
                return WithDevices(Error(false, false, violation), units[k].unit), at;
              }
          }
          k := k + 1;
        }
        if !lost {
          CleanRoundHasNoUnclean(plan, units, r);
          consecutive := 0;
        }
        at := at + 1;
      }
      return Classify(b.ending, CtxError(b.ending), DockerUnavailable, Runtime), at;
    }

    /** cleanup: terminate every live unit, then confirm that nothing remains. */
    method CleanUp() returns (complete: bool, dockerLost: bool, ghost ts: seq<Action>)
      modifies this`log
      ensures log == old(log) + ts && forall x | x in ts :: x.Terminate?
      ensures backend.None? ==> complete && !dockerLost && ts == []
      ensures backend.Some? ==>
                && multiset(ts) == multiset(Terminations(units))
                && (complete <==> CleanedUp(backend.value, |units|))
                && (dockerLost <==> backend.value.remaining.Err?)
    {
      if backend.None? {
        return true, false, [];
      }
      var b := backend.value;
      var errs;
      errs, ts := TerminateAll(b);
      complete := true;
      for k := 0 to |errs|
        invariant complete <==> forall j | 0 <= j < k :: b.terminate(j).None?
      {
        if errs[k].Some? {
          complete := false;
        }
      }
      if b.remaining.Err? {
        return false, true, ts;
      }
      if b.remaining.value > 0 {
        return false, false, ts;
      }
      return complete, false, ts;
    }

    /** finish: the one ending every run shares.  The terminations come first, whatever the cause,
        and the terminal event is the last thing submitted. */
    method Finish(cause: Error) returns (exit: int, ghost ts: seq<Action>, ev: Event)
      requires out.Valid() && !stopped
      modifies this`log, this`stopped, out
      ensures out.Valid()
      ensures log == old(log) + ts + [Submitted(ev)] && ev.Terminal() && forall x | x in ts :: x.Terminate?
      ensures backend.None? ==> ts == [] && ev == TerminalEvent(opts, cause, true, false)
      ensures backend.Some? ==>
                && multiset(ts) == multiset(Terminations(units))
                && ev == TerminalEvent(opts, cause, CleanedUp(backend.value, |units|), backend.value.remaining.Err?)
      ensures out.State() == Submit(out.accepts, old(out.State()), ev).0
      ensures exit == ExitOf(ev, Submit(out.accepts, old(out.State()), ev).1.None?)
    {
      hide WriterInv, Submit, ExitStatus, CleanedUp, Terminations;
      var complete, dockerLost;
      complete, dockerLost, ts := CleanUp();
      var _ := WatchSignals(opts.signals);
      if !complete {
        var code := NO_CODE;
        if cause.failure.Some? {
          code := cause.failure.value.code;
        } else if dockerLost {
          code := DockerUnavailable;
        }
        var devices := if cause.failure.Some? then cause.failure.value.devices else [];
        ev := Failed(FailedEvent(opts.runID, Cleanup, CleanupFailed, code, false, devices));
        var _ := out.EmitFailed(ev.payload);
        exit := EXIT_FAILURE;
      } else if cause.failure.Some? {
        var f := cause.failure.value;
        ev := Failed(FailedEvent(opts.runID, f.phase, f.code, NO_CODE, true, f.devices));
        var _ := out.EmitFailed(ev.payload);
        exit := ExitStatus(f.code);
      } else {
        var reason := if stopped then "signal" else "canceled";
        ev := Stopped(opts.runID, reason);
        var refused := out.EmitStopped(opts.runID, reason);
        exit := if refused.None? then EXIT_OK else EXIT_FAILURE;
      }
      log := log + [Submitted(ev)];
    }

    /** validate: everything that is checked before the first container exists. */
    method ValidateRequest() returns (planned: Result<Plan, Error>, ids: seq<Identity>)
      requires backend == opts.backend
      modifies this`phase, this`backend
      ensures backend == TheBackend(opts)
      ensures ValidateVerdict(opts, ids, planned)
      ensures planned.Ok? ==> backend.Some? && Planned(opts, planned.value, ids)
    {
      ids := [];
      phase := Validate;
      if backend.None? {
        if opts.newBackend.Err? {
          return Err(Classify(opts.ctx(AtBackend), opts.newBackend.error, DockerUnavailable, Validate)), [];
        }
        backend := Some(opts.newBackend.value);
      }
      if opts.request.None? {
        return Err(Failing(InvalidRequest, Validate)), [];
      }
      if opts.config.None? {
        return Err(Failing(InvalidRuntimeConfig, Validate)), [];
      }
      var resolved, used := Allocate(opts.request.value, opts.random);
      if resolved.None? {
        return Err(Failing(InvalidRequest, Validate)), [];
      }
      ids := resolved.value;
      AllocatedAreIndexed(opts.request.value, ids);
      planned := ValidateIdentities(backend.value, opts.config.value, ids);
    }

    /** The rest of validate, once the identities are known. */
    method ValidateIdentities(b: Backend, config: RuntimeConfig, ids: seq<Identity>)
      returns (planned: Result<Plan, Error>)
      requires IndexedByPosition(ids)
      modifies this`phase
      ensures PlanningVerdict(opts, b, config, ids, planned)
      ensures planned.Ok? ==> PlanOf(opts, config, ids, planned.value)
    {
      hide Unmapped;
      if !opts.informURLValid {
        return Err(Failing(InformURLInvalid, Validate));
      }
      if opts.reaper.Some? {
        return Err(opts.reaper.value);
      }
      if b.checkDaemon.Some? {
        return Err(Classify(opts.ctx(AtDaemon), b.checkDaemon.value, DockerUnavailable, Validate));
      }
      if b.checkNetwork.Some? {
        return Err(Classify(opts.ctx(AtNetwork), b.checkNetwork.value, NetworkNotFound, Validate));
      }
      var plan := BuildPlan(PlanInput(opts.runID, opts.network, opts.informURL, ids, config, opts.syntheticImage,
                                      opts.registry));
      if plan.Err? {
        return Err(Error(false, false, Some(plan.error)));
      }
      planned := Prepare(plan.value, b);
    }

    /** The end of validate: capabilities, then all images before any container. */
    method Prepare(plan: Plan, b: Backend) returns (planned: Result<Plan, Error>)
      modifies this`phase
      ensures planned == PrepareVerdict(opts, b, plan)
    {
      if b.checkCapabilities(plan).Some? {
        return Err(Classify(opts.ctx(AtCapabilities), b.checkCapabilities(plan).value, CapabilityUnsupported,
          Validate));
      }
      phase := Pull;
      if b.prepare(plan).Some? {
        return Err(Classify(opts.ctx(AtPrepare), b.prepare(plan).value, ImagePullFailed, Pull));
      }
      if opts.ctx(AfterPrepare) != Live {
        return Err(Classify(opts.ctx(AfterPrepare), CtxError(opts.ctx(AfterPrepare)), StartupTimeout, Pull));
      }
      return Ok(plan);
    }

    /** finish, in terms of the stream a reader of stdout sees. */
    method WriteEnding(cause: Error) returns (exit: int, ghost ts: seq<Action>, ghost ev: Event)
      requires out.Valid() && out.started && !out.terminal && !stopped
      requires backend == TheBackend(opts) && (backend.None? ==> units == [])
      modifies this`log, this`stopped, out
      ensures out.Valid()
      ensures log == old(log) + ts + [Submitted(ev)] && forall x | x in ts :: x.Terminate?
      ensures multiset(ts) == multiset(Terminations(units))
      ensures ev == TerminalEvent(opts, cause, Complete(opts, |units|), DockerLost(opts))
      ensures exit == ExitOf(ev, StoppedWritten(out.written))
      ensures StoppedWritten(out.written) <==> ev.Stopped? && !out.broken
      ensures !out.broken ==> (out.terminal <==> Publishable(ev))
      ensures old(out.broken) ==> out.broken
      ensures ReadyWritten(out.written) <==> old(ReadyWritten(out.written))
      ensures forall e | e in out.written && e.Ready? :: e in old(out.written)
      ensures out.written == old(out.written) + (if out.terminal then [ev] else [])
    {
      ghost var before := out.State();
      exit, ts, ev := Finish(cause);
      EndingIsWritten(out.accepts, before, ev);
    }

    /** A run that has begun and not ended. */
    ghost predicate Underway(story: Story)
      reads this`log, this`units, this`backend, this`stopped, out
    {
      && out.Valid() && out.started && !out.terminal && !stopped
      && backend == TheBackend(opts)
      && story.ev.None? && story.terminations == []
      && log == LogOf(opts.runID, story)
      && Handled(opts, units, story)
      && ReadySaid(opts, units, story, out.written)
      && out.written == StreamOf(opts.runID, story, ReadyWritten(out.written), false)
      && (ReadyWritten(out.written) <==> story.ready.Some? && !out.broken)
      && (out.broken ==> story.ready.Some?)
    }

    /** A finished run, told by its story, for every backend, every timing of cancellation and every
        stdout.  Its cause is the first thing that went wrong, as validate, start and monitor define
        it; every handle Launch returned is terminated exactly once; then the one terminal event the
        cause and the cleanup call for is submitted, and written unless stdout is broken or the
        event is off the matrix; a ready event is faithful exactly when every Launch yielded a
        handle; and the exit status follows from the terminal event and what was written. */
    ghost predicate Over(exit: int, story: Story)
      reads this`log, this`units, out
    {
      && out.Valid()
      && log == LogOf(opts.runID, story)
      && Handled(opts, units, story)
      && ReadySaid(opts, units, story, out.written)
      && out.written == StreamOf(opts.runID, story, ReadyWritten(out.written), out.terminal)
      && Ended(opts, units, story)
      && Because(opts, units, story, ReadyWritten(out.written), story.cause.value)
      && (story.ready.Some? && !ReadyWritten(out.written) ==> out.broken)
      && (StoppedWritten(out.written) <==> story.ev.value.Stopped? && !out.broken)
      && (!out.broken ==> (out.terminal <==> Publishable(story.ev.value)))
      && exit == ExitOf(story.ev.value, StoppedWritten(out.written))
    }

    lemma {:induction false} ReadyWhenUp(exit: int, story: Story)
      requires Over(exit, story)
      ensures story.plan.Some? ==> TheBackend(opts).Some?
      ensures story.ready.Some? <==>
              story.plan.Some? && ComesUp(story.plan.value, TheBackend(opts).value, opts.ctx)
    {
      hide ReadySaid, LogOf, StreamOf, WriterInv, ValidateVerdict, Terminations, TerminalEvent, ComesUp, EndedUp,
        StartVerdict;
      if story.plan.Some? {
        StartSucceedsIff(story.plan.value, TheBackend(opts).value, opts.ctx);
      }
    }

    /** What that means: exit status 0 is a written stop, but for the zero row of the matrix; and
        over a backend that labels its failures correctly, with a working stdout, the stream lacks
        its terminal event exactly when a deadline of the parent context ended the monitor and the
        cleanup was complete. */
    lemma {:induction false} OverMeans(exit: int, story: Story)
      requires Over(exit, story)
      ensures exit == EXIT_OK <==> StoppedWritten(out.written) || ReadsZeroRow(story.ev.value)
      ensures TheBackend(opts).Some? ==>
                (!ReportsIncomplete(story.ev.value) <==>
                   && (forall k: nat | k < |units| :: TheBackend(opts).value.terminate(k).None?)
                   && TheBackend(opts).value.remaining.Ok? && TheBackend(opts).value.remaining.value <= 0)
      ensures Labelled(opts) && !out.broken ==>
                (out.terminal <==> !(Complete(opts, |units|)
                                     && DeadlineEnded(opts, units, story, ReadyWritten(out.written))))
      ensures Labelled(opts) && StoppedWritten(out.written) ==> CancellationSeen(opts)
      ensures story.ready.Some? <==>
              story.plan.Some? && ComesUp(story.plan.value, TheBackend(opts).value, opts.ctx)
    {
      ReadyWhenUp(exit, story);
      hide Handled, ReadySaid, LogOf, WriterInv, Because, DeadlineEnded, Labelled, CancellationSeen, Terminations;
      var cause, ready := story.cause.value, ReadyWritten(out.written);
      TerminalEventPublishableIff(opts, cause, Complete(opts, |units|), DockerLost(opts));
      if Labelled(opts) {
        CauseReportableIff(opts, units, story, ready, cause);
        if StoppedWritten(out.written) {
          StopFollowsCancellation(opts, units, story, ready, cause);
        }
      }
    }

    lemma {:induction false} RefusedReadyFails(exit: int, story: Story)
      requires Over(exit, story) && story.cause == Some(ERR_STOPPED) && out.broken
      ensures exit == EXIT_FAILURE
    {
    }

    /** The command gives the parent context no deadline: then every run over a working stdout ends
        its stream, and no failure reads the zero row. */
    lemma {:induction false} TrustedRunsEndTheirStream(exit: int, story: Story)
      requires Over(exit, story) && Trusted(opts)
      ensures out.broken || out.terminal
      ensures !ReadsZeroRow(story.ev.value)
      ensures exit == EXIT_OK <==> StoppedWritten(out.written)
    {
      hide Handled, ReadySaid, LogOf, WriterInv, Because, BackendOnMatrix, CancellationSeen, Terminations, StartVerdict;
      var cause, ready := story.cause.value, ReadyWritten(out.written);
      OverMeans(exit, story);
      CauseReportableIff(opts, units, story, ready, cause);
      if DeadlineEnded(opts, units, story, ready) {
        var plan, b := story.plan.value, TheBackend(opts).value;
        var i: nat :| EndsAt(plan, units, b.rounds, i) && EndedByDeadline(plan, units, b, i);
        NoDeadlineEnds(plan, units, b, i);
      }
    }

    /** The case: a parent deadline that is up when a fleet that came up is first polled, and a
        complete cleanup.  Stdout works, and yet the stream has no terminal event. */
    lemma {:induction false} ParentDeadlineLeavesNoEnding(exit: int, story: Story)
      requires Over(exit, story) && Labelled(opts) && !out.broken && Complete(opts, |units|)
      requires story.ready.Some? && story.plan.Some? && TheBackend(opts).Some?
      requires var rounds := TheBackend(opts).value.rounds; rounds != [] && rounds[0].top == DeadlineExceeded
      ensures !out.terminal && exit == ExitStatus(StartupTimeout)
    {
      hide Handled, ReadySaid, LogOf, WriterInv, BackendOnMatrix, CancellationSeen, Terminations, StartVerdict,
        ValidateVerdict, Inspected;
      var plan, b := story.plan.value, TheBackend(opts).value;
      OverMeans(exit, story);
      var i: nat :| EndsAt(plan, units, b.rounds, i) && Verdict(plan, units, b, i, story.cause.value);
      assert i == 0 by {
        assert Ends(plan, units, b.rounds, 0);
      }
      assert EndedByDeadline(plan, units, b, 0);
      VerdictReportableIff(plan, units, b, 0, story.cause.value);
    }

    lemma {:induction false} NothingLiveWithoutBackend(story: Story)
      requires Underway(story)
      ensures backend.None? ==> units == []
    {
    }

    /** finish, with what its outcome means for the run. */
    method Conclude(cause: Error, ghost story: Story) returns (exit: int, ghost whole: Story)
      requires Underway(story) && Because(opts, units, story, ReadyWritten(out.written), cause)
      modifies this`log, this`stopped, out
      ensures Over(exit, whole)
      ensures whole == story.(cause := Some(cause), terminations := whole.terminations, ev := whole.ev)
      ensures old(out.broken) ==> out.broken
    {
      hide Handled, ReadySaid, TerminalEvent, Because, Publishable, ExitOf, Terminations, WriterInv, CleanedUp;
      hide TheBackend, LogOf, StreamOf, ReadyWritten, StoppedWritten;
      NothingLiveWithoutBackend(story);
      ghost var ts, ev;
      ghost var before := out.written;
      exit, ts, ev := WriteEnding(cause);
      whole := story.(cause := Some(cause), terminations := ts, ev := Some(ev));
      LogGrows(opts.runID, story, [], [], cause, ts, ev);
      StreamGrows(opts.runID, story, [], Some(cause), ts, ev, ReadyWritten(before));
      SaidOfFewer(opts, units, story, before, out.written);
      EndingTellsNothingElse(opts, units, story, out.written, cause, whole);
    }

    /** The started event. */
    method Begin() returns (refused: bool)
      requires units == [] && log == [] && out.State() == FRESH
      modifies this`log, out
      ensures out.Valid() && (refused <==> out.broken) && (refused <==> !out.started)
      ensures !out.terminal && out.written == if refused then [] else [Started(opts.runID)]
      ensures log == [Submitted(Started(opts.runID))]
    {
      assert WriterInv(out.accepts, FRESH);
      var refusal := out.EmitStarted(opts.runID);
      log := log + [Submitted(Started(opts.runID))];
      refused := refusal.Some?;
    }

    /** execute: one whole run.  When not even `started` can be written nothing is created. */
    method Execute() returns (exit: int, ghost story: Story)
      requires backend == opts.backend && units == [] && log == [] && !stopped
      requires out.State() == FRESH
      modifies this, out
      ensures if story == UNTOLD
              then exit == EXIT_FAILURE && out.Valid() && out.broken && out.written == [] && units == []
                   && log == [Submitted(Started(opts.runID))]
              else Over(exit, story)
    {
      var refused := Begin();
      if refused {
        return EXIT_FAILURE, UNTOLD;
      }
      exit, story := Proceed();
    }

    /** execute once `started` is out. */
    method Proceed() returns (exit: int, ghost story: Story)
      requires backend == opts.backend && units == [] && log == [Submitted(Started(opts.runID))] && !stopped
      requires out.Valid() && out.started && !out.terminal && !out.broken
      requires out.written == [Started(opts.runID)]
      modifies this, out
      ensures Over(exit, story)
    {
      hide ValidateVerdict, Planned, WriterInv, TheBackend;
      var planned, ids := ValidateRequest();
      assert LogOf(opts.runID, UNTOLD) == log;
      hide LogOf;
      LogTellsNoPlan(opts.runID, UNTOLD, None, ids);
      if planned.Err? {
        exit, story := Conclude(planned.error, UNTOLD.(ids := ids));
      } else {
        exit, story := LaunchAndWatch(planned.value, ids);
      }
    }

    /** execute once there is a plan. */
    method LaunchAndWatch(plan: Plan, ids: seq<Identity>) returns (exit: int, ghost story: Story)
      requires Underway(UNTOLD) && !out.broken
      requires backend.Some? && Planned(opts, plan, ids) && ValidateVerdict(opts, ids, Ok(plan))
      modifies this, out
      ensures Over(exit, story)
    {
      hide ValidateVerdict, Planned, StartVerdict, LogOf, WriterInv, Launches, LiveOf, SameContainers, TheBackend;
      hide Inspected;
      var b := backend.value;
      ghost var ls;
      var err;
      err, ls := StartUnits(plan, b);
      LogGrows(opts.runID, UNTOLD, ls, [], ERR_STOPPED, [], Started(""));
      story := UNTOLD.(plan := Some(plan), ids := ids, launches := ls);
      LogTellsNoPlan(opts.runID, UNTOLD.(launches := ls), Some(plan), ids);
      if err.Some? {
        exit, story := Conclude(err.value, story);
        return;
      }
      exit, story := AnnounceAndWatch(plan, b, story);
    }

    /** readyDevices. */
    method DevicesToAnnounce(plan: Plan, b: Backend, ghost ids: seq<Identity>) returns (devices: seq<ReadyDevice>)
      requires Planned(opts, plan, ids)
      requires SameContainers(units, LiveOf(plan, b.launch, |plan.units|))
      requires forall k: nat | k < |units| :: Inspected(plan, b, units, k)
      ensures Faithful(ids, plan, b, units, devices) <==> AllLaunched(b.launch, |plan.units|)
    {
      devices := Collect(units);
      ReadyIsCompleteIff(ids, plan, b, units, devices);
    }

    /** The ready event. */
    method Announce(plan: Plan, b: Backend, ghost story: Story) returns (refused: bool, ghost told: Story)
      requires Underway(story) && story.ready.None? && story.plan == Some(plan) && !out.broken
      requires backend == Some(b) && forall k: nat | k < |units| :: Inspected(plan, b, units, k)
      modifies this`log, out
      ensures Underway(told) && told == story.(ready := told.ready) && told.ready.Some?
      ensures refused <==> out.broken
    {
      hide WriterInv, Submit, LogOf, Inspected, Faithful, AllLaunched, Planned, SameContainers, Launches, LiveOf;
      var devices := DevicesToAnnounce(plan, b, story.ids);
      LogGrows(opts.runID, story, [], devices, ERR_STOPPED, [], Started(""));
      StreamGrows(opts.runID, story, devices, None, [], Started(""), false);
      ghost var before := out.State();
      var refusal := out.EmitReady(opts.runID, devices);
      ReadyIsWritten(out.accepts, before, Ready(opts.runID, devices));
      log := log + [Submitted(Ready(opts.runID, devices))];
      told := story.(ready := Some(devices));
      refused := refusal.Some?;
    }

    /** execute once the fleet is up: the ready event, then the monitor. */
    method AnnounceAndWatch(plan: Plan, b: Backend, ghost started: Story) returns (exit: int, ghost story: Story)
      requires Underway(started) && started.ready.None? && started.plan == Some(plan) && !out.broken
      requires ValidateVerdict(opts, started.ids, Ok(plan)) && StartVerdict(plan, b, opts.ctx).None?
      requires backend == Some(b) && forall k: nat | k < |units| :: Inspected(plan, b, units, k)
      modifies this`phase, this`log, this`stopped, out
      ensures Over(exit, story)
    {
      hide ValidateVerdict, StartVerdict, Handled, ReadySaid, LogOf, Ended, Verdict, Ends, Publishable, ExitOf;
      hide WriterInv, TheBackend;
      InspectedAreMonitorable(plan, b, units);
      var refused;
      refused, story := Announce(plan, b, started);
      if refused {
        exit, story := Conclude(ERR_STOPPED, story);
        RefusedReadyFails(exit, story);
        return EXIT_FAILURE, story;
      }
      var cause, at := Monitor(plan, b);
      assert EndedUp(opts, plan, b, units, true, cause);
      exit, story := Conclude(cause, story);
    }
  }
}
