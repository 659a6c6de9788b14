/** internal/herder/protocol.go: the NDJSON control protocol of one herder run. */
module Protocol {
  import opened Prelude

  datatype Phase = Validate | Pull | Start | Health | Runtime | Cleanup

  /** A code is a string in the source; Unlisted stands for any string outside the matrix, and
      Unlisted("") for the empty code. */
  datatype Code =
    | InvalidRequest | InvalidRuntimeConfig | NetworkNotFound | InformURLInvalid
    | DockerVersionUnsupported | ReaperDisabled | SyntheticModelUnknown | SyntheticImageRequired
    | ImagePullFailed | StartupTimeout | ImageInvalid | CapabilityUnsupported
    | ContainerStartFailed | EndpointMACMismatch | DeviceUnhealthy | DeviceExited
    | DeviceRestarted | NetworkDetached | DockerUnavailable | CleanupFailed
    | Unlisted(text: string)

  const NO_CODE := Unlisted("")

  /** codeMatrix: where a code may be reported. */
  function Phases(c: Code): seq<Phase>
  {
    match c
    case InvalidRequest => [Validate]
    case InvalidRuntimeConfig => [Validate]
    case NetworkNotFound => [Validate]
    case InformURLInvalid => [Validate]
    case DockerVersionUnsupported => [Validate]
    case ReaperDisabled => [Validate]
    case SyntheticModelUnknown => [Validate]
    case SyntheticImageRequired => [Validate]
    case ImagePullFailed => [Pull]
    case StartupTimeout => [Validate, Pull, Start, Health]
    case ImageInvalid => [Pull]
    case CapabilityUnsupported => [Validate]
    case ContainerStartFailed => [Start]
    case EndpointMACMismatch => [Start]
    case DeviceUnhealthy => [Health, Runtime]
    case DeviceExited => [Health, Runtime]
    case DeviceRestarted => [Runtime]
    case NetworkDetached => [Runtime]
    case DockerUnavailable => [Validate, Pull, Start, Health, Runtime]
    case CleanupFailed => [Cleanup]
    case Unlisted(_) => []
  }

  predicate AllowsPhase(c: Code, p: Phase)
  {
    p in Phases(c)
  }

  /** Every matrix row carries exit 1; a code outside the matrix reads the zero row. */
  function ExitStatus(c: Code): int
  {
    if c.Unlisted? then 0 else 1
  }

  datatype Identity = Identity(index: int, model: string, mac: string, serial: string, name: string)

  datatype ReadyDevice = ReadyDevice(identity: Identity, ip: string)

  datatype FailedEvent = FailedEvent(runID: string, phase: Phase, code: Code, cause: Code,
                                     cleanupComplete: bool, devices: seq<Identity>)

  datatype Event =
    | Started(runID: string)
    | Ready(runID: string, devices: seq<ReadyDevice>)
    | Failed(payload: FailedEvent)
    | Stopped(runID: string, reason: string)
  {
    predicate Terminal() { Failed? || Stopped? }
  }

  /** A *Failure without its stderr-only detail. */
  datatype Failure = Failure(code: Code, phase: Phase, devices: seq<Identity>)
  {
    predicate OnMatrix() { AllowsPhase(code, phase) }
  }

  /** What the herder can observe of a Go error: whether errors.Is finds a context outcome in its
      chain, and the *Failure that errors.As finds. */
  datatype Error = Error(canceled: bool, deadline: bool, failure: Option<Failure>)

  function Failing(code: Code, phase: Phase): Error
  {
    Error(false, false, Some(Failure(code, phase, [])))
  }

  /** errStopped: no failure, no context outcome. */
  const ERR_STOPPED := Error(false, false, None)

  datatype Refusal =
    | AlreadyStarted | ReadyBeforeStarted | AlreadyReady | ReadyAfterTerminal
    | TerminalBeforeStarted | AlreadyTerminal | OffMatrix | BrokenStdout

  /** The latches of a Writer together with what its stdout has seen. */
  datatype WriterState = WriterState(attempts: nat, written: seq<Event>,
                                     broken: bool, started: bool, ready: bool, terminal: bool)

  const FRESH := WriterState(0, [], false, false, false, false)

  /** The ordering and matrix rules in front of every event. */
  function Guard(w: WriterState, ev: Event): Option<Refusal>
  {
    match ev
    case Started(_) => if w.started then Some(AlreadyStarted) else None
    case Ready(_, _) =>
      if !w.started then Some(ReadyBeforeStarted)
      else if w.ready then Some(AlreadyReady)
      else if w.terminal then Some(ReadyAfterTerminal)
      else None
    case _ =>
      if !w.started then Some(TerminalBeforeStarted)
      else if w.terminal then Some(AlreadyTerminal)
      else if ev.Failed? && !AllowsPhase(ev.payload.code, ev.payload.phase) then Some(OffMatrix)
      else None
  }

  /** emit: one Write per event, and none at all once a Write has failed. */
  function Emit(accepts: nat -> bool, w: WriterState, ev: Event): (WriterState, Option<Refusal>)
  {
    if w.broken then (w, Some(BrokenStdout))
    else if !accepts(w.attempts) then (w.(attempts := w.attempts + 1, broken := true), Some(BrokenStdout))
    else (w.(attempts := w.attempts + 1, written := w.written + [ev]), None)
  }

  function Submit(accepts: nat -> bool, w: WriterState, ev: Event): (WriterState, Option<Refusal>)
  {
    var guard := Guard(w, ev);
    if guard.Some? then (w, guard)
    else
      var (w', err) := Emit(accepts, w, ev);
      if err.Some? then (w', err)
      else
        (match ev
         case Started(_) => w'.(started := true)
         case Ready(_, _) => w'.(ready := true)
         case _ => w'.(terminal := true),
         None)
  }

  /** started, then at most one ready, then at most one terminal event, and nothing after that. */
  predicate WellOrdered(t: seq<Event>)
  {
    && |t| <= 3
    && (|t| >= 1 ==> t[0].Started?)
    && (|t| >= 2 ==> t[1].Ready? || t[1].Terminal())
    && (|t| == 3 ==> t[1].Ready? && t[2].Terminal())
  }

  predicate Publishable(ev: Event)
  {
    ev.Failed? ==> AllowsPhase(ev.payload.code, ev.payload.phase)
  }

  /** What holds between the latches and the stream after any calls at all. */
  ghost predicate WriterInv(accepts: nat -> bool, w: WriterState)
  {
    && WellOrdered(w.written)
    && (forall ev | ev in w.written :: Publishable(ev))
    && (w.started <==> |w.written| > 0)
    && (w.ready <==> |w.written| > 1 && w.written[1].Ready?)
    && (w.terminal <==> |w.written| > 0 && w.written[|w.written| - 1].Terminal())
    && (forall k | 0 <= k < |w.written| :: accepts(k))
    && w.attempts == |w.written| + (if w.broken then 1 else 0)
    && (w.broken ==> !accepts(|w.written|))
  }

  lemma {:induction false} SubmitKeepsInv(accepts: nat -> bool, w: WriterState, ev: Event)
    requires WriterInv(accepts, w)
    ensures WriterInv(accepts, Submit(accepts, w, ev).0)
    ensures w.written <= Submit(accepts, w, ev).0.written
    ensures w.broken ==> Submit(accepts, w, ev).0 == w
  {
    var w' := Submit(accepts, w, ev).0;
    assert forall e | e in w'.written :: e in w.written || (e == ev && Publishable(ev));
  }

  /** The writer takes exactly the events that leave the stream well ordered and on the matrix, as long
      as stdout works, and writes each as it was submitted. */
  lemma {:induction false} SubmitWritesIff(accepts: nat -> bool, w: WriterState, ev: Event)
    requires WriterInv(accepts, w)
    ensures var (w', refusal) := Submit(accepts, w, ev);
            var inOrder := WellOrdered(w.written + [ev]);
            && (refusal.None? <==> inOrder && Publishable(ev) && !w.broken && accepts(|w.written|))
            && (refusal == Some(BrokenStdout) <==>
                  inOrder && Publishable(ev) && (w.broken || !accepts(|w.written|)))
            && (refusal == Some(OffMatrix) <==> inOrder && !Publishable(ev))
            && (w'.broken <==> w.broken || (inOrder && Publishable(ev) && !accepts(|w.written|)))
            && w'.written == if refusal.None? then w.written + [ev] else w.written
  {
    var next := w.written + [ev];
    assert |next| >= 2 ==> next[1] == if |w.written| >= 2 then w.written[1] else ev;
  }

  /** The matrix read by phase. */
  lemma {:induction false} CodesOfPhases(c: Code)
    ensures AllowsPhase(c, Validate) <==>
            c in {InvalidRequest, InvalidRuntimeConfig, NetworkNotFound, InformURLInvalid, DockerVersionUnsupported,
                  ReaperDisabled, SyntheticModelUnknown, SyntheticImageRequired, StartupTimeout,
                  CapabilityUnsupported, DockerUnavailable}
    ensures AllowsPhase(c, Pull) <==> c in {ImagePullFailed, StartupTimeout, ImageInvalid, DockerUnavailable}
    ensures AllowsPhase(c, Start) <==>
            c in {StartupTimeout, ContainerStartFailed, EndpointMACMismatch, DockerUnavailable}
    ensures AllowsPhase(c, Health) <==> c in {StartupTimeout, DeviceUnhealthy, DeviceExited, DockerUnavailable}
    ensures AllowsPhase(c, Runtime) <==>
            c in {DeviceUnhealthy, DeviceExited, DeviceRestarted, NetworkDetached, DockerUnavailable}
    ensures AllowsPhase(c, Cleanup) <==> c == CleanupFailed
    ensures ExitStatus(c) == if exists p :: AllowsPhase(c, p) then 1 else 0
  {
    match c
    case Unlisted(_) =>
    case _ => assert AllowsPhase(c, Phases(c)[0]);
  }

  function SubmitAll(accepts: nat -> bool, w: WriterState, evs: seq<Event>): WriterState
    decreases |evs|
  {
    if evs == [] then w else SubmitAll(accepts, Submit(accepts, w, evs[0]).0, evs[1..])
  }

  /** Whatever events are submitted in whatever order, over whatever stdout, the stream stays
      well ordered and on the matrix, holds exactly the leading accepted writes, and a failed
      write is the last one attempted. */
  lemma {:induction false} AnyCallsLeaveAWellOrderedStream(accepts: nat -> bool, w: WriterState, evs: seq<Event>)
    requires WriterInv(accepts, w)
    ensures WriterInv(accepts, SubmitAll(accepts, w, evs))
    ensures w.written <= SubmitAll(accepts, w, evs).written
    ensures w.broken ==> SubmitAll(accepts, w, evs) == w
    decreases |evs|
  {
    if evs != [] {
      SubmitKeepsInv(accepts, w, evs[0]);
      AnyCallsLeaveAWellOrderedStream(accepts, Submit(accepts, w, evs[0]).0, evs[1..]);
    }
  }

  /** Writer: accepts says, for every Write the process could attempt, whether stdout takes it. */
  class Writer {
    const accepts: nat -> bool
    var attempts: nat
    var written: seq<Event>
    var broken: bool
    var started: bool
    var ready: bool
    var terminal: bool

    function State(): WriterState
      reads this
    {
      WriterState(attempts, written, broken, started, ready, terminal)
    }

    ghost predicate Valid()
      reads this
    {
      WriterInv(accepts, State())
    }

    constructor (accepts: nat -> bool)
      ensures this.accepts == accepts
      ensures State() == FRESH && Valid()
    {
      this.accepts := accepts;
      attempts, written := 0, [];
      broken, started, ready, terminal := false, false, false, false;
    }

    method EmitStarted(runID: string) returns (err: Option<Refusal>)
      requires Valid()
      modifies this
      ensures Valid()
      ensures (State(), err) == Submit(accepts, old(State()), Started(runID))
      ensures written == if err.None? then old(written) + [Started(runID)] else old(written)
    {
      SubmitKeepsInv(accepts, State(), Started(runID));
      if started {
        return Some(AlreadyStarted);
      }
      err := EmitEvent(Started(runID));
      if err.None? {
        started := true;
      }
    }

    method EmitReady(runID: string, devices: seq<ReadyDevice>) returns (err: Option<Refusal>)
      requires Valid()
      modifies this
      ensures Valid()
      ensures (State(), err) == Submit(accepts, old(State()), Ready(runID, devices))
      ensures written == if err.None? then old(written) + [Ready(runID, devices)] else old(written)
    {
      SubmitKeepsInv(accepts, State(), Ready(runID, devices));
      if !started {
        return Some(ReadyBeforeStarted);
      }
      if ready {
        return Some(AlreadyReady);
      }
      if terminal {
        return Some(ReadyAfterTerminal);
      }
      err := EmitEvent(Ready(runID, devices));
      if err.None? {
        ready := true;
      }
    }

    method EmitFailed(payload: FailedEvent) returns (err: Option<Refusal>)
      requires Valid()
      modifies this
      ensures Valid()
      ensures (State(), err) == Submit(accepts, old(State()), Failed(payload))
      ensures written == if err.None? then old(written) + [Failed(payload)] else old(written)
    {
      SubmitKeepsInv(accepts, State(), Failed(payload));
      err := BeforeTerminal();
      if err.Some? {
        return;
      }
      if !AllowsPhase(payload.code, payload.phase) {
        return Some(OffMatrix);
      }
      err := EmitEvent(Failed(payload));
      if err.None? {
        terminal := true;
      }
    }

    method EmitStopped(runID: string, reason: string) returns (err: Option<Refusal>)
      requires Valid()
      modifies this
      ensures Valid()
      ensures (State(), err) == Submit(accepts, old(State()), Stopped(runID, reason))
      ensures written == if err.None? then old(written) + [Stopped(runID, reason)] else old(written)
    {
      SubmitKeepsInv(accepts, State(), Stopped(runID, reason));
      err := BeforeTerminal();
      if err.Some? {
        return;
      }
      err := EmitEvent(Stopped(runID, reason));
      if err.None? {
        terminal := true;
      }
    }

    method BeforeTerminal() returns (err: Option<Refusal>)
      ensures err == if !started then Some(TerminalBeforeStarted)
                     else if terminal then Some(AlreadyTerminal)
                     else None
    {
      if !started {
        return Some(TerminalBeforeStarted);
      }
      if terminal {
        return Some(AlreadyTerminal);
      }
      return None;
    }

    method EmitEvent(ev: Event) returns (err: Option<Refusal>)
      modifies this
      ensures (State(), err) == Emit(accepts, old(State()), ev)
      ensures err.None? <==> !old(broken) && accepts(old(attempts))
      ensures written == if err.None? then old(written) + [ev] else old(written)
    {
      if broken {
        return Some(BrokenStdout);
      }
      attempts := attempts + 1;
      if !accepts(attempts - 1) {
        broken := true;
        return Some(BrokenStdout);
      }
      written := written + [ev];
      return None;
    }
  }
}
