# Verification of the UniFi emulator

A Dafny 4.11 model of the parts of this repository where correctness is hardest to see: the herder's
run lifecycle, the two wire protocols, the adoption state machine, and the algorithms behind the
device catalog.  Check everything with `dafny verify dfyconfig.toml`.

## What is modelled

| module | models |
|---|---|
| `Protocol` | the NDJSON control protocol: code/phase matrix, event order, broken streams (internal/herder/protocol.go) |
| `Naming`, `Allocation`, `Hex` | identity allocation in three passes, names, serials and MACs (internal/herder/identity.go) |
| `Planning`, `Sorting` | mapping identities to execution units (internal/herder/plan.go) |
| `Readiness` | the attachment and runtime checks of one container (internal/herder/readiness.go) |
| `RunModel`, `ReadyDevices`, `Run` | one herder run against any Docker backend, context timing and stdout (internal/herder/run.go) |
| `Redactor`, `Text` | hiding opaque image references (internal/herder/images.go) |
| `Discovery` | the type-length-value discovery codec (discovery/packet.go) |
| `InformCrypto`, `InformPacket` | padding, chaining and the two inform packet modes (inform/crypto.go, inform/packet.go) |
| `Session`, `Device` | adoption: the session, the device on top of it and the inform loop (inform/session.go, device.go, loop.go) |
| `ModelJson` | cutting a JSON object out of a script bundle (cmd/modelgen/main.go) |
| `SweepPlan` | the batch planner of the live sweep (sweep_plan_test.go) |
| `Bytecode`, `Descriptors` | walking and decoding Java bytecode, reading descriptors (scripts/extract_caps.py) |
| `Compiling`, `Rebuild`, `Simulate`, `Agreement` | the two engines that read expressions back out of compiled code (scripts/extract_caps.py) |
| `Prelude` | shared types and sequence lemmas |

How the world is represented:

- A Docker backend, the contexts, the random source, the signals and stdout are arbitrary functions
  and values, so every statement about a run holds for all of them.  A run is `Labelled` when the
  failures its backend labels itself are on the code/phase matrix and the error of the reaper check
  is a `Failure` of that kind, and `Trusted` when also the parent context has no deadline; the
  command passes `context.Background()` (cmd/unifi-emu-herder/main.go:193).  Only the statements
  that mention them need it.
- Goroutines that each write their own slot are loops that pick any job still waiting, so a
  statement about such a loop covers every completion order.
- Methods that update fields are class methods; each is proved equal to a function on the state
  (`Submit`, `Next`, `AfterCycle`, `StepOf`).  What such a function computes is stated again without
  it (`SubmitWritesIff`, `StartSucceedsIff`, `NextCredentials`, `CycleMoves`, `InvokeRecords`), and
  the properties over whole runs are proved of it.
- AES, GCM, compression and JSON are abstract functions with their inverse laws; block chaining,
  padding, headers and the brace scanner are modelled in full.
- Integers are unbounded except where the source truncates: 16- and 32-bit lengths, two's
  complement immediates and switch counts are written out.
- Every lemma carries `{:induction false}`: each inductive proof is spelled out.

## Where the code does not keep a promise

Each has a lemma with a concrete case or the exact condition.

- A `Launch` that returns neither handle nor error drops its devices without a word: the ready event
  is complete if and only if every Launch yields a handle (`ReadyIsCompleteIff`).
- A deadline on the parent context ends the monitor with `startup_timeout` in phase runtime, which
  the writer refuses: over a working stdout a correctly labelled run has no terminal event exactly
  when that happens and the cleanup is complete (`OverMeans`, `ParentDeadlineLeavesNoEnding`).
- A failure code outside the enumeration reads the zero row of the matrix and exits 0 without a
  terminal event; exit 0 means a written stopped event in every other case (`OverMeans`).
- A term that parts of itself around the token can complete survives redaction, such as a host that
  starts with the bracket the token ends with.  One replacement is exact (`ReplaceAllRemovesIff`), so
  is one image (`OneImageIff`); for several images the condition is exact unless other terms destroy
  every text that would show the created one (`RedactLeavesNoTermIff`).  Hosts without brackets and
  IPv6 literals are always hidden; `ABracketDefeatsRedaction` has an accepted reference that is not.
- A member is missed when its key occurs only inside visited occurrences of the key, as when two
  share a quote (`FindObject` has the exact condition, `OverlapHidesAMember` a bundle).
- The backward engine keeps the tag of a Long under `ldc` where the forward engine takes it for an
  int (`ConstantsAgreeIff`); class files may load a Long with `ldc2_w` only.
- `wide` instructions are walked one byte short (scripts/extract_caps.py:468-471 counts three and
  five bytes where section 6.5 of the Java Virtual Machine Specification has four and six), so a list
  is recovered if and only if it has none (`WalkRecoversTheListIff`).
- `ret_type` is wrong exactly when a parameter's class name holds a closing parenthesis
  (`RetTypeIsRecoveredIff`).
- A set-adopt that arrives while ADOPTING turns the device CONNECTED on a key no inform has used
  (`SecondSetAdoptConnectsOnAnUnusedKey`), and a key that does not parse ends all informs for good
  (`BadKeyIsForever`).
- Re-marshalling a parsed version 1 packet loses version 2 fields it carried (`ReparseAfterRemarshal`
  has the exact condition).
- Two guards are dead: the second "device" fallback of `derivedName` (`TruncationNeverEmpties`) and
  the test of pass 2 against what pass 2 itself has claimed (`DerivedNeverCollide`).

## Model

| member | source | states |
|---|---|---|
| `Protocol.AnyCallsLeaveAWellOrderedStream` | internal/herder/protocol.go:239-342 | for every sequence of submissions over every stdout: what is written is started, at most one ready, at most one terminal event, in that order, every failed event on the code/phase matrix; the stream only grows; after a failed write nothing changes |
| `Protocol.SubmitKeepsInv` | internal/herder/protocol.go:239-342 | one submission, accepted or refused, keeps that invariant |
| `Protocol.SubmitWritesIff` | internal/herder/protocol.go:239-342 | an event is taken if and only if it leaves the stream well ordered and on the matrix and stdout works, and then the line written is that event, unchanged; which refusal every other one gets |
| `Protocol.CodesOfPhases` | internal/herder/protocol.go:61-120 | the code/phase matrix read by phase: the codes each phase may report, and exit status 1 exactly for the codes some phase may |
| `Protocol.Writer.EmitStarted` | internal/herder/protocol.go:239-250 | the method moves the flags and the stream exactly as the protocol state machine does for started, refusals included |
| `Protocol.Writer.EmitReady` | internal/herder/protocol.go:254-274 | likewise for ready |
| `Protocol.Writer.EmitFailed` | internal/herder/protocol.go:279-302 | likewise for failed: the matrix test and the order test, and the line written is the failure submitted |
| `Protocol.Writer.EmitStopped` | internal/herder/protocol.go:306-317 | likewise for stopped |
| `Protocol.Writer.EmitEvent` | internal/herder/protocol.go:329-342 | the event itself is written, as one line, if and only if this write and none before it fails; otherwise the writer is broken for good and nothing is written |
| `RunModel.ClassifyStopsOnlyOnCancellation` | internal/herder/run.go:481-495 | a stop is reported exactly when the operation's own context was canceled and the error is that cancellation; an earlier Failure keeps its code |
| `RunModel.ClassifyCodes` | internal/herder/run.go:481-495 | which of the four outcomes an error gets and when: a stop, startup_timeout of this phase, its own failure, or the fallback of this phase |
| `RunModel.ClassifyStaysOnMatrixIff` | internal/herder/run.go:481-495 | classification stays on the matrix if and only if no deadline is blamed on a phase without startup_timeout |
| `RunModel.ValidatePassesIff` | internal/herder/run.go:195-258 | validate lets a plan through if and only if it is the one asked for, on the identities the request resolves to, and each of its checks passes |
| `RunModel.ValidateBlamesFirst` | internal/herder/run.go:195-240 | and otherwise reports the first failing check, in the order of the checks, with its code and phase |
| `RunModel.StartSucceedsIff` | internal/herder/run.go:260-339 | start returns no error if and only if every Launch succeeds, every live unit turns healthy, every inspection succeeds and finds the unit in place, and the context is live after each stage |
| `RunModel.StartFailsAsIff` | internal/herder/run.go:260-339 | and an error is exactly that of the first unit, in plan order, to fail in the first stage to fail, or of the context that ran out after it, with its phase and devices |
| `RunModel.MonitorGoesOnIff` | internal/herder/run.go:341-375 | monitor goes through all its rounds if and only if the context stays live, nothing is disturbed before a unit that does not answer, and no three rounds in a row end in such a unit |
| `RunModel.StartVerdictReportable` | internal/herder/run.go:260-339 | whatever start returns over a backend whose own failures are on the matrix is on the matrix |
| `RunModel.VerdictReportableIff` | internal/herder/run.go:341-375 | over such a backend whatever monitor returns is on the matrix if and only if no deadline of its context ended it, and otherwise is startup_timeout in phase runtime |
| `RunModel.StartVerdictStopsOnlyOnCancellation` | internal/herder/run.go:260-339 | start reports a stop only if its context was canceled at some point |
| `RunModel.VerdictStopsOnlyOnCancellation` | internal/herder/run.go:341-375 | monitor reports a stop only if its context was canceled |
| `RunModel.QuietRoundsObserveTheBaseline` | internal/herder/run.go:341-375 | in a round that lets monitor go on, every container it looked at runs healthy with the baseline restart count, start time and sole network |
| `RunModel.LosingRoundDoesNotViolate` | internal/herder/run.go:341-375 | a round that meets a failed inspect first is not a state violation, whatever later units show |
| `RunModel.TerminalEventTells` | internal/herder/run.go:381-423 | for every cause and cleanup: the run ID, the devices of the cause either way, its code and phase after a complete cleanup, its code as the original one after an incomplete one, and reason signal exactly when there was a signal |
| `Readiness.AttachmentAcceptedIff` | internal/herder/readiness.go:29-56 | a container passes with an address if and only if it is on the plan network alone, publishes no host port, has the requested MAC if it is opaque, and that is its nonempty address; endpoint_mac_mismatch exactly when only the MAC is wrong, container_start_failed otherwise |
| `Readiness.RuntimeStateCleanIff` | internal/herder/readiness.go:62-86 | no failure if and only if the container is running, healthy, with unchanged restart count and start time, on the plan network alone |
| `Readiness.RuntimeCodes` | internal/herder/readiness.go:62-86 | which code each disturbance gets, exactly when |
| `Planning.BuildPlan` | internal/herder/plan.go:83-120 | exactly which inputs have no plan, with which code, and no others; a plan covers the identities (each in one unit), mapped models one opaque unit each with their configured image and capabilities, all others in one synthetic unit, in request order |
| `Planning.Partition` | internal/herder/plan.go:94-110 | the partition loop keeps that shape after every device, the batch standing where its first device stands |
| `Planning.Images` | internal/herder/plan.go:125-136 | every image of the plan once, in the order units first need them |
| `Planning.Devices` | internal/herder/plan.go:139-154 | sorting the planned devices gives back exactly the identities, in request order |
| `Planning.FiltersPartition` | internal/herder/plan.go:97-110 | mapped and unmapped devices together are the request, as bags |
| `Sorting.InsertionSort` | internal/herder/plan.go:148-154 | in place: sorted by key, and a permutation |
| `Sorting.SortRestoresIndexOrder` | internal/herder/run.go:528-534 | sorting any permutation of a list indexed by position restores that list |
| `ReadyDevices.Collect` | internal/herder/run.go:517-534 | the ready list is sorted by index and is, as a bag, every live unit's devices tagged with that unit's address |
| `ReadyDevices.SortedTagsAreFaithful` | internal/herder/run.go:517-534 | when every planned unit is live and inspected, the ready list is the identities, one per request index in order, each with the inspected address of the one unit that holds it, that unit having passed the attachment check |
| `ReadyDevices.ReadyIsCompleteIff` | internal/herder/run.go:280-334 | the ready list is faithful in that sense if and only if every Launch yielded a handle: a Launch that yields neither handle nor error drops its devices silently |
| `ReadyDevices.OneUnitPerDevice` | internal/herder/run.go:517-526 | a device rides in one unit only |
| `Run.Run.Execute` | internal/herder/run.go:137-169 | one whole run over every backend, timing and stdout.  Either started could not be written and nothing was done; or the log is started, the launches in any order, optional ready, each live unit terminated once, and one terminal submission, which is the terminal event of the cause: of the first failing check when nothing was launched, of the verdict of start when no ready was sent, of a refused ready, or of the verdict of the round monitor ends in.  ready is sent exactly when start succeeds and is faithful iff every Launch yielded a handle; the stream is exactly what was submitted, as far as it was written: started with the run ID, that ready, that terminal event; over a working stdout the stream ends exactly when the event is on the matrix; the exit status is that of the event |
| `Run.Run.Proceed` | internal/herder/run.go:145-168 | the same for a run whose started event is out |
| `Run.Run.LaunchAndWatch` | internal/herder/run.go:160-168 | the same from a validated plan on |
| `Run.Run.AnnounceAndWatch` | internal/herder/run.go:163-168 | the same from a healthy fleet on: a refused ready stops the run, otherwise the verdict of the monitor is what is reported |
| `Run.Run.Announce` | internal/herder/run.go:163-167 | the ready submission and what a reader may conclude from it |
| `Run.Run.ValidateRequest` | internal/herder/run.go:195-258 | a failure is that of the first check that fails, in order, with its code and phase; when all pass, the identities are the allocation of the request and a plan comes out as promised |
| `Run.Run.ValidateIdentities` | internal/herder/run.go:212-258 | the inform URL, the reaper, the daemon, the network, the plan, the capabilities and the images, in this order: the first that fails decides the code, and the plan comes out when none does |
| `Run.Run.Prepare` | internal/herder/run.go:241-257 | capabilities, then images, then the context: the outcome is the first failure, classified, or the plan |
| `Run.Run.StartUnits` | internal/herder/run.go:260-339 | the error is none exactly when the whole fleet comes up, and else that of the first failing unit of the first failing stage, independent of the interleaving; the live units are the handles Launch returned, in plan order; without error every one of them is inspected and attached |
| `Run.Run.LaunchAll` | internal/herder/run.go:263-278 | whatever order the parallel launches run in, each unit is launched once and slot i holds unit i's outcome |
| `Run.Run.Record` | internal/herder/run.go:280-294 | every handle is recorded even beside an error, and the first error in plan order is reported |
| `Run.Run.WaitAll` | internal/herder/run.go:301-310 | slot k holds unit k's health outcome, whatever the order |
| `Run.Run.HealthThenInspect` | internal/herder/run.go:299-338 | no error if and only if every live unit turns healthy and is found in place and the context is live after each stage; else the first failing unit of the first failing stage |
| `Run.Run.InspectAll` | internal/herder/run.go:320-334 | the first unit whose inspection or attachment fails decides; otherwise all baselines and addresses are the inspected ones |
| `Run.Run.Monitor` | internal/herder/run.go:341-375 | returns in the first round that must end the run and with its verdict: a dead context, a violation before that round's first failed inspect, or the third consecutive round with a failed inspect |
| `Run.Run.TerminateAll` | internal/herder/run.go:436-446 | every live unit is terminated exactly once, in any order |
| `Run.Run.CleanUp` | internal/herder/run.go:427-464 | complete if and only if no Terminate failed and the label search succeeded and found nothing |
| `Run.Run.Finish` | internal/herder/run.go:381-423 | terminations, then one terminal event: an incomplete cleanup outranks every cause and keeps its code as the original one; the exit status for each outcome |
| `Run.Run.WriteEnding` | internal/herder/run.go:381-423 | the event submitted is the terminal event of the cause and of what the cleanup found; a stopped event reaches the stream iff it is one and stdout works; over a working stdout the stream ends iff the event is on the matrix; the exit status is that of the event |
| `Run.Run.Conclude` | internal/herder/run.go:381-423 | a cause the run may end with ends an unfinished run as the whole-run promise says, with that cause |
| `Run.EachUnitTerminatedOnce` | internal/herder/run.go:436-446 | in any permutation of the terminations each live unit's is counted once |
| `Run.EndingIsWritten` | internal/herder/protocol.go:279-327 | one terminal submission to a stream without one: over a working stdout it ends the stream if and only if the event is on the matrix, and adds that event and nothing else |
| `Run.Run.WatchSignals` | internal/herder/run.go:174-193 | over any number of signals: cancellation is asked for once, at the first, and the reason reported is signal exactly when there was one |
| `Run.CauseReportableIff` | internal/herder/run.go:137-169 | for a backend that labels its own failures correctly, what a run ends with is on the matrix unless a deadline of the parent context ended the monitor |
| `Run.Run.OverMeans` | internal/herder/run.go:137-169 | for every whole run: exit 0 iff stopped was written or the code reads the zero row; over a working stdout the stream lacks its terminal event exactly when a parent deadline ended the monitor and the cleanup was complete; stopped only after a cancellation; ready was submitted exactly when there was a plan and the whole fleet came up |
| `Run.Run.TrustedRunsEndTheirStream` | internal/herder/run.go:137-169 | with no parent deadline every run over a working stdout ends its stream, and exit 0 iff stopped was written |
| `Run.Run.ParentDeadlineLeavesNoEnding` | internal/herder/run.go:341-375 | the failing case, reached through a run: a parent deadline that is up when the fleet is first polled leaves the stream without a terminal event |
| `Naming.NormalizeModelInPlace` | internal/herder/identity.go:231-255 | the builder loop computes the dash-squashing specification |
| `Naming.NormalizeModelIsSlug` | internal/herder/identity.go:231-255 | for every model: nonempty, lower-case letters, digits and single inner dashes only |
| `Naming.NormalizeModelIsIdempotent` | internal/herder/identity.go:231-255 | normalizing twice changes nothing |
| `Naming.NormalizeModelDashesWords` | internal/herder/identity.go:231-255 | the result is the runs of letters and digits of the model in lower case, joined by single dashes, and "device" exactly when it has none |
| `Naming.DerivedNameKeepsTheModel` | internal/herder/identity.go:211-225 | the model part is that result whole if it fits 46 bytes, else its first 46 bytes less at most one dash |
| `Naming.TruncationNeverEmpties` | internal/herder/identity.go:214-225 | the second fallback to "device", after truncation, is unreachable |
| `Naming.DerivedNameIsLabel` | internal/herder/identity.go:214-225 | every derived name is an RFC 1123 label of at most 63 bytes checkName accepts, ending in the MAC |
| `Naming.DerivedNameDeterminesMac` | internal/herder/identity.go:205-225 | derived names agree only for the same MAC, across all models |
| `Naming.DerivedSerialDeterminesMac` | internal/herder/identity.go:205-209 | derived serials agree only for the same MAC |
| `Naming.DerivedSerialIsAccepted` | internal/herder/identity.go:273-283 | a derived serial passes checkSerial |
| `Naming.DerivedSerialSpellsTheMac` | internal/herder/identity.go:208-209 | a derived serial is EMU and the twelve digits of the MAC in upper case |
| `Allocation.CanonicalMacFixesGoodMacs` | internal/herder/identity.go:186-203 | canonicalization keeps every canonical unicast MAC as it is |
| `Allocation.MakeEndpointAddress` | internal/herder/identity.go:120-127 | the drawn bytes become a unicast, locally administered address |
| `Allocation.ReserveEntry` | internal/herder/identity.go:39-73 | one entry is refused exactly when it is invalid or claims something claimed, and else claims what it supplies |
| `Allocation.ReserveSupplied` | internal/herder/identity.go:34-73 | pass 1 succeeds if and only if every entry is valid and no two supply the same MAC, serial or name |
| `Allocation.FinishSupplied` | internal/herder/identity.go:75-99 | pass 2 succeeds if and only if no derived value was supplied by another entry; the collision test within the pass never fires |
| `Allocation.DerivedNeverCollide` | internal/herder/identity.go:83-97 | values derived from distinct MACs never meet |
| `Allocation.Generate` | internal/herder/identity.go:118-153 | the identity is that of the first draw whose MAC, serial or name nothing claims, with the bytes read up to it; none exactly when 64 draws are all taken, or the source runs out after draws that are all taken |
| `Allocation.DrawnIs` | internal/herder/identity.go:118-153 | what a first free draw is: every draw before it collides, it does not, and it is among the first 64 the source has bytes for |
| `Allocation.GenerateMissing` | internal/herder/identity.go:101-112 | pass 3 gives each entry without a MAC, in order, its first free draw, reading the source on; it fails exactly at the first entry that has none |
| `Allocation.Allocate` | internal/herder/identity.go:28-114 | the outcome is one function of the request and the source; success: index i at position i, supplied values kept (MACs canonical), missing ones derived, all MACs, serials and names pairwise distinct |
| `Allocation.AllocationFailsOnlyWhenStarved` | internal/herder/identity.go:28-114 | an acceptable request fails only at an entry without a MAC whose draws are all taken: 64 of them, or as many as the source has bytes for |
| `Allocation.FullySuppliedNeedsNoRandomness` | internal/herder/identity.go:28-114 | a request that supplies every MAC succeeds if and only if it is acceptable, for every source, and reads none of it |
| `Allocation.AllocationReadsInOrder` | internal/herder/identity.go:101-153 | the source is read once, front to back: entry by entry, six bytes a draw and at most 64 draws each, and a generated MAC is the last draw read for its entry |
| `Allocation.ReallocationReturnsTheSame` | internal/herder/identity.go:28-114 | an allocation fed back as a request is acceptable and resolves to the very same identities |
| `Redactor.NewRedactor` | internal/herder/images.go:173-193 | the terms are, as a bag, the distinct references and hosts, longest first, for every order the images are met in |
| `Redactor.RegistryHostIff` | internal/herder/images.go:202-209 | the host is what stands before the first slash, exactly if that has a dot or a colon |
| `Redactor.Redact` | internal/herder/images.go:195-200 | the loop is the sequential replacement specified |
| `Redactor.RedactLeavesNoTermIff` | internal/herder/images.go:165-209 | no configured term occurs in any redacted text if and only if every term contains one that neither its own replacement nor a later one can create, for every list in which the other terms leave some text standing that would show a created one |
| `Redactor.RedactLeavesNoTerm` | internal/herder/images.go:195-200 | that condition suffices for every list and every text |
| `Redactor.RedactIsIdempotent` | internal/herder/run.go:559-566 | under it redacting twice is redacting once |
| `Redactor.ReplaceAllRemovesIff` | internal/herder/images.go:195-200 | one replacement leaves none of its term behind in any text if and only if the term cannot be created from parts of itself around the token, the leftmost occurrence being replaced |
| `Redactor.OneImageIff` | internal/herder/images.go:165-209 | for one configured image redaction holds over every text if and only if its host, or the reference if it has none, is not such a term |
| `Redactor.ApartHostsAreSecure` | internal/herder/images.go:165-209 | for any number of images it holds when no host (or reference without one) can overlap the token |
| `Redactor.BracketFreeIsApart` | internal/herder/images.go:204-209 | which is so for every host and reference without square brackets |
| `Redactor.Ipv6LiteralIsApart` | internal/herder/images.go:204-209 | and for every bracketed IPv6 literal, with a port or without |
| `Redactor.SurvivesAround` | internal/herder/images.go:195-200 | the converse: a text in which a term is created, when no other term gets at it |
| `Redactor.PinnedTermsStandOutside` | internal/herder/runtimeconfig.go:153-178 | no term of digest-pinned references occurs in the token |
| `Redactor.RedactHidesWholeTerm` | internal/herder/images.go:187-200 | a reference on its own becomes the token alone, never its host first |
| `Redactor.RedactHidesDelimitedReference` | internal/herder/images.go:195-200 | a reference set off by a character no term has becomes the token, and its surroundings are redacted on their own |
| `Redactor.ABracketDefeatsRedaction` | internal/herder/images.go:165-209 | a reference the configuration accepts and redaction cannot hide: its host starts as the token ends |
| `Redactor.ReplaceAllCreates` | internal/herder/images.go:195-200 | a term in the outcome of a replacement was there before, unless the replacement can create it |
| `Discovery.Marshal` | discovery/packet.go:83-149 | succeeds exactly on well-formed announcements whose fields fit a 16-bit body, with the packet they encode to; NoVersion and TooLong exactly when |
| `Discovery.Parse` | discovery/packet.go:155-221 | the loop computes the parsing specification, errors included |
| `Discovery.PutTLV` | discovery/packet.go:68-73 | appends one type, 16-bit length and value |
| `Discovery.WireLayout` | discovery/packet.go:63-149 | version, command and big-endian body length at their offsets; type and big-endian length in front of each value |
| `Discovery.FieldsAre` | discovery/packet.go:29-149 | the fields written are exactly those that are set, each under its type number and with its value; the version 2 ones in version 2 only |
| `Discovery.FieldsAscend` | discovery/packet.go:83-149 | in ascending order of type |
| `Discovery.ParseInvertsMarshal` | discovery/packet.go:83-221 | no length was truncated, and parsing the output with anything appended gives the announcement back, addresses in 4-byte form, version 2 fields only in version 2 |
| `Discovery.ParseReadsAll` | discovery/packet.go:164-219 | parsing reads whole fields one after another, whatever follows |
| `Discovery.ParseSplits` | discovery/packet.go:164-219 | every body is whole fields and an incomplete rest: parsing applies the fields, and which error the rest gives, none exactly when it is empty |
| `Discovery.ParsePacketIff` | discovery/packet.go:155-163 | when a packet is too short and when its body overruns |
| `Discovery.ReparseAfterRemarshal` | discovery/packet.go:83-221 | whatever parses with a version re-marshals without becoming too long, and reparses to the same announcement if and only if it is version 2 or has no version 2 field |
| `Discovery.ParseGrowsByLess` | discovery/packet.go:164-219 | the encoded size of what was parsed never exceeds the bytes consumed |
| `Discovery.SkippedIff` | discovery/packet.go:175-217 | the fields that change no announcement at all are exactly the unknown types and the fixed-size types of wrong length |
| `Discovery.SkippedFieldsLeaveNoTrace` | discovery/packet.go:164-219 | inserting such a field at any boundary, whatever follows, changes no result, errors included |
| `InformCrypto.EncryptPadded` | inform/crypto.go:27-41 | the buffer loop computes padded CBC |
| `InformCrypto.DecryptPadded` | inform/crypto.go:43-63 | the decrypting and padding check compute the specified unpadding |
| `InformCrypto.DecryptBlocksInverts` | inform/crypto.go:27-63 | chained decryption undoes chained encryption, block by block |
| `InformCrypto.EncryptBlocksInverts` | inform/crypto.go:27-63 | and the other way round |
| `InformCrypto.EncryptBlocksChains` | inform/crypto.go:27-41 | each ciphertext block is the encryption of its plaintext block combined with the ciphertext block before it, the first with the initialization vector |
| `InformCrypto.XorIsBitwise` | inform/crypto.go:27-63 | combined by exclusive or, bit by bit |
| `InformCrypto.PadIff` | inform/crypto.go:27-41 | the padding is that of section 6.3 of RFC 5652 and no other |
| `InformCrypto.ParseKeyIff` | inform/crypto.go:16-25 | a key is exactly 32 hexadecimal digits, in either case |
| `InformCrypto.UnpadIff` | inform/crypto.go:43-63 | whole blocks are accepted if and only if they are the padding of the result |
| `InformCrypto.PadIsInjective` | inform/crypto.go:27-41 | two plaintexts never pad to the same blocks |
| `InformCrypto.DecryptCBCIff` | inform/crypto.go:27-63 | decryptCBC accepts exactly the ciphertexts of encryptCBC, each as the one plaintext it came from |
| `InformPacket.Encode` | inform/packet.go:36-65 | header and CBC body as specified, refused only for a bad key |
| `InformPacket.EncodeAuthenticated` | inform/packet.go:70-101 | header and GCM body as specified |
| `InformPacket.HeaderBytes` | inform/packet.go:11-65 | every byte of the header at its offset: TNBU, version 1, MAC, flags, vector, payload version 1, big-endian length |
| `InformPacket.EncodedBytes` | inform/packet.go:36-101 | both encodings are the header of their mode, with the length of what follows, and the body sealed or encrypted under it |
| `InformPacket.Decode` | inform/packet.go:104-161 | the staged decoding, error by error, on 32-bit and 64-bit platforms alike: a length that wraps is an overrun |
| `InformPacket.RefusedIff` | inform/packet.go:104-126 | which packets are refused before decryption, and as what |
| `InformPacket.DecodeInvertsCbc` | inform/packet.go:36-161 | for every MAC and payload below the 32-bit length, Decode inverts Encode, with anything appended |
| `InformPacket.DecodeInvertsGcm` | inform/packet.go:70-161 | likewise for EncodeGCM: the authenticated data is the 40-byte header it was sealed under |
| `InformPacket.AcceptedGcmIsSealedUnderItsHeader` | inform/packet.go:104-161 | what is accepted in GCM mode was sealed under the packet's own 40 header bytes |
| `InformPacket.AcceptedCbcIsAnEncryption` | inform/packet.go:104-161 | what is accepted in CBC mode is the encryption of something that inflates to the payload |
| `Session.Session.Apply` | inform/session.go:192-221 | the method changes every field as the reply-driven state machine does, with its effects |
| `Session.Session.ApplyCmd` | inform/session.go:223-247 | likewise for cmd replies |
| `Session.Session.ApplySetparam` | inform/session.go:249-283 | the method computes the reading of the lines in order and the rotation rule on them |
| `Session.ReadMgmtIff` | inform/session.go:252-271 | each of the three settings is what the last line that sets it says; empty exactly when no line sets it or the last one sets it to nothing |
| `Session.LinesJoin` | inform/session.go:253 | the lines are the text cut at every line break, and nowhere else |
| `Session.TrimSpaceTrims` | inform/session.go:254 | a line is read without the white space around it |
| `Session.Session.ApplySetstate` | inform/session.go:285-302 | likewise for setstate |
| `Session.NextCredentials` | inform/session.go:192-283 | the key and adoption after any reply: reset, adopt command, or the authkey a setparam carries while on the default key; no other reply changes them |
| `Session.NextMode` | inform/session.go:278-282 | AES-GCM after any reply: as use_aes_gcm says when it is a boolean, off after a reset, else as before |
| `Session.NextConfiguration` | inform/session.go:192-302 | cfgversion, inform URL, boot time and descriptor after any reply |
| `Session.NextTables` | inform/session.go:285-302 | the echoed tables after any reply, key by key |
| `Session.NextReportsIff` | inform/session.go:192-302 | exactly which effects any reply reports |
| `Session.SessionInvAlways` | inform/session.go:192-302 | after any replies: a non-adopted session holds the default key, and only the four table keys are echoed |
| `Session.KeyRotatesAtMostOnce` | inform/session.go:249-283 | without adopt commands and resets the key changes at most once, and only away from the default; an adopted session stays adopted |
| `Session.RepeatedSetparamIsNoOp` | inform/session.go:249-283 | an identical setparam changes nothing the second time |
| `Session.OverlayCannotForgeIdentity` | inform/session.go:139-142 | after any replies the overlay replaces only the four tables, with the pushed values; every other field is the session's own |
| `Session.PayloadTellsKeyAndState` | inform/session.go:62-148 | the key, default flag and state in every payload are those of the session |
| `Session.PayloadAcknowledges` | inform/session.go:62-148 | the inform after a reply reports the configuration version, firmware version, inform URL or reboot it brought |
| `Session.IdentityIsKept` | inform/session.go:62-148 | MAC, serial, model, address and host name in the payload are the same after any replies |
| `Device.ControllerReadsTheInform` | inform/session.go:49-55 | in the mode the session has, which the flags say, whoever holds the session's key reads exactly its payload |
| `Device.ApplyReplyStates` | device.go:180-217 | what one reply does to the observable state |
| `Device.CycleMoves` | loop.go:99-157 | for a device in any state: nothing without a delivered reply; else the session of that reply, the state (CONNECTED stays CONNECTED unless reset or adopted anew), the interval a noop sets, and the configuration a setparam brings |
| `Device.DeliveredIff` | loop.go:127-144 | a reply is delivered exactly when the answer is 200 with a body that decodes under the key of the inform |
| `Device.PendingIffNotAdopted` | loop.go:99-157 | over every run of the loop the device is PENDING exactly while it is not adopted |
| `Device.ConnectedIff` | loop.go:145-156 | a device turns CONNECTED exactly in a cycle that starts ADOPTING and delivers, under the key of its inform, a reply other than a reset; never straight from PENDING |
| `Device.ConnectedOnNewestKeyIff` | loop.go:145-156 | CONNECTED speaks of the newest key if and only if the completing reply did not itself rotate it |
| `Device.SecondSetAdoptConnectsOnAnUnusedKey` | loop.go:145-156 | the case where it does: a set-adopt with a new key arriving while ADOPTING |
| `Device.BadKeyIsForever` | loop.go:99-120 | a session that was handed an unusable key never changes again |
| `Device.Device.ApplyResponse` | device.go:180-217 | the effect loop computes that reaction |
| `Device.Device.InformOnce` | loop.go:99-157 | one cycle moves session, state, interval and last configuration as said there, in every state |
| `Device.Device.NoteStatus` | loop.go:55-85 | the run counter is the length of the trailing run of equal statuses, and what is logged when |
| `Device.TrailingRunIs` | loop.go:55-85 | that run is the longest one of equal statuses at the end |
| `Device.Device.Loop` | loop.go:24-38 | any number of cycles refines the cycle specification |
| `ModelJson.FindObject` | cmd/modelgen/main.go:369-398 | the brace of the first visited occurrence of the key that names an object, and nothing if and only if none does; an occurrence is visited unless it starts inside an earlier visited one |
| `ModelJson.CandidateIff` | cmd/modelgen/main.go:380-394 | an occurrence names an object exactly when white space, a colon, white space and a brace follow |
| `ModelJson.LeftmostUnlessOverlapping` | cmd/modelgen/main.go:369-398 | without overlapping occurrences that is the leftmost member of that name that is an object, and nothing if and only if there is none |
| `ModelJson.OverlapHidesAMember` | cmd/modelgen/main.go:369-398 | with overlapping ones a member can be missed: a concrete bundle, whose member is not visited |
| `ModelJson.ScanObject` | cmd/modelgen/main.go:399-422 | the slice is the prefix that closes at its end; none only if no prefix closes |
| `ModelJson.ClosingPrefixIsUnique` | cmd/modelgen/main.go:399-422 | a text has at most one such prefix, so the slice is the shortest balanced one |
| `ModelJson.ValueIsNeutral` | cmd/modelgen/main.go:399-422 | any JSON value of sections 3 to 8 of RFC 8259, nested, escaped or with braces in strings, leaves the scanner as it was |
| `ModelJson.ObjectTextCloses` | cmd/modelgen/main.go:399-422 | every JSON object text closes at its last character and nowhere before |
| `ModelJson.ExtractModelJSON` | cmd/modelgen/main.go:369-423 | always ends; missing exactly when no visited occurrence names an object; unterminated exactly when the scan from its brace never closes; and where an object text follows, exactly that text is returned |
| `SweepPlan.PlanSweep` | sweep_plan_test.go:33-88 | each error exactly when; otherwise every model once, no batch empty or over size, at most one gateway a batch, max(gateways, ceil(n/max)) batches, numbered in order |
| `SweepPlan.BatchCountIsMinimal` | sweep_plan_test.go:33-88 | no plan within those limits has fewer batches |
| `SweepPlan.Split` | sweep_plan_test.go:49-63 | the two pools partition the models |
| `SweepPlan.Fill` | sweep_plan_test.go:69-86 | the two fill loops with their shared cursor build the specified layout |
| `SweepPlan.Layout.CountSuffices` | sweep_plan_test.go:65-86 | with that many batches the free slots suffice and none stays empty |
| `SweepPlan.FilledIsBalanced` | sweep_plan_test.go:65-86 | the layout meets all the limits |
| `Bytecode.WalkCode` | scripts/extract_caps.py:456-485 | the walking loop computes the walk specification, errors included |
| `Bytecode.OpLensAre` | scripts/extract_caps.py:410-453 | the operand length of every opcode, by length |
| `Bytecode.WalkTilesTheCode` | scripts/extract_caps.py:456-485 | for any code at all: whenever the walk ends, its steps put together are the code, and each starts where the one before ends |
| `Bytecode.ContiguousPcsIncrease` | scripts/extract_caps.py:456-485 | so their pcs strictly increase |
| `Bytecode.EndOfOne` | scripts/extract_caps.py:459-485 | the walker goes past every fixed or switch instruction, padding by pc included, and one byte short of the end of a wide one |
| `Bytecode.WalkRecoversTheListIff` | scripts/extract_caps.py:456-485 | walking the encoding of an instruction list (section 6.5 of the Java Virtual Machine Specification) yields exactly that list if and only if it has no wide instruction |
| `Bytecode.WideIsCutShort` | scripts/extract_caps.py:468-471 | the concrete failure: wide iload 5 |
| `Bytecode.DecodeReadsTheList` | scripts/extract_caps.py:488-505 | without wide instructions, decode reads every instruction once, in order, with its immediate |
| `Bytecode.ImmediatesAre` | scripts/extract_caps.py:488-505 | what an immediate is: signed for bipush and sipush, else the first two bytes big-endian or the only one |
| `Descriptors.ReadArgs` | scripts/extract_caps.py:508-520 | the loops compute the descriptor-reading specification, exceptions as None |
| `Descriptors.ParseArgsInvertsDescriptor` | scripts/extract_caps.py:508-520 | reading any descriptor of section 4.3.3 gives its parameter types, in order |
| `Descriptors.RetTypeIsRecoveredIff` | scripts/extract_caps.py:523-524 | the return type is recovered if and only if no parameter's class name holds a closing parenthesis |
| `Compiling.LocalsRoundTrip` | scripts/extract_caps.py:1050-1098 | both encodings of loads and stores decode to their kind and slot, and to nothing else |
| `Compiling.ConstRoundTrip` | scripts/extract_caps.py:1087-1090 | a constant is read back from iconst, bipush or sipush |
| `Compiling.ReadableCodeDecodes` | scripts/extract_caps.py:488-505 | compiled code decodes to itself |
| `Rebuild.ValueAt` | scripts/extract_caps.py:1076-1120 | always ends, at an index strictly before the one asked |
| `Rebuild.RebuildsTheExpression` | scripts/extract_caps.py:1076-1120 | wherever an expression's code stands behind its program, value_at at its last instruction gives the expression (locals followed to their stores, getfield receivers dropped) and the index just before it |
| `Rebuild.FindsTheStore` | scripts/extract_caps.py:1059-1073 | the backward search finds the program's last store of that kind and slot, from any index behind it, at most four stores deep |
| `Rebuild.InvokeOperandsAreTheCalls` | scripts/extract_caps.py:1123-1133 | for any code: value_at at a call is the call of the receiver and arguments invoke_operands finds |
| `Rebuild.ValueAtInvertsCompile` | scripts/extract_caps.py:488-1120 | from the bytes: decoding compiled code and asking value_at for its last instruction gives back the expression |
| `Simulate.Sim.constructor` | scripts/extract_caps.py:734-746 | this and the parameters in their slots, two-slot types counted |
| `Simulate.Sim.Step` | scripts/extract_caps.py:778-993 | the method changes stack, locals and events as the step specification does |
| `Simulate.Sim.InvokeMethod` | scripts/extract_caps.py:926-941 | the method computes the invoke step: operands popped last first, receiver below them, event, result; an unreadable member clears the stack |
| `Agreement.InvokeRecords` | scripts/extract_caps.py:926-941 | for any descriptor and arguments of any width: the event has the pc, the member, the receiver (none for a static call) and the arguments in order, and the stack exactly the result above what was below them |
| `Agreement.FieldsOfAnyWidth` | scripts/extract_caps.py:905-925 | field reads and writes of any width, and the putstatic event with the value popped |
| `Agreement.LocalsOfAnyWidth` | scripts/extract_caps.py:817-868 | loads and stores of any kind in either encoding |
| `Agreement.ConstantsPush` | scripts/extract_caps.py:785-818 | what each constant instruction pushes, with the second slot of longs and doubles |
| `Simulate.Sim.Run` | scripts/extract_caps.py:763-776 | all steps in order, or none if the code cannot be walked |
| `Agreement.RunsTheExpression` | scripts/extract_caps.py:778-941 | running an expression's code pushes exactly its value, changes no local, and records exactly its calls: each at its pc, with its receiver and arguments, behind those of its operands |
| `Agreement.RunsTheProgram` | scripts/extract_caps.py:778-941 | running a program leaves the stack as it was and the locals as its stores say, and records its calls and static assignments in order, each with the values at that point |
| `Agreement.RunPushesTheValue` | scripts/extract_caps.py:763-941 | the same from the bytes, locals and events included |
| `Agreement.MeaningIsValue` | scripts/extract_caps.py:724-1120 | following an expression backwards and evaluating it forwards come to the same value |
| `Agreement.TheEnginesAgree` | scripts/extract_caps.py:724-1137 | from the bytes of a method body whose locals are loaded as what they hold and whose constants ldc may load: the one value on the forward stack is, in backward terms, what value_at rebuilds from the last instruction |
| `Agreement.ChainsAreFollowedIff` | scripts/extract_caps.py:1059-1073 | value_at sees through a chain of copies if and only if it is at most four stores long; the forward engine through all |
| `Hex.ParseInvertsMacString` | internal/herder/identity.go:186-203 | the canonical spelling of a MAC parses back to it |
| `Hex.ParseMacIff` | internal/herder/identity.go:186-203 | the spellings read are exactly six pairs with colons or dashes and three fours with dots, in either case |
| `Hex.DecodeInvertsEncode` | inform/crypto.go:16-25 | hexadecimal text decodes to the bytes it encodes |
| `Hex.DecodeIff` | inform/crypto.go:16-25 | and accepts exactly its spellings in either case |

## Left out

- Docker, testcontainers, image pulls, log following and file permission checks: they are the arbitrary backend above.
- HTTP, TLS, DNS, cookies and retries of internal/adopt and informurl.go, and flag, environment and YAML parsing.
- Decoding of requests, runtime configurations, controller replies and inform URLs: their outcomes are parameters.
- The text of failures, diagnostics on stderr and the JSON spelling of events.
- Wall-clock time: deadlines and cancellations are context states at the points where the code looks, times are integers.
- inform/tables.go, the profile registry, the modelgen scrapers and the rest of scripts/extract_caps.py: constant maps or heuristics without a crisp specification.
- Live units and failures are values, so sharing of one `live` or `Failure` between slices is not modelled; the lists themselves are fields the methods reassign.
- Run.Run.Monitor: is stated over finite poll streams that end with a dead context; a monitor that polls forever returns nothing.
- Device.Device.Loop: covers the cycles the context lets through, not the timer between them.
- Bytecode.WalkCode: a switch whose count is so negative that its end does not lie past its start is an error; the generator would go back, possibly forever.
- Rebuild.ValueAt: takes decoded instructions as what they push and store, without their pcs, which value_at ignores; constant-pool indexes outside the pool, which raise, are not modelled.
- Simulate.Sim.Step: the opcodes outside straight-line code (arithmetic, arrays, branches, dup and swap, new, invokedynamic, wide) are one arbitrary function on the state, and values only they make are opaque, so filling in the arguments of a new object is not modelled.
- Simulate.Sim.constructor: is for descriptors that parse; others raise.
- Agreement.TheEnginesAgree: is for values of one slot, for constants `ldc` may load, and for locals loaded as what they hold, no more than four stores back; outside that the engines differ, as `ConstantsAgreeIff` and `ChainsAreFollowedIff` show.
- Readiness.AttachmentAcceptedIff: compares MACs by ASCII upper case, which is what case folding does on hexadecimal text.
- InformCrypto.DecryptBlocksInverts: that a block cipher is a permutation is assumed of the abstract primitives, as the inverse laws of GCM and of the compressors are.
- Redactor.RedactLeavesNoTerm: needs every term to contain one that cannot be created.  That this is also necessary is proved for one image and for every list whose other terms leave a text standing that shows the created one (`Telling`); where every such text is destroyed by another configured term on the way, whether some longer text betrays the term is open.
