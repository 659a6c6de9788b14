/** device.go and loop.go: one emulated device informing its controller. */
module Device {
  import opened Prelude
  import opened InformCrypto
  import InformPacket
  import S = Session

  datatype DeviceState = Pending | Adopting | Connected

  /** What surrounds a device: the packet primitives, JSON both ways, and its 6-byte MAC header. */
  datatype World = World(c: Crypto, render: map<string, S.Value> -> bytes, json: bytes -> S.Reply, macHeader: bytes)

  ghost predicate GoodWorld(w: World)
  {
    Sound(w.c) && |w.macHeader| == 6
  }

  /** How one POST ended. */
  datatype Exchange = Failed | Answered(status: int, body: bytes)

  /** One cycle: when the inform is built, when the reply is applied, the nonce drawn, the outcome. */
  datatype Cycle = Cycle(now: int, applied: int, iv: bytes, exchange: Exchange)

  datatype Snapshot = Snapshot(session: S.SessionState, state: DeviceState, interval: int, lastMgmt: string)

  const HTTP_OK := 200
  const HTTP_NOT_FOUND := 404

  // ---------------------------------------------------------------------------------------------
  // The inform itself
  // ---------------------------------------------------------------------------------------------

  /** Session.EncodeInform: None when the key the session holds is not a key. */
  function EncodeInform(w: World, s: S.SessionState, now: int, iv: bytes): Option<bytes>
    requires GoodWorld(w) && |iv| == 16
  {
    var key := ParseKey(s.key);
    var p := InformPacket.Packet(w.macHeader, w.render(S.BuildPayload(s, now)));
    if key.None? then None
    else if s.useAESGCM then Some(InformPacket.EncodeGcm(w.c, p, key.value, iv))
    else Some(InformPacket.EncodeCbc(w.c, p, key.value, iv))
  }

  /** In either negotiated mode, whoever holds the session's key reads exactly its payload. */
  lemma {:induction false} ControllerReadsTheInform(w: World, s: S.SessionState, now: int, iv: bytes)
    requires GoodWorld(w) && |iv| == 16 && ParseKey(s.key).Some?
    requires |w.c.deflate(w.render(S.BuildPayload(s, now)))| + 16 < 0x1_0000_0000
    ensures var sent := EncodeInform(w, s, now, iv);
            && sent.Some?
            && InformPacket.DecodeWith(w.c, sent.value, ParseKey(s.key))
               == Ok(InformPacket.Packet(w.macHeader, w.render(S.BuildPayload(s, now))))
            && |sent.value| >= 40 && sent.value[14..16] == [0, if s.useAESGCM then 0x0b else 0x03]
  {
    hide InformPacket.DecodeWith, InformPacket.Header, InformPacket.EncodeCbc, InformPacket.EncodeGcm, S.BuildPayload;
    var key := ParseKey(s.key).value;
    var p := InformPacket.Packet(w.macHeader, w.render(S.BuildPayload(s, now)));
    var sent := EncodeInform(w, s, now, iv).value;
    assert sent + [] == sent;
    InformPacket.EncodedFlags(w.c, p, key, iv);
    if s.useAESGCM {
      InformPacket.DecodeInvertsGcm(w.c, p, key, iv, []);
    } else {
      InformPacket.CbcGrowsByAtMostABlock(w.c, p, key, iv);
      InformPacket.DecodeInvertsCbc(w.c, p, key, iv, []);
    }
  }

  // ---------------------------------------------------------------------------------------------
  // applyResponse
  // ---------------------------------------------------------------------------------------------

  function React(d: Snapshot, e: S.Effect): Snapshot
  {
    match e
    case AdoptingViaSetAdopt(_) => d.(state := Adopting)
    case AdoptingViaMgmtCfg => d.(state := Adopting)
    case FactoryReset => d.(state := Pending)
    case Interval(nanos) => d.(interval := nanos)
    case MgmtCfg(text) => d.(lastMgmt := text)
    case _ => d
  }

  function ReactAll(d: Snapshot, es: seq<S.Effect>): Snapshot
    decreases |es|
  {
    if es == [] then d else ReactAll(React(d, es[0]), es[1..])
  }

  function ApplyReply(d: Snapshot, now: int, r: S.Reply): Snapshot
  {
    var (s, effects) := S.Next(d.session, now, r);
    ReactAll(d.(session := s), effects)
  }

  // ---------------------------------------------------------------------------------------------
  // informOnce
  // ---------------------------------------------------------------------------------------------

  /** The reply a cycle delivers, decoded under the key its inform was encoded with. */
  function Delivered(w: World, key: string, ex: Exchange): Option<S.Reply>
    requires Sound(w.c)
  {
    if ParseKey(key).None? || ex.Failed? || ex.status != HTTP_OK || ex.body == [] then None
    else
      var p := InformPacket.DecodeWith(w.c, ex.body, ParseKey(key));
      if p.Err? then None else Some(w.json(p.value.payload))
  }

  function AfterCycle(w: World, d: Snapshot, cy: Cycle): Snapshot
    requires Sound(w.c)
  {
    var reply := Delivered(w, d.session.key, cy.exchange);
    if reply.None? then d
    else
      var d' := ApplyReply(d, cy.applied, reply.value);
      if d.state == Adopting && d'.session.adopted && d'.state == Adopting then d'.(state := Connected) else d'
  }

  function AfterCycles(w: World, d: Snapshot, cycles: seq<Cycle>): Snapshot
    requires Sound(w.c)
    decreases |cycles|
  {
    if cycles == [] then d else AfterCycles(w, AfterCycle(w, d, cycles[0]), cycles[1..])
  }

  /** PENDING means not adopted, and the session keeps its own rules. */
  predicate DeviceInv(d: Snapshot)
  {
    S.SessionInv(d.session) && (d.state == Pending <==> !d.session.adopted)
  }

  /** What one reply does to the observable state. */
  lemma {:induction false} ApplyReplyStates(d: Snapshot, now: int, r: S.Reply)
    requires DeviceInv(d)
    ensures DeviceInv(ApplyReply(d, now, r))
    ensures var d' := ApplyReply(d, now, r);
            && d'.session == S.Next(d.session, now, r).0
            && d'.state == (if S.Resets(r) then Pending
                            else if S.SetsAdopted(r) || S.AdoptsByConfig(d.session, r) then Adopting
                            else d.state)
  {
    hide S.Next, S.SessionInv, S.AdoptsByConfig;
    S.NextKeepsInv(d.session, now, r);
    ReactAllKeepsSession(d.(session := S.Next(d.session, now, r).0), S.Next(d.session, now, r).1);
    S.NextCredentials(d.session, now, r);
    NextEffects(d.session, now, r);
    EffectsStates(d.(session := S.Next(d.session, now, r).0), S.Next(d.session, now, r).1);
  }

  lemma {:induction false} ReactAllKeepsSession(d: Snapshot, es: seq<S.Effect>)
    ensures ReactAll(d, es).session == d.session
    decreases |es|
  {
    if es != [] {
      ReactAllKeepsSession(React(d, es[0]), es[1..]);
    }
  }

  /** The state an effect asks for, if any. */
  function Asks(e: S.Effect): Option<DeviceState>
  {
    match e
    case AdoptingViaSetAdopt(_) => Some(Adopting)
    case AdoptingViaMgmtCfg => Some(Adopting)
    case FactoryReset => Some(Pending)
    case _ => None
  }

  function Or(asked: Option<DeviceState>, state: DeviceState): DeviceState
  {
    if asked.Some? then asked.value else state
  }

  lemma {:induction false} EffectsStates(d: Snapshot, es: seq<S.Effect>)
    requires |es| <= 2 && (|es| == 2 ==> Asks(es[0]).None?)
    ensures ReactAll(d, es).state == Or(if es == [] then None else Asks(es[|es| - 1]), d.state)
  {
    if |es| == 2 {
      assert ReactAll(d, es) == ReactAll(React(d, es[0]), es[1..]);
      assert es[1..][0] == es[1] && es[1..][1..] == [];
    } else if |es| == 1 {
      assert es[1..] == [];
    }
  }

  lemma {:induction false} NextEffects(s: S.SessionState, now: int, r: S.Reply)
    ensures var es := S.Next(s, now, r).1;
            && |es| <= 2 && (|es| == 2 ==> Asks(es[0]).None?)
            && (if es == [] then None else Asks(es[|es| - 1])) ==
               (if S.Resets(r) then Some(Pending)
                else if S.SetsAdopted(r) || S.AdoptsByConfig(s, r) then Some(Adopting) else None)
  {
    hide S.ReadMgmt, S.AfterSetstate, S.ParseBool, S.Nanoseconds;
  }

  /** Over every run of the inform loop the device is PENDING exactly while it is not adopted. */
  lemma {:induction false} PendingIffNotAdopted(w: World, d: Snapshot, cycles: seq<Cycle>)
    requires Sound(w.c) && DeviceInv(d)
    ensures DeviceInv(AfterCycles(w, d, cycles))
    decreases |cycles|
  {
    if cycles != [] {
      CycleKeepsInv(w, d, cycles[0]);
      PendingIffNotAdopted(w, AfterCycle(w, d, cycles[0]), cycles[1..]);
    }
  }

  lemma {:induction false} CycleKeepsInv(w: World, d: Snapshot, cy: Cycle)
    requires Sound(w.c) && DeviceInv(d)
    ensures DeviceInv(AfterCycle(w, d, cy))
  {
    var reply := Delivered(w, d.session.key, cy.exchange);
    if reply.Some? {
      ApplyReplyStates(d, cy.applied, reply.value);
    }
  }

  /** The state a delivered reply leaves a device in: a reset is PENDING, the reply that follows an
      inform sent while ADOPTING completes the handshake, an adopting one opens it. */
  function StateAfter(d: Snapshot, r: S.Reply): DeviceState
  {
    if S.Resets(r) then Pending
    else if d.state == Adopting then Connected
    else if S.SetsAdopted(r) || S.AdoptsByConfig(d.session, r) then Adopting
    else d.state
  }

  /** What a cycle does to a device in any state: nothing without a delivered reply; else the session
      is that of the reply, a noop sets the interval, and a setparam is remembered. */
  ghost predicate Moves(w: World, d: Snapshot, cy: Cycle, d': Snapshot)
    requires Sound(w.c)
  {
    match Delivered(w, d.session.key, cy.exchange)
    case None => d' == d
    case Some(r) =>
      && d'.session == S.Next(d.session, cy.applied, r).0
      && d'.state == StateAfter(d, r)
      && d'.interval == (if S.Is(r, "noop") && r.interval > 0 then S.Nanoseconds(r.interval) else d.interval)
      && d'.lastMgmt == (if S.Is(r, "setparam") then r.mgmtCfg else d.lastMgmt)
  }

  lemma {:induction false} CycleMoves(w: World, d: Snapshot, cy: Cycle)
    requires Sound(w.c) && DeviceInv(d)
    ensures Moves(w, d, cy, AfterCycle(w, d, cy))
  {
    hide S.Next, S.SessionInv, S.AdoptsByConfig, S.Nanoseconds, ApplyReply, Delivered;
    var reply := Delivered(w, d.session.key, cy.exchange);
    if reply.Some? {
      ApplyReplyStates(d, cy.applied, reply.value);
      ApplyReplyRemembers(d, cy.applied, reply.value);
      S.NextCredentials(d.session, cy.applied, reply.value);
    }
  }

  lemma {:induction false} ApplyReplyRemembers(d: Snapshot, now: int, r: S.Reply)
    ensures var d' := ApplyReply(d, now, r);
            && d'.interval == (if S.Is(r, "noop") && r.interval > 0 then S.Nanoseconds(r.interval) else d.interval)
            && d'.lastMgmt == (if S.Is(r, "setparam") then r.mgmtCfg else d.lastMgmt)
  {
    var es := S.Next(d.session, now, r).1;
    hide S.ReadMgmt, S.ParseBool, S.Overlaid, S.Nanoseconds, S.Adopts, ReactAll;
    ReactUpToTwo(d.(session := S.Next(d.session, now, r).0), es);
  }

  lemma {:induction false} ReactUpToTwo(d: Snapshot, es: seq<S.Effect>)
    requires |es| <= 2
    ensures ReactAll(d, es) ==
            if es == [] then d else if |es| == 1 then React(d, es[0]) else React(React(d, es[0]), es[1])
  {
    if |es| == 2 {
      assert ReactAll(d, es) == ReactAll(React(d, es[0]), es[1..]);
      assert es[1..][0] == es[1] && es[1..][1..] == [];
    } else if |es| == 1 {
      assert es[1..] == [];
    }
  }

  /** What counts as a delivered reply. */
  lemma {:induction false} DeliveredIff(w: World, key: string, ex: Exchange, r: S.Reply)
    requires Sound(w.c)
    ensures Delivered(w, key, ex) == Some(r) <==>
            && ex.Answered? && ex.status == 200 && ex.body != [] && ParseKey(key).Some?
            && exists p :: InformPacket.DecodeWith(w.c, ex.body, ParseKey(key)) == Ok(p) && w.json(p.payload) == r
  {
    hide InformPacket.DecodeWith;
  }

  /** A device turns CONNECTED exactly in a cycle that starts ADOPTING and delivers a reply other
      than a factory reset.  So its inform was encoded adopted, the reply decoded under the key of
      that inform, and no single cycle leads from PENDING to CONNECTED. */
  lemma {:induction false} ConnectedIff(w: World, d: Snapshot, cy: Cycle)
    requires Sound(w.c) && DeviceInv(d) && d.state != Connected
    ensures var reply := Delivered(w, d.session.key, cy.exchange);
            AfterCycle(w, d, cy).state == Connected <==> d.state == Adopting && reply.Some? && !S.Resets(reply.value)
    ensures AfterCycle(w, d, cy).state == Connected ==> d.session.adopted
  {
    var reply := Delivered(w, d.session.key, cy.exchange);
    if reply.Some? {
      ApplyReplyStates(d, cy.applied, reply.value);
    }
  }

  /** Whether a reply replaces the key the session holds. */
  predicate Rotates(s: S.SessionState, r: S.Reply)
  {
    || (S.SetsAdopted(r) && r.key != "" && r.key != s.key)
    || S.AdoptsByConfig(s, r)
    || (S.Resets(r) && s.key != S.DEFAULT_KEY)
  }

  lemma {:induction false} RotatesIff(s: S.SessionState, now: int, r: S.Reply)
    ensures S.Next(s, now, r).0.key != s.key <==> Rotates(s, r)
  {
    hide S.Next, S.ReadMgmt, S.Setting;
    S.NextCredentials(s, now, r);
  }

  /** CONNECTED speaks of the newest key exactly when the reply that completed the handshake did
      not itself rotate it. */
  lemma {:induction false} ConnectedOnNewestKeyIff(w: World, d: Snapshot, cy: Cycle)
    requires Sound(w.c) && DeviceInv(d) && d.state == Adopting && AfterCycle(w, d, cy).state == Connected
    ensures AfterCycle(w, d, cy).session.key == d.session.key <==>
            !Rotates(d.session, Delivered(w, d.session.key, cy.exchange).value)
  {
    hide S.Next, S.SessionInv, S.AdoptsByConfig, Rotates, ApplyReply;
    var r := Delivered(w, d.session.key, cy.exchange).value;
    ApplyReplyStates(d, cy.applied, r);
    RotatesIff(d.session, cy.applied, r);
  }

  /** The case where it does: a second set-adopt that arrives while ADOPTING rotates the key and
      turns the device CONNECTED in the same cycle. */
  lemma {:induction false} SecondSetAdoptConnectsOnAnUnusedKey(w: World, d: Snapshot, cy: Cycle)
    requires Sound(w.c) && DeviceInv(d) && d.state == Adopting
    requires var r := Delivered(w, d.session.key, cy.exchange);
             r.Some? && S.SetsAdopted(r.value) && r.value.key != "" && r.value.key != d.session.key
    ensures var d' := AfterCycle(w, d, cy);
            d'.state == Connected && d'.session.key != d.session.key
  {
    ConnectedIff(w, d, cy);
    ConnectedOnNewestKeyIff(w, d, cy);
  }

  /** A session that was handed something that is not a key never encodes an inform again, so
      nothing can ever change it. */
  lemma {:induction false} BadKeyIsForever(w: World, d: Snapshot, cycles: seq<Cycle>)
    requires Sound(w.c) && ParseKey(d.session.key).None?
    ensures AfterCycles(w, d, cycles) == d
    decreases |cycles|
  {
    if cycles != [] {
      BadKeyIsForever(w, d, cycles[1..]);
    }
  }

  // ---------------------------------------------------------------------------------------------
  // noteStatus
  // ---------------------------------------------------------------------------------------------

  /** How many statuses at the end of the history equal its last one. */
  function TrailingRun(history: seq<int>): nat
  {
    if history == [] then 0
    else
      var init, last := history[..|history| - 1], history[|history| - 1];
      if init != [] && init[|init| - 1] == last then TrailingRun(init) + 1 else 1
  }

  /** It is the one number of last statuses that are equal, with a different one before them. */
  lemma {:induction false} TrailingRunIs(history: seq<int>)
    ensures var n := TrailingRun(history);
            && n <= |history| && (history != [] ==> n > 0)
            && (forall i | |history| - n <= i < |history| :: history[i] == history[|history| - 1])
            && (n < |history| ==> history[|history| - n - 1] != history[|history| - 1])
  {
    if history != [] {
      TrailingRunIs(history[..|history| - 1]);
    }
  }

  datatype Note = Silent | Heartbeat(status: int, run: nat) | Changed(status: int, previous: int, previousRun: nat)

  class Device {
    const w: World
    const heartbeat: int
    var session: S.Session
    var state: DeviceState
    var interval: int
    var lastMgmt: string
    var lastStatus: int
    var statusRun: nat
    var lastStatusLog: int

    function View(): Snapshot
      reads this, session
    {
      Snapshot(session.State(), state, interval, lastMgmt)
    }

    constructor (w: World, desc: S.Descriptor, informURL: string, now: int, heartbeat: int)
      ensures this.w == w && fresh(session) && DeviceInv(View())
      ensures View() == Snapshot(S.NewSession(desc, informURL, now), Pending, 10_000_000_000, "")
      ensures Tracks([])
    {
      this.w, this.heartbeat := w, heartbeat;
      session := new S.Session(desc, informURL, now);
      state, interval, lastMgmt := Pending, 10_000_000_000, "";
      lastStatus, statusRun, lastStatusLog := 0, 0, 0;
    }

    /** applyResponse. */
    method ApplyResponse(now: int, r: S.Reply)
      modifies this`state, this`interval, this`lastMgmt, session
      ensures View() == ApplyReply(old(View()), now, r)
    {
      ghost var before := View();
      var effects := session.Apply(now, r);
      for i := 0 to |effects|
        invariant session.State() == S.Next(before.session, now, r).0
        invariant ReactAll(View(), effects[i..]) == ApplyReply(before, now, r)
      {
        assert effects[i..][1..] == effects[i + 1..];
        match effects[i] {
          case AdoptingViaSetAdopt(_) => state := Adopting;
          case AdoptingViaMgmtCfg => state := Adopting;
          case FactoryReset => state := Pending;
          case Interval(nanos) => interval := nanos;
          case MgmtCfg(text) =>
            if text != lastMgmt {
              lastMgmt := text;
            }
          case _ =>
        }
      }
    }

    /** The status bookkeeping is that of the history of answered informs. */
    ghost predicate Tracks(history: seq<int>)
      reads this
    {
      if history == [] then lastStatus == 0 && statusRun == 0
      else lastStatus == history[|history| - 1] && statusRun == TrailingRun(history)
    }

    /** noteStatus: a transition is reported with the length of the run it ends, a repeat only
        when the last report is a heartbeat old, and then with its own length. */
    method NoteStatus(status: int, now: int, ghost history: seq<int>) returns (note: Note)
      requires Tracks(history) && status > 0
      modifies this`lastStatus, this`statusRun, this`lastStatusLog
      ensures Tracks(history + [status])
      ensures note == if history != [] && history[|history| - 1] == status then
                        (if now - old(lastStatusLog) < heartbeat then Silent
                         else Heartbeat(status, TrailingRun(history + [status])))
                      else Changed(status, if history == [] then 0 else history[|history| - 1], TrailingRun(history))
      ensures note == Silent ==> lastStatusLog == old(lastStatusLog) && now - lastStatusLog < heartbeat
      ensures note != Silent ==> lastStatusLog == now
    {
      assert (history + [status])[..|history|] == history;
      var previous, run := lastStatus, statusRun;
      if status == lastStatus {
        statusRun := statusRun + 1;
        if now - lastStatusLog < heartbeat {
          return Silent;
        }
        lastStatusLog := now;
        return Heartbeat(status, statusRun);
      }
      lastStatus, statusRun, lastStatusLog := status, 1, now;
      return Changed(status, previous, run);
    }

    /** informOnce. */
    method InformOnce(cy: Cycle, ghost history: seq<int>) returns (sent: Option<bytes>, ghost history': seq<int>)
      requires GoodWorld(w) && |cy.iv| == 16 && Tracks(history)
      requires cy.exchange.Answered? ==> cy.exchange.status > 0
      modifies this, session
      ensures session == old(session) && View() == AfterCycle(w, old(View()), cy)
      ensures old(DeviceInv(View())) ==> DeviceInv(View()) && Moves(w, old(View()), cy, View())
      ensures sent == EncodeInform(w, old(session.State()), cy.now, cy.iv)
      ensures Tracks(history')
      ensures history' == if sent.Some? && cy.exchange.Answered? then history + [cy.exchange.status] else history
    {
      hide ApplyReply, TrailingRun, EncodeInform, InformPacket.DecodeWith, Moves, DeviceInv;
      ghost var before := View();
      if DeviceInv(before) {
        CycleMoves(w, before, cy);
        CycleKeepsInv(w, before, cy);
      }
      sent := Encode(cy.now, cy.iv);
      var key := session.key;
      history' := history;
      if sent.None? || cy.exchange.Failed? {
        return;
      }
      var note := NoteStatus(cy.exchange.status, cy.applied, history);
      history' := history + [cy.exchange.status];
      if cy.exchange.status == HTTP_NOT_FOUND || cy.exchange.status != HTTP_OK || |cy.exchange.body| == 0 {
        return;
      }
      var dec := InformPacket.Decode(w.c, cy.exchange.body, key, InformPacket.Word64);
      if dec.Err? {
        return;
      }
      var wasAdopting := state == Adopting;
      ApplyResponse(cy.applied, w.json(dec.value.payload));
      if wasAdopting && session.adopted && state == Adopting {
        state := Connected;
      }
    }

    method Encode(now: int, iv: bytes) returns (sent: Option<bytes>)
      requires GoodWorld(w) && |iv| == 16
      ensures sent == EncodeInform(w, session.State(), now, iv)
      ensures sent.None? <==> ParseKey(session.key).None?
    {
      var p := InformPacket.Packet(w.macHeader, w.render(S.BuildPayload(session.State(), now)));
      if session.useAESGCM {
        sent := InformPacket.EncodeAuthenticated(w.c, p, session.key, iv);
      } else {
        sent := InformPacket.Encode(w.c, p, session.key, iv);
      }
    }

    /** run, for as long as the context leaves it running. */
    method Loop(cycles: seq<Cycle>)
      requires GoodWorld(w) && Tracks([]) && DeviceInv(View())
      requires forall cy | cy in cycles :: |cy.iv| == 16 && (cy.exchange.Answered? ==> cy.exchange.status > 0)
      modifies this, session
      ensures View() == AfterCycles(w, old(View()), cycles)
      ensures state == Pending <==> !session.adopted
    {
      ghost var history: seq<int> := [];
      for i := 0 to |cycles|
        invariant session == old(session) && Tracks(history)
        invariant AfterCycles(w, View(), cycles[i..]) == AfterCycles(w, old(View()), cycles)
      {
        assert cycles[i] in cycles && cycles[i..][1..] == cycles[i + 1..];
        var sent;
        sent, history := InformOnce(cycles[i], history);
      }
      PendingIffNotAdopted(w, old(View()), cycles);
    }
  }
}
