/** inform/session.go: the adoption state machine a device drives with controller replies. */
module Session {
  import opened Prelude
  import opened Text

  const DEFAULT_KEY: string := "ba86f2bbe107c7c57eb5f2690775c712"

  datatype Descriptor = Descriptor(mac: string, serial: string, model: string, modelDisplay: string, version: string,
                                   ip: string, hostname: string, kind: string, fwCaps: int, udapiVersion: string,
                                   udapiCaps: int)

  /** A raw JSON value, uninterpreted. */
  type Json = string

  /** Times are in seconds. */
  datatype SessionState = SessionState(desc: Descriptor, key: string, cfgversion: string, adopted: bool,
                                       useAESGCM: bool, informURL: string, setstate: map<string, Json>, bootTime: int)

  /** A decoded controller reply; raw is the reply as a JSON object, for setstate. */
  datatype Reply =
    | Undecodable
    | Reply(kind: string, cmd: string, key: string, uri: string, interval: int, mgmtCfg: string,
            cfgversion: string, version: string, raw: map<string, Json>)

  datatype Effect =
    | AdoptingViaSetAdopt(uri: string) | AdoptingViaMgmtCfg | FactoryReset | Rebooted | Upgraded(version: string)
    | Interval(nanos: int) | MgmtCfg(text: string) | UnknownCmd(cmd: string) | UnknownType(kind: string) | DecodeError

  function NewSession(desc: Descriptor, informURL: string, now: int): SessionState
  {
    SessionState(desc, DEFAULT_KEY, "0", false, false, informURL, map[], now)
  }

  // ---------------------------------------------------------------------------------------------
  // mgmt_cfg: lines of k=v
  // ---------------------------------------------------------------------------------------------

  /** unicode.IsSpace. */
  predicate IsSpace(c: char)
  {
    || c in {'\t', '\n', '\U{0B}', '\U{0C}', '\r', ' ', '\U{85}', '\U{A0}'}
    || c in {'\U{1680}', '\U{2028}', '\U{2029}', '\U{202F}', '\U{205F}', '\U{3000}'}
    || '\U{2000}' <= c <= '\U{200A}'
  }

  function TrimSpace(s: string): string
  {
    if s == "" then ""
    else if IsSpace(s[0]) then TrimSpace(s[1..])
    else if IsSpace(s[|s| - 1]) then TrimSpace(s[..|s| - 1])
    else s
  }

  /** strings.Split(s, "\n"). */
  function Lines(s: string): seq<string>
    decreases |s|
  {
    var p := Find(s, '\n');
    if p < 0 then [s] else [s[..p]] + Lines(s[p + 1..])
  }

  datatype Mgmt = Mgmt(cfgversion: string, authkey: string, useAESGCM: string)

  /** One line: the last occurrence of a key wins, and a line without '=' says nothing. */
  function ReadLine(m: Mgmt, line: string): Mgmt
  {
    var t := TrimSpace(line);
    var p := Find(t, '=');
    if p < 0 then m
    else
      var k, v := t[..p], t[p + 1..];
      if k == "cfgversion" then m.(cfgversion := v)
      else if k == "authkey" then m.(authkey := v)
      else if k == "use_aes_gcm" then m.(useAESGCM := v)
      else m
  }

  function ReadLines(m: Mgmt, lines: seq<string>): Mgmt
    decreases |lines|
  {
    if lines == [] then m else ReadLines(ReadLine(m, lines[0]), lines[1..])
  }

  function ReadMgmt(cfg: string): Mgmt
  {
    ReadLines(Mgmt("", "", ""), Lines(cfg))
  }

  /** strconv.ParseBool. */
  function ParseBool(s: string): Option<bool>
  {
    if s in {"1", "t", "T", "TRUE", "true", "True"} then Some(true)
    else if s in {"0", "f", "F", "FALSE", "false", "False"} then Some(false)
    else None
  }

  // ---------------------------------------------------------------------------------------------
  // What reading a mgmt_cfg yields
  // ---------------------------------------------------------------------------------------------

  function JoinLines(lines: seq<string>): string
    requires lines != []
  {
    if |lines| == 1 then lines[0] else lines[0] + ("\n" + JoinLines(lines[1..]))
  }

  /** The lines are the text cut at every line break. */
  lemma {:induction false} LinesJoin(s: string)
    ensures Lines(s) != [] && JoinLines(Lines(s)) == s
    ensures forall i | 0 <= i < |Lines(s)| :: '\n' !in Lines(s)[i]
    decreases |s|
  {
    var p := Find(s, '\n');
    FindIsFirst(s, '\n');
    hide Find, JoinLines;
    if p >= 0 {
      LinesJoin(s[p + 1..]);
      JoinOneMore(s[..p], Lines(s[p + 1..]));
      assert s == s[..p] + ("\n" + s[p + 1..]);
    } else {
      JoinOne(s);
    }
  }

  lemma {:induction false} JoinOne(line: string)
    ensures JoinLines([line]) == line
  {
  }

  lemma {:induction false} JoinOneMore(line: string, rest: seq<string>)
    requires rest != []
    ensures JoinLines([line] + rest) == line + ("\n" + JoinLines(rest))
  {
    assert ([line] + rest)[1..] == rest;
  }

  predicate Blank(s: string)
  {
    forall c | c in s :: IsSpace(c)
  }

  /** t is s without the white space around it. */
  ghost predicate TrimmedTo(s: string, t: string)
  {
    && (t == "" || (!IsSpace(t[0]) && !IsSpace(t[|t| - 1])))
    && exists a, b :: Blank(a) && Blank(b) && Around(s, a, t, b)
  }

  predicate Around(s: string, a: string, t: string, b: string)
  {
    s == a + t + b
  }

  lemma {:induction false} TrimSpaceTrims(s: string)
    ensures TrimmedTo(s, TrimSpace(s))
    decreases |s|
  {
    hide IsSpace, TrimmedTo;
    if s == "" || (!IsSpace(s[0]) && !IsSpace(s[|s| - 1])) {
      NothingToTrim(s);
    } else if IsSpace(s[0]) {
      TrimSpaceTrims(s[1..]);
      TrimFront(s, TrimSpace(s));
    } else {
      TrimSpaceTrims(s[..|s| - 1]);
      TrimBack(s, TrimSpace(s));
    }
  }

  lemma {:induction false} NothingToTrim(s: string)
    requires s == "" || (!IsSpace(s[0]) && !IsSpace(s[|s| - 1]))
    ensures TrimmedTo(s, s)
  {
    assert Blank("") && Around(s, "", s, "");
  }

  lemma {:induction false} TrimFront(s: string, t: string)
    requires s != "" && IsSpace(s[0]) && TrimmedTo(s[1..], t)
    ensures TrimmedTo(s, t)
  {
    hide IsSpace;
    var a, b :| Blank(a) && Blank(b) && Around(s[1..], a, t, b);
    assert Blank([s[0]] + a) && Around(s, [s[0]] + a, t, b);
  }

  lemma {:induction false} TrimBack(s: string, t: string)
    requires s != "" && IsSpace(s[|s| - 1]) && TrimmedTo(s[..|s| - 1], t)
    ensures TrimmedTo(s, t)
  {
    hide IsSpace;
    var a, b :| Blank(a) && Blank(b) && Around(s[..|s| - 1], a, t, b);
    assert Blank(b + [s[|s| - 1]]) && Around(s, a, t, b + [s[|s| - 1]]);
  }

  /** The line sets this key to this value. */
  predicate Says(line: string, key: string, v: string)
  {
    TrimSpace(line) == key + "=" + v
  }

  /** Some line sets the key to v, and no later line sets it again. */
  ghost predicate LastSays(lines: seq<string>, key: string, v: string)
  {
    exists i :: 0 <= i < |lines| && Says(lines[i], key, v) && Silent(lines[i + 1..], key)
  }

  ghost predicate Silent(lines: seq<string>, key: string)
  {
    forall i, w | 0 <= i < |lines| :: !Says(lines[i], key, w)
  }

  const KEYS: set<string> := {"cfgversion", "authkey", "use_aes_gcm"}

  function Setting(m: Mgmt, key: string): string
    requires key in KEYS
  {
    if key == "cfgversion" then m.cfgversion else if key == "authkey" then m.authkey else m.useAESGCM
  }

  lemma {:induction false} SaysIff(line: string, key: string, v: string)
    requires '=' !in key
    ensures var t := TrimSpace(line);
            var p := Find(t, '=');
            Says(line, key, v) <==> p >= 0 && t[..p] == key && t[p + 1..] == v
  {
    hide TrimSpace;
    var t := TrimSpace(line);
    var p := Find(t, '=');
    if p >= 0 {
      assert t == t[..p] + "=" + t[p + 1..];
    }
    if Says(line, key, v) {
      assert t[|key|] == '=' && t[..|key|] == key;
      FindIs(t, '=', |key|);
    }
  }

  lemma {:induction false} LineSets(line: string, key: string)
    requires '=' !in key
    ensures var t := TrimSpace(line);
            var p := Find(t, '=');
            && (Silent([line], key) <==> p < 0 || t[..p] != key)
            && (p >= 0 && t[..p] == key ==> Says(line, key, t[p + 1..]))
  {
    hide TrimSpace, Says, Find, Silent;
    var t := TrimSpace(line);
    var p := Find(t, '=');
    forall w
      ensures Says(line, key, w) <==> p >= 0 && t[..p] == key && t[p + 1..] == w
    {
      SaysIff(line, key, w);
    }
    SilentOne(line, key);
    assert p >= 0 && t[..p] == key ==> Says(line, key, t[p + 1..]);
  }

  lemma {:induction false} SilentOne(line: string, key: string)
    ensures Silent([line], key) <==> forall w :: !Says(line, key, w)
  {
    hide Says;
    assert [line][0] == line;
  }

  lemma {:induction false} ReadLineSays(m: Mgmt, line: string, key: string)
    requires key in KEYS
    ensures var v := Setting(ReadLine(m, line), key);
            if Silent([line], key) then v == Setting(m, key) else Says(line, key, v)
  {
    KeysHaveNoEquals(key);
    hide TrimSpace, Says, Find, Silent;
    LineSets(line, key);
  }

  lemma {:induction false} ReadLinesSay(m: Mgmt, lines: seq<string>, key: string)
    requires key in KEYS
    ensures var v := Setting(ReadLines(m, lines), key);
            if Silent(lines, key) then v == Setting(m, key) else LastSays(lines, key, v)
    decreases |lines|
  {
    if lines != [] {
      var rest := lines[1..];
      var m' := ReadLine(m, lines[0]);
      var v := Setting(ReadLines(m', rest), key);
      hide ReadLine, Says, Setting;
      ReadLineSays(m, lines[0], key);
      ReadLinesSay(m', rest, key);
      assert forall i | 0 <= i < |rest| :: rest[i] == lines[i + 1];
      assert [lines[0]][0] == lines[0];
      if !Silent(rest, key) {
        var i :| 0 <= i < |rest| && Says(rest[i], key, v) && Silent(rest[i + 1..], key);
        assert rest[i + 1..] == lines[i + 2..];
        assert Says(lines[i + 1], key, v) && Silent(lines[i + 1 + 1..], key);
      } else if !Silent([lines[0]], key) {
        assert Says(lines[0], key, v) && Silent(lines[0 + 1..], key);
      }
    }
  }

  lemma {:induction false} NotLater(lines: seq<string>, key: string, i: int, j: int, w: string)
    requires 0 <= i < |lines| && 0 <= j < |lines| && Silent(lines[i + 1..], key)
    ensures i < j ==> !Says(lines[j], key, w)
  {
    assert i < j ==> lines[i + 1..][j - i - 1] == lines[j];
  }

  lemma {:induction false} LastSaysOnce(lines: seq<string>, key: string, v: string, w: string)
    requires LastSays(lines, key, v) && LastSays(lines, key, w)
    ensures v == w
  {
    hide Silent;
    var i :| 0 <= i < |lines| && Says(lines[i], key, v) && Silent(lines[i + 1..], key);
    var j :| 0 <= j < |lines| && Says(lines[j], key, w) && Silent(lines[j + 1..], key);
    NotLater(lines, key, i, j, w);
    NotLater(lines, key, j, i, v);
    SameTail(key + "=", v, w);
  }

  lemma {:induction false} SameTail(front: string, v: string, w: string)
    ensures front + v == front + w ==> v == w
  {
    assert (front + v)[|front|..] == v && (front + w)[|front|..] == w;
  }

  /** Each setting is what the last line that sets it says, surrounding white space aside, and empty if
      and only if no line sets it or the last one sets it to nothing. */
  lemma {:induction false} ReadMgmtIff(cfg: string, key: string, v: string)
    requires key in KEYS
    ensures Setting(ReadMgmt(cfg), key) == v <==>
            LastSays(Lines(cfg), key, v) || (v == "" && Silent(Lines(cfg), key))
  {
    hide Says, Lines, Setting;
    ReadLinesSay(Mgmt("", "", ""), Lines(cfg), key);
    assert Setting(Mgmt("", "", ""), key) == "" by { NothingSet(key); }
    assert '=' !in key by { KeysHaveNoEquals(key); }
    var read := Setting(ReadMgmt(cfg), key);
    if LastSays(Lines(cfg), key, v) {
      var i :| 0 <= i < |Lines(cfg)| && Says(Lines(cfg)[i], key, v) && Silent(Lines(cfg)[i + 1..], key);
      assert !Silent(Lines(cfg), key);
      LastSaysOnce(Lines(cfg), key, v, read);
    }
  }

  lemma {:induction false} NothingSet(key: string)
    requires key in KEYS
    ensures Setting(Mgmt("", "", ""), key) == ""
  {
  }

  lemma {:induction false} KeysHaveNoEquals(key: string)
    requires key in KEYS
    ensures '=' !in key
  {
  }

  // ---------------------------------------------------------------------------------------------
  // Apply
  // ---------------------------------------------------------------------------------------------

  const OVERLAY: seq<string> := ["radio_table", "vap_table", "port_table", "port_overrides"]
  const OVERLAY_KEYS: set<string> := set k | k in OVERLAY

  /** A 64-bit nanosecond count, wrapping as time.Duration does. */
  function Nanoseconds(seconds: int): int
  {
    (seconds * 1_000_000_000 + 0x8000_0000_0000_0000) % 0x1_0000_0000_0000_0000 - 0x8000_0000_0000_0000
  }

  predicate SetsAdopted(r: Reply)
  {
    r.Reply? && r.kind == "cmd" && r.cmd in {"set-adopt", "adopt"}
  }

  predicate Resets(r: Reply)
  {
    r.Reply? && r.kind == "cmd" && r.cmd == "setdefault"
  }

  function AfterCmd(s: SessionState, now: int, r: Reply): (SessionState, seq<Effect>)
    requires r.Reply?
  {
    if r.cmd in {"set-adopt", "adopt"} then
      (s.(key := if r.key != "" then r.key else s.key,
          informURL := if r.uri != "" then r.uri else s.informURL,
          adopted := true),
       [AdoptingViaSetAdopt(r.uri)])
    else if r.cmd == "setdefault" then
      (s.(adopted := false, key := DEFAULT_KEY, cfgversion := "0", useAESGCM := false, setstate := map[]),
       [FactoryReset])
    else if r.cmd == "reboot" then (s.(bootTime := now), [Rebooted])
    else (s, [UnknownCmd(r.cmd)])
  }

  /** Whether a setparam rotates to the authkey it carries: only away from the default key. */
  predicate Adopts(s: SessionState, m: Mgmt)
  {
    m.authkey != "" && m.authkey != DEFAULT_KEY && s.key == DEFAULT_KEY
  }

  function AfterSetparam(s: SessionState, r: Reply): (SessionState, seq<Effect>)
    requires r.Reply?
  {
    var m := ReadMgmt(r.mgmtCfg);
    var aes := ParseBool(m.useAESGCM);
    (s.(cfgversion := if m.cfgversion != "" then m.cfgversion else s.cfgversion,
        key := if Adopts(s, m) then m.authkey else s.key,
        adopted := s.adopted || Adopts(s, m),
        useAESGCM := if aes.Some? then aes.value else s.useAESGCM),
     [MgmtCfg(r.mgmtCfg)] + (if Adopts(s, m) then [AdoptingViaMgmtCfg] else []))
  }

  /** What of a reply is kept: the tables whose keys it holds. */
  function OverlaidBy(old_: map<string, Json>, raw: map<string, Json>, keys: seq<string>): map<string, Json>
  {
    map k | k in old_.Keys + raw.Keys && (k in old_ || k in keys) ::
      if k in raw && k in keys then raw[k] else if k in old_ then old_[k] else ""
  }

  lemma {:induction false} OverlayStep(old_: map<string, Json>, raw: map<string, Json>, keys: seq<string>, i: nat)
    requires i < |keys|
    ensures var before := OverlaidBy(old_, raw, keys[..i]);
            OverlaidBy(old_, raw, keys[..i + 1]) == if keys[i] in raw then before[keys[i] := raw[keys[i]]] else before
  {
    assert keys[..i + 1] == keys[..i] + [keys[i]];
  }

  function Overlaid(old_: map<string, Json>, raw: map<string, Json>): map<string, Json>
  {
    OverlaidBy(old_, raw, OVERLAY)
  }

  function AfterSetstate(s: SessionState, r: Reply): SessionState
    requires r.Reply?
  {
    s.(cfgversion := if r.cfgversion != "" then r.cfgversion else s.cfgversion,
       setstate := Overlaid(s.setstate, r.raw))
  }

  function Next(s: SessionState, now: int, r: Reply): (SessionState, seq<Effect>)
  {
    match r
    case Undecodable => (s, [DecodeError])
    case Reply(kind, _, _, _, interval, _, _, version, _) =>
      if kind == "cmd" then AfterCmd(s, now, r)
      else if kind == "setparam" then AfterSetparam(s, r)
      else if kind == "setstate" then (AfterSetstate(s, r), [])
      else if kind == "noop" then (s, if interval > 0 then [Interval(Nanoseconds(interval))] else [])
      else if kind == "upgrade" then
        (s.(desc := if version != "" then s.desc.(version := version) else s.desc, bootTime := now),
         [Upgraded(version)])
      else (s, [UnknownType(kind)])
  }

  class Session {
    var desc: Descriptor
    var key: string
    var cfgversion: string
    var adopted: bool
    var useAESGCM: bool
    var informURL: string
    var setstate: map<string, Json>
    var bootTime: int

    function State(): SessionState
      reads this
    {
      SessionState(desc, key, cfgversion, adopted, useAESGCM, informURL, setstate, bootTime)
    }

    constructor (desc: Descriptor, informURL: string, now: int)
      ensures State() == NewSession(desc, informURL, now)
    {
      this.desc, this.informURL, bootTime := desc, informURL, now;
      key, cfgversion, adopted, useAESGCM, setstate := DEFAULT_KEY, "0", false, false, map[];
    }

    method Apply(now: int, r: Reply) returns (effects: seq<Effect>)
      modifies this
      ensures (State(), effects) == Next(old(State()), now, r)
    {
      match r
      case Undecodable =>
        return [DecodeError];
      case Reply(kind, _, _, _, interval, _, _, version, _) =>
        if kind == "cmd" {
          effects := ApplyCmd(now, r);
        } else if kind == "setparam" {
          effects := ApplySetparam(r);
        } else if kind == "setstate" {
          effects := ApplySetstate(r);
        } else if kind == "noop" {
          if interval > 0 {
            return [Interval(Nanoseconds(interval))];
          }
          return [];
        } else if kind == "upgrade" {
          if version != "" {
            desc := desc.(version := version);
          }
          bootTime := now;
          return [Upgraded(version)];
        } else {
          return [UnknownType(kind)];
        }
    }

    method ApplyCmd(now: int, r: Reply) returns (effects: seq<Effect>)
      requires r.Reply?
      modifies this
      ensures (State(), effects) == AfterCmd(old(State()), now, r)
    {
      if r.cmd in {"set-adopt", "adopt"} {
        if r.key != "" {
          key := r.key;
        }
        if r.uri != "" {
          informURL := r.uri;
        }
        adopted := true;
        return [AdoptingViaSetAdopt(r.uri)];
      } else if r.cmd == "setdefault" {
        adopted := false;
        key := DEFAULT_KEY;
        cfgversion := "0";
        useAESGCM := false;
        setstate := map[];
        return [FactoryReset];
      } else if r.cmd == "reboot" {
        bootTime := now;
        return [Rebooted];
      }
      return [UnknownCmd(r.cmd)];
    }

    method ApplySetparam(r: Reply) returns (effects: seq<Effect>)
      requires r.Reply?
      modifies this
      ensures (State(), effects) == AfterSetparam(old(State()), r)
    {
      effects := [MgmtCfg(r.mgmtCfg)];
      assert effects + [] == effects;
      var m := Mgmt("", "", "");
      var lines := Lines(r.mgmtCfg);
      for i := 0 to |lines|
        invariant ReadLines(m, lines[i..]) == ReadMgmt(r.mgmtCfg)
        invariant State() == old(State())
      {
        assert lines[i..][1..] == lines[i + 1..];
        m := ReadLine(m, lines[i]);
      }
      if m.cfgversion != "" {
        cfgversion := m.cfgversion;
      }
      if m.authkey != "" && m.authkey != DEFAULT_KEY && key == DEFAULT_KEY {
        key := m.authkey;
        adopted := true;
        effects := effects + [AdoptingViaMgmtCfg];
      }
      if m.useAESGCM != "" {
        var enabled := ParseBool(m.useAESGCM);
        if enabled.Some? {
          useAESGCM := enabled.value;
        }
      }
    }

    method ApplySetstate(r: Reply) returns (effects: seq<Effect>)
      requires r.Reply?
      modifies this
      ensures State() == AfterSetstate(old(State()), r) && effects == []
    {
      if r.cfgversion != "" {
        cfgversion := r.cfgversion;
      }
      OverlayTables(r.raw);
      return [];
    }

    method OverlayTables(raw: map<string, Json>)
      modifies this`setstate
      ensures setstate == Overlaid(old(setstate), raw)
    {
      var keys := OVERLAY;
      assert setstate == OverlaidBy(setstate, raw, keys[..0]);
      for i := 0 to |keys|
        invariant setstate == OverlaidBy(old(setstate), raw, keys[..i])
      {
        OverlayStep(old(setstate), raw, keys, i);
        if keys[i] in raw {
          setstate := setstate[keys[i] := raw[keys[i]]];
        }
      }
      assert keys[..|keys|] == keys;
    }
  }

  // ---------------------------------------------------------------------------------------------
  // One reply, field by field
  // ---------------------------------------------------------------------------------------------

  predicate Is(r: Reply, kind: string)
  {
    r.Reply? && r.kind == kind
  }

  /** What a setparam carries for a key, "" when nothing. */
  function Carried(r: Reply, key: string): string
    requires key in KEYS
  {
    if Is(r, "setparam") then Setting(ReadMgmt(r.mgmtCfg), key) else ""
  }

  predicate AdoptsByConfig(s: SessionState, r: Reply)
  {
    s.key == DEFAULT_KEY && Carried(r, "authkey") !in {"", DEFAULT_KEY}
  }

  /** The credentials: key and adoption, and the mode they are used in. */
  lemma {:induction false} NextCredentials(s: SessionState, now: int, r: Reply)
    ensures var s' := Next(s, now, r).0;
            && s'.adopted == (!Resets(r) && (s.adopted || SetsAdopted(r) || AdoptsByConfig(s, r)))
            && s'.key == (if Resets(r) then DEFAULT_KEY
                          else if SetsAdopted(r) && r.key != "" then r.key
                          else if AdoptsByConfig(s, r) then Carried(r, "authkey")
                          else s.key)
  {
    hide ReadMgmt, Overlaid, ParseBool;
  }

  lemma {:induction false} NextMode(s: SessionState, now: int, r: Reply)
    ensures var said := Carried(r, "use_aes_gcm");
            Next(s, now, r).0.useAESGCM ==
            if Resets(r) || said in {"0", "f", "F", "FALSE", "false", "False"} then false
            else s.useAESGCM || said in {"1", "t", "T", "TRUE", "true", "True"}
  {
    hide ReadMgmt, Overlaid, Adopts;
  }

  /** What else a session holds: the configuration it reports, where it informs, and since when. */
  lemma {:induction false} NextConfiguration(s: SessionState, now: int, r: Reply)
    ensures var s' := Next(s, now, r).0;
            && s'.cfgversion == (if Resets(r) then "0"
                                 else if Is(r, "setstate") && r.cfgversion != "" then r.cfgversion
                                 else if Carried(r, "cfgversion") != "" then Carried(r, "cfgversion")
                                 else s.cfgversion)
            && s'.informURL == (if SetsAdopted(r) && r.uri != "" then r.uri else s.informURL)
            && s'.bootTime == (if Is(r, "upgrade") || (Is(r, "cmd") && r.cmd == "reboot") then now else s.bootTime)
            && s'.desc == (if Is(r, "upgrade") && r.version != "" then s.desc.(version := r.version) else s.desc)
  {
    hide ReadMgmt, Overlaid;
  }

  /** The echoed tables: a setstate brings those of the four it holds, a reset takes all away. */
  lemma {:induction false} NextTables(s: SessionState, now: int, r: Reply, k: string)
    ensures var t := Next(s, now, r).0.setstate;
            var brings :=
              && Is(r, "setstate") && k in {"radio_table", "vap_table", "port_table", "port_overrides"}
              && k in r.raw;
            && (k in t <==> !Resets(r) && (k in s.setstate || brings))
            && (k in t ==> t[k] == if brings then r.raw[k] else s.setstate[k])
  {
    hide ReadMgmt, ParseBool;
  }

  /** The reply an effect belongs to. */
  predicate ReportedFor(s: SessionState, r: Reply, e: Effect)
  {
    match e
    case AdoptingViaSetAdopt(uri) => SetsAdopted(r) && uri == r.uri
    case AdoptingViaMgmtCfg => AdoptsByConfig(s, r)
    case FactoryReset => Resets(r)
    case Rebooted => Is(r, "cmd") && r.cmd == "reboot"
    case Upgraded(version) => Is(r, "upgrade") && version == r.version
    case Interval(n) => Is(r, "noop") && r.interval > 0 && n == Nanoseconds(r.interval)
    case MgmtCfg(text) => Is(r, "setparam") && text == r.mgmtCfg
    case UnknownCmd(cmd) => Is(r, "cmd") && cmd == r.cmd && cmd !in {"set-adopt", "adopt", "setdefault", "reboot"}
    case UnknownType(kind) => r.Reply? && kind == r.kind && kind !in {"cmd", "setparam", "setstate", "noop", "upgrade"}
    case DecodeError => r.Undecodable?
  }

  /** Exactly the effects that belong to the reply are reported, none twice, and a new key after the
      text that brought it. */
  lemma {:induction false} NextReportsIff(s: SessionState, now: int, r: Reply, e: Effect)
    ensures var es := Next(s, now, r).1;
            && (e in es <==> ReportedFor(s, r, e))
            && |es| <= 2 && (|es| == 2 ==> es == [MgmtCfg(r.mgmtCfg), AdoptingViaMgmtCfg])
  {
    hide ReadMgmt, ParseBool, Overlaid, Nanoseconds;
  }

  /** An interval is its seconds, exactly where 64 bits hold as many nanoseconds. */
  lemma {:induction false} NanosecondsIff(seconds: int)
    ensures Nanoseconds(seconds) == seconds * 1_000_000_000 <==> -9_223_372_036 <= seconds <= 9_223_372_036
  {
  }

  // ---------------------------------------------------------------------------------------------
  // Key rules over every reply sequence
  // ---------------------------------------------------------------------------------------------

  /** One reply and the time it is applied. */
  datatype Arrival = Arrival(now: int, reply: Reply)

  function After(s: SessionState, a: Arrival): SessionState
  {
    Next(s, a.now, a.reply).0
  }

  function AfterAll(s: SessionState, arrivals: seq<Arrival>): SessionState
    decreases |arrivals|
  {
    if arrivals == [] then s else AfterAll(After(s, arrivals[0]), arrivals[1..])
  }

  /** An unadopted session holds the default key, and only the four table keys are ever echoed. */
  predicate SessionInv(s: SessionState)
  {
    (!s.adopted ==> s.key == DEFAULT_KEY) && s.setstate.Keys <= OVERLAY_KEYS
  }

  lemma {:induction false} SessionInvAlways(s: SessionState, arrivals: seq<Arrival>)
    requires SessionInv(s)
    ensures SessionInv(AfterAll(s, arrivals))
    decreases |arrivals|
  {
    if arrivals != [] {
      NextKeepsInv(s, arrivals[0].now, arrivals[0].reply);
      SessionInvAlways(After(s, arrivals[0]), arrivals[1..]);
    }
  }

  lemma {:induction false} NextKeepsInv(s: SessionState, now: int, r: Reply)
    requires SessionInv(s)
    ensures SessionInv(Next(s, now, r).0)
  {
    hide ReadMgmt, ParseBool;
  }

  function KeyChanges(s: SessionState, arrivals: seq<Arrival>): nat
    decreases |arrivals|
  {
    if arrivals == [] then 0
    else
      var s' := After(s, arrivals[0]);
      (if s'.key != s.key then 1 else 0) + KeyChanges(s', arrivals[1..])
  }

  /** Without an adopt command or a reset, the key changes at most once, and only away from the
      default key: the stuck-adopt loop cannot happen. */
  lemma {:induction false} KeyRotatesAtMostOnce(s: SessionState, arrivals: seq<Arrival>)
    requires forall a | a in arrivals :: !SetsAdopted(a.reply) && !Resets(a.reply)
    ensures KeyChanges(s, arrivals) <= (if s.key == DEFAULT_KEY then 1 else 0)
    ensures KeyChanges(s, arrivals) == 0 <==> AfterAll(s, arrivals).key == s.key
    ensures s.adopted ==> AfterAll(s, arrivals).adopted
    decreases |arrivals|
  {
    if arrivals != [] {
      assert !SetsAdopted(arrivals[0].reply) && !Resets(arrivals[0].reply);
      var s' := After(s, arrivals[0]);
      KeyRotatesAtMostOnce(s', arrivals[1..]);
      if s'.key != s.key {
        assert s.key == DEFAULT_KEY && s'.key != DEFAULT_KEY;
      }
    }
  }

  /** Applying the same setparam twice changes nothing the second time and reports only its text. */
  lemma {:induction false} RepeatedSetparamIsNoOp(s: SessionState, now: int, later: int, r: Reply)
    requires r.Reply? && r.kind == "setparam"
    ensures var s' := Next(s, now, r).0;
            Next(s', later, r) == (s', [MgmtCfg(r.mgmtCfg)])
  {
    var s' := Next(s, now, r).0;
    assert !Adopts(s', ReadMgmt(r.mgmtCfg));
    assert [MgmtCfg(r.mgmtCfg)] + [] == [MgmtCfg(r.mgmtCfg)];
  }

  /** After any replies at all, a factory reset leaves exactly the session a new device would have
      on the current descriptor, inform URL and boot time. */
  lemma {:induction false} ResetIsAFreshSession(s: SessionState, arrivals: seq<Arrival>, now: int, r: Reply)
    requires Resets(r)
    ensures var t := AfterAll(s, arrivals);
            Next(t, now, r).0 == NewSession(t.desc, t.informURL, t.bootTime)
  {
  }

  /** An adopt command is authoritative: it rotates whatever key is held. */
  lemma {:induction false} SetAdoptRotatesUnconditionally(s: SessionState, now: int, r: Reply)
    requires SetsAdopted(r)
    ensures var s' := Next(s, now, r).0;
            s'.adopted && s'.key == (if r.key != "" then r.key else s.key)
            && s'.(adopted := s.adopted, key := s.key, informURL := s.informURL) == s
  {
  }

  // ---------------------------------------------------------------------------------------------
  // BuildPayload
  // ---------------------------------------------------------------------------------------------

  /** Payload values; a table or block built from the descriptor alone is named by it. */
  datatype Value =
    | Text(text: string) | Number(n: int) | Flag(b: bool) | Raw(json: Json)
    | Table(name: string, desc: Descriptor) | Fixed(name: string) | Stats(uptime: int)

  function BaseFields(s: SessionState, now: int): map<string, Value>
  {
    map["mac" := Text(s.desc.mac), "serial" := Text(s.desc.serial), "model" := Text(s.desc.model),
        "model_display" := Text(s.desc.modelDisplay), "version" := Text(s.desc.version), "ip" := Text(s.desc.ip),
        "hostname" := Text(s.desc.hostname), "inform_url" := Text(s.informURL), "uptime" := Number(now - s.bootTime),
        "time" := Number(now), "cfgversion" := Text(s.cfgversion), "x_authkey" := Text(s.key),
        "default" := Flag(!s.adopted), "_default_key" := Flag(!s.adopted), "state" := Number(1),
        "fw_caps" := Number(s.desc.fwCaps), "isolated" := Flag(false), "locating" := Flag(false),
        "selfrun_beacon" := Flag(true)]
  }

  function UdapiFields(s: SessionState): map<string, Value>
  {
    if s.desc.udapiVersion == "" then map[]
    else map["udapi_version" := Table("udapi_version", s.desc), "udapi_caps" := Number(s.desc.udapiCaps)]
  }

  function AdoptedFields(s: SessionState, now: int): map<string, Value>
  {
    if !s.adopted then map[]
    else
      map["state" := Number(4), "bootrom_version" := Text("unknown"), "sys_stats" := Fixed("sys_stats")]
      + if s.desc.kind in {"ugw", "uxg"} then
          map["system-stats" := Stats(now - s.bootTime), "config_network_wan" := Fixed("dhcp"),
              "netmask" := Text("255.255.255.0"), "uplink" := Table("uplink", s.desc)]
        else if s.desc.kind == "usw" then
          map["port_table" := Table("port_table", s.desc), "ethernet_table" := Table("ethernet_table", s.desc)]
        else if s.desc.kind == "uap" then
          map["radio_table" := Table("radio_table", s.desc), "radio_table_stats" := Table("radio_table_stats", s.desc),
              "vap_table" := Table("vap_table", s.desc), "ethernet_table" := Table("ethernet_table", s.desc),
              "port_table" := Table("port_table", s.desc)]
        else map[]
  }

  function OwnFields(s: SessionState, now: int): map<string, Value>
  {
    BaseFields(s, now) + UdapiFields(s) + AdoptedFields(s, now)
  }

  function BuildPayload(s: SessionState, now: int): map<string, Value>
  {
    OwnFields(s, now) + (map k | k in s.setstate :: Raw(s.setstate[k]))
  }

  lemma {:induction false} BaseFieldsTell(s: SessionState, now: int)
    ensures var p := BaseFields(s, now);
            && "x_authkey" in p && p["x_authkey"] == Text(s.key)
            && "default" in p && p["default"] == Flag(!s.adopted)
            && "state" in p && p["state"] == Number(1)
  {
  }

  lemma {:induction false} UdapiFieldsLeaveOut(s: SessionState)
    ensures var p := UdapiFields(s); "x_authkey" !in p && "default" !in p && "state" !in p
  {
  }

  lemma {:induction false} AdoptedFieldsTell(s: SessionState, now: int)
    ensures var p := AdoptedFields(s, now);
            && "x_authkey" !in p && "default" !in p
            && ("state" in p <==> s.adopted) && (s.adopted ==> p["state"] == Number(4))
  {
  }

  lemma {:induction false} OwnFieldsTellTheState(s: SessionState, now: int)
    ensures var p := OwnFields(s, now);
            && "x_authkey" in p && p["x_authkey"] == Text(s.key)
            && "default" in p && p["default"] == Flag(!s.adopted)
            && "state" in p && p["state"] == Number(if s.adopted then 4 else 1)
  {
    BaseFieldsTell(s, now);
    UdapiFieldsLeaveOut(s);
    AdoptedFieldsTell(s, now);
  }

  lemma {:induction false} UdapiGoesOutTogether(s: SessionState, now: int)
    ensures var p := OwnFields(s, now);
            ("udapi_version" in p <==> s.desc.udapiVersion != "") && ("udapi_caps" in p <==> s.desc.udapiVersion != "")
  {
    var base, own := BaseFields(s, now), AdoptedFields(s, now);
    assert "udapi_version" !in base && "udapi_caps" !in base;
    assert "udapi_version" !in own && "udapi_caps" !in own;
  }

  lemma {:induction false} OverlayOnlyTouches<K, V>(base: map<K, V>, overlay: map<K, V>, keys: set<K>)
    requires overlay.Keys <= keys
    ensures forall k | k !in keys ::
              (k in base + overlay <==> k in base) && (k in base ==> (base + overlay)[k] == base[k])
    ensures forall k | k in overlay :: k in base + overlay && (base + overlay)[k] == overlay[k]
  {
  }

  /** Whatever the controller pushed through setstate, it can only replace the four tables: every
      other field an inform reports is the session's own. */
  lemma {:induction false} OverlayCannotForgeIdentity(s: SessionState, arrivals: seq<Arrival>, now: int)
    requires SessionInv(s)
    ensures var t := AfterAll(s, arrivals);
            var p, own := BuildPayload(t, now), OwnFields(t, now);
            && (forall k | k in t.setstate :: k in OVERLAY_KEYS && k in p && p[k] == Raw(t.setstate[k]))
            && (forall k | k !in OVERLAY_KEYS :: (k in p <==> k in own) && (k in own ==> p[k] == own[k]))
  {
    SessionInvAlways(s, arrivals);
    var t := AfterAll(s, arrivals);
    OverlayOnlyTouches(OwnFields(t, now), map k | k in t.setstate :: Raw(t.setstate[k]), OVERLAY_KEYS);
  }

  /** So the key and adoption state in an inform are never stale or forged. */
  lemma {:induction false} PayloadTellsKeyAndState(s: SessionState, arrivals: seq<Arrival>, now: int)
    requires SessionInv(s)
    ensures var t := AfterAll(s, arrivals);
            var p := BuildPayload(t, now);
            && "x_authkey" in p && p["x_authkey"] == Text(t.key)
            && "default" in p && p["default"] == Flag(!t.adopted)
            && "state" in p && p["state"] == Number(if t.adopted then 4 else 1)
  {
    OverlayCannotForgeIdentity(s, arrivals, now);
    OwnFieldsTellTheState(AfterAll(s, arrivals), now);
    assert "x_authkey" !in OVERLAY_KEYS && "default" !in OVERLAY_KEYS && "state" !in OVERLAY_KEYS;
  }

  const REPORTED: set<string> :=
    {"mac", "serial", "model", "ip", "hostname", "version", "cfgversion", "inform_url", "uptime"}

  function Reported(s: SessionState, now: int, k: string): Value
    requires k in REPORTED
  {
    if k == "mac" then Text(s.desc.mac)
    else if k == "serial" then Text(s.desc.serial)
    else if k == "model" then Text(s.desc.model)
    else if k == "ip" then Text(s.desc.ip)
    else if k == "hostname" then Text(s.desc.hostname)
    else if k == "version" then Text(s.desc.version)
    else if k == "cfgversion" then Text(s.cfgversion)
    else if k == "inform_url" then Text(s.informURL)
    else Number(now - s.bootTime)
  }

  lemma {:induction false} BaseFieldsReport(s: SessionState, now: int, k: string)
    requires k in REPORTED
    ensures k in BaseFields(s, now) && BaseFields(s, now)[k] == Reported(s, now, k)
  {
    hide UdapiFields, AdoptedFields;
  }

  /** The fields an inform may have beyond the common ones. */
  const ADDED: set<string> :=
    {"udapi_version", "udapi_caps", "state", "bootrom_version", "sys_stats", "system-stats", "config_network_wan",
     "netmask", "uplink", "port_table", "ethernet_table", "radio_table", "radio_table_stats", "vap_table",
     "port_overrides"}

  lemma {:induction false} AddedFields(s: SessionState, now: int)
    ensures UdapiFields(s).Keys <= ADDED && AdoptedFields(s, now).Keys <= ADDED && OVERLAY_KEYS <= ADDED
  {
  }

  lemma {:induction false} ReportedAreNotAdded()
    ensures REPORTED !! ADDED
  {
    assert forall k | k in {"mac", "serial", "model"} :: k !in ADDED;
    assert forall k | k in {"ip", "hostname", "version"} :: k !in ADDED;
    assert forall k | k in {"cfgversion", "inform_url", "uptime"} :: k !in ADDED;
  }

  lemma {:induction false} PayloadReports(s: SessionState, now: int, k: string)
    requires SessionInv(s) && k in REPORTED
    ensures k in BuildPayload(s, now) && BuildPayload(s, now)[k] == Reported(s, now, k)
  {
    hide BaseFields, UdapiFields, AdoptedFields, Reported, REPORTED, ADDED, OVERLAY_KEYS;
    BaseFieldsReport(s, now, k);
    AddedFields(s, now);
    ReportedAreNotAdded();
    assert AfterAll(s, []) == s;
    OverlayCannotForgeIdentity(s, [], now);
  }

  /** Who a device says it is never changes, whatever it is told; only its version can. */
  lemma {:induction false} IdentityIsKept(s: SessionState, arrivals: seq<Arrival>, now: int, k: string)
    requires SessionInv(s) && k in {"mac", "serial", "model", "ip", "hostname"}
    ensures var p := BuildPayload(AfterAll(s, arrivals), now);
            k in p && p[k] == Reported(s, now, k)
  {
    DescriptorIsKept(s, arrivals);
    SessionInvAlways(s, arrivals);
    PayloadReports(AfterAll(s, arrivals), now, k);
  }

  lemma {:induction false} DescriptorIsKept(s: SessionState, arrivals: seq<Arrival>)
    ensures AfterAll(s, arrivals).desc.(version := "") == s.desc.(version := "")
    decreases |arrivals|
  {
    if arrivals != [] {
      hide Next;
      NextConfiguration(s, arrivals[0].now, arrivals[0].reply);
      DescriptorIsKept(After(s, arrivals[0]), arrivals[1..]);
    }
  }

  /** The inform after a reply acknowledges it: the configuration version it brought, the version it
      upgraded to, the URL it moved the device to, and the time since the reboot it asked for. */
  lemma {:induction false} PayloadAcknowledges(s: SessionState, now: int, r: Reply, later: int)
    requires SessionInv(s)
    ensures var p := BuildPayload(Next(s, now, r).0, later);
            && REPORTED <= p.Keys
            && (Carried(r, "cfgversion") != "" ==> p["cfgversion"] == Text(Carried(r, "cfgversion")))
            && (Is(r, "setstate") && r.cfgversion != "" ==> p["cfgversion"] == Text(r.cfgversion))
            && (Resets(r) ==> p["cfgversion"] == Text("0"))
            && (Is(r, "upgrade") && r.version != "" ==> p["version"] == Text(r.version))
            && (SetsAdopted(r) && r.uri != "" ==> p["inform_url"] == Text(r.uri))
            && (Is(r, "upgrade") || (Is(r, "cmd") && r.cmd == "reboot") ==> p["uptime"] == Number(later - now))
  {
    hide Next, BuildPayload, SessionInv, ReadMgmt, Setting;
    var s' := Next(s, now, r).0;
    NextKeepsInv(s, now, r);
    NextConfiguration(s, now, r);
    forall k | k in REPORTED
      ensures k in BuildPayload(s', later) && BuildPayload(s', later)[k] == Reported(s', later, k)
    {
      PayloadReports(s', later, k);
    }
  }
}
