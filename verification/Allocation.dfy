/** internal/herder/identity.go:21-203: resolving a device request to final identities. */
module Allocation {
  import opened Prelude
  import opened Protocol
  import opened Naming
  import Hex

  /** macRetries. */
  const MAC_RETRIES := 64

  /** An absent field is the empty string. */
  datatype RequestDevice = RequestDevice(model: string, mac: string, serial: string, name: string)

  predicate EndpointAddress(hw: bytes)
  {
    |hw| == 6 && hw[0] % 2 == 0 && hw[0] / 2 % 2 == 1
  }

  /** canonicalMAC; None stands for any of its errors, which all report invalid_request. */
  function CanonicalMac(s: string): Option<string>
  {
    var hw := Hex.ParseMac(s);
    if hw.Some? && EndpointAddress(hw.value) then Some(Hex.MacString(hw.value)) else None
  }

  /** A canonical spelling of a unicast, locally administered address. */
  ghost predicate GoodMac(mac: string)
  {
    exists hw :: EndpointAddress(hw) && mac == Hex.MacString(hw)
  }

  lemma {:induction false} CanonicalMacFixesGoodMacs(mac: string)
    requires GoodMac(mac)
    ensures mac != "" && CanonicalMac(mac) == Some(mac)
    ensures MacHex(Hex.RemoveColons(mac))
  {
    var hw :| EndpointAddress(hw) && mac == Hex.MacString(hw);
    Hex.ParseInvertsMacString(hw);
    Hex.RemoveColonsOfMac(hw);
    Hex.EncodeIsLowerHex(hw);
  }

  lemma {:induction false} MacHexDeterminesMac(m1: string, m2: string)
    requires GoodMac(m1) && GoodMac(m2)
    requires Hex.RemoveColons(m1) == Hex.RemoveColons(m2)
    ensures m1 == m2
  {
    var h1 :| EndpointAddress(h1) && m1 == Hex.MacString(h1);
    var h2 :| EndpointAddress(h2) && m2 == Hex.MacString(h2);
    Hex.RemoveColonsOfMac(h1);
    Hex.RemoveColonsOfMac(h2);
    Hex.DecodeInvertsEncode(h1);
    Hex.DecodeInvertsEncode(h2);
  }

  function SerialOf(mac: string): string { DerivedSerial(Hex.RemoveColons(mac)) }

  function NameOf(model: string, mac: string): string { DerivedName(model, Hex.RemoveColons(mac)) }

  /** raw[0] &^= 0x01; raw[0] |= 0x02. */
  function MakeEndpointAddress(raw: bytes): (hw: bytes)
    requires |raw| == 6
    ensures EndpointAddress(hw)
    ensures hw[0] / 4 == raw[0] / 4 && hw[1..] == raw[1..]
  {
    var even := raw[0] - raw[0] % 2;
    [if even / 2 % 2 == 0 then even + 2 else even] + raw[1..]
  }

  predicate ValidEntry(d: RequestDevice)
  {
    && CheckModel(d.model)
    && (d.mac != "" ==> CanonicalMac(d.mac).Some?)
    && (d.serial != "" ==> CheckSerial(d.serial))
    && (d.name != "" ==> CheckName(d.name))
  }

  /** What pass 1 records for a valid entry. */
  function Supplied(d: RequestDevice, i: nat): Identity
  {
    var mac := if d.mac == "" then None else CanonicalMac(d.mac);
    Identity(i, d.model, if mac.Some? then mac.value else "", d.serial, d.name)
  }

  function SuppliedAll(devices: seq<RequestDevice>): (s: seq<Identity>)
    ensures |s| == |devices|
  {
    seq(|devices|, i requires 0 <= i < |devices| => Supplied(devices[i], i))
  }

  function Mac(id: Identity): string { id.mac }
  function Serial(id: Identity): string { id.serial }
  function Name(id: Identity): string { id.name }

  /** The values a list claims in one field; empty fields claim nothing. */
  ghost function Claimed(field: Identity -> string, s: seq<Identity>): set<string>
  {
    set id | id in s && field(id) != "" :: field(id)
  }

  ghost predicate NoClash(field: Identity -> string, s: seq<Identity>)
  {
    forall i, j | 0 <= i < j < |s| && field(s[i]) != "" :: field(s[i]) != field(s[j])
  }

  lemma {:induction false} ClaimedSnoc(field: Identity -> string, s: seq<Identity>, x: Identity)
    ensures Claimed(field, s + [x]) == Claimed(field, s) + (if field(x) == "" then {} else {field(x)})
    ensures NoClash(field, s + [x]) <==> NoClash(field, s) && field(x) !in Claimed(field, s)
  {
    var t := s + [x];
    assert t[|s|] == x;
    assert forall k | 0 <= k < |s| :: t[k] == s[k];
    forall id | id in t
      ensures id in s || id == x
    {
    }
    if field(x) in Claimed(field, s) {
      var i :| 0 <= i < |s| && field(s[i]) == field(x);
      assert field(t[i]) == field(t[|s|]);
    }
    if NoClash(field, s) && field(x) !in Claimed(field, s) {
      forall i, j | 0 <= i < j < |t| && field(t[i]) != ""
        ensures field(t[i]) != field(t[j])
      {
        assert s[i] in s;
      }
    }
  }

  ghost predicate NoClashes(s: seq<Identity>)
  {
    NoClash(Mac, s) && NoClash(Serial, s) && NoClash(Name, s)
  }

  /** Nothing derived from a supplied MAC is already claimed by an entry. */
  ghost predicate DerivedFree(s: seq<Identity>)
  {
    forall k | 0 <= k < |s| :: EntryFree(s[k], ClaimsOf(s))
  }

  ghost predicate EntryFree(id: Identity, reserved: Claims)
  {
    id.mac != "" ==>
      && (id.serial == "" ==> SerialOf(id.mac) !in reserved.serials)
      && (id.name == "" ==> NameOf(id.model, id.mac) !in reserved.names)
  }

  /** What a request must satisfy for passes 1 and 2 to let it through. */
  ghost predicate Acceptable(devices: seq<RequestDevice>)
  {
    && (forall d | d in devices :: ValidEntry(d))
    && NoClashes(SuppliedAll(devices))
    && DerivedFree(SuppliedAll(devices))
  }

  ghost predicate Distinct(field: Identity -> string, s: seq<Identity>)
  {
    forall i, j | 0 <= i < j < |s| :: field(s[i]) != field(s[j])
  }

  /** What a successful allocation promises. */
  ghost predicate Allocated(devices: seq<RequestDevice>, out: seq<Identity>)
  {
    && |out| == |devices|
    && (forall i | 0 <= i < |out| :: ResolvedFrom(Supplied(devices[i], i), out[i]))
    && Distinct(Mac, out)
    && Distinct(Serial, out)
    && Distinct(Name, out)
  }

  /** o is s with every missing field filled in and no supplied one changed. */
  ghost predicate ResolvedFrom(s: Identity, o: Identity)
  {
    && o.index == s.index && o.model == s.model
    && GoodMac(o.mac) && (s.mac != "" ==> o.mac == s.mac)
    && o.serial == (if s.serial != "" then s.serial else SerialOf(o.mac))
    && o.name == (if s.name != "" then s.name else NameOf(o.model, o.mac))
  }

  datatype Claims = Claims(macs: set<string>, serials: set<string>, names: set<string>)

  ghost function ClaimsOf(s: seq<Identity>): Claims
  {
    Claims(Claimed(Mac, s), Claimed(Serial, s), Claimed(Name, s))
  }

  /** identitySet: the values claimed by one stage. */
  class IdentitySet {
    var macs: set<string>
    var serials: set<string>
    var names: set<string>

    function Contents(): Claims
      reads this
    {
      Claims(macs, serials, names)
    }

    constructor ()
      ensures Contents() == Claims({}, {}, {})
    {
      macs, serials, names := {}, {}, {};
    }

    method AddMac(v: string) returns (added: bool)
      modifies this
      ensures added <==> v !in old(macs)
      ensures Contents() == old(Contents()).(macs := old(macs) + {v})
    {
      added := v !in macs;
      macs := macs + {v};
    }

    method AddSerial(v: string) returns (added: bool)
      modifies this
      ensures added <==> v !in old(serials)
      ensures Contents() == old(Contents()).(serials := old(serials) + {v})
    {
      added := v !in serials;
      serials := serials + {v};
    }

    method AddName(v: string) returns (added: bool)
      modifies this
      ensures added <==> v !in old(names)
      ensures Contents() == old(Contents()).(names := old(names) + {v})
    {
      added := v !in names;
      names := names + {v};
    }
  }

  function Claim(c: Claims, id: Identity): Claims
  {
    Claims(c.macs + (if id.mac == "" then {} else {id.mac}),
           c.serials + (if id.serial == "" then {} else {id.serial}),
           c.names + (if id.name == "" then {} else {id.name}))
  }

  /** One entry of pass 1. */
  method ReserveEntry(d: RequestDevice, i: nat, reserved: IdentitySet) returns (id: Option<Identity>)
    modifies reserved
    ensures id.Some? <==> Takes(d, i, old(reserved.Contents()))
    ensures id.Some? ==> id.value == Supplied(d, i)
    ensures id.Some? ==> reserved.Contents() == Claim(old(reserved.Contents()), id.value)
  {
    if !CheckModel(d.model) {
      return None;
    }
    var entry := Identity(i, d.model, "", "", "");
    if d.mac != "" {
      var mac := CanonicalMac(d.mac);
      if mac.None? {
        return None;
      }
      var free := reserved.AddMac(mac.value);
      if !free {
        return None;
      }
      entry := entry.(mac := mac.value);
    }
    if d.serial != "" {
      if !CheckSerial(d.serial) {
        return None;
      }
      var free := reserved.AddSerial(d.serial);
      if !free {
        return None;
      }
      entry := entry.(serial := d.serial);
    }
    if d.name != "" {
      if !CheckName(d.name) {
        return None;
      }
      var free := reserved.AddName(d.name);
      if !free {
        return None;
      }
      entry := entry.(name := d.name);
    }
    return Some(entry);
  }

  lemma {:induction false} ClaimsSnoc(s: seq<Identity>, x: Identity)
    ensures ClaimsOf(s + [x]) == Claim(ClaimsOf(s), x)
    ensures NoClashes(s + [x]) <==>
            && NoClashes(s)
            && !(x.mac != "" && x.mac in ClaimsOf(s).macs)
            && !(x.serial != "" && x.serial in ClaimsOf(s).serials)
            && !(x.name != "" && x.name in ClaimsOf(s).names)
  {
    ClaimedSnoc(Mac, s, x);
    ClaimedSnoc(Serial, s, x);
    ClaimedSnoc(Name, s, x);
  }

  lemma {:induction false} ClashesInPrefix(s: seq<Identity>, n: nat)
    requires n <= |s| && !NoClashes(s[..n])
    ensures !NoClashes(s)
  {
  }

  lemma {:induction false} CanonicalMacsAreGood(s: string)
    requires CanonicalMac(s).Some?
    ensures GoodMac(CanonicalMac(s).value) && CanonicalMac(s).value != ""
  {
    CanonicalMacFixesGoodMacs(CanonicalMac(s).value);
  }

  /** An entry pass 1 takes: valid, and claiming nothing already claimed. */
  ghost predicate Takes(d: RequestDevice, i: nat, claims: Claims)
  {
    && ValidEntry(d)
    && !(d.mac != "" && Supplied(d, i).mac in claims.macs)
    && !(d.serial != "" && d.serial in claims.serials)
    && !(d.name != "" && d.name in claims.names)
  }

  ghost predicate AllTaken(devices: seq<RequestDevice>)
  {
    (forall d | d in devices :: ValidEntry(d)) && NoClashes(SuppliedAll(devices))
  }

  /** What pass 1 has claimed before entry i. */
  ghost function ClaimsBefore(devices: seq<RequestDevice>, i: nat): Claims
    requires i <= |devices|
  {
    ClaimsOf(SuppliedAll(devices)[..i])
  }

  /** Pass 1 takes every entry before i. */
  ghost predicate TakenBefore(devices: seq<RequestDevice>, i: nat)
    requires i <= |devices|
  {
    i == 0 || (TakenBefore(devices, i - 1) && Takes(devices[i - 1], i - 1, ClaimsBefore(devices, i - 1)))
  }

  lemma {:induction false} SuppliedNext(devices: seq<RequestDevice>, i: nat)
    requires i < |devices|
    ensures SuppliedAll(devices)[..i + 1] == SuppliedAll(devices)[..i] + [Supplied(devices[i], i)]
    ensures ClaimsBefore(devices, i + 1) == Claim(ClaimsBefore(devices, i), Supplied(devices[i], i))
  {
    assert SuppliedAll(devices)[..i + 1] == SuppliedAll(devices)[..i] + [Supplied(devices[i], i)];
    ClaimsSnoc(SuppliedAll(devices)[..i], Supplied(devices[i], i));
  }

  /** An entry is taken exactly when it is valid and clashes with none before it. */
  lemma {:induction false} TakesIff(devices: seq<RequestDevice>, i: nat)
    requires i < |devices| && NoClashes(SuppliedAll(devices)[..i])
    ensures Takes(devices[i], i, ClaimsBefore(devices, i)) <==>
            ValidEntry(devices[i]) && NoClashes(SuppliedAll(devices)[..i + 1])
  {
    var x := Supplied(devices[i], i);
    SuppliedNext(devices, i);
    ClaimsSnoc(SuppliedAll(devices)[..i], x);
    if ValidEntry(devices[i]) && devices[i].mac != "" {
      CanonicalMacsAreGood(devices[i].mac);
    }
  }

  lemma {:induction false} NothingClashes(s: seq<Identity>)
    requires s == []
    ensures NoClashes(s)
  {
  }

  lemma {:induction false} TakenBeforeIff(devices: seq<RequestDevice>, i: nat)
    requires i <= |devices|
    ensures TakenBefore(devices, i) <==>
            (forall k | 0 <= k < i :: ValidEntry(devices[k])) && NoClashes(SuppliedAll(devices)[..i])
    decreases i
  {
    hide ValidEntry, Takes, NoClashes, Supplied;
    if i > 0 {
      var all := SuppliedAll(devices);
      TakenBeforeIff(devices, i - 1);
      assert (i - 1) + 1 == i && all[..i][..i - 1] == all[..i - 1];
      if NoClashes(all[..i - 1]) {
        TakesIff(devices, i - 1);
      } else {
        ClashesInPrefix(all[..i], i - 1);
      }
    } else {
      assert NoClashes(SuppliedAll(devices)[..0]) by {
        NothingClashes(SuppliedAll(devices)[..0]);
      }
    }
  }

  lemma {:induction false} TakenBeforeShorter(devices: seq<RequestDevice>, i: nat, n: nat)
    requires i <= n <= |devices| && !TakenBefore(devices, i)
    ensures !TakenBefore(devices, n)
    decreases n
  {
    if i < n {
      TakenBeforeShorter(devices, i, n - 1);
    }
  }

  lemma {:induction false} AllTakenIff(devices: seq<RequestDevice>)
    ensures AllTaken(devices) <==> TakenBefore(devices, |devices|)
    ensures SuppliedAll(devices)[..|devices|] == SuppliedAll(devices)
  {
    TakenBeforeIff(devices, |devices|);
    assert SuppliedAll(devices)[..|devices|] == SuppliedAll(devices);
  }

  /** Pass 1: validate, canonicalize and reserve what the caller supplied. */
  method ReserveSupplied(devices: seq<RequestDevice>, reserved: IdentitySet)
    returns (supplied: Option<seq<Identity>>)
    requires reserved.Contents() == Claims({}, {}, {})
    modifies reserved
    ensures supplied.Some? <==> AllTaken(devices)
    ensures supplied.Some? ==> supplied.value == SuppliedAll(devices)
    ensures supplied.Some? ==> reserved.Contents() == ClaimsOf(supplied.value)
  {
    var done: seq<Identity> := [];
    AllTakenIff(devices);
    for i := 0 to |devices|
      invariant done == SuppliedAll(devices)[..i] && reserved.Contents() == ClaimsBefore(devices, i)
      invariant TakenBefore(devices, i)
    {
      SuppliedNext(devices, i);
      var id := ReserveEntry(devices[i], i, reserved);
      if id.None? {
        TakenBeforeShorter(devices, i + 1, |devices|);
        return None;
      }
      done := done + [id.value];
    }
    return Some(done);
  }

  // ---------------------------------------------------------------------------------------------
  // Passes 2 and 3: settling one entry after another
  // ---------------------------------------------------------------------------------------------

  /** A settled field holds a reserved value when it was supplied and an unreserved one otherwise. */
  ghost predicate FieldSettled(supplied: string, value: string, reserved: set<string>, final: set<string>)
  {
    if supplied != "" then value == supplied && value in reserved
    else value !in reserved && value in final
  }

  ghost predicate Settled(s: Identity, o: Identity, reserved: Claims, final: Claims)
  {
    && ResolvedFrom(s, o)
    && FieldSettled(s.mac, o.mac, reserved.macs, final.macs)
    && FieldSettled(s.serial, o.serial, reserved.serials, final.serials)
    && FieldSettled(s.name, o.name, reserved.names, final.names)
  }

  ghost predicate Stage(s: seq<Identity>, out: seq<Identity>, done: seq<bool>, reserved: Claims, final: Claims)
  {
    && |out| == |s| == |done|
    && (forall k | 0 <= k < |s| && done[k] :: Settled(s[k], out[k], reserved, final))
    && (forall j, k | 0 <= j < |s| && 0 <= k < |s| && done[j] && done[k] && j != k ::
          out[j].mac != out[k].mac && out[j].serial != out[k].serial && out[j].name != out[k].name)
  }

  /** A field settled later differs from every field settled before. */
  lemma {:induction false} SettledFieldsDiffer(field: Identity -> string, s: seq<Identity>, j: nat, k: nat,
                                               old_: string, new_: string,
                            reserved: set<string>, before: set<string>, after: set<string>)
    requires j < |s| && k < |s| && j != k
    requires NoClash(field, s)
    requires FieldSettled(field(s[j]), old_, reserved, before)
    requires FieldSettled(field(s[k]), new_, reserved, after)
    requires field(s[k]) == "" ==> new_ !in before
    ensures old_ != new_
  {
    if j < k {
      assert field(s[j]) != "" ==> field(s[j]) != field(s[k]);
    } else {
      assert field(s[k]) != "" ==> field(s[k]) != field(s[j]);
    }
  }

  lemma {:induction false} SettleOne(s: seq<Identity>, out: seq<Identity>, done: seq<bool>, reserved: Claims,
                                     final: Claims,
                  k: nat, o: Identity, final': Claims)
    requires Stage(s, out, done, reserved, final) && NoClashes(s)
    requires k < |s| && !done[k]
    requires final.macs <= final'.macs && final.serials <= final'.serials && final.names <= final'.names
    requires Settled(s[k], o, reserved, final')
    requires s[k].mac == "" ==> o.mac !in final.macs
    requires s[k].serial == "" ==> o.serial !in final.serials
    requires s[k].name == "" ==> o.name !in final.names
    ensures Stage(s, out[k := o], done[k := true], reserved, final')
  {
    forall j: nat | j < |s| && done[j]
      ensures out[j].mac != o.mac && out[j].serial != o.serial && out[j].name != o.name
    {
      SettledFieldsDiffer(Mac, s, j, k, out[j].mac, o.mac, reserved.macs, final.macs, final'.macs);
      SettledFieldsDiffer(Serial, s, j, k, out[j].serial, o.serial, reserved.serials, final.serials, final'.serials);
      SettledFieldsDiffer(Name, s, j, k, out[j].name, o.name, reserved.names, final.names, final'.names);
    }
  }

  /** In pass 2 a final set holds only what the entries settled so far derived. */
  ghost predicate OnlyDerived(s: seq<Identity>, n: nat, final: Claims)
    requires n <= |s|
  {
    && final.macs == {}
    && (forall v | v in final.serials ::
          exists j :: 0 <= j < n && s[j].mac != "" && s[j].serial == "" && v == SerialOf(s[j].mac))
    && (forall v | v in final.names ::
          exists j :: 0 <= j < n && s[j].mac != "" && s[j].name == "" && v == NameOf(s[j].model, s[j].mac))
  }

  ghost predicate SuppliedList(s: seq<Identity>)
  {
    forall i | 0 <= i < |s| :: s[i].index == i && (s[i].mac != "" ==> GoodMac(s[i].mac))
  }

  /** Distinct supplied MACs derive distinct values, so a derived value never meets another one. */
  lemma {:induction false} DerivedNeverCollide(s: seq<Identity>, n: nat, final: Claims)
    requires n < |s| && s[n].mac != ""
    requires SuppliedList(s) && NoClashes(s) && OnlyDerived(s, n, final)
    ensures SerialOf(s[n].mac) !in final.serials
    ensures NameOf(s[n].model, s[n].mac) !in final.names
  {
    CanonicalMacFixesGoodMacs(s[n].mac);
    forall j | 0 <= j < n && s[j].mac != ""
      ensures SerialOf(s[j].mac) != SerialOf(s[n].mac)
      ensures NameOf(s[j].model, s[j].mac) != NameOf(s[n].model, s[n].mac)
    {
      CanonicalMacFixesGoodMacs(s[j].mac);
      var h, h' := Hex.RemoveColons(s[j].mac), Hex.RemoveColons(s[n].mac);
      assert Mac(s[j]) != Mac(s[n]);
      if h == h' {
        MacHexDeterminesMac(s[j].mac, s[n].mac);
      }
      if SerialOf(s[j].mac) == SerialOf(s[n].mac) {
        DerivedSerialDeterminesMac(h, h');
      }
      if NameOf(s[j].model, s[j].mac) == NameOf(s[n].model, s[n].mac) {
        DerivedNameDeterminesMac(s[j].model, h, s[n].model, h');
      }
    }
  }

  lemma {:induction false} DerivedAreNonEmpty(id: Identity)
    requires GoodMac(id.mac)
    ensures SerialOf(id.mac) != "" && NameOf(id.model, id.mac) != ""
    ensures CheckSerial(SerialOf(id.mac)) && CheckName(NameOf(id.model, id.mac))
  {
    CanonicalMacFixesGoodMacs(id.mac);
    DerivedSerialIsAccepted(Hex.RemoveColons(id.mac));
    DerivedNameIsLabel(id.model, Hex.RemoveColons(id.mac));
  }

  lemma {:induction false} EntryClaims(s: seq<Identity>, k: nat)
    requires k < |s|
    ensures s[k].mac != "" ==> s[k].mac in ClaimsOf(s).macs
    ensures s[k].serial != "" ==> s[k].serial in ClaimsOf(s).serials
    ensures s[k].name != "" ==> s[k].name in ClaimsOf(s).names
  {
    assert s[k] in s;
    assert Mac(s[k]) == s[k].mac && Serial(s[k]) == s[k].serial && Name(s[k]) == s[k].name;
  }

  const BLANK := Identity(0, "", "", "", "")

  ghost function WithMac(s: seq<Identity>, n: nat): (done: seq<bool>)
    ensures |done| == |s|
  {
    seq(|s|, k requires 0 <= k < |s| => k < n && s[k].mac != "")
  }

  /** An entry with a supplied MAC that derives something claimed. */
  predicate Blocked(id: Identity, reserved: Claims, final: Claims)
  {
    || (id.serial == "" && SerialOf(id.mac) in reserved.serials + final.serials)
    || (id.name == "" && NameOf(id.model, id.mac) in reserved.names + final.names)
  }

  /** Pass 2, one entry whose MAC was supplied. */
  method FinishEntry(id: Identity, reserved: IdentitySet, final: IdentitySet) returns (o: Option<Identity>)
    requires reserved != final
    modifies final
    ensures o.None? <==> Blocked(id, reserved.Contents(), old(final.Contents()))
    ensures o.Some? ==> o.value == Finished(id) && final.Contents() == WithDerived(old(final.Contents()), id)
  {
    var out := id;
    if id.serial == "" {
      out := out.(serial := SerialOf(id.mac));
      if out.serial in reserved.serials {
        return None;
      }
      var free := final.AddSerial(out.serial);
      if !free {
        return None;
      }
    }
    if id.name == "" {
      out := out.(name := NameOf(id.model, id.mac));
      if out.name in reserved.names {
        return None;
      }
      var free := final.AddName(out.name);
      if !free {
        return None;
      }
    }
    return Some(out);
  }

  lemma {:induction false} OnlyDerivedSnoc(s: seq<Identity>, n: nat, final: Claims, final': Claims)
    requires n < |s| && s[n].mac != "" && OnlyDerived(s, n, final)
    requires final' == WithDerived(final, s[n])
    ensures OnlyDerived(s, n + 1, final')
  {
  }

  /** What pass 2 makes of an entry whose MAC was supplied. */
  function Finished(id: Identity): Identity
  {
    id.(serial := if id.serial == "" then SerialOf(id.mac) else id.serial,
        name := if id.name == "" then NameOf(id.model, id.mac) else id.name)
  }

  function WithDerived(final: Claims, id: Identity): Claims
  {
    Claims(final.macs,
           final.serials + (if id.serial == "" then {SerialOf(id.mac)} else {}),
           final.names + (if id.name == "" then {NameOf(id.model, id.mac)} else {}))
  }

  /** What pass 2 has settled before entry i, and claimed for it. */
  function FinishedBefore(s: seq<Identity>, i: nat): (acc: seq<Identity>)
    ensures |acc| == |s|
  {
    seq(|s|, k requires 0 <= k < |s| => if k < i && s[k].mac != "" then Finished(s[k]) else BLANK)
  }

  function DerivedBefore(s: seq<Identity>, i: nat): Claims
    requires i <= |s|
  {
    if i == 0 then Claims({}, {}, {})
    else if s[i - 1].mac == "" then DerivedBefore(s, i - 1)
    else WithDerived(DerivedBefore(s, i - 1), s[i - 1])
  }

  /** Pass 2 before entry i, when everything it derived was free. */
  ghost predicate FinishedUpTo(s: seq<Identity>, i: nat)
    requires i <= |s|
  {
    && Stage(s, FinishedBefore(s, i), WithMac(s, i), ClaimsOf(s), DerivedBefore(s, i))
    && OnlyDerived(s, i, DerivedBefore(s, i))
  }

  lemma {:induction false} FinishedPrefix(s: seq<Identity>, i: nat)
    requires i <= |s| && SuppliedList(s) && NoClashes(s)
    requires forall k | 0 <= k < i :: EntryFree(s[k], ClaimsOf(s))
    ensures FinishedUpTo(s, i)
    decreases i
  {
    hide FinishedUpTo, EntryFree, SuppliedList, NoClashes, ClaimsOf;
    if i == 0 {
      NothingFinished(s);
    } else {
      FinishedPrefix(s, i - 1);
      if s[i - 1].mac == "" {
        SkippedStaysFinished(s, i - 1);
      } else {
        FreeEntrySettles(s, i - 1);
      }
    }
  }

  lemma {:induction false} NothingFinished(s: seq<Identity>)
    ensures FinishedUpTo(s, 0)
  {
  }

  lemma {:induction false} SkippedStaysFinished(s: seq<Identity>, i: nat)
    requires i < |s| && s[i].mac == "" && FinishedUpTo(s, i)
    ensures FinishedUpTo(s, i + 1)
  {
    hide SerialOf, NameOf, Stage, Finished;
    FinishedNext(s, i);
    WithMacNext(s, i);
  }

  lemma {:induction false} FinishedNext(s: seq<Identity>, i: nat)
    requires i < |s|
    ensures FinishedBefore(s, i + 1) ==
            if s[i].mac == "" then FinishedBefore(s, i) else FinishedBefore(s, i)[i := Finished(s[i])]
  {
  }

  lemma {:induction false} WithMacNext(s: seq<Identity>, i: nat)
    requires i < |s|
    ensures WithMac(s, i + 1) == if s[i].mac == "" then WithMac(s, i) else WithMac(s, i)[i := true]
  {
  }

  lemma {:induction false} FinishedIsSettled(s: seq<Identity>, i: nat, reserved: Claims, final: Claims)
    requires i < |s| && s[i].mac != "" && reserved == ClaimsOf(s)
    requires SuppliedList(s) && EntryFree(s[i], reserved)
    ensures Settled(s[i], Finished(s[i]), reserved, WithDerived(final, s[i]))
  {
    EntryClaims(s, i);
  }

  lemma {:induction false} FreeEntrySettles(s: seq<Identity>, i: nat)
    requires i < |s| && s[i].mac != "" && FinishedUpTo(s, i)
    requires SuppliedList(s) && NoClashes(s) && EntryFree(s[i], ClaimsOf(s))
    ensures FinishedUpTo(s, i + 1)
  {
    hide SerialOf, NameOf, Stage, OnlyDerived, Settled, NoClashes, SuppliedList, ClaimsOf;
    var final := DerivedBefore(s, i);
    WithMacNext(s, i);
    FinishedNext(s, i);
    DerivedNeverCollide(s, i, final);
    FinishedIsSettled(s, i, ClaimsOf(s), final);
    SettleOne(s, FinishedBefore(s, i), WithMac(s, i), ClaimsOf(s), final, i, Finished(s[i]), WithDerived(final, s[i]));
    OnlyDerivedSnoc(s, i, final, WithDerived(final, s[i]));
  }

  /** What pass 2 has claimed itself never blocks an entry. */
  lemma {:induction false} BlockedOnlyByReserved(s: seq<Identity>, i: nat)
    requires i < |s| && s[i].mac != "" && SuppliedList(s) && NoClashes(s) && FreeBefore(s, i)
    ensures Blocked(s[i], ClaimsOf(s), DerivedBefore(s, i)) <==> !EntryFree(s[i], ClaimsOf(s))
  {
    FreeBeforeIff(s, i);
    FinishedPrefix(s, i);
    DerivedNeverCollide(s, i, DerivedBefore(s, i));
  }

  ghost predicate FreeBefore(s: seq<Identity>, i: nat)
    requires i <= |s|
  {
    i == 0 || (FreeBefore(s, i - 1) && EntryFree(s[i - 1], ClaimsOf(s)))
  }

  lemma {:induction false} FreeBeforeIff(s: seq<Identity>, i: nat)
    requires i <= |s|
    ensures FreeBefore(s, i) <==> forall k | 0 <= k < i :: EntryFree(s[k], ClaimsOf(s))
    decreases i
  {
    if i > 0 {
      FreeBeforeIff(s, i - 1);
    }
  }

  lemma {:induction false} NotFree(s: seq<Identity>, i: nat)
    requires i < |s| && !EntryFree(s[i], ClaimsOf(s))
    ensures !DerivedFree(s)
  {
  }

  lemma {:induction false} AllFinished(s: seq<Identity>)
    requires SuppliedList(s) && NoClashes(s) && FreeBefore(s, |s|)
    ensures DerivedFree(s)
    ensures Stage(s, FinishedBefore(s, |s|), WithMac(s, |s|), ClaimsOf(s), DerivedBefore(s, |s|))
  {
    FreeBeforeIff(s, |s|);
    FinishedPrefix(s, |s|);
  }

  /** Pass 2 succeeds exactly when nothing derived is reserved: the second test of each pair of
      guards, against what this very pass has claimed, never fires. */
  method FinishSupplied(supplied: seq<Identity>, reserved: IdentitySet, final: IdentitySet)
    returns (out: Option<seq<Identity>>)
    requires reserved != final && final.Contents() == Claims({}, {}, {})
    requires reserved.Contents() == ClaimsOf(supplied)
    requires SuppliedList(supplied) && NoClashes(supplied)
    modifies final
    ensures out.Some? <==> DerivedFree(supplied)
    ensures out.Some? ==>
              Stage(supplied, out.value, WithMac(supplied, |supplied|), reserved.Contents(), final.Contents())
    ensures out.Some? ==> out.value == FinishedBefore(supplied, |supplied|)
    ensures out.Some? ==> final.Contents() == DerivedBefore(supplied, |supplied|)
  {
    hide SerialOf, NameOf, Stage, Finished, NoClashes, SuppliedList, ClaimsOf;
    var acc := seq(|supplied|, _ => BLANK);
    for i := 0 to |supplied|
      invariant reserved.Contents() == ClaimsOf(supplied)
      invariant acc == FinishedBefore(supplied, i) && final.Contents() == DerivedBefore(supplied, i)
      invariant FreeBefore(supplied, i)
    {
      FinishedNext(supplied, i);
      if supplied[i].mac == "" {
        continue;
      }
      BlockedOnlyByReserved(supplied, i);
      var o := FinishEntry(supplied[i], reserved, final);
      if o.None? {
        NotFree(supplied, i);
        return None;
      }
      acc := acc[i := o.value];
    }
    AllFinished(supplied);
    return Some(acc);
  }

  /** The MAC a complete draw at a position of the random source gives. */
  function DrawAt(random: bytes, at: nat): string
    requires at + 6 <= |random|
  {
    Hex.MacString(MakeEndpointAddress(random[at..at + 6]))
  }

  /** A MAC that collides, itself or in what it derives for an entry. */
  predicate Taken(id: Identity, mac: string, reserved: Claims, final: Claims)
  {
    || mac in reserved.macs + final.macs
    || (id.serial == "" && SerialOf(mac) in reserved.serials + final.serials)
    || (id.name == "" && NameOf(id.model, mac) in reserved.names + final.names)
  }

  function ClaimedWith(final: Claims, o: Identity): Claims
  {
    Claims(final.macs + {o.mac}, final.serials + {o.serial}, final.names + {o.name})
  }

  function Collides(id: Identity, reserved: Claims, final: Claims): string -> bool
  {
    mac => Taken(id, mac, reserved, final)
  }

  /** The MACs generate can draw: 64, or as many as the source has left. */
  function DrawnMacs(random: bytes, start: nat): (macs: seq<string>)
    requires start <= |random|
    ensures |macs| == (if |random| - start >= 6 * MAC_RETRIES then MAC_RETRIES else (|random| - start) / 6)
  {
    var n := if |random| - start >= 6 * MAC_RETRIES then MAC_RETRIES else (|random| - start) / 6;
    seq(n, k requires 0 <= k < n => DrawAt(random, start + 6 * k))
  }

  /** Six bytes a draw, one after another, and never more than 64 draws. */
  lemma {:induction false} DrawsAre(random: bytes, start: nat, k: nat)
    requires start <= |random|
    ensures k < |DrawnMacs(random, start)| <==> k < 64 && start + 6 * k + 6 <= |random|
    ensures k < |DrawnMacs(random, start)| ==>
              DrawnMacs(random, start)[k] ==
              Hex.MacString(MakeEndpointAddress(random[start + 6 * k..start + 6 * k + 6]))
  {
  }

  /** What generate settles on, and the read position it leaves behind: the first draw that does
      not collide, or a failure when all of them do. */
  function Drawn(id: Identity, reserved: Claims, final: Claims, random: bytes, start: nat): (r: (Option<Identity>, nat))
    requires start <= |random|
    ensures start <= r.1 <= |random|
  {
    var macs := DrawnMacs(random, start);
    var k := FirstNot(Collides(id, reserved, final), macs);
    if k < |macs| then (Some(Finished(id.(mac := macs[k]))), start + 6 * (k + 1)) else (None, start + 6 * |macs|)
  }

  /** What is drawn settles its entry with values nothing claimed before. */
  lemma {:induction false} DrawnGrows(id: Identity, reserved: Claims, final: Claims, random: bytes, start: nat)
    requires start <= |random| && id.mac == ""
    requires id.serial != "" ==> id.serial in reserved.serials
    requires id.name != "" ==> id.name in reserved.names
    ensures var o := Drawn(id, reserved, final, random, start).0;
            o.Some? ==> Grows(id, o.value, reserved, final, ClaimedWith(final, o.value))
  {
    var macs := DrawnMacs(random, start);
    var k := FirstNot(Collides(id, reserved, final), macs);
    if k < |macs| {
      FreeMacGrows(id, macs[k], reserved, final);
    }
  }

  lemma {:induction false} FreeMacGrows(id: Identity, mac: string, reserved: Claims, final: Claims)
    requires id.mac == "" && GoodMac(mac) && !Taken(id, mac, reserved, final)
    requires id.serial != "" ==> id.serial in reserved.serials
    requires id.name != "" ==> id.name in reserved.names
    ensures Grows(id, Finished(id.(mac := mac)), reserved, final, ClaimedWith(final, Finished(id.(mac := mac))))
  {
  }

  lemma {:induction false} DrawsLeft(random: bytes, start: nat, attempt: nat)
    requires attempt <= MAC_RETRIES && start + 6 * attempt <= |random|
    ensures var macs := DrawnMacs(random, start);
            && attempt <= |macs|
            && (attempt == |macs| <==> attempt == MAC_RETRIES || |random| - (start + 6 * attempt) < 6)
            && (attempt < |macs| ==> macs[attempt] == DrawAt(random, start + 6 * attempt))
  {
  }

  ghost predicate TakenUpTo(p: string -> bool, macs: seq<string>, n: nat)
  {
    n <= |macs| && (n == 0 || (TakenUpTo(p, macs, n - 1) && p(macs[n - 1])))
  }

  lemma {:induction false} FirstNotIs(p: string -> bool, macs: seq<string>, n: nat)
    requires TakenUpTo(p, macs, n) && (n < |macs| ==> !p(macs[n]))
    ensures FirstNot(p, macs) == n
  {
    for k := n downto 0
      invariant TakenUpTo(p, macs, k) && forall j | k <= j < n :: p(macs[j])
    {
    }
  }

  lemma {:induction false} DrawnIs(id: Identity, reserved: Claims, final: Claims, random: bytes, start: nat, k: nat)
    requires start <= |random| && k <= |DrawnMacs(random, start)|
    requires TakenUpTo(Collides(id, reserved, final), DrawnMacs(random, start), k)
    requires k < |DrawnMacs(random, start)| ==> !Taken(id, DrawnMacs(random, start)[k], reserved, final)
    ensures var macs := DrawnMacs(random, start);
            Drawn(id, reserved, final, random, start) ==
            if k < |macs| then (Some(Finished(id.(mac := macs[k]))), start + 6 * (k + 1)) else (None, start + 6 * k)
  {
    FirstNotIs(Collides(id, reserved, final), DrawnMacs(random, start), k);
  }

  /** One draw of generate. */
  method TryMac(id: Identity, mac: string, reserved: IdentitySet, final: IdentitySet) returns (o: Option<Identity>)
    requires reserved != final
    modifies final
    ensures o.None? <==> Taken(id, mac, reserved.Contents(), old(final.Contents()))
    ensures o.Some? ==> o.value == Finished(id.(mac := mac))
    ensures final.Contents() == if o.Some? then ClaimedWith(old(final.Contents()), o.value) else old(final.Contents())
  {
    if mac in reserved.macs || mac in final.macs {
      return None;
    }
    var candidate := id.(mac := mac);
    if candidate.serial == "" {
      candidate := candidate.(serial := SerialOf(mac));
      if candidate.serial in reserved.serials || candidate.serial in final.serials {
        return None;
      }
    }
    if candidate.name == "" {
      candidate := candidate.(name := NameOf(candidate.model, mac));
      if candidate.name in reserved.names || candidate.name in final.names {
        return None;
      }
    }
    var _ := final.AddMac(candidate.mac);
    var _ := final.AddSerial(candidate.serial);
    var _ := final.AddName(candidate.name);
    return Some(candidate);
  }

  /** generate: draw MACs until one and everything derived from it is free, then claim them.
      The random source is a stream of bytes with a read position. */
  method Generate(id: Identity, reserved: IdentitySet, final: IdentitySet, random: bytes, start: nat)
    returns (o: Option<Identity>, used: nat)
    requires reserved != final && start <= |random|
    modifies final
    ensures (o, used) == Drawn(id, reserved.Contents(), old(final.Contents()), random, start)
    ensures final.Contents() == if o.Some? then ClaimedWith(old(final.Contents()), o.value) else old(final.Contents())
  {
    hide Taken, Finished, ClaimedWith, Hex.MacString, MakeEndpointAddress, DrawnMacs, Drawn;
    ghost var macs := DrawnMacs(random, start);
    ghost var r, f := reserved.Contents(), final.Contents();
    used := start;
    for attempt := 0 to MAC_RETRIES
      invariant used == start + 6 * attempt <= |random|
      invariant reserved.Contents() == r && final.Contents() == f
      invariant TakenUpTo(Collides(id, r, f), macs, attempt)
    {
      DrawsLeft(random, start, attempt);
      if |random| - used < 6 {
        DrawnIs(id, r, f, random, start, attempt);
        return None, used;
      }
      var mac := Hex.MacString(MakeEndpointAddress(random[used..used + 6]));
      assert mac == macs[attempt];
      used := used + 6;
      o := TryMac(id, mac, reserved, final);
      if o.Some? {
        DrawnIs(id, r, f, random, start, attempt);
        return;
      }
    }
    DrawsLeft(random, start, MAC_RETRIES);
    DrawnIs(id, r, f, random, start, MAC_RETRIES);
    return None, used;
  }

  lemma {:induction false} SuppliedAllIsSuppliedList(devices: seq<RequestDevice>)
    ensures SuppliedList(SuppliedAll(devices))
  {
    forall i | 0 <= i < |devices| && SuppliedAll(devices)[i].mac != ""
      ensures GoodMac(SuppliedAll(devices)[i].mac)
    {
      CanonicalMacsAreGood(devices[i].mac);
    }
  }

  /** Pass 3 before entry i: everything supplied with a MAC, and everything before i, is settled. */
  ghost predicate GeneratedUpTo(s: seq<Identity>, acc: seq<Identity>, done: seq<bool>, i: nat, reserved: Claims,
                                final: Claims)
  {
    && |done| == |s| && (forall k | 0 <= k < |s| :: done[k] <==> k < i || s[k].mac != "")
    && reserved == ClaimsOf(s) && NoClashes(s) && Stage(s, acc, done, reserved, final)
  }

  lemma {:induction false} GenerateSettles(s: seq<Identity>, acc: seq<Identity>, done: seq<bool>, i: nat,
                                           reserved: Claims, before: Claims, random: bytes, used: nat)
    requires GeneratedUpTo(s, acc, done, i, reserved, before) && i < |s| && s[i].mac == "" && used <= |random|
    ensures var o := Drawn(s[i], reserved, before, random, used).0;
            o.Some? ==>
              GeneratedUpTo(s, acc[i := o.value], done[i := true], i + 1, reserved, ClaimedWith(before, o.value))
  {
    EntryClaims(s, i);
    DrawnGrows(s[i], reserved, before, random, used);
    var o := Drawn(s[i], reserved, before, random, used).0;
    if o.Some? {
      SettleOne(s, acc, done, reserved, before, i, o.value, ClaimedWith(before, o.value));
    }
  }

  lemma {:induction false} GenerateSkips(s: seq<Identity>, acc: seq<Identity>, done: seq<bool>, i: nat,
                                         reserved: Claims, final: Claims)
    requires GeneratedUpTo(s, acc, done, i, reserved, final) && i < |s| && s[i].mac != ""
    ensures GeneratedUpTo(s, acc, done, i + 1, reserved, final)
  {
  }

  lemma {:induction false} GeneratedToTheEnd(s: seq<Identity>, acc: seq<Identity>, done: seq<bool>, reserved: Claims,
                                             final: Claims)
    requires GeneratedUpTo(s, acc, done, |s|, reserved, final)
    ensures Stage(s, acc, seq(|s|, _ => true), reserved, final)
  {
    assert done == seq(|s|, _ => true);
  }

  /** o settles id with values the final claims did not have before. */
  ghost predicate Grows(id: Identity, o: Identity, reserved: Claims, before: Claims, after: Claims)
  {
    && before.macs <= after.macs && before.serials <= after.serials && before.names <= after.names
    && Settled(id, o, reserved, after)
    && o.mac !in before.macs
    && (id.serial == "" ==> o.serial !in before.serials)
    && (id.name == "" ==> o.name !in before.names)
  }

  /** What pass 3 makes of the entries from i on. */
  function GenerateFrom(s: seq<Identity>, acc: seq<Identity>, i: nat, reserved: Claims, final: Claims, random: bytes,
                        used: nat): (r: (Option<seq<Identity>>, nat))
    requires |acc| == |s| && i <= |s| && used <= |random|
    ensures used <= r.1 <= |random|
    decreases |s| - i
  {
    if i == |s| then (Some(acc), used)
    else if s[i].mac != "" then GenerateFrom(s, acc, i + 1, reserved, final, random, used)
    else
      var d := Drawn(s[i], reserved, final, random, used);
      if d.0.None? then (None, d.1)
      else GenerateFrom(s, acc[i := d.0.value], i + 1, reserved, ClaimedWith(final, d.0.value), random, d.1)
  }

  /** Pass 3: generate the missing MACs. */
  method GenerateMissing(supplied: seq<Identity>, settled: seq<Identity>, reserved: IdentitySet, final: IdentitySet,
                         random: bytes)
    returns (out: Option<seq<Identity>>, used: nat)
    requires reserved != final
    requires reserved.Contents() == ClaimsOf(supplied) && NoClashes(supplied)
    requires Stage(supplied, settled, WithMac(supplied, |supplied|), reserved.Contents(), final.Contents())
    modifies final
    ensures (out, used) ==
            GenerateFrom(supplied, settled, 0, reserved.Contents(), old(final.Contents()), random, 0)
    ensures out.Some? ==>
              Stage(supplied, out.value, seq(|supplied|, _ => true), reserved.Contents(), final.Contents())
  {
    used := 0;
    var acc := settled;
    ghost var done, claims := WithMac(supplied, |supplied|), reserved.Contents();
    ghost var result := GenerateFrom(supplied, settled, 0, claims, final.Contents(), random, 0);
    for i := 0 to |supplied|
      invariant reserved.Contents() == claims
      invariant GeneratedUpTo(supplied, acc, done, i, claims, final.Contents())
      invariant used <= |random|
      invariant result == GenerateFrom(supplied, acc, i, claims, final.Contents(), random, used)
    {
      if supplied[i].mac != "" {
        GenerateSkips(supplied, acc, done, i, claims, final.Contents());
        continue;
      }
      ghost var before := final.Contents();
      GenerateSettles(supplied, acc, done, i, claims, before, random, used);
      var o;
      o, used := Generate(supplied[i], reserved, final, random, used);
      if o.None? {
        return None, used;
      }
      acc := acc[i := o.value];
      done := done[i := true];
    }
    GeneratedToTheEnd(supplied, acc, done, claims, final.Contents());
    return Some(acc), used;
  }

  /** Entry k is settled when pass 3 comes to entry i. */
  predicate SettledBefore(s: seq<Identity>, i: nat, k: int)
  {
    0 <= k < |s| && (k < i || s[k].mac != "")
  }

  /** Claimed are only values of identities already settled. */
  ghost predicate Held(s: seq<Identity>, acc: seq<Identity>, i: nat, final: Claims)
    requires |acc| == |s|
  {
    && (forall v | v in final.macs :: exists k :: SettledBefore(s, i, k) && acc[k].mac == v)
    && (forall v | v in final.serials :: exists k :: SettledBefore(s, i, k) && acc[k].serial == v)
    && (forall v | v in final.names :: exists k :: SettledBefore(s, i, k) && acc[k].name == v)
  }

  /** Every draw entry i can make collides with a value the request supplied or with a value of an
      identity already settled. */
  ghost predicate Starved(s: seq<Identity>, acc: seq<Identity>, i: nat, final: Claims, random: bytes, start: nat)
  {
    && i < |s| == |acc| && s[i].mac == "" && start <= |random|
    && Held(s, acc, i, final)
    && forall j | 0 <= j < |DrawnMacs(random, start)| :: Taken(s[i], DrawnMacs(random, start)[j], ClaimsOf(s), final)
  }

  /** Pass 3 fails only at such an entry, after all of its draws: 64, or as many as are left. */
  lemma {:induction false} FailingIsStarving(s: seq<Identity>, acc: seq<Identity>, i: nat, final: Claims, random: bytes,
                                             used: nat)
    returns (acc': seq<Identity>, at: nat, taken: Claims, start: nat)
    requires |acc| == |s| && i <= |s| && used <= |random| && Held(s, acc, i, final)
    requires GenerateFrom(s, acc, i, ClaimsOf(s), final, random, used).0.None?
    ensures Starved(s, acc', at, taken, random, start)
    ensures GenerateFrom(s, acc, i, ClaimsOf(s), final, random, used).1 ==
            start + 6 * |DrawnMacs(random, start)|
    decreases |s| - i
  {
    hide Taken, Held, ClaimsOf, ClaimedWith;
    if s[i].mac != "" {
      HeldLonger(s, acc, i, final);
      acc', at, taken, start := FailingIsStarving(s, acc, i + 1, final, random, used);
    } else {
      var d := Drawn(s[i], ClaimsOf(s), final, random, used);
      if d.0.None? {
        DrawsAreTaken(s[i], ClaimsOf(s), final, random, used);
        acc', at, taken, start := acc, i, final, used;
      } else {
        HeldByOneMore(s, acc, i, final, d.0.value);
        acc', at, taken, start :=
          FailingIsStarving(s, acc[i := d.0.value], i + 1, ClaimedWith(final, d.0.value), random, d.1);
      }
    }
  }

  lemma {:induction false} DrawsAreTaken(id: Identity, reserved: Claims, final: Claims, random: bytes, start: nat)
    requires start <= |random| && Drawn(id, reserved, final, random, start).0.None?
    ensures var macs := DrawnMacs(random, start);
            forall j | 0 <= j < |macs| :: Taken(id, macs[j], reserved, final)
  {
    var macs, collides := DrawnMacs(random, start), Collides(id, reserved, final);
    assert forall j | 0 <= j < |macs| :: collides(macs[j]);
  }

  lemma {:induction false} HeldLonger(s: seq<Identity>, acc: seq<Identity>, i: nat, final: Claims)
    requires |acc| == |s| && Held(s, acc, i, final)
    ensures Held(s, acc, i + 1, final)
  {
    assert forall k :: SettledBefore(s, i, k) ==> SettledBefore(s, i + 1, k);
  }

  lemma {:induction false} HeldByOneMore(s: seq<Identity>, acc: seq<Identity>, i: nat, final: Claims, o: Identity)
    requires i < |acc| == |s| && s[i].mac == "" && Held(s, acc, i, final)
    ensures Held(s, acc[i := o], i + 1, ClaimedWith(final, o))
  {
    var acc' := acc[i := o];
    assert SettledBefore(s, i + 1, i) && acc'[i] == o;
    assert forall k :: SettledBefore(s, i, k) ==> SettledBefore(s, i + 1, k) && acc'[k] == acc[k];
  }

  /** Entry k derived v as the field in question. */
  ghost predicate HeldBy(field: Identity -> string, s: seq<Identity>, k: int, v: string)
  {
    SettledBefore(s, 0, k) && field(Finished(s[k])) == v
  }

  lemma {:induction false} DerivedAreHeld(s: seq<Identity>, n: nat)
    requires n <= |s|
    ensures forall v | v in DerivedBefore(s, n).serials :: exists k :: HeldBy(Serial, s, k, v)
    ensures forall v | v in DerivedBefore(s, n).names :: exists k :: HeldBy(Name, s, k, v)
    ensures DerivedBefore(s, n).macs == {}
    decreases n
  {
    hide SerialOf, NameOf;
    if n > 0 {
      var id := s[n - 1];
      DerivedAreHeld(s, n - 1);
      if id.mac != "" && id.serial == "" {
        assert HeldBy(Serial, s, n - 1, SerialOf(id.mac));
      }
      if id.mac != "" && id.name == "" {
        assert HeldBy(Name, s, n - 1, NameOf(id.model, id.mac));
      }
    }
  }

  lemma {:induction false} FinishedAreHeld(s: seq<Identity>)
    ensures Held(s, FinishedBefore(s, |s|), 0, DerivedBefore(s, |s|))
  {
    DerivedAreHeld(s, |s|);
    var acc := FinishedBefore(s, |s|);
    forall k | SettledBefore(s, 0, k)
      ensures acc[k] == Finished(s[k])
    {
    }
    forall v | v in DerivedBefore(s, |s|).serials
      ensures exists k :: SettledBefore(s, 0, k) && acc[k].serial == v
    {
      var k :| HeldBy(Serial, s, k, v);
    }
    forall v | v in DerivedBefore(s, |s|).names
      ensures exists k :: SettledBefore(s, 0, k) && acc[k].name == v
    {
      var k :| HeldBy(Name, s, k, v);
    }
  }

  lemma {:induction false} NothingToGenerate(s: seq<Identity>, acc: seq<Identity>, i: nat, reserved: Claims,
                                             final: Claims, random: bytes, used: nat)
    requires |acc| == |s| && i <= |s| && used <= |random|
    requires forall k | 0 <= k < |s| :: s[k].mac != ""
    ensures GenerateFrom(s, acc, i, reserved, final, random, used) == (Some(acc), used)
    decreases |s| - i
  {
    if i < |s| {
      NothingToGenerate(s, acc, i + 1, reserved, final, random, used);
    }
  }

  lemma {:induction false} EverythingSettled(devices: seq<RequestDevice>, out: seq<Identity>, reserved: Claims,
                                             final: Claims)
    requires Stage(SuppliedAll(devices), out, seq(|devices|, _ => true), reserved, final)
    ensures Allocated(devices, out)
  {
    var s, done := SuppliedAll(devices), seq(|devices|, _ => true);
    assert forall i | 0 <= i < |devices| :: done[i] && s[i] == Supplied(devices[i], i);
  }

  lemma {:induction false} SuppliedMacsSurvive(devices: seq<RequestDevice>)
    requires forall d | d in devices :: ValidEntry(d) && d.mac != ""
    ensures forall k | 0 <= k < |devices| :: SuppliedAll(devices)[k].mac != ""
  {
    forall k | 0 <= k < |devices|
      ensures SuppliedAll(devices)[k].mac != ""
    {
      assert ValidEntry(devices[k]);
      CanonicalMacsAreGood(devices[k].mac);
    }
  }

  /** What Allocate makes of a request and a random source, and how much of the source it reads. */
  ghost function AllocateResult(devices: seq<RequestDevice>, random: bytes): (Option<seq<Identity>>, nat)
  {
    var s := SuppliedAll(devices);
    if !Acceptable(devices) then (None, 0)
    else GenerateFrom(s, FinishedBefore(s, |s|), 0, ClaimsOf(s), DerivedBefore(s, |s|), random, 0)
  }

  /** Allocate: a success resolves every entry, with all identities distinct. */
  method Allocate(devices: seq<RequestDevice>, random: bytes) returns (out: Option<seq<Identity>>, used: nat)
    ensures (out, used) == AllocateResult(devices, random)
    ensures out.Some? ==> Acceptable(devices) && Allocated(devices, out.value)
  {
    var reserved := new IdentitySet();
    var final := new IdentitySet();
    var passed := ReserveSupplied(devices, reserved);
    if passed.None? {
      return None, 0;
    }
    var supplied := passed.value;
    SuppliedAllIsSuppliedList(devices);
    var finished := FinishSupplied(supplied, reserved, final);
    if finished.None? {
      return None, 0;
    }
    out, used := GenerateMissing(supplied, finished.value, reserved, final, random);
    if out.Some? {
      EverythingSettled(devices, out.value, reserved.Contents(), final.Contents());
    }
  }

  /** An acceptable request fails only because some entry without a MAC has all its draws taken. */
  lemma {:induction false} AllocationFailsOnlyWhenStarved(devices: seq<RequestDevice>, random: bytes)
    requires Acceptable(devices) && AllocateResult(devices, random).0.None?
    ensures exists acc, i, taken, start :: Starved(SuppliedAll(devices), acc, i, taken, random, start)
  {
    var s := SuppliedAll(devices);
    FinishedAreHeld(s);
    var acc, i, taken, start := FailingIsStarving(s, FinishedBefore(s, |s|), 0, DerivedBefore(s, |s|), random, 0);
  }

  /** Entry j ends reading the source at ends[j + 1]: where it began, or with the draw it took. */
  ghost predicate TakesItsDraw(s: seq<Identity>, out: seq<Identity>, random: bytes, ends: seq<nat>, j: nat)
    requires j < |s| == |out| && |ends| == |s| + 1
  {
    if s[j].mac != "" then ends[j + 1] == ends[j]
    else
      && ends[j] + 6 <= ends[j + 1] <= |random| && (ends[j + 1] - ends[j]) % 6 == 0
      && ends[j + 1] - ends[j] <= 6 * 64
      && out[j].mac == DrawAt(random, ends[j + 1] - 6)
  }

  lemma {:induction false} GeneratedInTurn(s: seq<Identity>, acc: seq<Identity>, i: nat, reserved: Claims,
                                           final: Claims, random: bytes, used: nat, before: seq<nat>)
    returns (ends: seq<nat>)
    requires |acc| == |s| && i <= |s| && used <= |random| && |before| == i + 1 && before[i] == used
    requires GenerateFrom(s, acc, i, reserved, final, random, used).0.Some?
    ensures var (out, end) := GenerateFrom(s, acc, i, reserved, final, random, used);
            && |out.value| == |s| && |ends| == |s| + 1 && ends[|s|] == end && before <= ends
            && (forall j: nat | j < i :: out.value[j] == acc[j])
            && forall j: nat | i <= j < |s| :: TakesItsDraw(s, out.value, random, ends, j)
    decreases |s| - i
  {
    hide Drawn;
    if i == |s| {
      ends := before;
    } else if s[i].mac != "" {
      ends := GeneratedInTurn(s, acc, i + 1, reserved, final, random, used, before + [used]);
      assert ends[i + 1] == (before + [used])[i + 1] && ends[i] == (before + [used])[i];
    } else {
      var d := Drawn(s[i], reserved, final, random, used);
      DrawnReads(s[i], reserved, final, random, used);
      var next := acc[i := d.0.value];
      ends := GeneratedInTurn(s, next, i + 1, reserved, ClaimedWith(final, d.0.value), random, d.1, before + [d.1]);
      assert ends[i + 1] == (before + [d.1])[i + 1] && ends[i] == (before + [d.1])[i];
    }
  }

  lemma {:induction false} DrawnReads(id: Identity, reserved: Claims, final: Claims, random: bytes, start: nat)
    requires start <= |random| && Drawn(id, reserved, final, random, start).0.Some?
    ensures var (o, end) := Drawn(id, reserved, final, random, start);
            && start + 6 <= end <= |random| && (end - start) % 6 == 0 && end - start <= 6 * 64
            && o.value.mac == DrawAt(random, end - 6)
  {
    var macs := DrawnMacs(random, start);
    var k := FirstNot(Collides(id, reserved, final), macs);
    DrawsAre(random, start, k);
    hide DrawnMacs, Collides, DrawAt, SerialOf, NameOf;
    assert Drawn(id, reserved, final, random, start) == (Some(Finished(id.(mac := macs[k]))), start + 6 * (k + 1));
    assert macs[k] == DrawAt(random, start + 6 * k) by { DrawIsAt(random, start, k); }
  }

  lemma {:induction false} DrawIsAt(random: bytes, start: nat, k: nat)
    requires start <= |random| && k < |DrawnMacs(random, start)|
    ensures start + 6 * k + 6 <= |random| && DrawnMacs(random, start)[k] == DrawAt(random, start + 6 * k)
  {
  }

  /** A successful allocation reads the source once, front to back: entry by entry, six bytes a draw,
      at most 64 draws each, and the MAC it generates is the last draw it read. */
  lemma {:induction false} AllocationReadsInOrder(devices: seq<RequestDevice>, random: bytes)
    requires AllocateResult(devices, random).0.Some?
    ensures var (out, used) := AllocateResult(devices, random);
            && |out.value| == |devices|
            && exists ends ::
                 && |ends| == |devices| + 1 && ends[0] == 0 && ends[|devices|] == used
                 && forall j: nat | j < |devices| ::
                      TakesItsDraw(SuppliedAll(devices), out.value, random, ends, j)
  {
    hide GenerateFrom, ClaimsOf, DerivedBefore, FinishedBefore, Acceptable;
    var s := SuppliedAll(devices);
    var ends := GeneratedInTurn(s, FinishedBefore(s, |s|), 0, ClaimsOf(s), DerivedBefore(s, |s|), random, 0, [0]);
  }

  /** A request whose MACs are all supplied succeeds exactly when it is acceptable, whatever the
      random source, and reads nothing of it. */
  lemma {:induction false} FullySuppliedNeedsNoRandomness(devices: seq<RequestDevice>, random: bytes)
    requires forall d | d in devices :: d.mac != ""
    ensures AllocateResult(devices, random).0.Some? <==> Acceptable(devices)
    ensures AllocateResult(devices, random).1 == 0
  {
    var s := SuppliedAll(devices);
    if Acceptable(devices) {
      SuppliedMacsSurvive(devices);
      NothingToGenerate(s, FinishedBefore(s, |s|), 0, ClaimsOf(s), DerivedBefore(s, |s|), random, 0);
    }
  }

  /** The fully specified request that spells out an identity. */
  function Respecify(id: Identity): RequestDevice
  {
    RequestDevice(id.model, id.mac, id.serial, id.name)
  }

  lemma {:induction false} RespecifiedEntry(d: RequestDevice, i: nat, o: Identity)
    requires ValidEntry(d) && ResolvedFrom(Supplied(d, i), o)
    ensures ValidEntry(Respecify(o)) && Supplied(Respecify(o), i) == o
    ensures o.mac != "" && o.serial != "" && o.name != ""
    ensures forall o' :: ResolvedFrom(o, o') ==> o' == o
  {
    CanonicalMacFixesGoodMacs(o.mac);
    DerivedAreNonEmpty(o);
  }

  lemma {:induction false} RespecifiedAll(devices: seq<RequestDevice>, out: seq<Identity>, again: seq<RequestDevice>)
    requires Acceptable(devices) && Allocated(devices, out)
    requires |again| == |out| && forall i | 0 <= i < |out| :: again[i] == Respecify(out[i])
    ensures SuppliedAll(again) == out
    ensures forall i | 0 <= i < |out| :: ValidEntry(again[i]) && again[i].mac != ""
    ensures forall i | 0 <= i < |out| :: out[i].mac != "" && out[i].serial != "" && out[i].name != ""
  {
    forall i: nat | i < |out|
      ensures ValidEntry(again[i]) && Supplied(again[i], i) == out[i]
      ensures out[i].mac != "" && out[i].serial != "" && out[i].name != ""
    {
      assert ValidEntry(devices[i]);
      RespecifiedEntry(devices[i], i, out[i]);
    }
  }

  lemma {:induction false} FullEntriesAreFixed(again: seq<RequestDevice>, out: seq<Identity>, out': seq<Identity>)
    requires SuppliedAll(again) == out && Allocated(again, out')
    requires forall i | 0 <= i < |out| :: out[i].mac != "" && out[i].serial != "" && out[i].name != ""
    ensures out' == out
  {
    forall i: nat | i < |out|
      ensures out'[i] == out[i]
    {
      assert ResolvedFrom(SuppliedAll(again)[i], out'[i]);
    }
  }

  /** Feeding an allocation back is accepted and resolves to the very same identities. */
  lemma {:induction false} ReallocationReturnsTheSame(devices: seq<RequestDevice>, out: seq<Identity>,
                                   again: seq<RequestDevice>, out': seq<Identity>)
    requires Acceptable(devices) && Allocated(devices, out)
    requires |again| == |out| && forall i | 0 <= i < |out| :: again[i] == Respecify(out[i])
    ensures Acceptable(again) && forall d | d in again :: d.mac != ""
    ensures Allocated(again, out') ==> out' == out
  {
    RespecifiedAll(devices, out, again);
    if Allocated(again, out') {
      FullEntriesAreFixed(again, out, out');
    }
  }
}
