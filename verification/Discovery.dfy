/** discovery/packet.go: the type-length-value codec of the L2 discovery packet. */
module Discovery {
  import opened Prelude

  const V2: byte := 2

  const TLV_MAC: byte := 0x01
  const TLV_MAC_IP: byte := 0x02
  const TLV_FIRMWARE: byte := 0x03
  const TLV_UPTIME: byte := 0x0a
  const TLV_HOSTNAME: byte := 0x0b
  const TLV_PLATFORM: byte := 0x0c
  const TLV_ESSID: byte := 0x0d
  const TLV_WMODE: byte := 0x0e
  const TLV_SEQ: byte := 0x12
  const TLV_SRC_MAC: byte := 0x13
  const TLV_MODEL: byte := 0x15
  const TLV_NETMASK: byte := 0x35

  type u32 = n: int | 0 <= n < 0x1_0000_0000

  datatype Address = Address(mac: bytes, ip: bytes)

  /** A nil slice is None. */
  datatype Announcement = Announcement(
    version: byte, command: byte, mac: Option<bytes>, addresses: seq<Address>, firmware: bytes, uptime: u32,
    hostname: bytes, platform: bytes, essid: bytes, wmode: u32, sequence: u32, sourceMac: Option<bytes>,
    model: bytes, netmask: Option<bytes>)

  function Blank(version: byte, command: byte): Announcement
  {
    Announcement(version, command, None, [], [], 0, [], [], [], 0, 0, None, [], None)
  }

  /** net.IP.To4. */
  function To4(ip: bytes): (r: Option<bytes>)
    ensures r.Some? ==> |r.value| == 4
    ensures |ip| == 4 ==> r == Some(ip)
  {
    if |ip| == 4 then Some(ip)
    else if |ip| == 16 && ip[..10] == [0, 0, 0, 0, 0, 0, 0, 0, 0, 0] && ip[10] == 0xff
      && ip[11] == 0xff then Some(ip[12..])
    else None
  }

  datatype Tlv = Tlv(typ: byte, val: bytes)

  /** putTLV: the length is written as a uint16, dropping its high bits. */
  function EncodeTlv(t: Tlv): bytes
  {
    [t.typ] + U16(|t.val|) + t.val
  }

  function EncodeAll(ts: seq<Tlv>): bytes
  {
    if ts == [] then [] else EncodeTlv(ts[0]) + EncodeAll(ts[1..])
  }

  // ---------------------------------------------------------------------------------------------
  // Marshal
  // ---------------------------------------------------------------------------------------------

  datatype Malformed = NoVersion | BadMac | BadAddressMac | BadAddressIP | BadSourceMac | BadNetmask | TooLong

  function Bytes(typ: byte, val: bytes): seq<Tlv>
  {
    if val == [] then [] else [Tlv(typ, val)]
  }

  function Number(typ: byte, n: u32): seq<Tlv>
  {
    if n == 0 then [] else [Tlv(typ, U32(n))]
  }

  function Slice(typ: byte, val: Option<bytes>): seq<Tlv>
  {
    if val.None? then [] else [Tlv(typ, val.value)]
  }

  function Addresses(ads: seq<Address>): seq<Tlv>
  {
    if ads == [] then []
    else
      var ip := To4(ads[0].ip);
      [Tlv(TLV_MAC_IP, ads[0].mac + (if ip.Some? then ip.value else []))] + Addresses(ads[1..])
  }

  /** The fields only version 2 carries. */
  function V2Fields(a: Announcement): seq<Tlv>
  {
    Number(TLV_SEQ, a.sequence) + Slice(TLV_SRC_MAC, a.sourceMac) + Bytes(TLV_MODEL, a.model)
  }

  function LeadingFields(a: Announcement): seq<Tlv>
  {
    Slice(TLV_MAC, a.mac) + Addresses(a.addresses) + Bytes(TLV_FIRMWARE, a.firmware) + Number(TLV_UPTIME, a.uptime)
  }

  function CommonFields(a: Announcement): seq<Tlv>
  {
    LeadingFields(a)
    + Bytes(TLV_HOSTNAME, a.hostname) + Bytes(TLV_PLATFORM, a.platform) + Bytes(TLV_ESSID, a.essid)
    + Number(TLV_WMODE, a.wmode)
  }

  /** The set fields of a well-formed announcement, in the order they are written. */
  function Fields(a: Announcement): seq<Tlv>
  {
    CommonFields(a) + (if a.version == V2 then V2Fields(a) else [])
    + Slice(TLV_NETMASK, if a.netmask.Some? then To4(a.netmask.value) else None)
  }

  predicate GoodAddress(ad: Address)
  {
    |ad.mac| == 6 && To4(ad.ip).Some?
  }

  /** What Marshal demands of the fields it writes. */
  ghost predicate WellFormed(a: Announcement)
  {
    && a.version != 0
    && (a.mac.Some? ==> |a.mac.value| == 6)
    && (forall i | 0 <= i < |a.addresses| :: GoodAddress(a.addresses[i]))
    && (a.version == V2 && a.sourceMac.Some? ==> |a.sourceMac.value| == 6)
    && (a.netmask.Some? ==> To4(a.netmask.value).Some?)
  }

  function Packet(version: byte, command: byte, body: bytes): bytes
  {
    [version, command] + U16(|body|) + body
  }

  lemma {:induction false} EncodeAllAppend(ts: seq<Tlv>, us: seq<Tlv>)
    ensures EncodeAll(ts + us) == EncodeAll(ts) + EncodeAll(us)
  {
    if ts == [] {
      assert ts + us == us;
    } else {
      EncodeAllAppend(ts[1..], us);
      HeadAndTail(ts, us);
      Associates(EncodeTlv(ts[0]), EncodeAll(ts[1..]), EncodeAll(us));
    }
  }

  lemma {:induction false} EncodeOne(t: Tlv)
    ensures EncodeAll([t]) == EncodeTlv(t)
  {
    assert [t][1..] == [];
  }

  lemma {:induction false} AddressesAppend(a: seq<Address>, b: seq<Address>)
    ensures Addresses(a + b) == Addresses(a) + Addresses(b)
  {
    if a == [] {
      assert a + b == b;
    } else {
      AddressesAppend(a[1..], b);
      HeadAndTail(a, b);
      Associates(Addresses(a)[..1], Addresses(a[1..]), Addresses(b));
    }
  }

  method PutTLV(buf: bytes, typ: byte, val: bytes) returns (out: bytes)
    ensures out == buf + EncodeTlv(Tlv(typ, val))
  {
    out := buf + [typ];
    out := out + U16(|val|);
    out := out + val;
  }

  method PutU32(buf: bytes, typ: byte, v: u32) returns (out: bytes)
    ensures out == buf + EncodeTlv(Tlv(typ, U32(v)))
  {
    out := PutTLV(buf, typ, U32(v));
  }

  /** Appending what one more group of fields encodes to. */
  lemma {:induction false} Extend(body: bytes, ts: seq<Tlv>, fs: seq<Tlv>)
    requires body == EncodeAll(ts)
    ensures body + EncodeAll(fs) == EncodeAll(ts + fs)
    ensures |fs| == 1 ==> EncodeAll(fs) == EncodeTlv(fs[0])
    ensures fs == [] ==> ts + fs == ts
  {
    EncodeAllAppend(ts, fs);
    if |fs| == 1 {
      assert fs == [fs[0]];
      EncodeOne(fs[0]);
    }
  }

  method PutBytes(buf: bytes, typ: byte, val: bytes, ghost ts: seq<Tlv>) returns (out: bytes)
    requires buf == EncodeAll(ts)
    ensures out == EncodeAll(ts + Bytes(typ, val))
  {
    Extend(buf, ts, Bytes(typ, val));
    out := buf;
    if val != [] {
      out := PutTLV(out, typ, val);
    }
  }

  method PutNumber(buf: bytes, typ: byte, n: u32, ghost ts: seq<Tlv>) returns (out: bytes)
    requires buf == EncodeAll(ts)
    ensures out == EncodeAll(ts + Number(typ, n))
  {
    Extend(buf, ts, Number(typ, n));
    out := buf;
    if n != 0 {
      out := PutU32(out, typ, n);
    }
  }

  method PutSlice(buf: bytes, typ: byte, val: Option<bytes>, ghost ts: seq<Tlv>) returns (out: bytes)
    requires buf == EncodeAll(ts)
    ensures out == EncodeAll(ts + Slice(typ, val))
  {
    Extend(buf, ts, Slice(typ, val));
    out := buf;
    if val.Some? {
      out := PutTLV(out, typ, val.value);
    }
  }

  method PutAddresses(buf: bytes, ads: seq<Address>, ghost ts: seq<Tlv>) returns (out: Result<bytes, Malformed>)
    requires buf == EncodeAll(ts)
    ensures out.Ok? <==> forall i | 0 <= i < |ads| :: GoodAddress(ads[i])
    ensures out.Ok? ==> out.value == EncodeAll(ts + Addresses(ads))
    ensures out.Err? ==> out.error in {BadAddressMac, BadAddressIP}
  {
    var body := buf;
    assert ts + Addresses(ads[..0]) == ts;
    for i := 0 to |ads|
      invariant forall k | 0 <= k < i :: GoodAddress(ads[k])
      invariant body == EncodeAll(ts + Addresses(ads[..i]))
    {
      var ad := ads[i];
      if |ad.mac| != 6 {
        return Err(BadAddressMac);
      }
      var ip := To4(ad.ip);
      if ip.None? {
        return Err(BadAddressIP);
      }
      OneMoreAddress(body, ts, ads, i);
      body := PutTLV(body, TLV_MAC_IP, ad.mac + ip.value);
    }
    assert ads[..|ads|] == ads;
    return Ok(body);
  }

  lemma {:induction false} OneMoreAddress(body: bytes, ts: seq<Tlv>, ads: seq<Address>, i: nat)
    requires i < |ads| && GoodAddress(ads[i]) && body == EncodeAll(ts + Addresses(ads[..i]))
    ensures body + EncodeTlv(Tlv(TLV_MAC_IP, ads[i].mac + To4(ads[i].ip).value))
            == EncodeAll(ts + Addresses(ads[..i + 1]))
  {
    var one := Addresses([ads[i]]);
    assert ads[..i + 1] == ads[..i] + [ads[i]];
    AddressesAppend(ads[..i], [ads[i]]);
    assert [ads[i]][1..] == [];
    Extend(body, ts + Addresses(ads[..i]), one);
    assert ts + (Addresses(ads[..i]) + one) == ts + Addresses(ads[..i]) + one;
    assert one == [Tlv(TLV_MAC_IP, ads[i].mac + To4(ads[i].ip).value)];
  }

  /** Marshal succeeds exactly on well-formed announcements that fit a 16-bit body length. */
  method Marshal(a: Announcement) returns (r: Result<bytes, Malformed>)
    ensures r.Ok? <==> WellFormed(a) && |EncodeAll(Fields(a))| <= 0xffff
    ensures r.Ok? ==> r.value == Packet(a.version, a.command, EncodeAll(Fields(a)))
    ensures r == Err(NoVersion) <==> a.version == 0
    ensures r == Err(TooLong) <==> WellFormed(a) && |EncodeAll(Fields(a))| > 0xffff
  {
    if a.version == 0 {
      return Err(NoVersion);
    }
    if a.mac.Some? && |a.mac.value| != 6 {
      return Err(BadMac);
    }
    ghost var ts: seq<Tlv> := [];
    var body: bytes := PutSlice([], TLV_MAC, a.mac, ts);
    ts := ts + Slice(TLV_MAC, a.mac);
    assert ts == Slice(TLV_MAC, a.mac);
    var addressed := PutAddresses(body, a.addresses, ts);
    if addressed.Err? {
      return addressed;
    }
    ts := ts + Addresses(a.addresses);
    body := PutBytes(addressed.value, TLV_FIRMWARE, a.firmware, ts);
    ts := ts + Bytes(TLV_FIRMWARE, a.firmware);
    body := PutNumber(body, TLV_UPTIME, a.uptime, ts);
    ts := ts + Number(TLV_UPTIME, a.uptime);
    body := PutBytes(body, TLV_HOSTNAME, a.hostname, ts);
    ts := ts + Bytes(TLV_HOSTNAME, a.hostname);
    body := PutBytes(body, TLV_PLATFORM, a.platform, ts);
    ts := ts + Bytes(TLV_PLATFORM, a.platform);
    body := PutBytes(body, TLV_ESSID, a.essid, ts);
    ts := ts + Bytes(TLV_ESSID, a.essid);
    body := PutNumber(body, TLV_WMODE, a.wmode, ts);
    ts := ts + Number(TLV_WMODE, a.wmode);
    r := MarshalTail(a, body, ts);
  }

  /** The end of Marshal: the fields of version 2, the netmask and the header. */
  method MarshalTail(a: Announcement, before: bytes, ghost ts: seq<Tlv>) returns (r: Result<bytes, Malformed>)
    requires before == EncodeAll(ts)
    ensures var all := ts + (if a.version == V2 then V2Fields(a) else [])
                       + Slice(TLV_NETMASK, if a.netmask.Some? then To4(a.netmask.value) else None);
            if a.version == V2 && a.sourceMac.Some? && |a.sourceMac.value| != 6 then r == Err(BadSourceMac)
            else if a.netmask.Some? && To4(a.netmask.value).None? then r == Err(BadNetmask)
            else if |EncodeAll(all)| > 0xffff then r == Err(TooLong)
            else r == Ok(Packet(a.version, a.command, EncodeAll(all)))
  {
    hide EncodeAll, To4, U16;
    var body := before;
    ghost var us := ts;
    if a.version == V2 {
      body := PutNumber(body, TLV_SEQ, a.sequence, us);
      us := us + Number(TLV_SEQ, a.sequence);
      if a.sourceMac.Some? && |a.sourceMac.value| != 6 {
        return Err(BadSourceMac);
      }
      body := PutSlice(body, TLV_SRC_MAC, a.sourceMac, us);
      us := us + Slice(TLV_SRC_MAC, a.sourceMac);
      body := PutBytes(body, TLV_MODEL, a.model, us);
      us := us + Bytes(TLV_MODEL, a.model);
      Regroup(ts, Number(TLV_SEQ, a.sequence), Slice(TLV_SRC_MAC, a.sourceMac), Bytes(TLV_MODEL, a.model));
      assert us == ts + V2Fields(a);
    } else {
      assert us == ts + [];
    }
    if a.netmask.Some? && To4(a.netmask.value).None? {
      return Err(BadNetmask);
    }
    var netmask := if a.netmask.Some? then To4(a.netmask.value) else None;
    body := PutSlice(body, TLV_NETMASK, netmask, us);
    if |body| > 0xffff {
      return Err(TooLong);
    }
    return Ok([a.version, a.command] + U16(|body|) + body);
  }

  // ---------------------------------------------------------------------------------------------
  // Parse
  // ---------------------------------------------------------------------------------------------

  datatype Unparsable = PacketTooShort | BodyOverrun | TruncatedHeader | TlvOverrun

  /** One recognised field; an unknown type or a known type of the wrong size changes nothing. */
  function Apply(a: Announcement, t: Tlv): Announcement
  {
    var n := |t.val|;
    if t.typ == TLV_MAC then (if n == 6 then a.(mac := Some(t.val)) else a)
    else if t.typ == TLV_MAC_IP then
      (if n == 10 then a.(addresses := a.addresses + [Address(t.val[..6], t.val[6..])]) else a)
    else if t.typ == TLV_FIRMWARE then a.(firmware := t.val)
    else if t.typ == TLV_UPTIME then (if n == 4 then a.(uptime := FromU32(t.val)) else a)
    else if t.typ == TLV_HOSTNAME then a.(hostname := t.val)
    else if t.typ == TLV_PLATFORM then a.(platform := t.val)
    else if t.typ == TLV_ESSID then a.(essid := t.val)
    else if t.typ == TLV_WMODE then (if n == 4 then a.(wmode := FromU32(t.val)) else a)
    else if t.typ == TLV_SEQ then (if n == 4 then a.(sequence := FromU32(t.val)) else a)
    else if t.typ == TLV_SRC_MAC then (if n == 6 then a.(sourceMac := Some(t.val)) else a)
    else if t.typ == TLV_MODEL then a.(model := t.val)
    else if t.typ == TLV_NETMASK then (if n == 4 then a.(netmask := Some(t.val)) else a)
    else a
  }

  function ParseBody(a: Announcement, b: bytes): Result<Announcement, Unparsable>
    decreases |b|
  {
    if b == [] then Ok(a)
    else if |b| < 3 then Err(TruncatedHeader)
    else
      var n := FromU16(b[1..3]);
      if 3 + n > |b| then Err(TlvOverrun)
      else ParseBody(Apply(a, Tlv(b[0], b[3..3 + n])), b[3 + n..])
  }

  function ParsePacket(pkt: bytes): Result<Announcement, Unparsable>
  {
    if |pkt| < 4 then Err(PacketTooShort)
    else
      var bodyLen := FromU16(pkt[2..4]);
      if 4 + bodyLen > |pkt| then Err(BodyOverrun)
      else ParseBody(Blank(pkt[0], pkt[1]), pkt[4..4 + bodyLen])
  }

  method Parse(pkt: bytes) returns (r: Result<Announcement, Unparsable>)
    ensures r == ParsePacket(pkt)
  {
    if |pkt| < 4 {
      return Err(PacketTooShort);
    }
    var a := Blank(pkt[0], pkt[1]);
    var bodyLen := FromU16(pkt[2..4]);
    if 4 + bodyLen > |pkt| {
      return Err(BodyOverrun);
    }
    var b := pkt[4..4 + bodyLen];
    while |b| > 0
      invariant ParseBody(a, b) == ParsePacket(pkt)
      decreases |b|
    {
      if |b| < 3 {
        return Err(TruncatedHeader);
      }
      var typ := b[0];
      var n := FromU16(b[1..3]);
      if 3 + n > |b| {
        return Err(TlvOverrun);
      }
      a := Apply(a, Tlv(typ, b[3..3 + n]));
      b := b[3 + n..];
    }
    return Ok(a);
  }

  function ApplyAll(a: Announcement, ts: seq<Tlv>): Announcement
    decreases |ts|
  {
    if ts == [] then a else ApplyAll(Apply(a, ts[0]), ts[1..])
  }

  lemma {:induction false} ApplyAllAppend(a: Announcement, ts: seq<Tlv>, us: seq<Tlv>)
    ensures ApplyAll(a, ts + us) == ApplyAll(ApplyAll(a, ts), us)
    decreases |ts|
  {
    if ts == [] {
      assert ts + us == us;
    } else {
      ApplyAllAppend(Apply(a, ts[0]), ts[1..], us);
      HeadAndTail(ts, us);
    }
  }

  /** No length was truncated. */
  ghost predicate Exact(ts: seq<Tlv>)
  {
    forall i | 0 <= i < |ts| :: |ts[i].val| <= 0xffff
  }

  lemma {:induction false} ParseReadsOne(a: Announcement, t: Tlv, rest: bytes)
    requires |t.val| <= 0xffff
    ensures ParseBody(a, EncodeTlv(t) + rest) == ParseBody(Apply(a, t), rest)
  {
    var b := EncodeTlv(t) + rest;
    U16Truncates(|t.val|);
    assert b[1..3] == U16(|t.val|);
    assert b[3..3 + |t.val|] == t.val;
    assert b[3 + |t.val|..] == rest;
    hide U16, FromU16, Apply;
  }

  /** Parsing reads back whole fields, whatever follows them. */
  lemma {:induction false} ParseReadsAll(a: Announcement, ts: seq<Tlv>, rest: bytes)
    requires Exact(ts)
    ensures ParseBody(a, EncodeAll(ts) + rest) == ParseBody(ApplyAll(a, ts), rest)
    decreases |ts|
  {
    if ts == [] {
      assert EncodeAll(ts) + rest == rest;
    } else {
      Regroup([], EncodeTlv(ts[0]), EncodeAll(ts[1..]), rest);
      assert EncodeAll(ts) + rest == EncodeTlv(ts[0]) + (EncodeAll(ts[1..]) + rest);
      ParseReadsOne(a, ts[0], EncodeAll(ts[1..]) + rest);
      ParseReadsAll(Apply(a, ts[0]), ts[1..], rest);
    }
  }

  lemma {:induction false} FieldsFitTheirEncoding(ts: seq<Tlv>)
    ensures forall i | 0 <= i < |ts| :: |ts[i].val| + 3 <= |EncodeAll(ts)|
  {
    if ts != [] {
      FieldsFitTheirEncoding(ts[1..]);
    }
  }

  // ---------------------------------------------------------------------------------------------
  // Round trips
  // ---------------------------------------------------------------------------------------------

  function NormalAddress(ad: Address): Address
  {
    var ip := To4(ad.ip);
    Address(ad.mac, if ip.Some? then ip.value else [])
  }

  function NormalAddresses(ads: seq<Address>): seq<Address>
  {
    seq(|ads|, i requires 0 <= i < |ads| => NormalAddress(ads[i]))
  }

  /** What survives the wire: addresses in 4-byte form, and the version 2 fields only in version 2. */
  function Normal(a: Announcement): Announcement
  {
    var b := a.(addresses := NormalAddresses(a.addresses),
                netmask := if a.netmask.Some? then To4(a.netmask.value) else None);
    if a.version == V2 then b else b.(sequence := 0, sourceMac := None, model := [])
  }

  lemma {:induction false} ApplyNumber(a: Announcement, typ: byte, n: u32)
    ensures ApplyAll(a, Number(typ, n)) == if n == 0 then a else Apply(a, Tlv(typ, U32(n)))
    ensures FromU32(U32(n)) == n
  {
    U32Truncates(n);
  }

  lemma {:induction false} ApplyAddress(a: Announcement, ads: seq<Address>)
    requires ads != [] && GoodAddress(ads[0])
    ensures Addresses(ads) != [] && Addresses(ads)[1..] == Addresses(ads[1..])
    ensures Apply(a, Addresses(ads)[0]) == a.(addresses := a.addresses + [NormalAddress(ads[0])])
  {
    var t := Addresses(ads)[0];
    assert t.val[..6] == ads[0].mac && t.val[6..] == To4(ads[0].ip).value;
  }

  lemma {:induction false} ApplyAddresses(a: Announcement, ads: seq<Address>)
    requires forall i | 0 <= i < |ads| :: GoodAddress(ads[i])
    ensures ApplyAll(a, Addresses(ads)) == a.(addresses := a.addresses + NormalAddresses(ads))
    decreases |ads|
  {
    hide GoodAddress, Apply, ApplyAll, Addresses, NormalAddress, NormalAddresses;
    if ads == [] {
      NoAddresses(a);
    } else {
      var next := a.(addresses := a.addresses + [NormalAddress(ads[0])]);
      AddressFirst(a, ads);
      ApplyAddresses(next, ads[1..]);
      Associates(a.addresses, [NormalAddress(ads[0])], NormalAddresses(ads[1..]));
    }
  }

  lemma {:induction false} NoAddresses(a: Announcement)
    ensures ApplyAll(a, Addresses([])) == a.(addresses := a.addresses + NormalAddresses([]))
  {
    assert a.addresses + [] == a.addresses;
  }

  lemma {:induction false} AddressFirst(a: Announcement, ads: seq<Address>)
    requires ads != [] && GoodAddress(ads[0])
    ensures ApplyAll(a, Addresses(ads)) ==
            ApplyAll(a.(addresses := a.addresses + [NormalAddress(ads[0])]), Addresses(ads[1..]))
    ensures NormalAddresses(ads) == [NormalAddress(ads[0])] + NormalAddresses(ads[1..])
  {
    ApplyAddress(a, ads);
    hide GoodAddress, Apply, NormalAddress, Addresses;
  }

  lemma {:induction false} ApplySingle(x: Announcement, typ: byte, val: bytes)
    ensures ApplyAll(x, Bytes(typ, val)) == if val == [] then x else Apply(x, Tlv(typ, val))
    ensures ApplyAll(x, Slice(typ, Some(val))) == Apply(x, Tlv(typ, val))
    ensures ApplyAll(x, Slice(typ, None)) == x
  {
  }

  lemma {:induction false} ApplyLeadingFields(a: Announcement)
    requires WellFormed(a)
    ensures ApplyAll(Blank(a.version, a.command), LeadingFields(a))
            == Blank(a.version, a.command).(mac := a.mac, addresses := NormalAddresses(a.addresses),
                                            firmware := a.firmware, uptime := a.uptime)
  {
    var x := Blank(a.version, a.command);
    var mac, ads, fw, up := Slice(TLV_MAC, a.mac), Addresses(a.addresses), Bytes(TLV_FIRMWARE, a.firmware),
                            Number(TLV_UPTIME, a.uptime);
    ApplyAllAppend(x, mac + ads + fw, up);
    ApplyAllAppend(x, mac + ads, fw);
    ApplyAllAppend(x, mac, ads);
    if a.mac.Some? {
      ApplySingle(x, TLV_MAC, a.mac.value);
    }
    var x1 := x.(mac := a.mac);
    assert ApplyAll(x, mac) == x1;
    ApplyAddresses(x1, a.addresses);
    var x2 := x1.(addresses := NormalAddresses(a.addresses));
    assert [] + NormalAddresses(a.addresses) == NormalAddresses(a.addresses);
    ApplySingle(x2, TLV_FIRMWARE, a.firmware);
    ApplyNumber(x2.(firmware := a.firmware), TLV_UPTIME, a.uptime);
  }

  lemma {:induction false} ApplyCommonFields(a: Announcement)
    requires WellFormed(a)
    ensures ApplyAll(Blank(a.version, a.command), CommonFields(a))
            == Announcement(a.version, a.command, a.mac, NormalAddresses(a.addresses), a.firmware, a.uptime,
                            a.hostname, a.platform, a.essid, a.wmode, 0, None, [], None)
  {
    var x := Blank(a.version, a.command);
    var lead := LeadingFields(a);
    var host, plat, essid, wmode := Bytes(TLV_HOSTNAME, a.hostname), Bytes(TLV_PLATFORM, a.platform),
                                    Bytes(TLV_ESSID, a.essid), Number(TLV_WMODE, a.wmode);
    hide LeadingFields, Bytes, Number, ApplyAll, NormalAddresses, WellFormed;
    ApplyAllAppend(x, lead + host + plat + essid, wmode);
    ApplyAllAppend(x, lead + host + plat, essid);
    ApplyAllAppend(x, lead + host, plat);
    ApplyAllAppend(x, lead, host);
    ApplyLeadingFields(a);
    var x4 := ApplyAll(x, lead);
    ApplySingle(x4, TLV_HOSTNAME, a.hostname);
    var x5 := x4.(hostname := a.hostname);
    ApplySingle(x5, TLV_PLATFORM, a.platform);
    var x6 := x5.(platform := a.platform);
    ApplySingle(x6, TLV_ESSID, a.essid);
    ApplyNumber(x6.(essid := a.essid), TLV_WMODE, a.wmode);
  }

  lemma {:induction false} ApplyV2Fields(x: Announcement, a: Announcement)
    requires a.sourceMac.Some? ==> |a.sourceMac.value| == 6
    requires x.sequence == 0 && x.sourceMac == None && x.model == []
    ensures ApplyAll(x, V2Fields(a)) == x.(sequence := a.sequence, sourceMac := a.sourceMac, model := a.model)
  {
    var seq_, src, model := Number(TLV_SEQ, a.sequence), Slice(TLV_SRC_MAC, a.sourceMac), Bytes(TLV_MODEL, a.model);
    ApplyAllAppend(x, seq_ + src, model);
    ApplyAllAppend(x, seq_, src);
    ApplyNumber(x, TLV_SEQ, a.sequence);
    var y := x.(sequence := a.sequence);
    if a.sourceMac.Some? {
      ApplySingle(y, TLV_SRC_MAC, a.sourceMac.value);
    }
    ApplySingle(y.(sourceMac := a.sourceMac), TLV_MODEL, a.model);
  }

  /** Applying an announcement's own fields to a blank one rebuilds what survives the wire. */
  lemma {:induction false} ApplyFields(a: Announcement)
    requires WellFormed(a)
    ensures ApplyAll(Blank(a.version, a.command), Fields(a)) == Normal(a)
  {
    var x := Blank(a.version, a.command);
    var v2 := if a.version == V2 then V2Fields(a) else [];
    var netmask := if a.netmask.Some? then To4(a.netmask.value) else None;
    ApplyAllAppend(x, CommonFields(a) + v2, Slice(TLV_NETMASK, netmask));
    ApplyAllAppend(x, CommonFields(a), v2);
    ApplyCommonFields(a);
    var y := ApplyAll(x, CommonFields(a));
    if a.version == V2 {
      ApplyV2Fields(y, a);
    }
    if netmask.Some? {
      ApplySingle(ApplyAll(y, v2), TLV_NETMASK, netmask.value);
    }
  }

  lemma {:induction false} ParseOfPacket(version: byte, command: byte, body: bytes, trailing: bytes)
    requires |body| <= 0xffff
    ensures ParsePacket(Packet(version, command, body) + trailing) == ParseBody(Blank(version, command), body)
  {
    var pkt := Packet(version, command, body) + trailing;
    U16Truncates(|body|);
    assert pkt[2..4] == U16(|body|);
    assert pkt[4..4 + |body|] == body;
  }

  /** Whenever Marshal succeeds, no length was truncated, and parsing its output, with anything
      appended, gives back the announcement in wire form. */
  lemma {:induction false} ParseInvertsMarshal(a: Announcement, trailing: bytes)
    requires WellFormed(a) && |EncodeAll(Fields(a))| <= 0xffff
    ensures Exact(Fields(a))
    ensures ParsePacket(Packet(a.version, a.command, EncodeAll(Fields(a))) + trailing) == Ok(Normal(a))
  {
    FieldsFitTheirEncoding(Fields(a));
    ParseOfPacket(a.version, a.command, EncodeAll(Fields(a)), trailing);
    ParseReadsAll(Blank(a.version, a.command), Fields(a), []);
    assert EncodeAll(Fields(a)) + [] == EncodeAll(Fields(a));
    ApplyFields(a);
  }

  // ---------------------------------------------------------------------------------------------
  // Re-marshalling what was parsed
  // ---------------------------------------------------------------------------------------------

  function SliceSize(val: Option<bytes>): nat { if val.Some? then 3 + |val.value| else 0 }
  function BytesSize(val: bytes): nat { if val == [] then 0 else 3 + |val| }
  function NumberSize(n: u32): nat { if n == 0 then 0 else 7 }

  /** An upper bound on an announcement's encoding, counting the version 2 fields in any version. */
  function Size(a: Announcement): nat
  {
    SliceSize(a.mac) + 13 * |a.addresses| + BytesSize(a.firmware) + NumberSize(a.uptime) + BytesSize(a.hostname)
    + BytesSize(a.platform) + BytesSize(a.essid) + NumberSize(a.wmode) + NumberSize(a.sequence)
    + SliceSize(a.sourceMac) + BytesSize(a.model) + SliceSize(a.netmask)
  }

  /** The shape of everything Parse builds. */
  ghost predicate Parsed(a: Announcement)
  {
    && (a.mac.Some? ==> |a.mac.value| == 6)
    && (forall i | 0 <= i < |a.addresses| :: |a.addresses[i].mac| == 6 && |a.addresses[i].ip| == 4)
    && (a.sourceMac.Some? ==> |a.sourceMac.value| == 6)
    && (a.netmask.Some? ==> |a.netmask.value| == 4)
  }

  lemma {:induction false} ApplyKeepsShape(a: Announcement, t: Tlv)
    requires Parsed(a)
    ensures Parsed(Apply(a, t))
    ensures Apply(a, t).version == a.version && Apply(a, t).command == a.command
  {
  }

  lemma {:induction false} StringsGrowByLess(a: Announcement, t: Tlv)
    requires t.typ in {TLV_FIRMWARE, TLV_HOSTNAME, TLV_PLATFORM, TLV_ESSID, TLV_MODEL}
    ensures Size(Apply(a, t)) <= Size(a) + 3 + |t.val|
  {
  }

  lemma {:induction false} SlicesGrowByLess(a: Announcement, t: Tlv)
    requires t.typ in {TLV_MAC, TLV_SRC_MAC, TLV_NETMASK}
    ensures Size(Apply(a, t)) <= Size(a) + 3 + |t.val|
  {
  }

  lemma {:induction false} NumbersGrowByLess(a: Announcement, t: Tlv)
    requires t.typ in {TLV_UPTIME, TLV_WMODE, TLV_SEQ}
    ensures Size(Apply(a, t)) <= Size(a) + 3 + |t.val|
  {
  }

  /** A field never adds more to the announcement than it took on the wire. */
  lemma {:induction false} ApplyGrowsByLess(a: Announcement, t: Tlv)
    ensures Size(Apply(a, t)) <= Size(a) + 3 + |t.val|
  {
    if t.typ in {TLV_FIRMWARE, TLV_HOSTNAME, TLV_PLATFORM, TLV_ESSID, TLV_MODEL} {
      StringsGrowByLess(a, t);
    } else if t.typ in {TLV_MAC, TLV_SRC_MAC, TLV_NETMASK} {
      SlicesGrowByLess(a, t);
    } else if t.typ in {TLV_UPTIME, TLV_WMODE, TLV_SEQ} {
      NumbersGrowByLess(a, t);
    }
  }

  lemma {:induction false} ParseGrowsByLess(a: Announcement, b: bytes)
    requires Parsed(a)
    ensures var r := ParseBody(a, b);
            r.Ok? ==> Parsed(r.value) && Size(r.value) <= Size(a) + |b|
                      && r.value.version == a.version && r.value.command == a.command
    decreases |b|
  {
    if |b| >= 3 {
      var n := FromU16(b[1..3]);
      if 3 + n <= |b| {
        var t := Tlv(b[0], b[3..3 + n]);
        ApplyKeepsShape(a, t);
        ApplyGrowsByLess(a, t);
        ParseGrowsByLess(Apply(a, t), b[3 + n..]);
      }
    }
  }

  lemma {:induction false} SizeOfAddresses(ads: seq<Address>)
    requires forall i | 0 <= i < |ads| :: |ads[i].mac| == 6 && |ads[i].ip| == 4
    ensures |EncodeAll(Addresses(ads))| == 13 * |ads|
  {
    if ads != [] {
      SizeOfAddresses(ads[1..]);
      assert Addresses(ads)[1..] == Addresses(ads[1..]);
    }
  }

  lemma {:induction false} SizeOfFields(a: Announcement)
    requires Parsed(a)
    ensures |EncodeAll(Fields(a))| <= Size(a)
  {
    var v2 := if a.version == V2 then V2Fields(a) else [];
    var netmask := Slice(TLV_NETMASK, a.netmask);
    EncodeAllAppend(CommonFields(a) + v2, netmask);
    EncodeAllAppend(CommonFields(a), v2);
    var seq_, src, model := Number(TLV_SEQ, a.sequence), Slice(TLV_SRC_MAC, a.sourceMac), Bytes(TLV_MODEL, a.model);
    EncodeAllAppend(seq_ + src, model);
    EncodeAllAppend(seq_, src);
    SizeOfCommonFields(a);
    SizeOfOne(TLV_SEQ, [], None, a.sequence);
    SizeOfOne(TLV_SRC_MAC, [], a.sourceMac, 0);
    SizeOfOne(TLV_MODEL, a.model, None, 0);
    SizeOfOne(TLV_NETMASK, [], a.netmask, 0);
  }

  lemma {:induction false} SizeOfOne(typ: byte, val: bytes, slice: Option<bytes>, n: u32)
    ensures |EncodeAll(Bytes(typ, val))| == BytesSize(val)
    ensures |EncodeAll(Slice(typ, slice))| == SliceSize(slice)
    ensures |EncodeAll(Number(typ, n))| == NumberSize(n)
  {
  }

  lemma {:induction false} SizeOfCommonFields(a: Announcement)
    requires Parsed(a)
    ensures |EncodeAll(CommonFields(a))|
            == SliceSize(a.mac) + 13 * |a.addresses| + BytesSize(a.firmware) + NumberSize(a.uptime)
               + BytesSize(a.hostname) + BytesSize(a.platform) + BytesSize(a.essid) + NumberSize(a.wmode)
  {
    var mac, ads, fw, up := Slice(TLV_MAC, a.mac), Addresses(a.addresses), Bytes(TLV_FIRMWARE, a.firmware),
                            Number(TLV_UPTIME, a.uptime);
    var host, plat, essid, wmode := Bytes(TLV_HOSTNAME, a.hostname), Bytes(TLV_PLATFORM, a.platform),
                                    Bytes(TLV_ESSID, a.essid), Number(TLV_WMODE, a.wmode);
    var lead := LeadingFields(a);
    EncodeAllAppend(lead + host + plat + essid, wmode);
    EncodeAllAppend(lead + host + plat, essid);
    EncodeAllAppend(lead + host, plat);
    EncodeAllAppend(lead, host);
    EncodeAllAppend(mac + ads + fw, up);
    EncodeAllAppend(mac + ads, fw);
    EncodeAllAppend(mac, ads);
    SizeOfAddresses(a.addresses);
    SizeOfOne(TLV_FIRMWARE, a.firmware, a.mac, a.uptime);
    SizeOfOne(TLV_MAC, [], a.mac, 0);
    SizeOfOne(TLV_UPTIME, [], None, a.uptime);
    SizeOfOne(TLV_HOSTNAME, a.hostname, None, 0);
    SizeOfOne(TLV_PLATFORM, a.platform, None, 0);
    SizeOfOne(TLV_ESSID, a.essid, None, 0);
    SizeOfOne(TLV_WMODE, [], None, a.wmode);
  }

  predicate HasV2Fields(a: Announcement)
  {
    a.sequence != 0 || a.sourceMac.Some? || a.model != []
  }

  /** Whatever parses with a version can be marshalled again without becoming too long, and the
      packet so made parses to the same announcement exactly when it is version 2 or carries none
      of the fields only version 2 writes. */
  lemma {:induction false} ReparseAfterRemarshal(pkt: bytes)
    requires ParsePacket(pkt).Ok? && ParsePacket(pkt).value.version != 0
    ensures var a := ParsePacket(pkt).value;
            && WellFormed(a) && |EncodeAll(Fields(a))| <= 0xffff
            && (a.version == V2 || !HasV2Fields(a) <==>
                ParsePacket(Packet(a.version, a.command, EncodeAll(Fields(a)))) == Ok(a))
  {
    var bodyLen := FromU16(pkt[2..4]);
    ParseGrowsByLess(Blank(pkt[0], pkt[1]), pkt[4..4 + bodyLen]);
    var a := ParsePacket(pkt).value;
    SizeOfFields(a);
    ParseInvertsMarshal(a, []);
    var again := Packet(a.version, a.command, EncodeAll(Fields(a)));
    assert again + [] == again;
    assert NormalAddresses(a.addresses) == a.addresses;
  }

  // ---------------------------------------------------------------------------------------------
  // Fields the parser skips
  // ---------------------------------------------------------------------------------------------

  const KNOWN: set<byte> := {TLV_MAC, TLV_MAC_IP, TLV_FIRMWARE, TLV_UPTIME, TLV_HOSTNAME, TLV_PLATFORM, TLV_ESSID,
                             TLV_WMODE, TLV_SEQ, TLV_SRC_MAC, TLV_MODEL, TLV_NETMASK}

  /** The size a fixed-size type demands, 0 for the string types. */
  function FixedSize(typ: byte): nat
  {
    if typ in {TLV_MAC, TLV_SRC_MAC} then 6
    else if typ == TLV_MAC_IP then 10
    else if typ in {TLV_UPTIME, TLV_WMODE, TLV_SEQ, TLV_NETMASK} then 4
    else 0
  }

  predicate Skipped(t: Tlv)
  {
    t.typ !in KNOWN || (FixedSize(t.typ) != 0 && |t.val| != FixedSize(t.typ))
  }

  lemma {:induction false} SkippedChangesNothing(a: Announcement, t: Tlv)
    requires Skipped(t)
    ensures Apply(a, t) == a
  {
  }

  /** Exactly the unknown types and the wrong-size fixed-size fields change no announcement at all. */
  lemma {:induction false} SkippedIff(t: Tlv)
    requires |t.val| <= 0xffff
    ensures Skipped(t) <==> forall a :: Apply(a, t) == a
  {
    if !Skipped(t) {
      var filler: bytes := if t.val == [] then [0] else [];
      var number: u32 := if |t.val| == 4 && FromU32(t.val) == 0 then 1 else 0;
      var a := Announcement(1, 0, None, [], filler, number, filler, filler, filler, number, number, None, filler, None);
      assert Apply(a, t) != a;
    }
  }

  lemma {:induction false} SkippedInBody(a: Announcement, ts: seq<Tlv>, junk: Tlv, rest: bytes)
    requires Exact(ts) && |junk.val| <= 0xffff && Skipped(junk)
    ensures ParseBody(a, EncodeAll(ts) + (EncodeTlv(junk) + rest)) == ParseBody(a, EncodeAll(ts) + rest)
  {
    ParseReadsAll(a, ts, EncodeTlv(junk) + rest);
    ParseReadsOne(ApplyAll(a, ts), junk, rest);
    ParseReadsAll(a, ts, rest);
    SkippedChangesNothing(ApplyAll(a, ts), junk);
  }

  lemma {:induction false} ParseOfBarePacket(version: byte, command: byte, body: bytes)
    requires |body| <= 0xffff
    ensures ParsePacket(Packet(version, command, body)) == ParseBody(Blank(version, command), body)
  {
    ParseOfPacket(version, command, body, []);
    assert Packet(version, command, body) + [] == Packet(version, command, body);
  }

  /** Inserting a skipped field at any boundary, whatever follows, leaves the result of parsing
      unchanged, errors included. */
  lemma {:induction false} SkippedFieldsLeaveNoTrace(version: byte, command: byte, ts: seq<Tlv>, junk: Tlv, rest: bytes)
    requires Exact(ts) && |junk.val| <= 0xffff && Skipped(junk)
    requires |EncodeAll(ts) + EncodeTlv(junk) + rest| <= 0xffff
    ensures ParsePacket(Packet(version, command, EncodeAll(ts) + EncodeTlv(junk) + rest))
            == ParsePacket(Packet(version, command, EncodeAll(ts) + rest))
  {
    ParseOfBarePacket(version, command, EncodeAll(ts) + EncodeTlv(junk) + rest);
    ParseOfBarePacket(version, command, EncodeAll(ts) + rest);
    Associates(EncodeAll(ts), EncodeTlv(junk), rest);
    SkippedInBody(Blank(version, command), ts, junk, rest);
  }

  // ---------------------------------------------------------------------------------------------
  // On the wire
  // ---------------------------------------------------------------------------------------------

  function BigEndian(b: bytes): nat
  {
    if b == [] then 0 else BigEndian(b[..|b| - 1]) * 0x100 + b[|b| - 1]
  }

  lemma {:induction false} NumberIsBigEndian(n: u32)
    ensures BigEndian(U32(n)) == n
  {
    var b := U32(n);
    assert b[..3][..2] == b[..2] && b[..2][..1] == b[..1] && b[..1][..0] == [];
    assert BigEndian(b[..1]) == b[0];
    assert BigEndian(b[..2]) == b[0] as int * 0x100 + b[1] as int;
    assert BigEndian(b[..3]) == (b[0] as int * 0x100 + b[1] as int) * 0x100 + b[2] as int;
    DigitsOf(n);
  }

  lemma {:induction false} DigitsOf(n: u32)
    ensures var b := U32(n);
            ((b[0] as int * 0x100 + b[1] as int) * 0x100 + b[2] as int) * 0x100 + b[3] as int == n
  {
    U32Truncates(n);
    var b := U32(n);
    hide U32;
    assert b[..2][0] == b[0] && b[..2][1] == b[1] && b[2..][0] == b[2] && b[2..][1] == b[3];
  }

  /** A packet starts with version, command and the big-endian length of its body; a field with its
      type and the big-endian length of its value. */
  lemma {:induction false} WireLayout(version: byte, command: byte, body: bytes, t: Tlv)
    requires |body| <= 0xffff && |t.val| <= 0xffff
    ensures var pkt := Packet(version, command, body);
            && pkt[..2] == [version, command] && pkt[2] as int * 0x100 + pkt[3] as int == |body| && pkt[4..] == body
    ensures var f := EncodeTlv(t);
            f[0] == t.typ && f[1] as int * 0x100 + f[2] as int == |t.val| && f[3..] == t.val
  {
    U16Truncates(|body|);
    U16Truncates(|t.val|);
  }

  /** What each field type stands for, when it is not empty. */
  ghost predicate Means(a: Announcement, t: Tlv)
  {
    || (t.typ == 0x01 && a.mac == Some(t.val))
    || (t.typ == 0x02 && exists i | 0 <= i < |a.addresses| :: IsAddress(a.addresses[i], t.val))
    || (t.typ == 0x03 && t.val == a.firmware != [])
    || (t.typ == 0x0a && a.uptime != 0 && t.val == U32(a.uptime))
    || (t.typ == 0x0b && t.val == a.hostname != [])
    || (t.typ == 0x0c && t.val == a.platform != [])
    || (t.typ == 0x0d && t.val == a.essid != [])
    || (t.typ == 0x0e && a.wmode != 0 && t.val == U32(a.wmode))
    || (t.typ == 0x12 && a.version == 2 && a.sequence != 0 && t.val == U32(a.sequence))
    || (t.typ == 0x13 && a.version == 2 && a.sourceMac == Some(t.val))
    || (t.typ == 0x15 && a.version == 2 && t.val == a.model != [])
    || (t.typ == 0x35 && a.netmask.Some? && To4(a.netmask.value) == Some(t.val))
  }

  predicate IsAddress(ad: Address, val: bytes)
  {
    val == ad.mac + (if To4(ad.ip).Some? then To4(ad.ip).value else [])
  }

  lemma {:induction false} AddressFields(ads: seq<Address>, t: Tlv)
    ensures t in Addresses(ads) <==> t.typ == 0x02 && exists i | 0 <= i < |ads| :: IsAddress(ads[i], t.val)
  {
    if ads != [] {
      AddressFields(ads[1..], t);
      assert forall i | 0 < i < |ads| :: ads[i] == ads[1..][i - 1];
      if i :| 0 <= i < |ads| && IsAddress(ads[i], t.val) {
        assert i > 0 ==> IsAddress(ads[1..][i - 1], t.val);
      }
    }
  }

  /** The fields written are exactly those that mean something, by their numbers on the wire. */
  lemma {:induction false} FieldsAre(a: Announcement, t: Tlv)
    ensures t in Fields(a) <==> Means(a, t)
  {
    hide To4, Addresses, IsAddress, U32, Bytes, Number, Slice;
    var netmask := if a.netmask.Some? then To4(a.netmask.value) else None;
    AddressFields(a.addresses, t);
    SlicesAre(TLV_MAC, a.mac, t);
    BytesAre(TLV_FIRMWARE, a.firmware, t);
    NumbersAre(TLV_UPTIME, a.uptime, t);
    BytesAre(TLV_HOSTNAME, a.hostname, t);
    BytesAre(TLV_PLATFORM, a.platform, t);
    BytesAre(TLV_ESSID, a.essid, t);
    NumbersAre(TLV_WMODE, a.wmode, t);
    NumbersAre(TLV_SEQ, a.sequence, t);
    SlicesAre(TLV_SRC_MAC, a.sourceMac, t);
    BytesAre(TLV_MODEL, a.model, t);
    SlicesAre(TLV_NETMASK, netmask, t);
    assert t in V2Fields(a) <==>
           || t in Number(TLV_SEQ, a.sequence) || t in Slice(TLV_SRC_MAC, a.sourceMac)
           || t in Bytes(TLV_MODEL, a.model);
    assert t in LeadingFields(a) <==>
           || t in Slice(TLV_MAC, a.mac) || t in Addresses(a.addresses)
           || t in Bytes(TLV_FIRMWARE, a.firmware) || t in Number(TLV_UPTIME, a.uptime);
    hide LeadingFields, V2Fields;
  }

  lemma {:induction false} BytesAre(typ: byte, val: bytes, t: Tlv)
    ensures t in Bytes(typ, val) <==> t.typ == typ && t.val == val != []
  {
  }

  lemma {:induction false} NumbersAre(typ: byte, n: u32, t: Tlv)
    ensures t in Number(typ, n) <==> t.typ == typ && n != 0 && t.val == U32(n)
  {
  }

  lemma {:induction false} SlicesAre(typ: byte, val: Option<bytes>, t: Tlv)
    ensures t in Slice(typ, val) <==> t.typ == typ && val == Some(t.val)
  {
  }

  predicate Ascending(ts: seq<Tlv>, first: int, last: int)
  {
    && (forall i | 0 <= i < |ts| :: first <= ts[i].typ <= last)
    && forall i, j | 0 <= i < j < |ts| :: ts[i].typ <= ts[j].typ
  }

  lemma {:induction false} AscendingAppend(x: seq<Tlv>, y: seq<Tlv>, a: int, b: int, c: int, d: int)
    requires Ascending(x, a, b) && Ascending(y, c, d) && a <= b <= c <= d
    ensures Ascending(x + y, a, d)
  {
  }

  /** And they are written in ascending order of their types. */
  lemma {:induction false} FieldsAscend(a: Announcement)
    ensures Ascending(Fields(a), 0x01, 0x35)
  {
    hide To4, U32, Ascending;
    var mac, ads := Slice(TLV_MAC, a.mac), Addresses(a.addresses);
    AddressesAscend(a.addresses);
    OneAscends(0x01, a.mac, a.firmware, a.uptime);
    OneAscends(0x03, a.mac, a.firmware, a.uptime);
    OneAscends(0x0a, a.mac, a.firmware, a.uptime);
    OneAscends(0x0b, a.mac, a.hostname, a.uptime);
    OneAscends(0x0c, a.mac, a.platform, a.uptime);
    OneAscends(0x0d, a.mac, a.essid, a.uptime);
    OneAscends(0x0e, a.mac, a.essid, a.wmode);
    OneAscends(0x12, a.mac, a.essid, a.sequence);
    OneAscends(0x13, a.sourceMac, a.essid, a.sequence);
    OneAscends(0x15, a.mac, a.model, a.sequence);
    OneAscends(0x35, if a.netmask.Some? then To4(a.netmask.value) else None, a.model, a.sequence);
    AscendingAppend(mac, ads, 0x01, 0x01, 0x02, 0x02);
    AscendingAppend(mac + ads, Bytes(TLV_FIRMWARE, a.firmware), 0x01, 0x02, 0x03, 0x03);
    AscendingAppend(mac + ads + Bytes(TLV_FIRMWARE, a.firmware), Number(TLV_UPTIME, a.uptime), 0x01, 0x03, 0x0a, 0x0a);
    var lead := LeadingFields(a);
    AscendingAppend(lead, Bytes(TLV_HOSTNAME, a.hostname), 0x01, 0x0a, 0x0b, 0x0b);
    AscendingAppend(lead + Bytes(TLV_HOSTNAME, a.hostname), Bytes(TLV_PLATFORM, a.platform), 0x01, 0x0b, 0x0c, 0x0c);
    AscendingAppend(lead + Bytes(TLV_HOSTNAME, a.hostname) + Bytes(TLV_PLATFORM, a.platform),
                    Bytes(TLV_ESSID, a.essid), 0x01, 0x0c, 0x0d, 0x0d);
    AscendingAppend(lead + Bytes(TLV_HOSTNAME, a.hostname) + Bytes(TLV_PLATFORM, a.platform)
                    + Bytes(TLV_ESSID, a.essid), Number(TLV_WMODE, a.wmode), 0x01, 0x0d, 0x0e, 0x0e);
    var source := Slice(TLV_SRC_MAC, a.sourceMac);
    AscendingAppend(Number(TLV_SEQ, a.sequence), source, 0x12, 0x12, 0x13, 0x13);
    AscendingAppend(Number(TLV_SEQ, a.sequence) + source, Bytes(TLV_MODEL, a.model), 0x12, 0x13, 0x15, 0x15);
    assert Ascending([], 0x12, 0x15) by { NothingAscends(0x12, 0x15); }
    var v2 := if a.version == V2 then V2Fields(a) else [];
    AscendingAppend(CommonFields(a), v2, 0x01, 0x0e, 0x12, 0x15);
    AscendingAppend(CommonFields(a) + v2, Slice(TLV_NETMASK, if a.netmask.Some? then To4(a.netmask.value) else None),
                    0x01, 0x15, 0x35, 0x35);
  }

  lemma {:induction false} NothingAscends(first: int, last: int)
    ensures Ascending([], first, last)
  {
  }

  lemma {:induction false} OneAscends(typ: byte, slice: Option<bytes>, val: bytes, n: u32)
    ensures Ascending(Slice(typ, slice), typ, typ) && Ascending(Bytes(typ, val), typ, typ)
    ensures Ascending(Number(typ, n), typ, typ)
  {
  }

  lemma {:induction false} AddressesAscend(ads: seq<Address>)
    ensures Ascending(Addresses(ads), 0x02, 0x02)
  {
    if ads != [] {
      AddressesAscend(ads[1..]);
    }
  }

  /** net.IP.To4: four bytes as they are, or behind the prefix of a mapped address. */
  lemma {:induction false} To4Iff(ip: bytes, v: bytes)
    ensures To4(ip) == Some(v) <==>
            |v| == 4 && (ip == v || ip == [0, 0, 0, 0, 0, 0, 0, 0, 0, 0] + [0xff, 0xff] + v)
  {
    if |ip| == 16 {
      assert ip == ip[..10] + [ip[10], ip[11]] + ip[12..];
    }
  }

  /** What stands behind the whole fields of a body and is not one: nothing, too little for a header,
      or a header that promises more than there is. */
  predicate Incomplete(rest: bytes)
  {
    |rest| < 3 || 3 + FromU16(rest[1..3]) > |rest|
  }

  /** Every body is whole fields and an incomplete rest; parsing applies the fields, and succeeds if and
      only if there is no rest. */
  lemma {:induction false} ParseSplits(a: Announcement, b: bytes) returns (ts: seq<Tlv>, rest: bytes)
    ensures b == EncodeAll(ts) + rest && Exact(ts) && Incomplete(rest)
    ensures ParseBody(a, b) ==
            if rest == [] then Ok(ApplyAll(a, ts)) else if |rest| < 3 then Err(TruncatedHeader) else Err(TlvOverrun)
    decreases |b|
  {
    if Incomplete(b) {
      ts, rest := [], b;
    } else {
      var n := FromU16(b[1..3]);
      var t := Tlv(b[0], b[3..3 + n]);
      ts, rest := ParseSplits(Apply(a, t), b[3 + n..]);
      FieldAgain(b);
      assert ([t] + ts)[1..] == ts;
      Associates(EncodeTlv(t), EncodeAll(ts), rest);
      ts := [t] + ts;
    }
  }

  lemma {:induction false} FieldAgain(b: bytes)
    requires !Incomplete(b)
    ensures var n := FromU16(b[1..3]);
            && n <= 0xffff && b == EncodeTlv(Tlv(b[0], b[3..3 + n])) + b[3 + n..]
  {
    var n := FromU16(b[1..3]);
    assert U16(n) == b[1..3];
  }

  /** What is wrong with a packet before its fields are looked at. */
  lemma {:induction false} ParsePacketIff(pkt: bytes)
    ensures ParsePacket(pkt) == Err(PacketTooShort) <==> |pkt| < 4
    ensures ParsePacket(pkt) == Err(BodyOverrun) <==> |pkt| >= 4 && 4 + pkt[2] as int * 0x100 + pkt[3] as int > |pkt|
  {
    if |pkt| >= 4 && 4 + FromU16(pkt[2..4]) <= |pkt| {
      var _, _ := ParseSplits(Blank(pkt[0], pkt[1]), pkt[4..4 + FromU16(pkt[2..4])]);
    }
  }
}
