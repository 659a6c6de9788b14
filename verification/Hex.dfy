/** Hexadecimal text and the 6-byte hardware addresses written in it. */
module Hex {
  import opened Prelude

  function Digit(n: nat): char
    requires n < 16
  {
    if n < 10 then ('0' as int + n) as char else ('a' as int + n - 10) as char
  }

  function UpperDigit(n: nat): char
    requires n < 16
  {
    if n < 10 then ('0' as int + n) as char else ('A' as int + n - 10) as char
  }

  /** -1 when c is not a hexadecimal digit. */
  function Value(c: char): int
  {
    if '0' <= c <= '9' then c as int - '0' as int
    else if 'a' <= c <= 'f' then c as int - 'a' as int + 10
    else if 'A' <= c <= 'F' then c as int - 'A' as int + 10
    else -1
  }

  function Pair(hi: char, lo: char): Option<byte>
  {
    if Value(hi) < 0 || Value(lo) < 0 then None else Some(Value(hi) * 16 + Value(lo))
  }

  lemma {:induction false} PairOfDigits(b: byte)
    ensures Pair(Digit(b / 16), Digit(b % 16)) == Some(b)
    ensures Pair(UpperDigit(b / 16), UpperDigit(b % 16)) == Some(b)
  {
  }

  /** hex.EncodeToString. */
  function Encode(b: bytes): (s: string)
    ensures |s| == 2 * |b|
  {
    if b == [] then "" else [Digit(b[0] / 16), Digit(b[0] % 16)] + Encode(b[1..])
  }

  /** hex.DecodeString: an odd length or a non-digit is an error. */
  function Decode(s: string): (r: Option<bytes>)
    ensures r.Some? ==> |s| == 2 * |r.value|
  {
    if s == "" then Some([])
    else if |s| == 1 then None
    else
      var head := Pair(s[0], s[1]);
      var tail := Decode(s[2..]);
      if head.None? || tail.None? then None else Some([head.value] + tail.value)
  }

  lemma {:induction false} DecodeInvertsEncode(b: bytes)
    ensures Decode(Encode(b)) == Some(b)
  {
    if b != [] {
      PairOfDigits(b[0]);
      DecodeInvertsEncode(b[1..]);
      var s := Encode(b);
      assert s[2..] == Encode(b[1..]);
      assert Pair(s[0], s[1]) == Some(b[0]);
      assert [b[0]] + b[1..] == b;
    }
  }

  /** net.HardwareAddr.String. */
  function MacString(hw: bytes): (s: string)
    ensures |hw| > 0 ==> |s| == 3 * |hw| - 1
  {
    if hw == [] then ""
    else
      var head := [Digit(hw[0] / 16), Digit(hw[0] % 16)];
      if |hw| == 1 then head else head + ":" + MacString(hw[1..])
  }

  lemma {:induction false} MacStringShape(hw: bytes, k: nat)
    requires k < |hw|
    ensures MacString(hw)[3 * k] == Encode(hw)[2 * k]
    ensures MacString(hw)[3 * k + 1] == Encode(hw)[2 * k + 1]
    ensures k + 1 < |hw| ==> MacString(hw)[3 * k + 2] == ':'
  {
    hide MacString, Encode;
    if k == 0 {
      FirstOctet(hw);
      assert MacString(hw)[..2][0] == MacString(hw)[0] && MacString(hw)[..2][1] == MacString(hw)[1];
    } else {
      MacStringShape(hw[1..], k - 1);
      SkipOctet(hw);
      SameBehind(MacString(hw), 3, MacString(hw[1..]), 3 * (k - 1));
      SameBehind(MacString(hw), 3, MacString(hw[1..]), 3 * (k - 1) + 1);
      SameBehind(Encode(hw), 2, Encode(hw[1..]), 2 * (k - 1));
      SameBehind(Encode(hw), 2, Encode(hw[1..]), 2 * (k - 1) + 1);
      if k + 1 < |hw| {
        SameBehind(MacString(hw), 3, MacString(hw[1..]), 3 * (k - 1) + 2);
      }
    }
  }

  lemma {:induction false} FirstOctet(hw: bytes)
    requires |hw| > 0
    ensures MacString(hw)[..2] == Encode(hw)[..2]
    ensures |hw| > 1 ==> MacString(hw)[2] == ':'
  {
  }

  lemma {:induction false} SameBehind(s: string, n: nat, tail: string, i: nat)
    requires n <= |s| && s[n..] == tail && i < |tail|
    ensures n + i < |s| && s[n + i] == tail[i]
  {
  }

  lemma {:induction false} SkipOctet(hw: bytes)
    requires |hw| > 1
    ensures MacString(hw)[3..] == MacString(hw[1..]) && Encode(hw)[2..] == Encode(hw[1..])
  {
  }

  /** The 6-byte spellings net.ParseMAC reads: two digits per group with ':' or '-', or four with '.'. */
  function ParseMac(s: string): (r: Option<bytes>)
    ensures r.Some? ==> |r.value| == 6
  {
    if |s| == 17 && s[2] in {':', '-'} then
      var sep := s[2];
      if s[5] == sep && s[8] == sep && s[11] == sep && s[14] == sep then
        Octets([s[0], s[1], s[3], s[4], s[6], s[7], s[9], s[10], s[12], s[13], s[15], s[16]])
      else None
    else if |s| == 14 && s[4] == '.' && s[2] !in {':', '-'} then
      if s[9] == '.' then
        Octets([s[0], s[1], s[2], s[3], s[5], s[6], s[7], s[8], s[10], s[11], s[12], s[13]])
      else None
    else None
  }

  function Octets(digits: string): (r: Option<bytes>)
    requires |digits| == 12
    ensures r.Some? ==> |r.value| == 6
  {
    Decode(digits)
  }

  lemma {:induction false} ParseInvertsMacString(hw: bytes)
    requires |hw| == 6
    ensures ParseMac(MacString(hw)) == Some(hw)
  {
    var s, h := MacString(hw), Encode(hw);
    forall k: nat | k < 6
      ensures s[3 * k] == h[2 * k] && s[3 * k + 1] == h[2 * k + 1] && (k < 5 ==> s[3 * k + 2] == ':')
    {
      MacStringShape(hw, k);
    }
    assert s[3 * 0] == h[2 * 0] && s[3 * 1] == h[2 * 1] && s[3 * 2] == h[2 * 2];
    assert s[3 * 3] == h[2 * 3] && s[3 * 4] == h[2 * 4] && s[3 * 5] == h[2 * 5];
    assert h == [s[0], s[1], s[3], s[4], s[6], s[7], s[9], s[10], s[12], s[13], s[15], s[16]];
    DecodeInvertsEncode(hw);
  }

  lemma {:induction false} RemoveColonsOfMac(hw: bytes)
    ensures RemoveColons(MacString(hw)) == Encode(hw)
  {
    if hw != [] {
      var hi, lo := Digit(hw[0] / 16), Digit(hw[0] % 16);
      var rest := if |hw| == 1 then "" else ":" + MacString(hw[1..]);
      assert MacString(hw) == [hi, lo] + rest;
      RemoveColonsSkipsDigits([hi, lo], rest);
      if |hw| > 1 {
        assert rest[1..] == MacString(hw[1..]);
      }
      RemoveColonsOfMac(hw[1..]);
    }
  }

  predicate LowerHex(c: char)
  {
    '0' <= c <= '9' || 'a' <= c <= 'f'
  }

  lemma {:induction false} EncodeIsLowerHex(b: bytes)
    ensures forall c | c in Encode(b) :: LowerHex(c)
  {
    if b != [] {
      EncodeIsLowerHex(b[1..]);
    }
  }

  /** strings.ReplaceAll(s, ":", ""). */
  function RemoveColons(s: string): string
  {
    if s == "" then ""
    else (if s[0] == ':' then "" else [s[0]]) + RemoveColons(s[1..])
  }

  lemma {:induction false} RemoveColonsSkipsDigits(a: string, rest: string)
    requires |a| == 2 && a[0] != ':' && a[1] != ':'
    ensures RemoveColons(a + rest) == a + RemoveColons(rest)
    ensures rest != "" && rest[0] == ':' ==> RemoveColons(rest) == RemoveColons(rest[1..])
  {
    assert (a + rest)[1..] == [a[1]] + rest;
    assert ([a[1]] + rest)[1..] == rest;
  }

  function Upper(s: string): (r: string)
    ensures |r| == |s|
    ensures forall i | 0 <= i < |s| :: r[i] == UpperChar(s[i])
  {
    if s == "" then "" else [UpperChar(s[0])] + Upper(s[1..])
  }

  function UpperChar(c: char): char
  {
    if 'a' <= c <= 'z' then (c as int - 32) as char else c
  }

  function LowerChar(c: char): char
  {
    if 'A' <= c <= 'Z' then (c as int + 32) as char else c
  }

  function Lower(s: string): (r: string)
    ensures |r| == |s| && forall i | 0 <= i < |s| :: r[i] == LowerChar(s[i])
  {
    if s == "" then "" else [LowerChar(s[0])] + Lower(s[1..])
  }

  lemma {:induction false} PairIff(hi: char, lo: char, b: byte)
    ensures Pair(hi, lo) == Some(b) <==> LowerChar(hi) == Digit(b / 16) && LowerChar(lo) == Digit(b % 16)
  {
  }

  /** Decoding accepts exactly the hexadecimal spellings of what it returns, in either case. */
  lemma {:induction false} DecodeIff(s: string, b: bytes)
    ensures Decode(s) == Some(b) <==> Lower(s) == Encode(b)
    decreases |s|
  {
    if s != "" && b != [] && |s| > 1 {
      PairIff(s[0], s[1], b[0]);
      DecodeIff(s[2..], b[1..]);
      hide Pair, LowerChar, Digit;
      LowerOfTwo(s);
      var head := [Digit(b[0] / 16), Digit(b[0] % 16)];
      assert Encode(b)[..2] == head && Encode(b)[2..] == Encode(b[1..]);
      assert [b[0]] + b[1..] == b;
      var tail := Decode(s[2..]);
      if Decode(s) == Some(b) {
        assert Decode(s).value[0] == b[0] && Decode(s).value[1..] == tail.value;
      }
    }
  }

  lemma {:induction false} LowerOfTwo(s: string)
    requires |s| > 1
    ensures Lower(s)[..2] == [LowerChar(s[0]), LowerChar(s[1])] && Lower(s)[2..] == Lower(s[2..])
    ensures Lower(s) == [LowerChar(s[0]), LowerChar(s[1])] + Lower(s[2..])
  {
  }

  /** Twelve digits two by two, or four by four. */
  function InPairs(h: string, sep: char): string
    requires |h| == 12
  {
    [h[0], h[1], sep, h[2], h[3], sep, h[4], h[5], sep, h[6], h[7], sep, h[8], h[9], sep, h[10], h[11]]
  }

  function InFours(h: string): string
    requires |h| == 12
  {
    [h[0], h[1], h[2], h[3], '.', h[4], h[5], h[6], h[7], '.', h[8], h[9], h[10], h[11]]
  }

  /** The spellings of a hardware address that are read: with colons, with dashes, or in three groups
      with dots; in either case. */
  lemma {:induction false} ParseMacIff(s: string, hw: bytes)
    requires |hw| == 6
    ensures ParseMac(s) == Some(hw) <==>
            Lower(s) in {InPairs(Encode(hw), ':'), InPairs(Encode(hw), '-'), InFours(Encode(hw))}
  {
    var h := Encode(hw);
    EncodeIsLowerHex(hw);
    hide Encode, Lower, ParseMac;
    if |s| == 17 {
      PairsIff(s, ':', hw);
      PairsIff(s, '-', hw);
      SeventeenLong(s, hw);
    } else if |s| == 14 {
      FoursIff(s, hw);
    } else {
      OtherLength(s);
    }
  }

  lemma {:induction false} OtherLength(s: string)
    requires |s| != 17 && |s| != 14
    ensures ParseMac(s) == None
  {
  }

  lemma {:induction false} SeventeenLong(s: string, hw: bytes)
    requires |s| == 17
    ensures ParseMac(s) == Some(hw) ==> s[2] in {':', '-'}
  {
  }

  lemma {:induction false} PairsIff(s: string, sep: char, hw: bytes)
    requires |s| == 17 && |hw| == 6 && sep in {':', '-'}
    ensures Lower(s) == InPairs(Encode(hw), sep) <==> s[2] == sep && ParseMac(s) == Some(hw)
  {
    hide Encode, Decode, Lower, InPairs;
    DecodeIff(PairDigits(s), hw);
    PairsSpelled(s, sep, Encode(hw));
  }

  function PairDigits(s: string): (r: string)
    requires |s| == 17
  {
    [s[0], s[1], s[3], s[4], s[6], s[7], s[9], s[10], s[12], s[13], s[15], s[16]]
  }

  lemma {:induction false} PairsSpelled(s: string, sep: char, h: string)
    requires |s| == 17 && |h| == 12 && sep in {':', '-'}
    ensures Lower(s) == InPairs(h, sep) <==>
            && Lower(PairDigits(s)) == h
            && s[2] == sep && s[5] == sep && s[8] == sep && s[11] == sep && s[14] == sep
  {
    hide Lower, LowerChar;
    TwelveDigits(PairDigits(s), h);
    LowersToSeparator(s[2], sep);
    LowersToSeparator(s[5], sep);
    LowersToSeparator(s[8], sep);
    LowersToSeparator(s[11], sep);
    LowersToSeparator(s[14], sep);
    LowerIs(s);
    SameSeventeen(Lower(s), InPairs(h, sep));
  }

  lemma {:induction false} LowerIs(s: string)
    ensures |Lower(s)| == |s| && forall i | 0 <= i < |s| :: Lower(s)[i] == LowerChar(s[i])
  {
  }

  lemma {:induction false} LowersToSeparator(c: char, sep: char)
    requires sep in {':', '-', '.'}
    ensures LowerChar(c) == sep <==> c == sep
  {
  }

  lemma {:induction false} SameSeventeen(x: string, y: string)
    requires |x| == |y| == 17
    ensures x == y <==>
            && x[0] == y[0] && x[1] == y[1] && x[2] == y[2] && x[3] == y[3] && x[4] == y[4] && x[5] == y[5]
            && x[6] == y[6] && x[7] == y[7] && x[8] == y[8] && x[9] == y[9] && x[10] == y[10] && x[11] == y[11]
            && x[12] == y[12] && x[13] == y[13] && x[14] == y[14] && x[15] == y[15] && x[16] == y[16]
  {
  }

  lemma {:induction false} FoursIff(s: string, hw: bytes)
    requires |s| == 14 && |hw| == 6
    ensures Lower(s) == InFours(Encode(hw)) <==> ParseMac(s) == Some(hw)
  {
    hide Decode, Lower, InFours;
    EncodeIsLowerHex(hw);
    assert Encode(hw)[2] in Encode(hw);
    hide Encode;
    DecodeIff(FourDigits(s), hw);
    FoursSpelled(s, Encode(hw));
    LowerHexIsNoSeparator(s[2], Encode(hw)[2]);
    assert Lower(FourDigits(s)) == Encode(hw) ==> Lower(FourDigits(s))[2] == Encode(hw)[2];
    LowerIs(FourDigits(s));
  }

  lemma {:induction false} LowerHexIsNoSeparator(c: char, h: char)
    requires LowerHex(h)
    ensures LowerChar(c) == h ==> c !in {':', '-'}
  {
  }

  function FourDigits(s: string): (r: string)
    requires |s| == 14
  {
    [s[0], s[1], s[2], s[3], s[5], s[6], s[7], s[8], s[10], s[11], s[12], s[13]]
  }

  lemma {:induction false} FoursSpelled(s: string, h: string)
    requires |s| == 14 && |h| == 12
    ensures Lower(s) == InFours(h) <==> Lower(FourDigits(s)) == h && s[4] == '.' && s[9] == '.'
  {
    hide Lower, LowerChar;
    TwelveDigits(FourDigits(s), h);
    LowersToSeparator(s[4], '.');
    LowersToSeparator(s[9], '.');
    LowerIs(s);
    SameFourteen(Lower(s), InFours(h));
  }

  lemma {:induction false} SameFourteen(x: string, y: string)
    requires |x| == |y| == 14
    ensures x == y <==>
            && x[0] == y[0] && x[1] == y[1] && x[2] == y[2] && x[3] == y[3] && x[4] == y[4] && x[5] == y[5]
            && x[6] == y[6] && x[7] == y[7] && x[8] == y[8] && x[9] == y[9] && x[10] == y[10] && x[11] == y[11]
            && x[12] == y[12] && x[13] == y[13]
  {
  }

  lemma {:induction false} TwelveDigits(digits: string, h: string)
    requires |digits| == |h| == 12
    ensures Lower(digits) == h <==>
            && LowerChar(digits[0]) == h[0] && LowerChar(digits[1]) == h[1] && LowerChar(digits[2]) == h[2]
            && LowerChar(digits[3]) == h[3] && LowerChar(digits[4]) == h[4] && LowerChar(digits[5]) == h[5]
            && LowerChar(digits[6]) == h[6] && LowerChar(digits[7]) == h[7] && LowerChar(digits[8]) == h[8]
            && LowerChar(digits[9]) == h[9] && LowerChar(digits[10]) == h[10] && LowerChar(digits[11]) == h[11]
  {
  }
}
