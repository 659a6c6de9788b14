/** internal/herder/identity.go:205-327: the serial and host name derived from a model and a MAC. */
module Naming {
  import opened Prelude
  import Hex

  const SERIAL_MAX := 32
  const NAME_MAX := 63
  /** nameMax less "emu-" and the "-" plus 12 digits that end every derived name. */
  const MODEL_BUDGET := NAME_MAX - 4 - 13

  predicate Alnum(c: char)
  {
    'a' <= c <= 'z' || '0' <= c <= '9'
  }

  predicate PrintableASCII(s: string)
  {
    forall c | c in s :: ' ' <= c <= '~'
  }

  predicate CheckModel(model: string)
  {
    model != "" && PrintableASCII(model)
  }

  predicate CheckSerial(serial: string)
  {
    |serial| <= SERIAL_MAX && PrintableASCII(serial)
  }

  /** One lowercase label in the sense of section 2.1 of RFC 1123. */
  predicate DnsLabel(s: string)
  {
    && s != ""
    && Alnum(s[0])
    && Alnum(s[|s| - 1])
    && forall c | c in s :: Alnum(c) || c == '-'
  }

  predicate CheckName(name: string)
  {
    |name| <= NAME_MAX && DnsLabel(name)
  }

  /** strings.Trim(s, "-"). */
  function TrimDashes(s: string): string
  {
    if s == "" then ""
    else if s[0] == '-' then TrimDashes(s[1..])
    else if s[|s| - 1] == '-' then TrimDashes(s[..|s| - 1])
    else s
  }

  /** What normalizeModel's builder holds once it has read all of s. */
  function Squash(s: string): string
  {
    if s == "" then ""
    else
      var b, c := Squash(s[..|s| - 1]), s[|s| - 1];
      if 'A' <= c <= 'Z' then b + [(c as int + 32) as char]
      else if Alnum(c) then b + [c]
      else if b == "" || b[|b| - 1] == '-' then b
      else b + "-"
  }

  function NormalizeModel(model: string): string
  {
    var out := TrimDashes(Squash(model));
    if out == "" then "device" else out
  }

  method NormalizeModelInPlace(model: string) returns (out: string)
    ensures out == NormalizeModel(model)
  {
    var b := "";
    var dash := false;
    for i := 0 to |model|
      invariant b == Squash(model[..i])
      invariant dash <==> b != "" && b[|b| - 1] == '-'
    {
      assert model[..i + 1][..i] == model[..i];
      var c := model[i];
      if 'A' <= c <= 'Z' {
        b := b + [(c as int + 32) as char];
        dash := false;
      } else if Alnum(c) {
        b := b + [c];
        dash := false;
      } else if !dash && |b| > 0 {
        b := b + "-";
        dash := true;
      }
    }
    assert model[..|model|] == model;
    out := TrimDashes(b);
    if out == "" {
      out := "device";
    }
  }

  function DerivedSerial(hex: string): string
  {
    "EMU" + Hex.Upper(hex)
  }

  function DerivedName(model: string, hex: string): string
  {
    var norm := NormalizeModel(model);
    var cut := if |norm| > MODEL_BUDGET then TrimDashes(norm[..MODEL_BUDGET]) else norm;
    "emu-" + (if cut == "" then "device" else cut) + "-" + hex
  }

  /** A label body without leading, trailing or doubled dashes. */
  predicate Slug(s: string)
  {
    && DnsLabel(s)
    && forall i | 0 < i < |s| :: s[i - 1] == '-' ==> s[i] != '-'
  }

  /** A slug that may still end in one dash: the builder's shape at every step. */
  predicate SlugPrefix(s: string)
  {
    && (s != "" ==> Alnum(s[0]))
    && (forall c | c in s :: Alnum(c) || c == '-')
    && forall i | 0 < i < |s| :: s[i - 1] == '-' ==> s[i] != '-'
  }

  lemma {:induction false} SquashShape(s: string)
    ensures SlugPrefix(Squash(s))
  {
    if s != "" {
      SquashShape(s[..|s| - 1]);
    }
  }

  lemma {:induction false} TrimKeepsHead(s: string)
    requires s != "" && s[0] != '-'
    ensures TrimDashes(s) != "" && TrimDashes(s) <= s
    ensures var t := TrimDashes(s); t[|t| - 1] != '-'
  {
    if s[|s| - 1] == '-' {
      TrimKeepsHead(s[..|s| - 1]);
    }
  }

  lemma {:induction false} TrimmedPrefixIsSlug(s: string)
    requires s != "" && SlugPrefix(s)
    ensures Slug(TrimDashes(s))
  {
    TrimKeepsHead(s);
    var t := TrimDashes(s);
    assert t == s[..|t|];
    assert forall i | 0 <= i < |t| :: t[i] == s[i];
    assert t[|t| - 1] in s;
  }

  /** normalizeModel always leaves a label body, whatever bytes the model holds. */
  lemma {:induction false} NormalizeModelIsSlug(model: string)
    ensures Slug(NormalizeModel(model))
  {
    SquashShape(model);
    var b := Squash(model);
    if b == "" {
      assert TrimDashes(b) == "";
    } else {
      TrimmedPrefixIsSlug(b);
    }
  }

  lemma {:induction false} SquashFixesSlugPrefixes(s: string)
    requires SlugPrefix(s)
    ensures Squash(s) == s
  {
    if s != "" {
      var t := s[..|s| - 1];
      assert forall i | 0 <= i < |t| :: t[i] == s[i];
      SquashFixesSlugPrefixes(t);
      assert s[|s| - 1] in s;
      assert s == t + [s[|s| - 1]];
    }
  }

  lemma {:induction false} NormalizeModelIsIdempotent(model: string)
    ensures NormalizeModel(NormalizeModel(model)) == NormalizeModel(model)
  {
    NormalizeModelIsSlug(model);
    SquashFixesSlugPrefixes(NormalizeModel(model));
  }

  /** derivedName's second fallback to "device" is dead code: truncation never empties a model. */
  lemma {:induction false} TruncationNeverEmpties(model: string)
    ensures |NormalizeModel(model)| > MODEL_BUDGET ==> TrimDashes(NormalizeModel(model)[..MODEL_BUDGET]) != ""
  {
    NormalizeModelIsSlug(model);
    var norm := NormalizeModel(model);
    if |norm| > MODEL_BUDGET {
      TrimKeepsHead(norm[..MODEL_BUDGET]);
    }
  }

  predicate MacHex(hex: string)
  {
    |hex| == 12 && forall c | c in hex :: Hex.LowerHex(c)
  }

  /** Every derived name is a label checkName accepts, ending in the whole MAC. */
  lemma {:induction false} DerivedNameIsLabel(model: string, hex: string)
    requires MacHex(hex)
    ensures CheckName(DerivedName(model, hex))
    ensures var n := DerivedName(model, hex); |n| > 12 && n[|n| - 12..] == hex
  {
    NormalizeModelIsSlug(model);
    TruncationNeverEmpties(model);
    var norm := NormalizeModel(model);
    var cut := if |norm| > MODEL_BUDGET then TrimDashes(norm[..MODEL_BUDGET]) else norm;
    if |norm| > MODEL_BUDGET {
      var p := norm[..MODEL_BUDGET];
      assert forall i | 0 <= i < |p| :: p[i] == norm[i];
      TrimmedPrefixIsSlug(p);
      TrimKeepsHead(p);
    }
    var n := DerivedName(model, hex);
    assert n == "emu-" + cut + "-" + hex;
    assert hex[11] in hex;
  }

  /** Two derived names agree only when the MACs agree, across all models. */
  lemma {:induction false} DerivedNameDeterminesMac(m1: string, h1: string, m2: string, h2: string)
    requires MacHex(h1) && MacHex(h2)
    requires DerivedName(m1, h1) == DerivedName(m2, h2)
    ensures h1 == h2
  {
    DerivedNameIsLabel(m1, h1);
    DerivedNameIsLabel(m2, h2);
  }

  lemma {:induction false} DerivedSerialDeterminesMac(h1: string, h2: string)
    requires MacHex(h1) && MacHex(h2)
    requires DerivedSerial(h1) == DerivedSerial(h2)
    ensures h1 == h2
  {
    forall i | 0 <= i < 12
      ensures h1[i] == h2[i]
    {
      assert DerivedSerial(h1)[i + 3] == DerivedSerial(h2)[i + 3];
      assert h1[i] in h1 && h2[i] in h2;
    }
  }

  lemma {:induction false} DerivedSerialIsAccepted(hex: string)
    requires MacHex(hex)
    ensures CheckSerial(DerivedSerial(hex)) && DerivedSerial(hex) != ""
  {
    var s := DerivedSerial(hex);
    forall i | 0 <= i < |s|
      ensures ' ' <= s[i] <= '~'
    {
      if i >= 3 {
        assert hex[i - 3] in hex;
      }
    }
  }

  // ---------------------------------------------------------------------------------------------
  // What a derived name says of the model
  // ---------------------------------------------------------------------------------------------

  predicate Letter(c: char)
  {
    Alnum(c) || 'A' <= c <= 'Z'
  }

  function LowerCase(c: char): char
  {
    if 'A' <= c <= 'Z' then (c as int + 32) as char else c
  }

  /** The runs of letters and digits of a model, in lower case. */
  function Words(s: string): seq<string>
  {
    if s == "" then []
    else
      var init, c := s[..|s| - 1], s[|s| - 1];
      var ws := Words(init);
      if !Letter(c) then ws
      else if ws == [] || !Letter(init[|init| - 1]) then ws + [[LowerCase(c)]]
      else ws[..|ws| - 1] + [ws[|ws| - 1] + [LowerCase(c)]]
  }

  function Dashed(ws: seq<string>): string
  {
    if ws == [] then ""
    else if |ws| == 1 then ws[0]
    else Dashed(ws[..|ws| - 1]) + "-" + ws[|ws| - 1]
  }

  predicate Word(w: string)
  {
    w != "" && forall c | c in w :: Alnum(c)
  }

  predicate AllWords(ws: seq<string>)
  {
    forall i | 0 <= i < |ws| :: Word(ws[i])
  }

  lemma {:induction false} WordsAreWords(s: string)
    ensures AllWords(Words(s))
    ensures s != "" && Letter(s[|s| - 1]) ==> Words(s) != []
  {
    if s != "" {
      var ws, c := Words(s[..|s| - 1]), s[|s| - 1];
      WordsAreWords(s[..|s| - 1]);
      hide Word;
      if Letter(c) {
        WordGrows("", c);
        if ws != [] {
          WordGrows(ws[|ws| - 1], c);
        }
      }
    }
  }

  lemma {:induction false} WordGrows(w: string, c: char)
    requires Letter(c) && (w != "" ==> Word(w))
    ensures Word(w + [LowerCase(c)]) && w + [LowerCase(c)] != ""
    ensures w == "" ==> Word([LowerCase(c)])
  {
  }

  lemma {:induction false} DashedGrows(ws: seq<string>, w: string, c: char)
    ensures ws != [] ==> Dashed(ws + [w]) == Dashed(ws) + "-" + w
    ensures Dashed(ws + [w + [c]]) == Dashed(ws + [w]) + [c]
  {
    assert (ws + [w])[..|ws|] == ws && (ws + [w + [c]])[..|ws|] == ws;
  }

  lemma {:induction false} DashedEnds(ws: seq<string>)
    requires ws != [] && AllWords(ws)
    ensures Dashed(ws) != "" && Alnum(Dashed(ws)[0]) && Alnum(Dashed(ws)[|Dashed(ws)| - 1])
  {
    var last := ws[|ws| - 1];
    assert Word(last) && last[0] in last && last[|last| - 1] in last;
    if |ws| > 1 {
      DashedEnds(ws[..|ws| - 1]);
    }
  }

  /** The builder has seen all words, and a separator after the last one. */
  function Built(ws: seq<string>, open: bool): string
  {
    if ws == [] || open then Dashed(ws) else Dashed(ws) + "-"
  }

  predicate EndsInLetter(s: string)
  {
    s != "" && Letter(s[|s| - 1])
  }

  lemma {:induction false} SquashStep(s: string)
    requires s != ""
    ensures var b, c := Squash(s[..|s| - 1]), s[|s| - 1];
            Squash(s) == if Letter(c) then b + [LowerCase(c)]
                         else if b == "" || b[|b| - 1] == '-' then b else b + "-"
  {
  }

  lemma {:induction false} SquashDashesWords(s: string)
    ensures Squash(s) == Built(Words(s), EndsInLetter(s))
  {
    if s != "" {
      var init, c := s[..|s| - 1], s[|s| - 1];
      var ws := Words(init);
      SquashStep(s);
      SquashDashesWords(init);
      WordsAreWords(init);
      hide Squash, AllWords, Letter, LowerCase, Dashed;
      if ws == [] {
        NoDashes([LowerCase(c)]);
      } else {
        BuiltEnds(ws, EndsInLetter(init));
        LastWordGrows(ws, LowerCase(c));
        DashedGrows(ws, [LowerCase(c)], c);
      }
    }
  }

  lemma {:induction false} NoDashes(w: string)
    ensures Dashed([]) == "" && Dashed([w]) == w && [] + [w] == [w]
  {
  }

  lemma {:induction false} BuiltEnds(ws: seq<string>, open: bool)
    requires ws != [] && AllWords(ws)
    ensures var b := Built(ws, open); b != "" && (b[|b| - 1] == '-' <==> !open)
  {
    DashedEnds(ws);
  }

  lemma {:induction false} LastWordGrows(ws: seq<string>, c: char)
    requires ws != []
    ensures Dashed(ws[..|ws| - 1] + [ws[|ws| - 1] + [c]]) == Dashed(ws) + [c]
  {
    var front, last := ws[..|ws| - 1], ws[|ws| - 1];
    assert ws == front + [last];
    DashedGrows(front, last, c);
  }

  /** The normal form is the model's words in lower case with single dashes between them, and "device"
      if it has none. */
  lemma {:induction false} NormalizeModelDashesWords(model: string)
    ensures NormalizeModel(model) == if Words(model) == [] then "device" else Dashed(Words(model))
  {
    SquashDashesWords(model);
    WordsAreWords(model);
    if Words(model) != [] {
      var d := Dashed(Words(model));
      DashedEnds(Words(model));
      assert TrimDashes(d) == d;
      assert (d + "-")[..|d|] == d && TrimDashes(d + "-") == d;
    }
  }

  /** A derived name keeps as much of the normal form as leaves room for the MAC, and cuts no further
      than to the end of a word. */
  lemma {:induction false} DerivedNameKeepsTheModel(model: string, hex: string)
    requires |hex| == 12
    ensures var norm := NormalizeModel(model);
            exists kept ::
              && kept <= norm && DerivedName(model, hex) == "emu-" + kept + "-" + hex
              && (|norm| <= 46 ==> kept == norm)
              && (|norm| > 46 ==> 45 <= |kept| <= 46 && (|kept| == 45 ==> norm[45] == '-'))
  {
    var norm := NormalizeModel(model);
    NormalizeModelIsSlug(model);
    if |norm| <= 46 {
      assert DerivedName(model, hex) == "emu-" + norm + "-" + hex;
    } else {
      var p := norm[..46];
      var kept := TrimDashes(p);
      assert p[45] == norm[45] && p[44] == norm[44];
      if p[45] == '-' {
        assert p[44] != '-';
        assert p[..45][44] == p[44];
        assert TrimDashes(p) == TrimDashes(p[..45]) == p[..45];
      }
      assert kept <= norm;
      assert DerivedName(model, hex) == "emu-" + kept + "-" + hex;
    }
  }

  /** A derived serial is the MAC in upper case behind "EMU". */
  lemma {:induction false} DerivedSerialSpellsTheMac(hex: string)
    requires MacHex(hex)
    ensures var s := DerivedSerial(hex);
            && |s| == 15 && s[..3] == "EMU"
            && forall i | 0 <= i < 12 :: Hex.LowerChar(s[3 + i]) == hex[i] && !('a' <= s[3 + i] <= 'z')
  {
    assert forall i | 0 <= i < 12 :: hex[i] in hex;
  }
}
