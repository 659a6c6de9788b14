/** cmd/modelgen/main.go:369-423: cutting one model's JSON object out of a script bundle. */
module ModelJson {
  import opened Prelude
  import opened Text

  predicate Space(c: char)
  {
    c in {' ', '\t', '\r', '\n'}
  }

  function SkipSpace(b: string, at: nat): (r: nat)
    requires at <= |b|
    ensures at <= r <= |b|
    ensures forall k | at <= k < r :: Space(b[k])
    ensures r < |b| ==> !Space(b[r])
    decreases |b| - at
  {
    if at < |b| && Space(b[at]) then SkipSpace(b, at + 1) else at
  }

  // ---------------------------------------------------------------------------------------------
  // The key search
  // ---------------------------------------------------------------------------------------------

  /** Where the search stands after an occurrence of the key at p, and whether an object follows. */
  function Probe(b: string, key: string, p: nat): (r: (bool, nat))
    requires OccursAt(b, key, p)
    ensures p + |key| <= r.1 <= |b|
    ensures r.0 ==> r.1 < |b| && b[r.1] == '{'
    ensures forall k | p + |key| <= k < r.1 :: Space(b[k]) || b[k] == ':'
  {
    var at := SkipSpace(b, p + |key|);
    if at < |b| && b[at] == ':' then
      var at' := SkipSpace(b, at + 1);
      (at' < |b| && b[at'] == '{', at')
    else (false, at)
  }

  /** An occurrence of the key as the name of an object-valued member. */
  ghost predicate Candidate(b: string, key: string, p: int)
  {
    OccursAt(b, key, p) && Probe(b, key, p).0
  }

  predicate AllSpace(s: string)
  {
    forall c | c in s :: Space(c)
  }

  lemma {:induction false} SkipSpaceIs(b: string, at: nat, end: nat)
    requires at <= end <= |b| && (forall k | at <= k < end :: Space(b[k])) && (end < |b| ==> !Space(b[end]))
    ensures SkipSpace(b, at) == end
    decreases end - at
  {
    if at < end {
      SkipSpaceIs(b, at + 1, end);
    }
  }

  /** b goes on at p with the key, white space, a colon, white space and a brace. */
  predicate MemberAt(b: string, key: string, p: int, s1: string, s2: string)
  {
    AllSpace(s1) && AllSpace(s2) && OccursAt(b, key + s1 + ":" + s2 + "{", p)
  }

  /** A candidate is the key as a member name whose value is an object, in any white space. */
  lemma {:induction false} CandidateIff(b: string, key: string, p: int)
    ensures Candidate(b, key, p) <==> exists s1, s2 :: MemberAt(b, key, p, s1, s2)
  {
    if Candidate(b, key, p) {
      var colon := SkipSpace(b, p + |key|);
      var brace := SkipSpace(b, colon + 1);
      var s1, s2 := b[p + |key|..colon], b[colon + 1..brace];
      FiveParts(b, p, p + |key|, colon, brace);
      var t := key + s1 + ":" + s2 + "{";
      assert b[p..p + |key|] == key && [b[colon]] == ":" && [b[brace]] == "{";
      assert t == b[p..brace + 1] && p + |t| == brace + 1;
      SpacesBetween(b, p + |key|, colon);
      SpacesBetween(b, colon + 1, brace);
      assert MemberAt(b, key, p, s1, s2);
    }
    if s1, s2 :| MemberAt(b, key, p, s1, s2) {
      MembersAreCandidates(b, key, p, s1, s2);
    }
  }

  lemma {:induction false} SpacesBetween(b: string, lo: nat, hi: nat)
    requires lo <= hi <= |b| && forall k | lo <= k < hi :: Space(b[k])
    ensures AllSpace(b[lo..hi])
  {
  }

  lemma {:induction false} FiveParts(b: string, p: nat, q: nat, colon: nat, brace: nat)
    requires p <= q <= colon < brace < |b|
    ensures b[p..brace + 1] == b[p..q] + b[q..colon] + [b[colon]] + b[colon + 1..brace] + [b[brace]]
  {
  }

  lemma {:induction false} MembersAreCandidates(b: string, key: string, p: int, s1: string, s2: string)
    requires MemberAt(b, key, p, s1, s2)
    ensures Candidate(b, key, p)
  {
    var t := key + s1 + ":" + s2 + "{";
    var colon, brace := p + |key| + |s1|, p + |key| + |s1| + 1 + |s2|;
    forall k | 0 <= k < |t|
      ensures b[p + k] == t[k]
    {
      assert b[p..p + |t|][k] == t[k];
    }
    SliceOfSlice(b, p, p + |t|, 0, |key|);
    assert t[0..|key|] == key;
    assert b[colon] == t[|key| + |s1|] == ':';
    assert b[brace] == t[|key| + |s1| + 1 + |s2|] == '{';
    forall k | p + |key| <= k < colon
      ensures Space(b[k])
    {
      assert b[k] == t[k - p] == s1[k - p - |key|];
    }
    forall k | colon + 1 <= k < brace
      ensures Space(b[k])
    {
      assert b[k] == t[k - p] == s2[k - colon - 1];
    }
    SkipSpaceIs(b, p + |key|, colon);
    SkipSpaceIs(b, colon + 1, brace);
  }

  /** The search looks at an occurrence unless it starts inside an earlier one it looked at. */
  ghost predicate Visited(b: string, key: string, p: int)
    decreases p
  {
    OccursAt(b, key, p) && forall q | 0 <= q < p && Visited(b, key, q) :: q + |key| <= p
  }

  ghost predicate FirstHit(b: string, key: string, p: int)
  {
    && Visited(b, key, p) && Candidate(b, key, p)
    && forall q | 0 <= q < p && Visited(b, key, q) :: !Candidate(b, key, q)
  }

  /** The brace the left-to-right search settles on. */
  function Search(b: string, key: string, from: nat): (r: Option<nat>)
    requires key != "" && from <= |b|
    ensures r.Some? ==> r.value < |b| && b[r.value] == '{'
    decreases |b| - from
  {
    var p := Index(b, key, from);
    if p < 0 then None
    else
      var (found, at) := Probe(b, key, p);
      if found then Some(at) else Search(b, key, at)
  }

  /** Past the key: white space, a colon, white space, and the brace it takes to accept. */
  method ProbeAt(b: string, key: string, p: nat) returns (hit: bool, at: nat)
    requires OccursAt(b, key, p)
    ensures (hit, at) == Probe(b, key, p)
  {
    at := p + |key|;
    while at < |b| && Space(b[at])
      invariant p + |key| <= at <= |b|
      invariant SkipSpace(b, at) == SkipSpace(b, p + |key|)
    {
      at := at + 1;
    }
    hit := false;
    if at < |b| && b[at] == ':' {
      ghost var colon := at;
      at := at + 1;
      while at < |b| && Space(b[at])
        invariant colon < at <= |b|
        invariant SkipSpace(b, at) == SkipSpace(b, colon + 1)
      {
        at := at + 1;
      }
      hit := at < |b| && b[at] == '{';
    }
  }

  /** The brace of the first visited occurrence that names an object, and nothing if and only if none
      does. */
  method FindObject(b: string, key: string) returns (start: Option<nat>)
    requires |key| >= 2 && key[0] == '"'
    ensures start == Search(b, key, 0)
    ensures start.None? <==> forall q | Visited(b, key, q) :: !Candidate(b, key, q)
    ensures start.Some? ==> exists p: nat :: FirstHit(b, key, p) && Probe(b, key, p).1 == start.value
  {
    SearchIsFirstHit(b, key, 0);
    var searchFrom := 0;
    while searchFrom < |b|
      invariant searchFrom <= |b|
      invariant Search(b, key, searchFrom) == Search(b, key, 0)
      decreases |b| - searchFrom
    {
      var found := Index(b, key, searchFrom);
      if found < 0 {
        break;
      }
      var hit, at := ProbeAt(b, key, found);
      if hit {
        return Some(at);
      }
      searchFrom := at;
    }
    return None;
  }

  lemma {:induction false} SearchIsFirstHit(b: string, key: string, from: nat)
    requires |key| >= 2 && key[0] == '"' && from <= |b|
    requires forall q | 0 <= q < from && Visited(b, key, q) :: q + |key| <= from && !Candidate(b, key, q)
    ensures Search(b, key, from).None? <==> forall q | Visited(b, key, q) :: !Candidate(b, key, q)
    ensures Search(b, key, from).Some? ==>
              exists p: nat :: FirstHit(b, key, p) && Probe(b, key, p).1 == Search(b, key, from).value
    decreases |b| - from
  {
    var p := Index(b, key, from);
    if p >= 0 {
      assert Visited(b, key, p);
      if Probe(b, key, p).0 {
        assert FirstHit(b, key, p);
      } else {
        NothingStartsInAProbe(b, key, p);
        SearchIsFirstHit(b, key, Probe(b, key, p).1);
      }
    }
  }

  /** A probe runs over white space and colons, where no quoted key starts. */
  lemma {:induction false} NothingStartsInAProbe(b: string, key: string, p: nat)
    requires |key| >= 2 && key[0] == '"' && OccursAt(b, key, p)
    ensures forall q | p + |key| <= q < Probe(b, key, p).1 :: !OccursAt(b, key, q)
  {
    forall q | p + |key| <= q < Probe(b, key, p).1
      ensures !OccursAt(b, key, q)
    {
      if q + |key| <= |b| {
        assert b[q..q + |key|][0] == b[q];
      }
    }
  }

  ghost predicate NeverOverlaps(b: string, key: string)
  {
    forall p, q | OccursAt(b, key, p) && OccursAt(b, key, q) && p < q :: p + |key| <= q
  }

  /** Unless occurrences of the key overlap, the search finds the leftmost member of that name that is
      an object, and nothing if and only if there is none. */
  lemma {:induction false} LeftmostUnlessOverlapping(b: string, key: string)
    requires |key| >= 2 && key[0] == '"' && NeverOverlaps(b, key)
    ensures Search(b, key, 0).None? <==> forall q :: !Candidate(b, key, q)
    ensures Search(b, key, 0).Some? ==>
              exists p: nat :: Candidate(b, key, p) && Probe(b, key, p).1 == Search(b, key, 0).value
                               && forall q | 0 <= q < p :: !Candidate(b, key, q)
  {
    SearchIsFirstHit(b, key, 0);
    assert forall q :: OccursAt(b, key, q) <==> Visited(b, key, q);
  }

  /** When they do, a member can be missed: two occurrences sharing a quote. */
  lemma {:induction false} OverlapHidesAMember()
    ensures var b, key := "\"A\"A\":{", "\"A\"";
            Candidate(b, key, 2) && !Visited(b, key, 2) && Search(b, key, 0) == None
  {
    var b, key := "\"A\"A\":{", "\"A\"";
    SharedQuote(b, key);
    assert SkipSpace(b, 3) == 3 && SkipSpace(b, 5) == 5 && SkipSpace(b, 6) == 6;
    assert Probe(b, key, 0) == (false, 3);
    assert Visited(b, key, 0);
    assert !OccursAt(b, key, 3) && !OccursAt(b, key, 4);
  }

  lemma {:induction false} SharedQuote(b: string, key: string)
    requires |b| >= 5 && |key| == 3
    requires b[0] == b[2] == b[4] == key[0] == key[2] && b[1] == b[3] == key[1]
    ensures OccursAt(b, key, 0) && OccursAt(b, key, 2)
  {
    assert b[0..3] == key && b[2..5] == key;
  }

  // ---------------------------------------------------------------------------------------------
  // The balanced-object scanner
  // ---------------------------------------------------------------------------------------------

  datatype Scan = Scan(depth: int, inString: bool, escaped: bool)

  const START := Scan(0, false, false)

  /** One character; None when it is the brace that closes the object. */
  function Step(s: Scan, c: char): Option<Scan>
  {
    if s.inString && s.escaped then Some(s.(escaped := false))
    else if s.inString && c == '\\' then Some(s.(escaped := true))
    else if s.inString && c == '"' then Some(s.(inString := false))
    else if s.inString then Some(s)
    else if c == '"' then Some(s.(inString := true))
    else if c == '{' then Some(s.(depth := s.depth + 1))
    else if c == '}' then (if s.depth - 1 == 0 then None else Some(s.(depth := s.depth - 1)))
    else Some(s)
  }

  /** The scanner after t, None once it has closed. */
  function Feed(s: Scan, t: string): Option<Scan>
    decreases |t|
  {
    if t == "" then Some(s)
    else
      var next := Step(s, t[0]);
      if next.None? then None else Feed(next.value, t[1..])
  }

  lemma {:induction false} FeedAppend(s: Scan, t: string, u: string)
    ensures Feed(s, t + u) == if Feed(s, t).None? then None else Feed(Feed(s, t).value, u)
    decreases |t|
  {
    if t == "" {
      assert t + u == u;
    } else {
      assert (t + u)[0] == t[0] && (t + u)[1..] == t[1..] + u;
      if Step(s, t[0]).Some? {
        FeedAppend(Step(s, t[0]).value, t[1..], u);
      }
    }
  }

  /** t is balanced and no proper prefix of it is: the scanner closes at its last character. */
  predicate ClosesAtEnd(t: string)
  {
    t != "" && Feed(START, t[..|t| - 1]).Some? && Feed(START, t).None?
  }

  method ScanObject(b: string, start: nat) returns (object_: Option<string>)
    requires start <= |b|
    ensures object_.Some? ==> object_.value <= b[start..] && ClosesAtEnd(object_.value)
    ensures object_.None? <==> Feed(START, b[start..]).Some?
  {
    var s := START;
    for i := start to |b|
      invariant Feed(START, b[start..i]) == Some(s)
    {
      FeedAppend(START, b[start..i], [b[i]]);
      assert b[start..i] + [b[i]] == b[start..i + 1];
      assert Feed(s, [b[i]]) == Step(s, b[i]) by {
        assert [b[i]][1..] == "";
      }
      var next := Step(s, b[i]);
      if next.None? {
        assert b[start..i + 1][..i - start] == b[start..i];
        assert b[start..] == b[start..i + 1] + b[i + 1..];
        FeedAppend(START, b[start..i + 1], b[i + 1..]);
        return Some(b[start..i + 1]);
      }
      s := next.value;
    }
    assert b[start..|b|] == b[start..];
    return None;
  }

  /** A text has at most one prefix that closes at its end. */
  lemma {:induction false} ClosingPrefixIsUnique(t: string, u: string, whole: string)
    requires t <= whole && u <= whole && ClosesAtEnd(t) && ClosesAtEnd(u)
    ensures t == u
  {
    if |t| < |u| {
      assert u[..|u| - 1] == t + u[|t|..|u| - 1];
      FeedAppend(START, t, u[|t|..|u| - 1]);
    } else if |u| < |t| {
      assert t[..|t| - 1] == u + t[|u|..|t| - 1];
      FeedAppend(START, u, t[|u|..|t| - 1]);
    }
  }

  // ---------------------------------------------------------------------------------------------
  // JSON texts, sections 2 to 7 of RFC 8259
  // ---------------------------------------------------------------------------------------------

  /** One unit of a string: a character standing for itself, or a backslash and the character it
      escapes (the four digits after a "u" stand for themselves). */
  datatype Unit = Plain(c: char) | Escape(c: char)

  /** A literal is a number or one of the three names. */
  datatype Json =
    | Literal(text: string)
    | Str(units: seq<Unit>)
    | Arr(space: string, items: Items)
    | Obj(space: string, members: Members)

  datatype Items = NoItems | Item(value: Json, after: string, more: Items, before: string)

  datatype Members = NoMembers
    | Member(name: seq<Unit>, beforeColon: string, afterColon: string, value: Json, after: string,
             more: Members, before: string)

  predicate LiteralText(s: string)
  {
    forall c | c in s :: 'a' <= c <= 'z' || '0' <= c <= '9' || c in {'-', '+', '.', 'E'}
  }

  predicate StringText(us: seq<Unit>)
  {
    forall u | u in us :: u.Plain? ==> u.c != '"' && u.c != '\\'
  }

  predicate ValidJson(v: Json)
  {
    match v
    case Literal(text) => LiteralText(text)
    case Str(us) => StringText(us)
    case Arr(space, items) => AllSpace(space) && ValidItems(items)
    case Obj(space, members) => AllSpace(space) && ValidMembers(members)
  }

  predicate ValidItems(items: Items)
  {
    match items
    case NoItems => true
    case Item(v, after, more, before) => ValidJson(v) && AllSpace(after) && ValidItems(more) && AllSpace(before)
  }

  predicate ValidMembers(members: Members)
  {
    match members
    case NoMembers => true
    case Member(name, s1, s2, v, after, more, before) =>
      StringText(name) && AllSpace(s1) && AllSpace(s2) && ValidJson(v) && AllSpace(after) && ValidMembers(more)
      && AllSpace(before)
  }

  function RenderUnits(us: seq<Unit>): string
  {
    if us == [] then ""
    else (if us[0].Plain? then [us[0].c] else ['\\', us[0].c]) + RenderUnits(us[1..])
  }

  function RenderString(us: seq<Unit>): string
  {
    "\"" + RenderUnits(us) + "\""
  }

  function Render(v: Json): string
  {
    match v
    case Literal(text) => text
    case Str(us) => RenderString(us)
    case Arr(space, items) => "[" + (space + RenderItems(items)) + "]"
    case Obj(space, members) => "{" + (space + RenderMembers(members)) + "}"
  }

  function RenderItems(items: Items): string
  {
    match items
    case NoItems => ""
    case Item(v, after, more, before) =>
      Render(v) + (after + (if more.NoItems? then "" else "," + (before + RenderItems(more))))
  }

  function RenderMembers(members: Members): string
  {
    match members
    case NoMembers => ""
    case Member(name, s1, s2, v, after, more, before) =>
      RenderString(name) + (s1 + (":" + (s2 + (Render(v) + (after
      + (if more.NoMembers? then "" else "," + (before + RenderMembers(more))))))))
  }

  /** Text the scanner passes over without a trace. */
  ghost predicate Neutral(d: int, t: string)
  {
    Feed(Scan(d, false, false), t) == Some(Scan(d, false, false))
  }

  lemma {:induction false} NeutralAppend(d: int, t: string, u: string)
    requires Neutral(d, t) && Neutral(d, u)
    ensures Neutral(d, t + u)
  {
    FeedAppend(Scan(d, false, false), t, u);
  }

  /** Outside strings only quotes and braces matter. */
  lemma {:induction false} PlainTextIsNeutral(d: int, t: string)
    requires forall c | c in t :: c !in {'"', '{', '}'}
    ensures Neutral(d, t)
    decreases |t|
  {
    if t != "" {
      assert t[0] in t && forall c | c in t[1..] :: c in t;
      PlainTextIsNeutral(d, t[1..]);
    }
  }

  lemma {:induction false} UnitsStayInside(d: int, us: seq<Unit>)
    requires StringText(us)
    ensures Feed(Scan(d, true, false), RenderUnits(us)) == Some(Scan(d, true, false))
  {
    if us != [] {
      var head := if us[0].Plain? then [us[0].c] else ['\\', us[0].c];
      FeedAppend(Scan(d, true, false), head, RenderUnits(us[1..]));
      if us[0].Escape? {
        assert head[1..] == [us[0].c] && head[1..][1..] == "";
      } else {
        assert head[1..] == "";
      }
      UnitsStayInside(d, us[1..]);
    }
  }

  lemma {:induction false} StringIsNeutral(d: int, us: seq<Unit>)
    requires StringText(us)
    ensures Neutral(d, RenderString(us))
  {
    var s := Scan(d, false, false);
    FeedAppend(s, "\"" + RenderUnits(us), "\"");
    FeedAppend(s, "\"", RenderUnits(us));
    UnitsStayInside(d, us);
    assert Feed(s, "\"") == Some(Scan(d, true, false)) by { assert "\""[1..] == ""; }
    assert Feed(Scan(d, true, false), "\"") == Some(s) by { assert "\""[1..] == ""; }
  }

  /** Inside an object, any JSON value with braces, quotes and escapes of its own is neutral. */
  lemma {:induction false} ValueIsNeutral(d: int, v: Json)
    requires d >= 1 && ValidJson(v)
    ensures Neutral(d, Render(v))
    decreases v
  {
    match v
    case Literal(text) => PlainTextIsNeutral(d, text);
    case Str(us) => StringIsNeutral(d, us);
    case Arr(space, items) =>
      PlainTextIsNeutral(d, space);
      ItemsAreNeutral(d, items);
      NeutralAppend(d, space, RenderItems(items));
      PlainTextIsNeutral(d, "[");
      PlainTextIsNeutral(d, "]");
      NeutralAppend(d, "[", space + RenderItems(items));
      NeutralAppend(d, "[" + (space + RenderItems(items)), "]");
    case Obj(space, members) =>
      PlainTextIsNeutral(d + 1, space);
      MembersAreNeutral(d + 1, members);
      NeutralAppend(d + 1, space, RenderMembers(members));
      BracedFeed(d, space + RenderMembers(members));
  }

  /** An object body between its braces, one level down. */
  lemma {:induction false} BracedFeed(d: int, body: string)
    requires Neutral(d + 1, body)
    ensures Feed(Scan(d, false, false), "{" + body) == Some(Scan(d + 1, false, false))
    ensures d != 0 ==> Neutral(d, "{" + body + "}")
    ensures d == 0 ==> Feed(START, "{" + body + "}") == None
  {
    var s := Scan(d, false, false);
    FeedAppend(s, "{", body);
    assert Feed(s, "{") == Some(Scan(d + 1, false, false)) by { assert "{"[1..] == ""; }
    FeedAppend(s, "{" + body, "}");
    assert "}"[1..] == "";
  }

  lemma {:induction false} ItemsAreNeutral(d: int, items: Items)
    requires d >= 1 && ValidItems(items)
    ensures Neutral(d, RenderItems(items))
    decreases items
  {
    match items
    case NoItems =>
    case Item(v, after, more, before) =>
      ValueIsNeutral(d, v);
      ItemsAreNeutral(d, more);
      PlainTextIsNeutral(d, after);
      var tail := if more.NoItems? then "" else "," + (before + RenderItems(more));
      if !more.NoItems? {
        PlainTextIsNeutral(d, before);
        PlainTextIsNeutral(d, ",");
        NeutralAppend(d, before, RenderItems(more));
        NeutralAppend(d, ",", before + RenderItems(more));
      }
      NeutralAppend(d, after, tail);
      NeutralAppend(d, Render(v), after + tail);
  }

  lemma {:induction false} MembersAreNeutral(d: int, members: Members)
    requires d >= 1 && ValidMembers(members)
    ensures Neutral(d, RenderMembers(members))
    decreases members
  {
    match members
    case NoMembers =>
    case Member(name, s1, s2, v, after, more, before) =>
      ValueIsNeutral(d, v);
      MembersAreNeutral(d, more);
      StringIsNeutral(d, name);
      var tail := if more.NoMembers? then "" else "," + (before + RenderMembers(more));
      if !more.NoMembers? {
        PlainTextIsNeutral(d, before);
        PlainTextIsNeutral(d, ",");
        NeutralAppend(d, before, RenderMembers(more));
        NeutralAppend(d, ",", before + RenderMembers(more));
      }
      PlainTextIsNeutral(d, after);
      PlainTextIsNeutral(d, s1);
      PlainTextIsNeutral(d, s2);
      PlainTextIsNeutral(d, ":");
      NeutralAppend(d, after, tail);
      NeutralAppend(d, Render(v), after + tail);
      NeutralAppend(d, s2, Render(v) + (after + tail));
      NeutralAppend(d, ":", s2 + (Render(v) + (after + tail)));
      NeutralAppend(d, s1, ":" + (s2 + (Render(v) + (after + tail))));
      NeutralAppend(d, RenderString(name), s1 + (":" + (s2 + (Render(v) + (after + tail)))));
  }

  /** Every JSON object text is balanced at its last character and nowhere before. */
  lemma {:induction false} ObjectTextCloses(v: Json)
    requires v.Obj? && ValidJson(v)
    ensures ClosesAtEnd(Render(v))
  {
    var body := v.space + RenderMembers(v.members);
    PlainTextIsNeutral(1, v.space);
    MembersAreNeutral(1, v.members);
    NeutralAppend(1, v.space, RenderMembers(v.members));
    BracedFeed(0, body);
    var t := Render(v);
    assert t[..|t| - 1] == "{" + body;
  }

  // ---------------------------------------------------------------------------------------------
  // extractModelJSON
  // ---------------------------------------------------------------------------------------------

  datatype Failure = Missing | Unterminated

  /** Whatever the bundle, an extracted text closes at its end right where the first hit opens; where
      a JSON object stands there, it is extracted whole and nothing else is; and the object is
      unterminated if and only if the scan to the end of the bundle never closes. */
  method ExtractModelJSON(b: string, key: string) returns (r: Result<string, Failure>)
    requires |key| >= 2 && key[0] == '"'
    ensures r == Err(Missing) <==> forall q | Visited(b, key, q) :: !Candidate(b, key, q)
    ensures r == Err(Missing) <==> Search(b, key, 0) == None
    ensures r == Err(Unterminated) <==>
            Search(b, key, 0).Some? && Feed(START, b[Search(b, key, 0).value..]).Some?
    ensures r.Ok? ==> ClosesAtEnd(r.value) && r.value <= b[Search(b, key, 0).value..]
    ensures Search(b, key, 0).Some? ==>
              var start := Search(b, key, 0).value;
              && (exists p: nat :: FirstHit(b, key, p) && Probe(b, key, p).1 == start)
              && forall v, rest | ValidJson(v) && v.Obj? && b[start..] == Render(v) + rest :: r == Ok(Render(v))
  {
    var start := FindObject(b, key);
    if start.None? {
      return Err(Missing);
    }
    var object_ := ScanObject(b, start.value);
    ghost var tail := b[start.value..];
    forall v, rest | ValidJson(v) && v.Obj? && tail == Render(v) + rest
      ensures object_ == Some(Render(v))
    {
      ObjectTextCloses(v);
      if object_.Some? {
        ClosingPrefixIsUnique(object_.value, Render(v), tail);
      } else {
        FeedAppend(START, Render(v), rest);
      }
    }
    if object_.None? {
      return Err(Unterminated);
    }
    return Ok(object_.value);
  }
}
