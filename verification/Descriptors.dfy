/** scripts/extract_caps.py:508-552: reading method descriptors, section 4.3.3 of the Java Virtual
    Machine Specification. */
module Descriptors {
  import opened Prelude

  /** The first index from i on that holds c. */
  function IndexFrom(s: string, c: char, i: nat): (r: Option<nat>)
    ensures r.Some? ==> i <= r.value < |s| && s[r.value] == c
    ensures forall k | i <= k < |s| && (r.Some? ==> k < r.value) :: s[k] != c
    decreases |s| - i
  {
    if i >= |s| then None else if s[i] == c then Some(i) else IndexFrom(s, c, i + 1)
  }

  function SkipBrackets(desc: string, i: nat): (j: nat)
    ensures j >= i
    decreases |desc| - i
  {
    if i < |desc| && desc[i] == '[' then SkipBrackets(desc, i + 1) else i
  }

  /** Past the type that starts at i; None where reading it raises. */
  function TypeEnd(desc: string, i: nat): (end: Option<nat>)
    ensures end.Some? ==> i < end.value <= |desc|
  {
    var j := SkipBrackets(desc, i);
    if j >= |desc| then None
    else if desc[j] == 'L' then
      var semicolon := IndexFrom(desc, ';', j);
      if semicolon.Some? then Some(semicolon.value + 1) else None
    else Some(j + 1)
  }

  function ArgsFrom(desc: string, i: nat): Option<seq<string>>
    decreases |desc| - i
  {
    if i >= |desc| then None
    else if desc[i] == ')' then Some([])
    else
      var end := TypeEnd(desc, i);
      if end.None? then None
      else
        var rest := ArgsFrom(desc, end.value);
        if rest.None? then None else Some([desc[i..end.value]] + rest.value)
  }

  /** parse_args; None where it raises. */
  function ParseArgs(desc: string): Option<seq<string>>
  {
    var open := IndexFrom(desc, '(', 0);
    if open.None? then None else ArgsFrom(desc, open.value + 1)
  }

  /** ret_type; None where it raises. */
  function RetType(desc: string): Option<string>
  {
    var close := IndexFrom(desc, ')', 0);
    if close.None? then None else Some(desc[close.value + 1..])
  }

  function Slots(t: string): nat
  {
    if t == "J" || t == "D" then 2 else 1
  }

  function Prefixed(out: seq<string>, rest: Option<seq<string>>): Option<seq<string>>
  {
    if rest.None? then None else Some(out + rest.value)
  }

  /** One round of the outer loop. */
  method ReadType(desc: string, start: nat) returns (end: Option<nat>)
    ensures end == TypeEnd(desc, start)
  {
    var i := start;
    while i < |desc| && desc[i] == '['
      invariant start <= i && SkipBrackets(desc, i) == SkipBrackets(desc, start)
    {
      i := i + 1;
    }
    if i >= |desc| {
      return None;
    }
    if desc[i] == 'L' {
      var semicolon := IndexFrom(desc, ';', i);
      return if semicolon.Some? then Some(semicolon.value + 1) else None;
    }
    return Some(i + 1);
  }

  method ReadArgs(desc: string) returns (r: Option<seq<string>>)
    ensures r == ParseArgs(desc)
  {
    var open := IndexFrom(desc, '(', 0);
    if open.None? {
      return None;
    }
    var i := open.value + 1;
    var out := [];
    assert Prefixed([], ArgsFrom(desc, i)) == ArgsFrom(desc, i) by {
      if ArgsFrom(desc, i).Some? {
        assert [] + ArgsFrom(desc, i).value == ArgsFrom(desc, i).value;
      }
    }
    while i < |desc| && desc[i] != ')'
      invariant ParseArgs(desc) == Prefixed(out, ArgsFrom(desc, i))
      decreases |desc| - i
    {
      var end := ReadType(desc, i);
      if end.None? {
        return None;
      }
      ghost var rest := ArgsFrom(desc, end.value);
      if rest.Some? {
        assert out + ([desc[i..end.value]] + rest.value) == out + [desc[i..end.value]] + rest.value;
      }
      out := out + [desc[i..end.value]];
      i := end.value;
    }
    if i >= |desc| {
      return None;
    }
    assert out + [] == out;
    return Some(out);
  }

  // ---------------------------------------------------------------------------------------------
  // Descriptors as the specification writes them
  // ---------------------------------------------------------------------------------------------

  datatype Type = Primitive(c: char) | Object(name: string) | Array(element: Type)

  predicate ValidType(t: Type)
  {
    match t
    case Primitive(c) => c in "BCDFIJSZ"
    case Object(name) => ';' !in name
    case Array(element) => ValidType(element)
  }

  function Render(t: Type): string
  {
    match t
    case Primitive(c) => [c]
    case Object(name) => "L" + name + ";"
    case Array(element) => "[" + Render(element)
  }

  function RenderAll(ts: seq<Type>): seq<string>
  {
    if ts == [] then [] else [Render(ts[0])] + RenderAll(ts[1..])
  }

  function Descriptor(ts: seq<Type>, ret: string): string
  {
    "(" + Flatten(RenderAll(ts)) + ")" + ret
  }

  lemma {:induction false} EndOfObject(before: string, name: string, after: string)
    requires ';' !in name
    ensures TypeEnd(before + ("L" + name + ";") + after, |before|) == Some(|before| + |name| + 2)
  {
    var s, at := before + ("L" + name + ";") + after, |before| + 1 + |name|;
    assert s[at] == ';' && s[|before|] == 'L';
    assert forall k | 0 <= k < |name| :: s[|before| + 1 + k] == name[k];
    assert forall k | |before| < k < at :: s[k] == name[k - |before| - 1];
  }

  lemma {:induction false} EndOfPrimitive(before: string, c: char, after: string)
    requires c in "BCDFIJSZ"
    ensures TypeEnd(before + [c] + after, |before|) == Some(|before| + 1)
  {
    assert (before + [c] + after)[|before|] == c;
  }

  lemma {:induction false} EndOfArray(before: string, element: string, after: string)
    ensures before + ("[" + element) + after == before + "[" + element + after
    ensures TypeEnd(before + "[" + element + after, |before|) ==
            TypeEnd(before + "[" + element + after, |before| + 1)
  {
    assert (before + "[" + element + after)[|before|] == '[';
  }

  /** The reader finds the end of any type, wherever it stands. */
  lemma {:induction false} EndOfType(before: string, t: Type, after: string)
    requires ValidType(t)
    ensures TypeEnd(before + Render(t) + after, |before|) == Some(|before| + |Render(t)|)
    decreases t
  {
    match t
    case Primitive(c) => EndOfPrimitive(before, c, after);
    case Object(name) => EndOfObject(before, name, after);
    case Array(element) =>
      EndOfArray(before, Render(element), after);
      EndOfType(before + "[", element, after);
  }

  lemma {:induction false} Cut(before: string, t: string, rest: string, close: string, ret: string)
    requires t != ""
    ensures var s := before + t + rest + close + ret;
            && s == before + (t + rest) + close + ret
            && s == before + t + (rest + close + ret)
            && s[|before|] == t[0] && s[|before|..|before| + |t|] == t
  {
  }

  lemma {:induction false} ArgsAreRead(before: string, ts: seq<Type>, ret: string)
    requires forall k | 0 <= k < |ts| :: ValidType(ts[k])
    ensures ArgsFrom(before + Flatten(RenderAll(ts)) + ")" + ret, |before|) == Some(RenderAll(ts))
    decreases |ts|
  {
    var s := before + Flatten(RenderAll(ts)) + ")" + ret;
    if ts == [] {
      assert s[|before|] == ')';
    } else {
      var t, rest := Render(ts[0]), Flatten(RenderAll(ts[1..]));
      assert RenderAll(ts)[1..] == RenderAll(ts[1..]);
      Cut(before, t, rest, ")", ret);
      EndOfType(before, ts[0], rest + ")" + ret);
      ArgsAreRead(before + t, ts[1..], ret);
    }
  }

  /** Reading any descriptor gives its parameter types, in order. */
  lemma {:induction false} ParseArgsInvertsDescriptor(ts: seq<Type>, ret: string)
    requires forall k | 0 <= k < |ts| :: ValidType(ts[k])
    ensures ParseArgs(Descriptor(ts, ret)) == Some(RenderAll(ts))
  {
    ArgsAreRead("(", ts, ret);
  }

  /** ret_type splits at the first closing parenthesis, so it gives the return type exactly when no
      parameter's class name holds one, which section 4.2.2 of the Java Virtual Machine Specification allows. */
  lemma {:induction false} RetTypeIsRecoveredIff(ts: seq<Type>, ret: string)
    ensures RetType(Descriptor(ts, ret)) == Some(ret) <==> ')' !in Flatten(RenderAll(ts))
  {
    var args, desc := Flatten(RenderAll(ts)), Descriptor(ts, ret);
    var at := 1 + |args|;
    var close := IndexFrom(desc, ')', 0);
    assert desc[at] == ')' && desc[at + 1..] == ret;
    assert forall k | 0 <= k < |args| :: args[k] == desc[1 + k];
    if close.value < at {
      assert close.value > 0 && args[close.value - 1] == desc[close.value];
      assert |desc[close.value + 1..]| > |ret|;
    }
  }
}
