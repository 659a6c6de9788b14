/** scripts/extract_caps.py:410-505: walking the variable-length instructions of a Code attribute. */
module Bytecode {
  import opened Prelude

  const IINC: byte := 0x84
  const TABLESWITCH: byte := 0xaa
  const LOOKUPSWITCH: byte := 0xab
  const WIDE: byte := 0xc4

  /** The operand lengths of the fixed-size instructions. */
  function OpLen(op: byte): Option<nat>
  {
    if op < 0x10 then Some(0)
    else if op == 0x10 then Some(1)
    else if op == 0x11 then Some(2)
    else if op == 0x12 then Some(1)
    else if op <= 0x14 then Some(2)
    else if op <= 0x19 then Some(1)
    else if op <= 0x35 then Some(0)
    else if op <= 0x3a then Some(1)
    else if op < IINC then Some(0)
    else if op == IINC then Some(2)
    else if op <= 0x98 then Some(0)
    else if op <= 0xa8 then Some(2)
    else if op == 0xa9 then Some(1)
    else if op <= LOOKUPSWITCH then None
    else if op <= 0xb1 then Some(0)
    else if op <= 0xb8 then Some(2)
    else if op <= 0xba then Some(4)
    else if op == 0xbb then Some(2)
    else if op == 0xbc then Some(1)
    else if op == 0xbd then Some(2)
    else if op <= 0xbf then Some(0)
    else if op <= 0xc1 then Some(2)
    else if op <= 0xc3 then Some(0)
    else if op == WIDE then None
    else if op == 0xc5 then Some(3)
    else if op <= 0xc7 then Some(2)
    else if op <= 0xc9 then Some(4)
    else None
  }

  /** The operand bytes of the instructions, by their number: section 6.5 of the Java Virtual Machine
      Specification. */
  lemma {:induction false} OpLensAre(op: byte)
    ensures OpLen(op) == Some(1) <==>
            op in {0x10, 0x12, 0xa9, 0xbc} || 0x15 <= op <= 0x19 || 0x36 <= op <= 0x3a
    ensures OpLen(op) == Some(2) <==>
            || op in {0x11, 0x13, 0x14, 0x84, 0xbb, 0xbd, 0xc0, 0xc1, 0xc6, 0xc7}
            || 0x99 <= op <= 0xa8 || 0xb2 <= op <= 0xb8
    ensures OpLen(op) == Some(3) <==> op == 0xc5
    ensures OpLen(op) == Some(4) <==> op in {0xb9, 0xba, 0xc8, 0xc9}
    ensures OpLen(op) == None <==> op in {0xaa, 0xab, 0xc4} || op >= 0xca
    ensures OpLen(op).Some? ==> OpLen(op).value <= 4
  {
  }

  /** A four-byte two's complement integer. */
  function I32(b: bytes): int
    requires |b| == 4
  {
    var n := FromU32(b);
    if n < 0x8000_0000 then n else n - 0x1_0000_0000
  }

  function EncodeI32(n: int): bytes
    requires -0x8000_0000 <= n < 0x8000_0000
  {
    U32(if n >= 0 then n else n + 0x1_0000_0000)
  }

  lemma {:induction false} I32RoundTrip(n: int)
    requires -0x8000_0000 <= n < 0x8000_0000
    ensures |EncodeI32(n)| == 4 && I32(EncodeI32(n)) == n
  {
    hide U32, FromU32;
    U32Truncates(if n >= 0 then n else n + 0x1_0000_0000);
  }

  datatype Step = Step(pc: nat, op: byte, operand: bytes)

  /** Backward: a switch whose count is so negative that its end does not lie past its start. */
  datatype WalkError = UnhandledOpcode | CutShort | Backward

  /** The padding after the opcode of a switch at pc. */
  function Padding(pc: nat): nat
  {
    (4 - (pc + 1) % 4) % 4
  }

  /** A switch's operands start at the next multiple of four. */
  lemma {:induction false} PaddingAligns(pc: nat)
    ensures Padding(pc) < 4 && (pc + 1 + Padding(pc)) % 4 == 0
  {
  }

  /** Where the walk goes after the instruction at pc. */
  function End(code: bytes, pc: nat): Result<int, WalkError>
    requires pc < |code|
  {
    var op, tail, q := code[pc], code[pc + 1..], Padding(pc);
    if OpLen(op).Some? then Ok(pc + 1 + OpLen(op).value)
    else if op == WIDE then
      if tail == [] then Err(CutShort) else Ok(pc + if tail[0] == IINC then 5 else 3)
    else if op == TABLESWITCH then
      if q + 12 > |tail| then Err(CutShort)
      else Ok(pc + 1 + q + 12 + 4 * (I32(tail[q + 8..q + 12]) - I32(tail[q + 4..q + 8]) + 1))
    else if op == LOOKUPSWITCH then
      if q + 8 > |tail| then Err(CutShort) else Ok(pc + 1 + q + 8 + 8 * I32(tail[q + 4..q + 8]))
    else Err(UnhandledOpcode)
  }

  /** code[lo:hi], which Python cuts off at the end of the code. */
  function Slice(code: bytes, lo: nat, hi: nat): bytes
    requires lo <= |code| && lo <= hi
  {
    if hi <= |code| then code[lo..hi] else code[lo..]
  }

  function Walk(code: bytes, pc: nat): Result<seq<Step>, WalkError>
    decreases |code| - pc
  {
    if pc >= |code| then Ok([])
    else
      var end := End(code, pc);
      if end.Err? then Err(end.error)
      else if end.value <= pc then Err(Backward)
      else
        var rest := Walk(code, end.value);
        if rest.Err? then rest
        else Ok([Step(pc, code[pc], Slice(code, pc + 1, end.value))] + rest.value)
  }

  /** Prefixing steps to a walk. */
  function Join(steps: seq<Step>, rest: Result<seq<Step>, WalkError>): Result<seq<Step>, WalkError>
  {
    if rest.Err? then rest else Ok(steps + rest.value)
  }

  lemma {:induction false} JoinNothing(rest: Result<seq<Step>, WalkError>)
    ensures Join([], rest) == rest
  {
    if rest.Ok? {
      assert [] + rest.value == rest.value;
    }
  }

  method WalkCode(code: bytes) returns (r: Result<seq<Step>, WalkError>)
    ensures r == Walk(code, 0)
  {
    var pc := 0;
    var steps: seq<Step> := [];
    JoinNothing(Walk(code, 0));
    while pc < |code|
      invariant Walk(code, 0) == Join(steps, Walk(code, pc))
      decreases |code| - pc
    {
      var end := End(code, pc);
      if end.Err? {
        return Err(end.error);
      }
      if end.value <= pc {
        return Err(Backward);
      }
      ghost var rest := Walk(code, end.value);
      var step := Step(pc, code[pc], Slice(code, pc + 1, end.value));
      if rest.Ok? {
        assert steps + ([step] + rest.value) == steps + [step] + rest.value;
      }
      steps := steps + [step];
      pc := end.value;
    }
    assert steps + [] == steps;
    return Ok(steps);
  }

  // ---------------------------------------------------------------------------------------------
  // Any walk tiles the code
  // ---------------------------------------------------------------------------------------------

  function BytesOf(steps: seq<Step>): bytes
  {
    if steps == [] then [] else [steps[0].op] + steps[0].operand + BytesOf(steps[1..])
  }

  /** Each step starts where the bytes of the steps before it end. */
  ghost predicate Contiguous(steps: seq<Step>, pc: nat)
  {
    steps != [] ==>
      steps[0].pc == pc && (|steps| > 1 ==> Contiguous(steps[1..], pc + 1 + |steps[0].operand|))
  }

  lemma {:induction false} ContiguousPcsIncrease(steps: seq<Step>, pc: nat, i: nat, j: nat)
    requires Contiguous(steps, pc) && i < j < |steps|
    ensures pc <= steps[i].pc < steps[j].pc
    decreases j
  {
    var next := pc + 1 + |steps[0].operand|;
    if i > 0 {
      ContiguousPcsIncrease(steps[1..], next, i - 1, j - 1);
    } else if j > 1 {
      ContiguousPcsIncrease(steps[1..], next, 0, j - 1);
    }
  }

  /** Whenever the walk of any code at all ends, its steps put together are the code, and each
      starts where the one before it ends. */
  lemma {:induction false} WalkTilesTheCode(code: bytes, pc: nat)
    requires pc <= |code| && Walk(code, pc).Ok?
    ensures BytesOf(Walk(code, pc).value) == code[pc..]
    ensures Contiguous(Walk(code, pc).value, pc)
    decreases |code| - pc
  {
    hide End;
    if pc < |code| {
      var end := End(code, pc).value;
      var rest := Walk(code, end).value;
      var operand := Slice(code, pc + 1, end);
      assert Walk(code, pc).value == [Step(pc, code[pc], operand)] + rest;
      StepThenRest(Step(pc, code[pc], operand), rest);
      if end <= |code| {
        hide Walk;
        WalkTilesTheCode(code, end);
        assert code[pc..] == [code[pc]] + code[pc + 1..end] + code[end..];
      } else {
        assert rest == [];
        assert code[pc..] == [code[pc]] + code[pc + 1..];
      }
    }
  }

  lemma {:induction false} StepThenRest(step: Step, rest: seq<Step>)
    ensures BytesOf([step] + rest) == [step.op] + step.operand + BytesOf(rest)
    ensures Contiguous([step] + rest, step.pc) <== rest == [] || Contiguous(rest, step.pc + 1 + |step.operand|)
  {
    assert ([step] + rest)[1..] == rest;
  }

  // ---------------------------------------------------------------------------------------------
  // Instruction lists, section 6.5 of the Java Virtual Machine Specification
  // ---------------------------------------------------------------------------------------------

  /** wide carries the modified opcode and a two-byte index, and for iinc a two-byte constant. */
  datatype Instr =
    | Fixed(op: byte, operand: bytes)
    | Wide(sub: byte, operand: bytes)
    | TableSwitch(default_: bytes, low: int, high: int, offsets: bytes)
    | LookupSwitch(default_: bytes, count: int, pairs: bytes)

  predicate ValidInstr(i: Instr)
  {
    match i
    case Fixed(op, operand) => OpLen(op) == Some(|operand|)
    case Wide(sub, operand) => |operand| == if sub == IINC then 4 else 2
    case TableSwitch(d, low, high, offsets) =>
      |d| == 4 && -0x8000_0000 <= low <= high < 0x8000_0000 && |offsets| == 4 * (high - low + 1)
    case LookupSwitch(d, count, pairs) => |d| == 4 && 0 <= count < 0x8000_0000 && |pairs| == 8 * count
  }

  function Zeros(n: nat): bytes
  {
    seq(n, _ => 0)
  }

  function OpOf(i: Instr): byte
  {
    match i
    case Fixed(op, _) => op
    case Wide(_, _) => WIDE
    case TableSwitch(_, _, _, _) => TABLESWITCH
    case LookupSwitch(_, _, _) => LOOKUPSWITCH
  }

  /** The bytes after the opcode of an instruction at pc. */
  function OperandAt(i: Instr, pc: nat): bytes
    requires ValidInstr(i)
  {
    match i
    case Fixed(_, operand) => operand
    case Wide(sub, operand) => [sub] + operand
    case TableSwitch(d, low, high, offsets) => Zeros(Padding(pc)) + d + EncodeI32(low) + EncodeI32(high) + offsets
    case LookupSwitch(d, count, pairs) => Zeros(Padding(pc)) + d + EncodeI32(count) + pairs
  }

  predicate ValidList(list: seq<Instr>)
  {
    forall k | 0 <= k < |list| :: ValidInstr(list[k])
  }

  function Encode(list: seq<Instr>, pc: nat): bytes
    requires ValidList(list)
    decreases |list|
  {
    if list == [] then []
    else
      var operand := OperandAt(list[0], pc);
      [OpOf(list[0])] + operand + Encode(list[1..], pc + 1 + |operand|)
  }

  function Listing(list: seq<Instr>, pc: nat): seq<Step>
    requires ValidList(list)
    decreases |list|
  {
    if list == [] then []
    else
      var operand := OperandAt(list[0], pc);
      [Step(pc, OpOf(list[0]), operand)] + Listing(list[1..], pc + 1 + |operand|)
  }

  /** The four bytes at a switch's count or bound, found behind its padding and default. */
  lemma {:induction false} FieldsOf(pad: bytes, d: bytes, first: bytes, second: bytes, rest: bytes)
    requires |d| == 4 && |first| == 4 && |second| == 4
    ensures var tail, q := pad + d + first + second + rest, |pad|;
            tail[q + 4..q + 8] == first && tail[q + 8..q + 12] == second
  {
  }

  lemma {:induction false} FieldOf(pad: bytes, d: bytes, first: bytes, rest: bytes)
    requires |d| == 4 && |first| == 4
    ensures var tail, q := pad + d + first + rest, |pad|;
            tail[q + 4..q + 8] == first
  {
  }

  lemma {:induction false} TailAt(before: bytes, op: byte, tail: bytes)
    ensures var code := before + ([op] + tail);
            |before| < |code| && code[|before|] == op && code[|before| + 1..] == tail
  {
  }

  /** Where the walker goes after one instruction: past it, except one byte short of the end of a
      wide one. */
  lemma {:induction false} EndOfOne(before: bytes, i: Instr, rest: bytes)
    requires ValidInstr(i)
    ensures var pc := |before|;
            var operand := OperandAt(i, pc);
            var code := before + ([OpOf(i)] + (operand + rest));
            End(code, pc) == Ok(pc + 1 + |operand| - if i.Wide? then 1 else 0)
  {
    var pc := |before|;
    var operand := OperandAt(i, pc);
    TailAt(before, OpOf(i), operand + rest);
    match i
    case Fixed(_, _) =>
    case Wide(sub, _) =>
      assert (operand + rest)[0] == sub;
    case TableSwitch(d, low, high, offsets) =>
      EndOfTable(before, i, rest);
    case LookupSwitch(d, count, pairs) =>
      EndOfLookup(before, i, rest);
  }

  lemma {:induction false} EndOfTable(before: bytes, i: Instr, rest: bytes)
    requires ValidInstr(i) && i.TableSwitch?
    ensures var pc := |before|;
            var operand := OperandAt(i, pc);
            End(before + ([TABLESWITCH] + (operand + rest)), pc) == Ok(pc + 1 + |operand|)
  {
    var pc := |before|;
    var pad, low, high := Zeros(Padding(pc)), EncodeI32(i.low), EncodeI32(i.high);
    I32RoundTrip(i.low);
    I32RoundTrip(i.high);
    var tail := pad + i.default_ + low + high + i.offsets + rest;
    assert tail == pad + i.default_ + low + high + (i.offsets + rest);
    FieldsOf(pad, i.default_, low, high, i.offsets + rest);
    TailAt(before, TABLESWITCH, tail);
  }

  lemma {:induction false} EndOfLookup(before: bytes, i: Instr, rest: bytes)
    requires ValidInstr(i) && i.LookupSwitch?
    ensures var pc := |before|;
            var operand := OperandAt(i, pc);
            End(before + ([LOOKUPSWITCH] + (operand + rest)), pc) == Ok(pc + 1 + |operand|)
  {
    var pc := |before|;
    var pad, count := Zeros(Padding(pc)), EncodeI32(i.count);
    I32RoundTrip(i.count);
    var tail := pad + i.default_ + count + i.pairs + rest;
    assert tail == pad + i.default_ + count + (i.pairs + rest);
    FieldOf(pad, i.default_, count, i.pairs + rest);
    TailAt(before, LOOKUPSWITCH, tail);
  }

  lemma {:induction false} CodeAt(before: bytes, op: byte, operand: bytes, rest: bytes)
    ensures var code, pc := before + ([op] + operand + rest), |before|;
            && code == before + ([op] + (operand + rest))
            && code == before + [op] + operand + rest
            && code[pc] == op && code[pc + 1..pc + 1 + |operand|] == operand
  {
  }

  lemma {:induction false} CodeShows(before: bytes, op: byte, operand: bytes, rest: bytes, code: bytes)
    requires code == before + ([op] + operand + rest)
    ensures |before| + 1 + |operand| <= |code|
    ensures code[|before|] == op && code[|before| + 1..|before| + 1 + |operand|] == operand
  {
  }

  lemma {:induction false} CodeBehind(before: bytes, op: byte, operand: bytes, rest: bytes)
    ensures before + ([op] + operand + rest) == before + [op] + operand + rest
  {
  }

  predicate NoWide(list: seq<Instr>)
  {
    list == [] || (!list[0].Wide? && NoWide(list[1..]))
  }

  lemma {:induction false} JoinOneIff(s: Step, rest: Result<seq<Step>, WalkError>, e: Step, expected: seq<Step>)
    ensures Join([s], rest) == Ok([e] + expected) <==> s == e && rest == Ok(expected)
  {
    if rest.Ok? && [s] + rest.value == [e] + expected {
      assert ([s] + rest.value)[0] == ([e] + expected)[0];
      assert ([s] + rest.value)[1..] == rest.value && ([e] + expected)[1..] == expected;
    }
  }

  lemma {:induction false} WalkOne(code: bytes, pc: nat, end: nat)
    requires pc < |code| && End(code, pc) == Ok(end) && pc < end
    ensures Walk(code, pc) == Join([Step(pc, code[pc], Slice(code, pc + 1, end))], Walk(code, end))
  {
  }

  /** A step is as expected only when it covers the whole operand. */
  lemma {:induction false} WalkPast(code: bytes, pc: nat, operand: bytes, end: nat, expected: seq<Step>)
    requires pc + 1 + |operand| <= |code| && code[pc + 1..pc + 1 + |operand|] == operand
    requires End(code, pc) == Ok(end) && pc < end <= pc + 1 + |operand|
    ensures Walk(code, pc) == Ok([Step(pc, code[pc], operand)] + expected) <==>
            end == pc + 1 + |operand| && Walk(code, end) == Ok(expected)
  {
    var step := Step(pc, code[pc], Slice(code, pc + 1, end));
    WalkOne(code, pc, end);
    JoinOneIff(step, Walk(code, end), Step(pc, code[pc], operand), expected);
    assert |step.operand| == end - pc - 1;
  }

  /** The walker's end of an instruction, whichever way its code is put together. */
  lemma {:induction false} EndInCode(before: bytes, i: Instr, rest: bytes, code: bytes)
    requires ValidInstr(i) && code == before + ([OpOf(i)] + OperandAt(i, |before|) + rest)
    ensures End(code, |before|) == Ok(|before| + 1 + |OperandAt(i, |before|)| - if i.Wide? then 1 else 0)
    ensures i.Wide? ==> |OperandAt(i, |before|)| > 0
  {
    CodeAt(before, OpOf(i), OperandAt(i, |before|), rest);
    EndOfOne(before, i, rest);
  }

  /** The walk is as expected past one instruction exactly when that is not wide. */
  lemma {:induction false} WalkStepIff(before: bytes, i: Instr, rest: bytes, code: bytes, expected: seq<Step>)
    requires ValidInstr(i) && code == before + ([OpOf(i)] + OperandAt(i, |before|) + rest)
    ensures var operand := OperandAt(i, |before|);
            Walk(code, |before|) == Ok([Step(|before|, OpOf(i), operand)] + expected) <==>
            !i.Wide? && Walk(code, |before| + 1 + |operand|) == Ok(expected)
  {
    hide Walk, End, OperandAt, ValidInstr, OpOf;
    var operand, pc := OperandAt(i, |before|), |before|;
    CodeShows(before, OpOf(i), operand, rest, code);
    EndInCode(before, i, rest, code);
    WalkPast(code, pc, operand, pc + 1 + |operand| - if i.Wide? then 1 else 0, expected);
  }

  /** Walking the encoding of an instruction list gives the list back exactly when no instruction
      is wide: the walker takes a wide instruction for one byte shorter than it is. */
  lemma {:induction false} WalkRecoversTheListIff(before: bytes, list: seq<Instr>)
    requires ValidList(list)
    ensures Walk(before + Encode(list, |before|), |before|) == Ok(Listing(list, |before|)) <==> NoWide(list)
    decreases |list|
  {
    hide Walk, Encode, Listing, NoWide, OperandAt, OpOf, ValidInstr;
    if list == [] {
      WalkOfNothing(before);
    } else {
      var op, operand := OpOf(list[0]), OperandAt(list[0], |before|);
      var before', pc' := before + [op] + operand, |before| + 1 + |operand|;
      var rest, expected := Encode(list[1..], pc'), Listing(list[1..], pc');
      var code := before + ([op] + operand + rest);
      ListUnfolds(list, |before|);
      WalkStepIff(before, list[0], rest, code, expected);
      CodeBehind(before, op, operand, rest);
      WalkRecoversTheListIff(before', list[1..]);
      assert |before'| == pc' && before' + rest == code;
    }
  }

  lemma {:induction false} WalkOfNothing(before: bytes)
    ensures Walk(before + Encode([], |before|), |before|) == Ok(Listing([], |before|)) && NoWide([])
  {
  }

  lemma {:induction false} ListUnfolds(list: seq<Instr>, pc: nat)
    requires ValidList(list) && list != []
    ensures var operand := OperandAt(list[0], pc);
            && Encode(list, pc) == [OpOf(list[0])] + operand + Encode(list[1..], pc + 1 + |operand|)
            && Listing(list, pc) == [Step(pc, OpOf(list[0]), operand)] + Listing(list[1..], pc + 1 + |operand|)
    ensures NoWide(list) <==> !list[0].Wide? && NoWide(list[1..])
  {
    hide OperandAt, OpOf;
  }

  /** The smallest case: wide iload 5 reads as a shorter wide and a spurious iconst_2. */
  lemma {:induction false} WideIsCutShort()
    ensures Encode([Wide(0x15, [0x00, 0x05])], 0) == [0xc4, 0x15, 0x00, 0x05]
    ensures Walk([0xc4, 0x15, 0x00, 0x05], 0) == Ok([Step(0, WIDE, [0x15, 0x00]), Step(3, 0x05, [])])
  {
    var code: bytes := [0xc4, 0x15, 0x00, 0x05];
    assert [Wide(0x15, [0x00, 0x05])][1..] == [];
    assert code[1..3] == [0x15, 0x00];
    assert code[4..4] == [] && code[1..] == [0x15, 0x00, 0x05];
    WalkOne(code, 3, 4);
    WalkOne(code, 0, 3);
    assert Slice(code, 1, 3) == [0x15, 0x00];
    assert Slice(code, 4, 4) == [];
    var first, last := Step(0, WIDE, [0x15, 0x00]), Step(3, 0x05, []);
    assert Walk(code, 4).value == [];
    assert Walk(code, 3).value == [last] + [] == [last];
    assert Walk(code, 0).value == [first] + [last] == [first, last];
  }

  // ---------------------------------------------------------------------------------------------
  // decode: immediates
  // ---------------------------------------------------------------------------------------------

  datatype Ins = Ins(op: byte, arg: Option<int>)

  function Signed(n: nat, bits: nat): int
    requires bits in {0x100, 0x1_0000}
  {
    if n < bits / 2 then n else n - bits
  }

  /** bipush and sipush need their whole operand; every other opcode takes what is there. */
  predicate ImmediateCutShort(s: Step)
  {
    (s.op == 0x10 && |s.operand| < 1) || (s.op == 0x11 && |s.operand| < 2)
  }

  /** One entry of decode, without its pc. */
  function Immediate(op: byte, operand: bytes): Option<int>
    requires !ImmediateCutShort(Step(0, op, operand))
  {
    if op == 0x10 then Some(Signed(operand[0], 0x100))
    else if op == 0x11 then Some(Signed(FromU16(operand[..2]), 0x1_0000))
    else if op in {WIDE, TABLESWITCH, LOOKUPSWITCH} then None
    else if |operand| >= 2 then Some(FromU16(operand[..2]))
    else if |operand| == 1 then Some(operand[0])
    else None
  }

  function DecodeSteps(steps: seq<Step>): Result<seq<Ins>, WalkError>
  {
    if steps == [] then Ok([])
    else if ImmediateCutShort(steps[0]) then Err(CutShort)
    else
      var rest := DecodeSteps(steps[1..]);
      if rest.Err? then rest
      else Ok([Ins(steps[0].op, Immediate(steps[0].op, steps[0].operand))] + rest.value)
  }

  function Decode(code: bytes): Result<seq<Ins>, WalkError>
  {
    var steps := Walk(code, 0);
    if steps.Err? then Err(steps.error) else DecodeSteps(steps.value)
  }

  /** An instruction as decode reads it: what its operand says, and nothing for the switches. */
  function Read(i: Instr): Ins
    requires ValidInstr(i)
  {
    match i
    case Fixed(op, operand) => Ins(op, Immediate(op, operand))
    case _ => Ins(OpOf(i), None)
  }

  function ReadAll(list: seq<Instr>): (ins: seq<Ins>)
    requires ValidList(list)
    ensures |ins| == |list| && forall k | 0 <= k < |list| :: ins[k] == Read(list[k])
  {
    seq(|list|, k requires 0 <= k < |list| => Read(list[k]))
  }

  /** What an immediate is: signed for bipush and sipush, else the first two operand bytes big-endian,
      or the only one; none for an instruction without operands, a switch or a wide one. */
  lemma {:induction false} ImmediatesAre(op: byte, operand: bytes)
    requires !ImmediateCutShort(Step(0, op, operand)) && op !in {0xc4, 0xaa, 0xab}
    ensures var n := Immediate(op, operand);
            && (op == 0x10 ==> n.Some? && -128 <= n.value < 128 && (operand[0] as int - n.value) % 0x100 == 0)
            && (op == 0x11 ==>
                  && n.Some? && -0x8000 <= n.value < 0x8000
                  && (operand[0] as int * 0x100 + operand[1] as int - n.value) % 0x1_0000 == 0)
    ensures op !in {0x10, 0x11} ==>
              Immediate(op, operand) ==
              if operand == [] then None else if |operand| == 1 then Some(operand[0])
              else Some(operand[0] as int * 0x100 + operand[1] as int)
    ensures forall o, p | o in {WIDE, TABLESWITCH, LOOKUPSWITCH} :: Immediate(o, p) == None
  {
  }

  lemma {:induction false} ReadOne(i: Instr, pc: nat)
    requires ValidInstr(i)
    ensures var step := Step(pc, OpOf(i), OperandAt(i, pc));
            !ImmediateCutShort(step) && Ins(step.op, Immediate(step.op, step.operand)) == Read(i)
  {
  }

  lemma {:induction false} DecodeListing(list: seq<Instr>, pc: nat)
    requires ValidList(list)
    ensures DecodeSteps(Listing(list, pc)) == Ok(ReadAll(list))
    decreases |list|
  {
    hide OperandAt, ValidInstr, Read, Immediate, ImmediateCutShort;
    if list == [] {
      assert ReadAll(list) == [];
    } else {
      var i, operand := list[0], OperandAt(list[0], pc);
      var steps := Listing(list, pc);
      assert steps[1..] == Listing(list[1..], pc + 1 + |operand|);
      ReadOne(i, pc);
      DecodeListing(list[1..], pc + 1 + |operand|);
      assert ReadAll(list) == [Read(i)] + ReadAll(list[1..]);
    }
  }

  /** Decoding the bytes of any list without wide instructions reads each instruction once, in
      order. */
  lemma {:induction false} DecodeReadsTheList(list: seq<Instr>)
    requires ValidList(list) && NoWide(list)
    ensures Decode(Encode(list, 0)) == Ok(ReadAll(list))
  {
    WalkRecoversTheListIff([], list);
    assert [] + Encode(list, 0) == Encode(list, 0);
    DecodeListing(list, 0);
  }
}
