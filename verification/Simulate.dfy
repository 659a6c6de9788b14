/** scripts/extract_caps.py:719-1026: the forward engine on straight-line code. */
module Simulate {
  import opened Prelude
  import opened Bytecode
  import opened Descriptors
  import opened Compiling
  import opened Rebuild

  /** The payload of a 'const': None, a small float, or a wide or float pool entry. */
  datatype Payload = Null | Small(n: int) | Entry(index: int)

  /** OtherS stands for the values that only opcodes outside straight-line code make. */
  datatype Symbol =
    | IntS(n: int)
    | StrS(s: string)
    | ConstS(payload: Payload)
    | ThisS
    | ArgS(local: int, type_: string)
    | StaticS(field: Ref)
    | FieldS(field: Ref, target: Symbol)
    | RetS(callee: Ref, receiver: Option<Symbol>, args: List<Symbol>)
    | UnkS
    | TopS
    | OtherS(id: int)

  datatype SimEvent =
    | PutStatic(pc: nat, field: Ref, value: Symbol)
    | Invoke(pc: nat, callee: Ref, receiver: Option<Symbol>, args: List<Symbol>)
    | OtherEvent(id: int)

  datatype SimState = SimState(stack: seq<Symbol>, locals: map<int, Symbol>, events: seq<SimEvent>)

  /** The class file's pool, and whatever step does for the opcodes outside straight-line code. */
  datatype Rules = Rules(pool: Pool, others: (SimState, nat, byte, bytes) -> SimState)

  // ---------------------------------------------------------------------------------------------
  // The stack
  // ---------------------------------------------------------------------------------------------

  /** pop(1)[0], with what is left. */
  function Pop(stack: seq<Symbol>): (Symbol, seq<Symbol>)
  {
    if stack == [] then (UnkS, []) else (stack[|stack| - 1], stack[..|stack| - 1])
  }

  function PopTyped(stack: seq<Symbol>, t: string): (Symbol, seq<Symbol>)
  {
    if Slots(t) == 2 then Pop(Pop(stack).1) else Pop(stack)
  }

  /** One popt a declared type, last type first. */
  function PopArgs(stack: seq<Symbol>, types: seq<string>): (List<Symbol>, seq<Symbol>)
    decreases |types|
  {
    if types == [] then (Nil, stack)
    else
      var last := PopTyped(stack, types[|types| - 1]);
      var rest := PopArgs(last.1, types[..|types| - 1]);
      (Snoc(rest.0, last.0), rest.1)
  }

  function Typed(v: Symbol, t: string): seq<Symbol>
  {
    if Slots(t) == 2 then [v, TopS] else [v]
  }

  // ---------------------------------------------------------------------------------------------
  // step
  // ---------------------------------------------------------------------------------------------

  function U2(operand: bytes): nat
  {
    if |operand| >= 2 then FromU16(operand[..2]) else if |operand| == 1 then operand[0] else 0
  }

  /** const_value, tagged: an Integer and a Long are both ints. */
  function Pooled(pool: Pool, i: int): Symbol
  {
    match pool(i)
    case StringEntry(s) => StrS(s)
    case IntegerEntry(n) => IntS(n)
    case LongEntry(n) => IntS(n)
    case OtherEntry(tag) => if tag in {4, 6} then ConstS(Entry(i)) else ConstS(Null)
    case _ => ConstS(Null)
  }

  /** Opcodes 0x01 to 0x14: what they push, or None where reading the operand raises. */
  function Constant(pool: Pool, op: byte, operand: bytes): Option<seq<Symbol>>
    requires 0x01 <= op <= 0x14
  {
    if op == 0x01 then Some([ConstS(Null)])
    else if op <= 0x08 then Some([IntS(op - 0x03)])
    else if op <= 0x0a then Some([IntS(op - 0x09), TopS])
    else if op <= 0x0d then Some([ConstS(Small(op - 0x0b))])
    else if op <= 0x0f then Some([ConstS(Small(op - 0x0e)), TopS])
    else if op == 0x10 then (if |operand| >= 1 then Some([IntS(Signed(operand[0], 0x100))]) else None)
    else if op == 0x11 then
      (if |operand| >= 2 then Some([IntS(Signed(FromU16(operand[..2]), 0x1_0000))]) else None)
    else if op == 0x12 then (if |operand| >= 1 then Some([Pooled(pool, operand[0])]) else None)
    else if op == 0x13 then Some([Pooled(pool, U2(operand))])
    else Some([ConstS(Entry(U2(operand))), TopS])
  }

  function Local(locals: map<int, Symbol>, slot: int): Symbol
  {
    if slot in locals then locals[slot] else UnkS
  }

  /** What run does when a step raises. */
  function Raised(s: SimState): SimState
  {
    s.(stack := [])
  }

  /** The slot of a load or store: in the opcode, or in its operand. */
  function SlotOf(op: byte, base: nat, operand: bytes): Option<int>
    requires base <= op <= base + 0x18
  {
    if op >= base + 5 then Some((op - base - 5) % 4)
    else if |operand| >= 1 then Some(operand[0])
    else None
  }

  predicate TwoSlots(op: byte, base: nat)
    requires base <= op <= base + 0x18
  {
    var kind := if op >= base + 5 then (op - base - 5) / 4 else op - base;
    kind == 1 || kind == 3
  }

  function StepLoad(s: SimState, op: byte, operand: bytes): SimState
    requires 0x15 <= op <= 0x2d
  {
    var slot := SlotOf(op, 0x15, operand);
    if slot.None? then Raised(s)
    else s.(stack := s.stack + [Local(s.locals, slot.value)] + if TwoSlots(op, 0x15) then [TopS] else [])
  }

  function StepStore(s: SimState, op: byte, operand: bytes): SimState
    requires 0x36 <= op <= 0x4e
  {
    var slot := SlotOf(op, 0x36, operand);
    if slot.None? then Raised(s)
    else
      var top := Pop(if TwoSlots(op, 0x36) then Pop(s.stack).1 else s.stack);
      s.(stack := top.1, locals := s.locals[slot.value := top.0])
  }

  /** getstatic, putstatic, getfield and putfield. */
  function StepField(pool: Pool, s: SimState, pc: nat, op: byte, operand: bytes): SimState
    requires 0xb2 <= op <= 0xb5
  {
    var field := Lookup(pool, U2(operand));
    if field.None? then Raised(s)
    else if op == 0xb2 then
      s.(stack := s.stack + Typed(StaticS(field.value), field.value.desc))
    else if op == 0xb3 then
      var v := PopTyped(s.stack, field.value.desc);
      s.(stack := v.1, events := s.events + [PutStatic(pc, field.value, v.0)])
    else if op == 0xb4 then
      var receiver := Pop(s.stack);
      s.(stack := receiver.1 + Typed(FieldS(field.value, receiver.0), field.value.desc))
    else s.(stack := Pop(PopTyped(s.stack, field.value.desc).1).1)
  }

  /** invokevirtual, invokespecial, invokestatic and invokeinterface. */
  function StepInvoke(pool: Pool, s: SimState, pc: nat, op: byte, operand: bytes): SimState
    requires 0xb6 <= op <= 0xb9
  {
    var callee := Lookup(pool, U2(operand));
    if callee.None? || ParseArgs(callee.value.desc).None? || RetType(callee.value.desc).None? then Raised(s)
    else
      var args := PopArgs(s.stack, ParseArgs(callee.value.desc).value);
      var below := Pop(args.1);
      var receiver, stack := if op == 0xb8 then None else Some(below.0), if op == 0xb8 then args.1 else below.1;
      var ret := RetType(callee.value.desc).value;
      s.(stack := stack + if ret == "V" then [] else Typed(RetS(callee.value, receiver, args.0), ret),
         events := s.events + [Invoke(pc, callee.value, receiver, args.0)])
  }

  function StepOf(rules: Rules, s: SimState, pc: nat, op: byte, operand: bytes): SimState
  {
    if op in {0x00, 0xc0} then s
    else if op <= 0x14 then
      var pushed := Constant(rules.pool, op, operand);
      if pushed.None? then Raised(s) else s.(stack := s.stack + pushed.value)
    else if op <= 0x2d then StepLoad(s, op, operand)
    else if 0x36 <= op <= 0x4e then StepStore(s, op, operand)
    else if op == 0x57 then s.(stack := Pop(s.stack).1)
    else if op == 0x58 then s.(stack := Pop(Pop(s.stack).1).1)
    else if 0xac <= op <= 0xb1 then s.(stack := [])
    else if 0xb2 <= op <= 0xb5 then StepField(rules.pool, s, pc, op, operand)
    else if 0xb6 <= op <= 0xb9 then StepInvoke(rules.pool, s, pc, op, operand)
    else rules.others(s, pc, op, operand)
  }

  function RunSteps(rules: Rules, s: SimState, steps: seq<Step>): SimState
    decreases |steps|
  {
    if steps == [] then s
    else RunSteps(rules, StepOf(rules, s, steps[0].pc, steps[0].op, steps[0].operand), steps[1..])
  }

  /** The state after a method body, which stays as it was if the body cannot be walked. */
  function StateAfter(rules: Rules, s: SimState, code: bytes): SimState
  {
    if Walk(code, 0).Ok? then RunSteps(rules, s, Walk(code, 0).value) else s
  }

  /** The parameters, from a slot on. */
  function Parameters(locals: map<int, Symbol>, i: nat, types: seq<string>): map<int, Symbol>
    decreases |types|
  {
    if types == [] then locals
    else Parameters(locals[i := ArgS(i, types[0])], i + Slots(types[0]), types[1..])
  }

  function Initial(isStatic: bool, types: seq<string>): SimState
  {
    SimState([], if isStatic then Parameters(map[], 0, types) else Parameters(map[0 := ThisS], 1, types), [])
  }

  class Sim {
    const rules: Rules
    var stack: seq<Symbol>
    var locals: map<int, Symbol>
    var events: seq<SimEvent>

    function State(): SimState
      reads this
    {
      SimState(stack, locals, events)
    }

    constructor (rules: Rules, isStatic: bool, desc: string)
      requires ParseArgs(desc).Some?
      ensures this.rules == rules && State() == Initial(isStatic, ParseArgs(desc).value)
    {
      this.rules := rules;
      stack, locals, events := [], if isStatic then map[] else map[0 := ThisS], [];
      new;
      var types := ReadArgs(desc);
      var i, n := if isStatic then 0 else 1, 0;
      while n < |types.value|
        invariant 0 <= i && n <= |types.value| && stack == [] && events == []
        invariant Parameters(locals, i, types.value[n..]) == Initial(isStatic, types.value).locals
      {
        locals := locals[i := ArgS(i, types.value[n])];
        i, n := i + Slots(types.value[n]), n + 1;
      }
    }

    method Push(v: Symbol)
      modifies this`stack
      ensures stack == old(stack) + [v]
    {
      stack := stack + [v];
    }

    method PopOne() returns (v: Symbol)
      modifies this`stack
      ensures (v, stack) == Pop(old(stack))
    {
      if stack == [] {
        return UnkS;
      }
      v, stack := stack[|stack| - 1], stack[..|stack| - 1];
    }

    method PopT(t: string) returns (v: Symbol)
      modifies this`stack
      ensures (v, stack) == PopTyped(old(stack), t)
    {
      if Slots(t) == 2 {
        v := PopOne();
      }
      v := PopOne();
    }

    method PopAll(types: seq<string>) returns (args: List<Symbol>)
      modifies this`stack
      ensures (args, stack) == PopArgs(old(stack), types)
      decreases |types|
    {
      if types == [] {
        return Nil;
      }
      var last := PopT(types[|types| - 1]);
      var rest := PopAll(types[..|types| - 1]);
      args := Snoc(rest, last);
    }

    method PushTyped(v: Symbol, t: string)
      modifies this`stack
      ensures stack == old(stack) + Typed(v, t)
    {
      Push(v);
      if Slots(t) == 2 {
        Push(TopS);
      }
    }

    method LoadLocal(op: byte, operand: bytes)
      requires 0x15 <= op <= 0x2d
      modifies this`stack
      ensures State() == StepLoad(old(State()), op, operand)
    {
      var slot := SlotOf(op, 0x15, operand);
      if slot.None? {
        stack := [];
        return;
      }
      Push(Local(locals, slot.value));
      if TwoSlots(op, 0x15) {
        Push(TopS);
      }
    }

    method StoreLocal(op: byte, operand: bytes)
      requires 0x36 <= op <= 0x4e
      modifies this`stack, this`locals
      ensures State() == StepStore(old(State()), op, operand)
    {
      var slot := SlotOf(op, 0x36, operand);
      if TwoSlots(op, 0x36) {
        var _ := PopOne();
      }
      var v := PopOne();
      if slot.None? {
        stack := [];
        return;
      }
      locals := locals[slot.value := v];
    }

    method Field(pc: nat, op: byte, operand: bytes)
      requires 0xb2 <= op <= 0xb5
      modifies this`stack, this`events
      ensures State() == StepField(rules.pool, old(State()), pc, op, operand)
    {
      var field := Lookup(rules.pool, U2(operand));
      if field.None? {
        stack := [];
        return;
      }
      if op == 0xb2 {
        PushTyped(StaticS(field.value), field.value.desc);
      } else if op == 0xb3 {
        var v := PopT(field.value.desc);
        events := events + [PutStatic(pc, field.value, v)];
      } else if op == 0xb4 {
        var receiver := PopOne();
        PushTyped(FieldS(field.value, receiver), field.value.desc);
      } else {
        var _ := PopT(field.value.desc);
        var _ := PopOne();
      }
    }

    method InvokeMethod(pc: nat, op: byte, operand: bytes)
      requires 0xb6 <= op <= 0xb9
      modifies this`stack, this`events
      ensures State() == StepInvoke(rules.pool, old(State()), pc, op, operand)
    {
      var callee := Lookup(rules.pool, U2(operand));
      if callee.None? || ParseArgs(callee.value.desc).None? || RetType(callee.value.desc).None? {
        stack := [];
        return;
      }
      var ret := RetType(callee.value.desc).value;
      var args := PopAll(ParseArgs(callee.value.desc).value);
      var receiver: Option<Symbol> := None;
      if op != 0xb8 {
        var v := PopOne();
        receiver := Some(v);
      }
      events := events + [Invoke(pc, callee.value, receiver, args)];
      if ret != "V" {
        PushTyped(RetS(callee.value, receiver, args), ret);
      }
    }

    method Step(pc: nat, op: byte, operand: bytes)
      modifies this
      ensures State() == StepOf(rules, old(State()), pc, op, operand)
    {
      if op in {0x00, 0xc0} {
      } else if op <= 0x14 {
        var pushed := Constant(rules.pool, op, operand);
        stack := if pushed.None? then [] else stack + pushed.value;
      } else if op <= 0x2d {
        LoadLocal(op, operand);
      } else if 0x36 <= op <= 0x4e {
        StoreLocal(op, operand);
      } else if op == 0x57 {
        var _ := PopOne();
      } else if op == 0x58 {
        var _ := PopOne();
        var _ := PopOne();
      } else if 0xac <= op <= 0xb1 {
        stack := [];
      } else if 0xb2 <= op <= 0xb5 {
        Field(pc, op, operand);
      } else if 0xb6 <= op <= 0xb9 {
        InvokeMethod(pc, op, operand);
      } else {
        var s := rules.others(State(), pc, op, operand);
        stack, locals, events := s.stack, s.locals, s.events;
      }
    }

    /** Code that cannot be walked is not run at all. */
    method Run(code: bytes)
      modifies this
      ensures State() == StateAfter(rules, old(State()), code)
    {
      var steps := WalkCode(code);
      if steps.Err? {
        return;
      }
      var n := 0;
      while n < |steps.value|
        invariant n <= |steps.value|
        invariant RunSteps(rules, State(), steps.value[n..]) == RunSteps(rules, old(State()), steps.value)
      {
        Step(steps.value[n].pc, steps.value[n].op, steps.value[n].operand);
        n := n + 1;
      }
    }
  }

  // ---------------------------------------------------------------------------------------------
  // The meaning of compiled code, going forward
  // ---------------------------------------------------------------------------------------------

  function First<T>(l: List<T>): T
    requires l.Snoc?
  {
    if l.init.Nil? then l.last else First(l.init)
  }

  function Rest<T>(l: List<T>): List<T>
    requires l.Snoc?
  {
    if l.init.Nil? then Nil else Snoc(Rest(l.init), l.last)
  }

  function Called(callee: Option<Ref>, isStatic: bool, values: List<Symbol>): Symbol
  {
    if callee.None? || (values.Nil? && !isStatic) then UnkS
    else if isStatic then RetS(callee.value, None, values)
    else RetS(callee.value, Some(First(values)), Rest(values))
  }

  /** The value of an expression, given the locals. */
  function Eval(pool: Pool, locals: map<int, Symbol>, e: Expr): Symbol
    decreases e
  {
    match e
    case Const(n) => IntS(n)
    case Ldc(index) => Pooled(pool, index)
    case Load(_, slot) => Local(locals, slot)
    case GetStatic(index) => if Lookup(pool, index).Some? then StaticS(Lookup(pool, index).value) else UnkS
    case GetField(index, receiver) =>
      var target := Eval(pool, locals, receiver);
      if Lookup(pool, index).Some? then FieldS(Lookup(pool, index).value, target) else UnkS
    case Call(op, index, operands) => Called(Lookup(pool, index), op == 0xb8, EvalAll(pool, locals, operands))
    case Cast(_, value) => Eval(pool, locals, value)
  }

  function EvalAll(pool: Pool, locals: map<int, Symbol>, es: List<Expr>): List<Symbol>
    decreases es
  {
    match es
    case Nil => Nil
    case Snoc(init, last) => Snoc(EvalAll(pool, locals, init), Eval(pool, locals, last))
  }

  /** The locals after a program. */
  function LocalsAfter(pool: Pool, p: Prog, locals: map<int, Symbol>): map<int, Symbol>
  {
    match p
    case Nil => locals
    case Snoc(init, s) =>
      var before := LocalsAfter(pool, init, locals);
      if s.Store? then before[s.slot := Eval(pool, before, s.value)] else before
  }

  // ---------------------------------------------------------------------------------------------
  // The events compiled code records
  // ---------------------------------------------------------------------------------------------

  /** The bytes of an expression's code. */
  function Width(e: Expr): nat
    decreases e
  {
    match e
    case Const(n) => if -1 <= n <= 5 then 1 else if -0x80 <= n < 0x80 then 2 else 3
    case Ldc(index) => if index < 0x100 then 2 else 3
    case Load(_, slot) => if slot < 4 then 1 else 2
    case GetStatic(_) => 3
    case GetField(_, receiver) => Width(receiver) + 3
    case Call(op, _, operands) => WidthAll(operands) + if op in {0xb9, 0xba} then 5 else 3
    case Cast(_, value) => Width(value) + 3
  }

  function WidthAll(es: List<Expr>): nat
    decreases es
  {
    match es
    case Nil => 0
    case Snoc(init, last) => WidthAll(init) + Width(last)
  }

  function WidthStmt(s: Stmt): nat
  {
    match s
    case Store(_, slot, value) => Width(value) + if slot < 4 then 1 else 2
    case Assign(_, value) => Width(value) + 3
    case Discard(value) => Width(value) + 1
    case Perform(value) => Width(value)
  }

  function WidthProg(p: Prog): nat
  {
    match p
    case Nil => 0
    case Snoc(init, s) => WidthProg(init) + WidthStmt(s)
  }

  /** A call with its operands in order: the receiver first unless it is static. */
  function CallEvent(pc: nat, callee: Ref, isStatic: bool, operands: List<Symbol>): SimEvent
  {
    if isStatic || operands.Nil? then Invoke(pc, callee, None, operands)
    else Invoke(pc, callee, Some(First(operands)), Rest(operands))
  }

  /** The calls of an expression whose code starts at pc: each behind those of its operands, at the pc
      of its own instruction, with the values its operands have. */
  function CallsOf(pool: Pool, locals: map<int, Symbol>, e: Expr, pc: nat): seq<SimEvent>
    decreases e
  {
    match e
    case GetField(_, receiver) => CallsOf(pool, locals, receiver, pc)
    case Cast(_, value) => CallsOf(pool, locals, value, pc)
    case Call(op, index, operands) =>
      CallsOfAll(pool, locals, operands, pc)
      + if Lookup(pool, index).None? then []
        else [CallEvent(pc + WidthAll(operands), Lookup(pool, index).value, op == 0xb8,
                        EvalAll(pool, locals, operands))]
    case _ => []
  }

  function CallsOfAll(pool: Pool, locals: map<int, Symbol>, es: List<Expr>, pc: nat): seq<SimEvent>
    decreases es
  {
    match es
    case Nil => []
    case Snoc(init, last) =>
      CallsOfAll(pool, locals, init, pc) + CallsOf(pool, locals, last, pc + WidthAll(init))
  }

  /** Those of a statement, and the field it assigns with the value it gets. */
  function EventsOf(pool: Pool, locals: map<int, Symbol>, s: Stmt, pc: nat): seq<SimEvent>
  {
    CallsOf(pool, locals, s.value, pc)
    + if s.Assign? && Lookup(pool, s.index).Some? then
        [PutStatic(pc + Width(s.value), Lookup(pool, s.index).value, Eval(pool, locals, s.value))]
      else []
  }

  /** Those of a program, statement by statement, each with the locals before it. */
  function EventsOfProg(pool: Pool, locals: map<int, Symbol>, p: Prog, pc: nat): seq<SimEvent>
  {
    match p
    case Nil => []
    case Snoc(init, s) =>
      EventsOfProg(pool, locals, init, pc)
      + EventsOf(pool, LocalsAfter(pool, init, locals), s, pc + WidthProg(init))
  }

  // ---------------------------------------------------------------------------------------------
  // Code whose values all take one slot
  // ---------------------------------------------------------------------------------------------

  predicate Narrow(t: string)
  {
    Slots(t) == 1
  }

  predicate NarrowKind(k: Kind)
  {
    k != LongKind && k != DoubleKind
  }

  predicate NarrowField(pool: Pool, index: nat)
  {
    Lookup(pool, index).Some? && Narrow(Lookup(pool, index).value.desc)
  }

  predicate NarrowCall(pool: Pool, op: byte, index: nat, operands: nat)
  {
    && 0xb6 <= op <= 0xb9
    && Lookup(pool, index).Some?
    && var desc := Lookup(pool, index).value.desc;
       && ParseArgs(desc).Some? && RetType(desc).Some? && Narrow(RetType(desc).value)
       && (forall k | 0 <= k < |ParseArgs(desc).value| :: Narrow(ParseArgs(desc).value[k]))
       && operands == |ParseArgs(desc).value| + if op == 0xb8 then 0 else 1
  }

  predicate ReturnsNothing(pool: Pool, index: nat)
    requires Lookup(pool, index).Some?
  {
    RetType(Lookup(pool, index).value.desc) == Some("V")
  }

  predicate NarrowExpr(pool: Pool, e: Expr)
    decreases e
  {
    match e
    case Load(kind, _) => NarrowKind(kind)
    case GetStatic(index) => NarrowField(pool, index)
    case GetField(index, receiver) => NarrowField(pool, index) && NarrowExpr(pool, receiver)
    case Call(op, index, operands) =>
      NarrowCall(pool, op, index, Length(operands)) && !ReturnsNothing(pool, index) && AllNarrow(pool, operands)
    case Cast(_, value) => NarrowExpr(pool, value)
    case _ => true
  }

  predicate AllNarrow(pool: Pool, es: List<Expr>)
    decreases es
  {
    match es
    case Nil => true
    case Snoc(init, last) => AllNarrow(pool, init) && NarrowExpr(pool, last)
  }

  predicate NarrowStmt(pool: Pool, s: Stmt)
  {
    match s
    case Store(kind, _, value) => NarrowKind(kind) && NarrowExpr(pool, value)
    case Assign(index, value) => NarrowField(pool, index) && NarrowExpr(pool, value)
    case Discard(value) => NarrowExpr(pool, value)
    case Perform(value) =>
      && value.Call? && NarrowCall(pool, value.op, value.index, Length(value.operands))
      && ReturnsNothing(pool, value.index) && AllNarrow(pool, value.operands)
  }

  predicate NarrowProg(pool: Pool, p: Prog)
  {
    match p
    case Nil => true
    case Snoc(init, s) => NarrowProg(pool, init) && NarrowStmt(pool, s)
  }

  // ---------------------------------------------------------------------------------------------
  // Running instruction lists
  // ---------------------------------------------------------------------------------------------

  predicate AllFixed(list: seq<Instr>)
  {
    forall k | 0 <= k < |list| :: list[k].Fixed?
  }

  function RunList(rules: Rules, s: SimState, list: seq<Instr>, pc: nat): (SimState, nat)
    requires AllFixed(list)
    decreases |list|
  {
    if list == [] then (s, pc)
    else
      RunList(rules, StepOf(rules, s, pc, list[0].op, list[0].operand), list[1..], pc + 1 + |list[0].operand|)
  }

  lemma {:induction false} RunsInTurn(rules: Rules, s: SimState, a: seq<Instr>, b: seq<Instr>, pc: nat)
    requires AllFixed(a) && AllFixed(b)
    ensures AllFixed(a + b)
    ensures var middle := RunList(rules, s, a, pc);
            RunList(rules, s, a + b, pc) == RunList(rules, middle.0, b, middle.1)
    decreases |a|
  {
    if a == [] {
      assert a + b == b;
    } else {
      assert (a + b)[1..] == a[1..] + b;
      RunsInTurn(rules, StepOf(rules, s, pc, a[0].op, a[0].operand), a[1..], b, pc + 1 + |a[0].operand|);
    }
  }

  lemma {:induction false} RunsOne(rules: Rules, s: SimState, i: Instr, pc: nat)
    requires i.Fixed?
    ensures AllFixed([i])
    ensures RunList(rules, s, [i], pc) == (StepOf(rules, s, pc, i.op, i.operand), pc + 1 + |i.operand|)
  {
    assert [i][1..] == [];
  }

  lemma {:induction false} RunsTheListing(rules: Rules, s: SimState, list: seq<Instr>, pc: nat)
    requires AllFixed(list) && ValidList(list)
    ensures RunSteps(rules, s, Listing(list, pc)) == RunList(rules, s, list, pc).0
    decreases |list|
  {
    hide StepOf, ValidInstr;
    if list != [] {
      var next := pc + 1 + |list[0].operand|;
      assert Listing(list, pc)[1..] == Listing(list[1..], next);
      RunsTheListing(rules, StepOf(rules, s, pc, list[0].op, list[0].operand), list[1..], next);
    }
  }
}
