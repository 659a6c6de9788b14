/** scripts/extract_caps.py:719-1026 and 1028-1137: what the forward engine leaves on its stack after
    compiled code, and that the backward engine rebuilds the same value. */
module Agreement {
  import opened Prelude
  import opened Bytecode
  import opened Descriptors
  import opened Compiling
  import opened Rebuild
  import opened Simulate

  // ---------------------------------------------------------------------------------------------
  // Popping operands
  // ---------------------------------------------------------------------------------------------

  function ToSeq<T>(l: List<T>): (s: seq<T>)
    ensures |s| == Length(l)
  {
    match l
    case Nil => []
    case Snoc(init, last) => ToSeq(init) + [last]
  }

  lemma {:induction false} FirstAndRest<T>(l: List<T>)
    requires l.Snoc?
    ensures ToSeq(l) == [First(l)] + ToSeq(Rest(l)) && Cons(First(l), Rest(l)) == l
  {
    if l.init.Snoc? {
      FirstAndRest(l.init);
    }
  }

  lemma {:induction false} PopOffTop(stack: seq<Symbol>, v: Symbol)
    ensures Pop(stack + [v]) == (v, stack)
  {
  }

  /** Popping one value a type gives back the values in the order they were pushed. */
  lemma {:induction false} PopArgsTakesAll(stack: seq<Symbol>, vs: List<Symbol>, types: seq<string>)
    requires Length(vs) == |types| && forall k | 0 <= k < |types| :: Narrow(types[k])
    ensures PopArgs(stack + ToSeq(vs), types) == (vs, stack)
    decreases vs
  {
    if vs.Snoc? {
      assert stack + ToSeq(vs) == (stack + ToSeq(vs.init)) + [vs.last];
      PopOffTop(stack + ToSeq(vs.init), vs.last);
      PopArgsTakesAll(stack, vs.init, types[..|types| - 1]);
    } else {
      assert stack + ToSeq(vs) == stack;
    }
  }

  lemma {:induction false} PopsCallOperands(stack: seq<Symbol>, vs: List<Symbol>, types: seq<string>)
    requires Length(vs) == |types| + 1 && forall k | 0 <= k < |types| :: Narrow(types[k])
    ensures PopArgs(stack + ToSeq(vs), types) == (Rest(vs), stack + [First(vs)])
    ensures Pop(stack + [First(vs)]) == (First(vs), stack)
  {
    FirstAndRest(vs);
    assert stack + ToSeq(vs) == (stack + [First(vs)]) + ToSeq(Rest(vs));
    PopArgsTakesAll(stack + [First(vs)], Rest(vs), types);
    PopOffTop(stack, First(vs));
  }

  // ---------------------------------------------------------------------------------------------
  // One instruction
  // ---------------------------------------------------------------------------------------------

  /** s2 is s1 with values pushed and events recorded. */
  predicate Pushed(s1: SimState, s2: SimState, vs: seq<Symbol>, es: seq<SimEvent>)
  {
    s2.stack == s1.stack + vs && s2.locals == s1.locals && s2.events == s1.events + es
  }

  lemma {:induction false} U2OfIndex(index: nat, more: bytes)
    requires index < 0x1_0000
    ensures U2(U16(index) + more) == index && U2(U16(index)) == index
  {
    U16Truncates(index);
    assert (U16(index) + more)[..2] == U16(index) && U16(index)[..2] == U16(index);
  }

  lemma {:induction false} ShortIsRead(pool: Pool, n: int)
    requires -0x8000 <= n < 0x8000
    ensures Constant(pool, 0x11, U16(n % 0x1_0000)) == Some([IntS(n)])
  {
    U16Truncates(n % 0x1_0000);
    assert U16(n % 0x1_0000)[..2] == U16(n % 0x1_0000);
  }

  lemma {:induction false} ConstIsRead(pool: Pool, n: int)
    requires -0x8000 <= n < 0x8000
    ensures var i := ConstInstr(n);
            i.Fixed? && 0x01 <= i.op <= 0x14 && Constant(pool, i.op, i.operand) == Some([IntS(n)])
  {
    ShortIsRead(pool, n);
  }

  lemma {:induction false} ConstSteps(rules: Rules, s: SimState, n: int, pc: nat)
    requires -0x8000 <= n < 0x8000
    ensures var i := ConstInstr(n);
            && i.Fixed? && 1 + |i.operand| == Width(Const(n))
            && Pushed(s, StepOf(rules, s, pc, i.op, i.operand), [IntS(n)], [])
  {
    ConstIsRead(rules.pool, n);
    assert s.events + [] == s.events;
  }

  lemma {:induction false} LdcSteps(rules: Rules, s: SimState, index: nat, pc: nat)
    requires index < 0x1_0000
    ensures var i := LdcInstr(index);
            && i.Fixed? && 1 + |i.operand| == Width(Ldc(index))
            && Pushed(s, StepOf(rules, s, pc, i.op, i.operand), [Pooled(rules.pool, index)], [])
  {
    U2OfIndex(index, []);
    assert s.events + [] == s.events;
  }

  lemma {:induction false} SlotsOfLocals(kind: Kind, slot: nat)
    requires slot < 256
    ensures var i := LoadInstr(kind, slot);
            && i.Fixed? && 0x15 <= i.op <= 0x2d && SlotOf(i.op, 0x15, i.operand) == Some(slot)
            && 1 + |i.operand| == (if slot < 4 then 1 else 2)
            && (TwoSlots(i.op, 0x15) <==> !NarrowKind(kind))
    ensures var i := StoreInstr(kind, slot);
            && i.Fixed? && 0x36 <= i.op <= 0x4e && SlotOf(i.op, 0x36, i.operand) == Some(slot)
            && 1 + |i.operand| == (if slot < 4 then 1 else 2)
            && (TwoSlots(i.op, 0x36) <==> !NarrowKind(kind))
  {
    var n := KindIndex(kind);
    assert slot < 4 ==> (4 * n + slot) / 4 == n && (4 * n + slot) % 4 == slot;
  }

  lemma {:induction false} LoadSteps(rules: Rules, s: SimState, kind: Kind, slot: nat, pc: nat)
    requires slot < 256 && NarrowKind(kind)
    ensures var i := LoadInstr(kind, slot);
            && i.Fixed? && 1 + |i.operand| == Width(Load(kind, slot))
            && Pushed(s, StepOf(rules, s, pc, i.op, i.operand), [Local(s.locals, slot)], [])
  {
    SlotsOfLocals(kind, slot);
    assert [Local(s.locals, slot)] + [] == [Local(s.locals, slot)] && s.events + [] == s.events;
  }

  lemma {:induction false} StaticSteps(rules: Rules, s: SimState, index: nat, pc: nat)
    requires index < 0x1_0000 && NarrowField(rules.pool, index)
    ensures Pushed(s, StepOf(rules, s, pc, 0xb2, U16(index)), [StaticS(Lookup(rules.pool, index).value)], [])
  {
    U2OfIndex(index, []);
    assert s.events + [] == s.events;
  }

  lemma {:induction false} FieldSteps(rules: Rules, s: SimState, below: SimState, v: Symbol, es: seq<SimEvent>,
                                      index: nat, pc: nat)
    requires index < 0x1_0000 && NarrowField(rules.pool, index) && Pushed(below, s, [v], es)
    ensures Pushed(below, StepOf(rules, s, pc, 0xb4, U16(index)), [FieldS(Lookup(rules.pool, index).value, v)], es)
  {
    U2OfIndex(index, []);
    PopOffTop(below.stack, v);
  }

  /** putstatic records the field with the value on top, and takes that off. */
  lemma {:induction false} AssignSteps(rules: Rules, s: SimState, below: SimState, v: Symbol, es: seq<SimEvent>,
                                       index: nat, pc: nat)
    requires index < 0x1_0000 && NarrowField(rules.pool, index) && Pushed(below, s, [v], es)
    ensures Pushed(below, StepOf(rules, s, pc, 0xb3, U16(index)), [],
                   es + [PutStatic(pc, Lookup(rules.pool, index).value, v)])
  {
    U2OfIndex(index, []);
    PopOffTop(below.stack, v);
    Associates(below.events, es, [PutStatic(pc, Lookup(rules.pool, index).value, v)]);
    assert below.stack + [] == below.stack;
  }

  lemma {:induction false} InvokeSteps(rules: Rules, s: SimState, below: SimState, vs: List<Symbol>, es: seq<SimEvent>,
                                       op: byte, index: nat, pc: nat)
    requires index < 0x1_0000 && NarrowCall(rules.pool, op, index, Length(vs)) && Pushed(below, s, ToSeq(vs), es)
    ensures var i, callee := CallInstr(op, index, Length(vs)), Lookup(rules.pool, index);
            Pushed(below, StepOf(rules, s, pc, op, i.operand),
                   if ReturnsNothing(rules.pool, index) then [] else [Called(callee, op == 0xb8, vs)],
                   es + [CallEvent(pc, callee.value, op == 0xb8, vs)])
  {
    var operand := CallInstr(op, index, Length(vs)).operand;
    U2OfIndex(index, operand[2..]);
    assert operand == U16(index) + operand[2..];
    var callee := Lookup(rules.pool, index).value;
    var types := ParseArgs(callee.desc).value;
    if op == 0xb8 {
      PopArgsTakesAll(below.stack, vs, types);
    } else {
      PopsCallOperands(below.stack, vs, types);
    }
    Associates(below.events, es, [CallEvent(pc, callee, op == 0xb8, vs)]);
  }

  // ---------------------------------------------------------------------------------------------
  // One instruction, on values of any width
  // ---------------------------------------------------------------------------------------------

  /** Values as they lie on the stack, each with a second slot where its type has two. */
  function TypedAll(vs: List<Symbol>, types: seq<string>): seq<Symbol>
    requires Length(vs) == |types|
  {
    match vs
    case Nil => []
    case Snoc(init, last) => TypedAll(init, types[..|types| - 1]) + Typed(last, types[|types| - 1])
  }

  lemma {:induction false} PopsTyped(below: seq<Symbol>, v: Symbol, t: string)
    ensures PopTyped(below + Typed(v, t), t) == (v, below)
  {
    PopOffTop(below, v);
    if Slots(t) == 2 {
      PopOffTop(below + [v], TopS);
      assert below + [v, TopS] == below + [v] + [TopS];
    }
  }

  lemma {:induction false} PopsArguments(below: seq<Symbol>, vs: List<Symbol>, types: seq<string>)
    requires Length(vs) == |types|
    ensures PopArgs(below + TypedAll(vs, types), types) == (vs, below)
    decreases vs
  {
    if vs.Snoc? {
      hide PopTyped, Typed;
      var init, last := types[..|types| - 1], types[|types| - 1];
      Associates(below, TypedAll(vs.init, init), Typed(vs.last, last));
      PopsTyped(below + TypedAll(vs.init, init), vs.last, last);
      PopsArguments(below, vs.init, init);
    } else {
      assert below + [] == below;
    }
  }

  /** An invoke takes its arguments, of any width, and below them its receiver off the stack, records
      them with its pc and what it calls, and leaves its result unless it has none. */
  lemma {:induction false} InvokeRecords(rules: Rules, s: SimState, below: seq<Symbol>, receiver: Option<Symbol>,
                                         args: List<Symbol>, op: byte, index: nat, more: bytes, pc: nat)
    requires 0xb6 <= op <= 0xb9 && index < 0x1_0000 && (receiver.None? <==> op == 0xb8)
    requires Lookup(rules.pool, index).Some?
    requires var desc := Lookup(rules.pool, index).value.desc;
             && ParseArgs(desc).Some? && RetType(desc).Some? && Length(args) == |ParseArgs(desc).value|
             && s.stack == below + (if receiver.Some? then [receiver.value] else [])
                           + TypedAll(args, ParseArgs(desc).value)
    ensures var callee := Lookup(rules.pool, index).value;
            var ret := RetType(callee.desc).value;
            var after := StepOf(rules, s, pc, op, U16(index) + more);
            && after.stack == below + (if ret == "V" then [] else Typed(RetS(callee, receiver, args), ret))
            && after.locals == s.locals
            && after.events == s.events + [Invoke(pc, callee, receiver, args)]
  {
    hide Typed, PopTyped, TypedAll, PopArgs;
    U2OfIndex(index, more);
    var types := ParseArgs(Lookup(rules.pool, index).value.desc).value;
    PopsArguments(below + (if receiver.Some? then [receiver.value] else []), args, types);
    if receiver.Some? {
      PopOffTop(below, receiver.value);
    } else {
      assert below + [] == below;
    }
  }

  /** Fields of any width: reads push and writes take off a value, a write to an object takes that off
      too, and only putstatic is recorded. */
  lemma {:induction false} FieldsOfAnyWidth(rules: Rules, s: SimState, below: seq<Symbol>, target: Symbol, v: Symbol,
                                            index: nat, pc: nat)
    requires index < 0x1_0000 && Lookup(rules.pool, index).Some?
    ensures var field := Lookup(rules.pool, index).value;
            var read, write := Typed(StaticS(field), field.desc), Typed(v, field.desc);
            && StepOf(rules, s.(stack := below), pc, 0xb2, U16(index)) == s.(stack := below + read)
            && StepOf(rules, s.(stack := below + write), pc, 0xb3, U16(index)) ==
               s.(stack := below, events := s.events + [PutStatic(pc, field, v)])
            && StepOf(rules, s.(stack := below + [target]), pc, 0xb4, U16(index)) ==
               s.(stack := below + Typed(FieldS(field, target), field.desc))
            && StepOf(rules, s.(stack := below + [target] + write), pc, 0xb5, U16(index)) == s.(stack := below)
  {
    hide Typed, PopTyped, Pop;
    var field := Lookup(rules.pool, index).value;
    U2OfIndex(index, []);
    PopsTyped(below, v, field.desc);
    PopsTyped(below + [target], v, field.desc);
    PopOffTop(below, target);
  }

  function Wide2(kind: Kind): seq<Symbol>
  {
    if NarrowKind(kind) then [] else [TopS]
  }

  /** Loads and stores of any kind, in either encoding: two slots of the stack for a long or a double. */
  lemma {:induction false} LocalsOfAnyWidth(rules: Rules, s: SimState, below: seq<Symbol>, v: Symbol, kind: Kind,
                                            slot: nat, pc: nat)
    requires slot < 256
    ensures var load, store := LoadInstr(kind, slot), StoreInstr(kind, slot);
            && load.Fixed? && store.Fixed?
            && StepOf(rules, s.(stack := below), pc, load.op, load.operand) ==
               s.(stack := below + [Local(s.locals, slot)] + Wide2(kind))
            && StepOf(rules, s.(stack := below + [v] + Wide2(kind)), pc, store.op, store.operand) ==
               s.(stack := below, locals := s.locals[slot := v])
  {
    SlotsOfLocals(kind, slot);
    hide SlotOf, TwoSlots, LoadInstr, StoreInstr, Pop;
    PopOffTop(below, v);
    PopOffTop(below + [v], TopS);
    assert below + [v] + [] == below + [v] && below + [Local(s.locals, slot)] + [] == below + [Local(s.locals, slot)];
  }

  /** The instruction that stands for a small constant pushes it, with a second slot for a long or a
      double; aconst_null and ldc2_w likewise. */
  lemma {:induction false} ConstantsPush(rules: Rules, s: SimState, n: int, index: nat, pc: nat)
    ensures -1 <= n <= 5 ==> StepOf(rules, s, pc, 0x03 + n, []) == s.(stack := s.stack + [IntS(n)])
    ensures 0 <= n <= 1 ==> StepOf(rules, s, pc, 0x09 + n, []) == s.(stack := s.stack + [IntS(n), TopS])
    ensures 0 <= n <= 2 ==> StepOf(rules, s, pc, 0x0b + n, []) == s.(stack := s.stack + [ConstS(Small(n))])
    ensures 0 <= n <= 1 ==> StepOf(rules, s, pc, 0x0e + n, []) == s.(stack := s.stack + [ConstS(Small(n)), TopS])
    ensures StepOf(rules, s, pc, 0x01, []) == s.(stack := s.stack + [ConstS(Null)])
    ensures index < 0x1_0000 ==>
              StepOf(rules, s, pc, 0x14, U16(index)) == s.(stack := s.stack + [ConstS(Entry(index)), TopS])
  {
    if index < 0x1_0000 {
      U2OfIndex(index, []);
    }
    hide StepField, StepInvoke, StepLoad, StepStore, U2;
  }

  /** A type takes two slots exactly where its loads and stores do. */
  lemma {:induction false} SlotsMatchKinds(t: string)
    ensures Slots(t) == 2 <==> !NarrowKind(KindOfType(t))
    ensures Slots(t) == 1 <==> NarrowKind(KindOfType(t))
  {
  }

  /** What only moves the stack: nop and checkcast leave it, pop and pop2 take one and two slots off, and
      a return empties it. */
  lemma {:induction false} StackSteps(rules: Rules, s: SimState, below: seq<Symbol>, v: Symbol, w: Symbol, op: byte,
                                      operand: bytes, pc: nat)
    ensures op in {0x00, 0xc0} ==> StepOf(rules, s, pc, op, operand) == s
    ensures StepOf(rules, s.(stack := below + [v]), pc, 0x57, operand) == s.(stack := below)
    ensures StepOf(rules, s.(stack := below + [v, w]), pc, 0x58, operand) == s.(stack := below)
    ensures 0xac <= op <= 0xb1 ==> StepOf(rules, s, pc, op, operand) == s.(stack := [])
  {
    hide StepField, StepInvoke, Constant, StepLoad, StepStore;
    assert below + [v, w] == below + [v] + [w];
  }

  // ---------------------------------------------------------------------------------------------
  // Expressions and programs
  // ---------------------------------------------------------------------------------------------

  lemma {:induction false} CompiledIsFixed(pool: Pool, e: Expr)
    requires Compilable(pool, e)
    ensures AllFixed(Compile(pool, e))
  {
    CompiledIsPlain(pool, e);
    assert forall k | 0 <= k < |Compile(pool, e)| :: Plain(pool, Compile(pool, e)[k]);
  }

  lemma {:induction false} CompiledAreFixed(pool: Pool, es: List<Expr>)
    requires AllCompilable(pool, es)
    ensures AllFixed(CompileAll(pool, es))
  {
    AllCompiledArePlain(pool, es);
    assert forall k | 0 <= k < |CompileAll(pool, es)| :: Plain(pool, CompileAll(pool, es)[k]);
  }

  /** Running the code of an expression pushes its value, changes no local, and records exactly its
      calls: each with its pc, its receiver and its arguments, behind those of its operands. */
  lemma {:induction false} RunsTheExpression(rules: Rules, s: SimState, e: Expr, pc: nat)
    requires Compilable(rules.pool, e) && NarrowExpr(rules.pool, e)
    ensures AllFixed(Compile(rules.pool, e))
    ensures var (after, end) := RunList(rules, s, Compile(rules.pool, e), pc);
            && end == pc + Width(e)
            && Pushed(s, after, [Eval(rules.pool, s.locals, e)], CallsOf(rules.pool, s.locals, e, pc))
    decreases e
  {
    CompiledIsFixed(rules.pool, e);
    hide StepOf, Pushed, NarrowCall, NarrowField, ReturnsNothing;
    match e
    case Const(n) =>
      ConstSteps(rules, s, n, pc);
      RunsOne(rules, s, ConstInstr(n), pc);
    case Ldc(index) =>
      LdcSteps(rules, s, index, pc);
      RunsOne(rules, s, LdcInstr(index), pc);
    case Load(kind, slot) =>
      LoadSteps(rules, s, kind, slot, pc);
      RunsOne(rules, s, LoadInstr(kind, slot), pc);
    case GetStatic(index) =>
      StaticSteps(rules, s, index, pc);
      RunsOne(rules, s, Fixed(0xb2, U16(index)), pc);
    case GetField(index, receiver) =>
      RunsTheExpression(rules, s, receiver, pc);
      var before := RunList(rules, s, Compile(rules.pool, receiver), pc);
      RunsLast(rules, s, Compile(rules.pool, receiver), Fixed(0xb4, U16(index)), pc);
      FieldSteps(rules, before.0, s, Eval(rules.pool, s.locals, receiver),
                 CallsOf(rules.pool, s.locals, receiver, pc), index, before.1);
    case Call(op, index, operands) =>
      RunsTheOperands(rules, s, operands, pc);
      RunsTheCall(rules, s, e, pc);
    case Cast(index, value) =>
      RunsTheExpression(rules, s, value, pc);
      var before := RunList(rules, s, Compile(rules.pool, value), pc);
      RunsLast(rules, s, Compile(rules.pool, value), Fixed(0xc0, U16(index)), pc);
      CastSteps(rules, before.0, before.1, U16(index));
  }

  lemma {:induction false} CastSteps(rules: Rules, s: SimState, pc: nat, operand: bytes)
    ensures StepOf(rules, s, pc, 0xc0, operand) == s
  {
  }

  lemma {:induction false} EvalAllKeepsLength(pool: Pool, locals: map<int, Symbol>, es: List<Expr>)
    ensures Length(EvalAll(pool, locals, es)) == Length(es)
    decreases es
  {
    if es.Snoc? {
      EvalAllKeepsLength(pool, locals, es.init);
    }
  }

  lemma {:induction false} RunsLast(rules: Rules, s: SimState, code: seq<Instr>, last: Instr, pc: nat)
    requires AllFixed(code) && last.Fixed?
    ensures AllFixed(code + [last])
    ensures var before := RunList(rules, s, code, pc);
            RunList(rules, s, code + [last], pc) ==
            (StepOf(rules, before.0, before.1, last.op, last.operand), before.1 + 1 + |last.operand|)
  {
    var before := RunList(rules, s, code, pc);
    RunsOne(rules, before.0, last, before.1);
    RunsInTurn(rules, s, code, [last], pc);
  }

  lemma {:induction false} PushedInTurn(s: SimState, middle: SimState, after: SimState, vs: seq<Symbol>,
                                        es: seq<SimEvent>, v: Symbol, more: seq<SimEvent>)
    requires Pushed(s, middle, vs, es) && Pushed(middle, after, [v], more)
    ensures Pushed(s, after, vs + [v], es + more)
  {
    Associates(s.stack, vs, [v]);
    Associates(s.events, es, more);
  }

  lemma {:induction false} RunsTheOperands(rules: Rules, s: SimState, es: List<Expr>, pc: nat)
    requires AllCompilable(rules.pool, es) && AllNarrow(rules.pool, es)
    ensures AllFixed(CompileAll(rules.pool, es))
    ensures var (after, end) := RunList(rules, s, CompileAll(rules.pool, es), pc);
            && end == pc + WidthAll(es)
            && Pushed(s, after, ToSeq(EvalAll(rules.pool, s.locals, es)), CallsOfAll(rules.pool, s.locals, es, pc))
    decreases es
  {
    hide StepOf, RunList, Pushed, Compile, CompileAll, Compilable, AllCompilable, NarrowExpr, AllNarrow, CallsOf,
      CallsOfAll, Eval, EvalAll, Width, WidthAll, ToSeq, AllFixed;
    if es.Snoc? {
      AllUnfold(rules.pool, s.locals, es, pc);
      RunsTheOperands(rules, s, es.init, pc);
      var before := RunList(rules, s, CompileAll(rules.pool, es.init), pc);
      PushedKeepsLocals(s, before.0, ToSeq(EvalAll(rules.pool, s.locals, es.init)),
                        CallsOfAll(rules.pool, s.locals, es.init, pc));
      RunsTheExpression(rules, before.0, es.last, before.1);
      var after := RunList(rules, before.0, Compile(rules.pool, es.last), before.1);
      RunsInTurn(rules, s, CompileAll(rules.pool, es.init), Compile(rules.pool, es.last), pc);
      PushedInTurn(s, before.0, after.0, ToSeq(EvalAll(rules.pool, s.locals, es.init)),
                   CallsOfAll(rules.pool, s.locals, es.init, pc), Eval(rules.pool, s.locals, es.last),
                   CallsOf(rules.pool, s.locals, es.last, before.1));
    } else {
      NoOperands(rules, s, pc);
    }
  }

  lemma {:induction false} AllUnfold(pool: Pool, locals: map<int, Symbol>, es: List<Expr>, pc: nat)
    requires es.Snoc? && AllCompilable(pool, es) && AllNarrow(pool, es)
    ensures AllCompilable(pool, es.init) && Compilable(pool, es.last)
    ensures AllNarrow(pool, es.init) && NarrowExpr(pool, es.last)
    ensures CompileAll(pool, es) == CompileAll(pool, es.init) + Compile(pool, es.last)
    ensures WidthAll(es) == WidthAll(es.init) + Width(es.last)
    ensures ToSeq(EvalAll(pool, locals, es)) == ToSeq(EvalAll(pool, locals, es.init)) + [Eval(pool, locals, es.last)]
    ensures CallsOfAll(pool, locals, es, pc) ==
            CallsOfAll(pool, locals, es.init, pc) + CallsOf(pool, locals, es.last, pc + WidthAll(es.init))
  {
    hide Compilable, NarrowExpr, Compile, Width, Eval, CallsOf;
  }

  lemma {:induction false} NoOperands(rules: Rules, s: SimState, pc: nat)
    ensures AllFixed(CompileAll(rules.pool, Nil))
    ensures RunList(rules, s, CompileAll(rules.pool, Nil), pc) == (s, pc + WidthAll(Nil))
    ensures Pushed(s, s, ToSeq(EvalAll(rules.pool, s.locals, Nil)), CallsOfAll(rules.pool, s.locals, Nil, pc))
  {
    assert s.stack + [] == s.stack && s.events + [] == s.events;
  }

  lemma {:induction false} PushedKeepsLocals(s1: SimState, s2: SimState, vs: seq<Symbol>, es: seq<SimEvent>)
    requires Pushed(s1, s2, vs, es)
    ensures s2.locals == s1.locals
  {
  }

  /** The call itself, once its operands have run. */
  lemma {:induction false} RunsTheCall(rules: Rules, s: SimState, e: Expr, pc: nat)
    requires Compilable(rules.pool, e) && e.Call? && NarrowCall(rules.pool, e.op, e.index, Length(e.operands))
    requires Lookup(rules.pool, e.index).Some? && AllFixed(CompileAll(rules.pool, e.operands))
    requires var (after, end) := RunList(rules, s, CompileAll(rules.pool, e.operands), pc);
             && end == pc + WidthAll(e.operands)
             && Pushed(s, after, ToSeq(EvalAll(rules.pool, s.locals, e.operands)),
                       CallsOfAll(rules.pool, s.locals, e.operands, pc))
    ensures AllFixed(Compile(rules.pool, e))
    ensures var (after, end) := RunList(rules, s, Compile(rules.pool, e), pc);
            && end == pc + Width(e)
            && Pushed(s, after,
                      if ReturnsNothing(rules.pool, e.index) then [] else [Eval(rules.pool, s.locals, e)],
                      CallsOf(rules.pool, s.locals, e, pc))
  {
    hide StepOf, RunList, Pushed, NarrowCall, ReturnsNothing, CallEvent, Called, Compile, CompileAll, Compilable, Eval,
      EvalAll, CallsOf, CallsOfAll, Width, WidthAll, ToSeq, AllFixed;
    CallUnfolds(rules.pool, s.locals, e, pc);
    var operands := CompileAll(rules.pool, e.operands);
    EvalAllKeepsLength(rules.pool, s.locals, e.operands);
    var before := RunList(rules, s, operands, pc);
    RunsLast(rules, s, operands, CallInstr(e.op, e.index, Length(e.operands)), pc);
    InvokeSteps(rules, before.0, s, EvalAll(rules.pool, s.locals, e.operands),
                CallsOfAll(rules.pool, s.locals, e.operands, pc), e.op, e.index, before.1);
  }

  lemma {:induction false} CallUnfolds(pool: Pool, locals: map<int, Symbol>, e: Expr, pc: nat)
    requires Compilable(pool, e) && e.Call? && NarrowCall(pool, e.op, e.index, Length(e.operands))
    ensures e.index < 0x1_0000 && Lookup(pool, e.index).Some? && AllCompilable(pool, e.operands)
    ensures Compile(pool, e) == CompileAll(pool, e.operands) + [CallInstr(e.op, e.index, Length(e.operands))]
    ensures Width(e) == WidthAll(e.operands) + 1 + |CallInstr(e.op, e.index, Length(e.operands)).operand|
    ensures Eval(pool, locals, e) == Called(Lookup(pool, e.index), e.op == 0xb8, EvalAll(pool, locals, e.operands))
    ensures CallsOf(pool, locals, e, pc) ==
            CallsOfAll(pool, locals, e.operands, pc)
            + [CallEvent(pc + WidthAll(e.operands), Lookup(pool, e.index).value, e.op == 0xb8,
                         EvalAll(pool, locals, e.operands))]
  {
    hide CompileAll, EvalAll, CallsOfAll, WidthAll, CallEvent, Called, AllCompilable;
  }

  /** Running a program leaves the stack as it was and the locals as its stores say, and records its
      calls and assignments in order, each with the values at that point. */
  lemma {:induction false} RunsTheProgram(rules: Rules, s: SimState, p: Prog, pc: nat)
    requires ProgCompilable(rules.pool, p) && NarrowProg(rules.pool, p)
    ensures AllFixed(CompileProg(rules.pool, p))
    ensures var (after, end) := RunList(rules, s, CompileProg(rules.pool, p), pc);
            && end == pc + WidthProg(p)
            && after.stack == s.stack && after.locals == LocalsAfter(rules.pool, p, s.locals)
            && after.events == s.events + EventsOfProg(rules.pool, s.locals, p, pc)
    decreases p
  {
    hide StepOf, RunList, EventsOf, Compile, Ending, WidthStmt, Compilable, NarrowStmt, GoodEnding, Eval;
    if p.Snoc? {
      RunsTheProgram(rules, s, p.init, pc);
      var before := RunList(rules, s, CompileProg(rules.pool, p.init), pc);
      RunsTheStatement(rules, before.0, p.last, before.1);
      RunsInTurn(rules, s, CompileProg(rules.pool, p.init), Compile(rules.pool, p.last.value) + Ending(p.last), pc);
      Associates(s.events, EventsOfProg(rules.pool, s.locals, p.init, pc),
                 EventsOf(rules.pool, before.0.locals, p.last, before.1));
    } else {
      assert s.events + [] == s.events;
      RunsNothing(rules, s, pc);
    }
  }

  lemma {:induction false} RunsNothing(rules: Rules, s: SimState, pc: nat)
    ensures RunList(rules, s, [], pc) == (s, pc)
  {
  }

  lemma {:induction false} RunsTheStatement(rules: Rules, s: SimState, t: Stmt, pc: nat)
    requires Compilable(rules.pool, t.value) && NarrowStmt(rules.pool, t) && GoodEnding(t)
    ensures AllFixed(Compile(rules.pool, t.value) + Ending(t))
    ensures var (after, end) := RunList(rules, s, Compile(rules.pool, t.value) + Ending(t), pc);
            && end == pc + WidthStmt(t)
            && after.stack == s.stack
            && after.locals == (if t.Store? then s.locals[t.slot := Eval(rules.pool, s.locals, t.value)] else s.locals)
            && after.events == s.events + EventsOf(rules.pool, s.locals, t, pc)
  {
    hide StepOf, RunList, Pushed, Compile, Ending, Compilable, NarrowStmt, NarrowExpr, GoodEnding, CallsOf, EventsOf,
      Eval, Width, WidthStmt, AllFixed, LocalsAfter;
    var code, v := Compile(rules.pool, t.value), Eval(rules.pool, s.locals, t.value);
    var calls := CallsOf(rules.pool, s.locals, t.value, pc);
    if t.Perform? {
      PerformUnfolds(rules.pool, s.locals, t, pc);
      PerformsTheCall(rules, s, t.value, pc);
      PushedMeans(s, RunList(rules, s, code, pc).0, [], calls);
    } else {
      NarrowStmtsHaveValues(rules.pool, t);
      RunsTheExpression(rules, s, t.value, pc);
      var before := RunList(rules, s, code, pc);
      EndsTheStatement(rules, s, before.0, t, v, calls, before.1);
      RunsLast(rules, s, code, Ending(t)[0], pc);
      EventsUnfold(rules.pool, s.locals, t, pc);
      assert Ending(t) == [Ending(t)[0]];
    }
  }

  lemma {:induction false} PushedMeans(s1: SimState, s2: SimState, vs: seq<Symbol>, es: seq<SimEvent>)
    requires Pushed(s1, s2, vs, es)
    ensures s2.stack == s1.stack + vs && s2.locals == s1.locals && s2.events == s1.events + es
    ensures vs == [] ==> s2.stack == s1.stack
  {
    assert s1.stack + [] == s1.stack;
  }

  lemma {:induction false} PerformUnfolds(pool: Pool, locals: map<int, Symbol>, t: Stmt, pc: nat)
    requires t.Perform? && Compilable(pool, t.value) && NarrowStmt(pool, t)
    ensures t.value.Call? && NarrowCall(pool, t.value.op, t.value.index, Length(t.value.operands))
    ensures AllNarrow(pool, t.value.operands) && ReturnsNothing(pool, t.value.index)
    ensures Compile(pool, t.value) + Ending(t) == Compile(pool, t.value) && WidthStmt(t) == Width(t.value)
    ensures EventsOf(pool, locals, t, pc) == CallsOf(pool, locals, t.value, pc)
  {
    hide Compilable, Compile, CallsOf, Width, NarrowCall, ReturnsNothing;
    assert Compile(pool, t.value) + [] == Compile(pool, t.value);
    assert CallsOf(pool, locals, t.value, pc) + [] == CallsOf(pool, locals, t.value, pc);
  }

  lemma {:induction false} EventsUnfold(pool: Pool, locals: map<int, Symbol>, t: Stmt, pc: nat)
    requires t.Assign? ==> NarrowField(pool, t.index)
    ensures var calls := CallsOf(pool, locals, t.value, pc);
            EventsOf(pool, locals, t, pc) ==
            if t.Assign?
            then calls + [PutStatic(pc + Width(t.value), Lookup(pool, t.index).value, Eval(pool, locals, t.value))]
            else calls
  {
    hide CallsOf, Width, Eval;
    assert CallsOf(pool, locals, t.value, pc) + [] == CallsOf(pool, locals, t.value, pc);
  }

  lemma {:induction false} NarrowStmtsHaveValues(pool: Pool, t: Stmt)
    requires NarrowStmt(pool, t) && !t.Perform?
    ensures NarrowExpr(pool, t.value)
    ensures t.Store? ==> NarrowKind(t.kind)
    ensures t.Assign? ==> NarrowField(pool, t.index)
  {
  }

  /** The last instruction of a statement takes its value off the stack and puts it where it goes. */
  lemma {:induction false} EndsTheStatement(rules: Rules, below: SimState, s: SimState, t: Stmt, v: Symbol,
                                            es: seq<SimEvent>, pc: nat)
    requires !t.Perform? && GoodEnding(t) && Pushed(below, s, [v], es)
    requires t.Store? ==> NarrowKind(t.kind)
    requires t.Assign? ==> NarrowField(rules.pool, t.index)
    ensures |Ending(t)| == 1 && Ending(t)[0].Fixed?
    ensures 1 + |Ending(t)[0].operand| == WidthStmt(t) - Width(t.value)
    ensures var after := StepOf(rules, s, pc, Ending(t)[0].op, Ending(t)[0].operand);
            && after.stack == below.stack
            && after.locals == (if t.Store? then below.locals[t.slot := v] else below.locals)
            && after.events == below.events + (if t.Assign? then
                                                 es + [PutStatic(pc, Lookup(rules.pool, t.index).value, v)]
                                               else es)
  {
    PopOffTop(below.stack, v);
    match t
    case Store(kind, slot, _) => SlotsOfLocals(kind, slot);
    case Assign(index, _) => AssignSteps(rules, s, below, v, es, index, pc);
    case Discard(_) =>
  }

  lemma {:induction false} PerformsTheCall(rules: Rules, s: SimState, e: Expr, pc: nat)
    requires Compilable(rules.pool, e) && e.Call?
    requires NarrowCall(rules.pool, e.op, e.index, Length(e.operands)) && AllNarrow(rules.pool, e.operands)
    requires ReturnsNothing(rules.pool, e.index)
    ensures AllFixed(Compile(rules.pool, e))
    ensures var (after, end) := RunList(rules, s, Compile(rules.pool, e), pc);
            end == pc + Width(e) && Pushed(s, after, [], CallsOf(rules.pool, s.locals, e, pc))
  {
    RunsTheOperands(rules, s, e.operands, pc);
    RunsTheCall(rules, s, e, pc);
  }

  // ---------------------------------------------------------------------------------------------
  // The engines agree
  // ---------------------------------------------------------------------------------------------

  function KindOfType(t: string): Kind
  {
    if t == "J" then LongKind
    else if t == "D" then DoubleKind
    else if t == "F" then FloatKind
    else if t != "" && t[0] in {'L', '['} then RefKind
    else IntKind
  }

  /** A forward value in the backward engine's terms: parameters are the locals they arrive in, the
      receivers of getfield are dropped, and constants the backward engine does not read are unknown. */
  function Backward(v: Symbol): Value
    decreases v
  {
    match v
    case IntS(n) => IntV(n)
    case StrS(s) => StrV(s)
    case ThisS => LocalV(RefKind, Some(0))
    case ArgS(local, t) => LocalV(KindOfType(t), Some(local))
    case StaticS(field) => StaticV(Some(field))
    case FieldS(field, _) => FieldV(Some(field))
    case RetS(callee, receiver, args) =>
      var values := AllBackward(args);
      CallV(callee, if receiver.Some? then Cons(Backward(receiver.value), values) else values)
    case _ => UnknownV
  }

  function AllBackward(vs: List<Symbol>): List<Value>
    decreases vs
  {
    match vs
    case Nil => Nil
    case Snoc(init, last) => Snoc(AllBackward(init), Backward(last))
  }

  /** A backward value without its spills, as unspill does at every level. */
  function Unspilled(v: Value): Value
    decreases v
  {
    match v
    case SpillV(_, _, value) => Unspilled(value)
    case CallV(callee, args) => CallV(callee, AllUnspilled(args))
    case TaggedV(_) => UnknownV
    case _ => v
  }

  function AllUnspilled(vs: List<Value>): List<Value>
    decreases vs
  {
    match vs
    case Nil => Nil
    case Snoc(init, last) => Snoc(AllUnspilled(init), Unspilled(last))
  }

  /** The last statement that stores into a slot, of whatever kind. */
  function LastStoreInto(p: Prog, slot: nat): (r: Option<(Kind, Prog, Expr)>)
    ensures r.Some? ==> r.value.1 < p
  {
    match p
    case Nil => None
    case Snoc(init, s) =>
      if s.Store? && s.slot == slot then Some((s.kind, init, s.value)) else LastStoreInto(init, slot)
  }

  /** The engines read a constant alike if and only if it is no Long, which a class file may only load
      with ldc2_w: the forward engine takes it for an int, the backward one keeps its tag. */
  lemma {:induction false} ConstantsAgreeIff(pool: Pool, index: int)
    ensures Unspilled(Loaded(pool, index)) == Backward(Pooled(pool, index)) <==> !pool(index).LongEntry?
  {
  }

  /** Every local is loaded as what it holds: a parameter of that kind, or a value last stored with
      that kind, no more than four stores back; and every constant is one ldc may load. */
  predicate Agreeable(pool: Pool, initial: map<int, Symbol>, p: Prog, e: Expr, depth: nat)
    decreases p, e
  {
    match e
    case Load(kind, slot) =>
      var last := LastStoreInto(p, slot);
      if last.None? then slot in initial && Backward(initial[slot]) == LocalV(kind, Some(slot))
      else
        && last.value.0 == kind && depth <= DEEPEST
        && Agreeable(pool, initial, last.value.1, last.value.2, depth + 1)
    case Ldc(index) => !pool(index).LongEntry?
    case GetField(_, receiver) => Agreeable(pool, initial, p, receiver, depth)
    case Call(_, _, operands) => AllAgreeable(pool, initial, p, operands, depth)
    case Cast(_, value) => Agreeable(pool, initial, p, value, depth)
    case _ => true
  }

  predicate AllAgreeable(pool: Pool, initial: map<int, Symbol>, p: Prog, es: List<Expr>, depth: nat)
    decreases p, es
  {
    match es
    case Nil => true
    case Snoc(init, last) => AllAgreeable(pool, initial, p, init, depth) && Agreeable(pool, initial, p, last, depth)
  }

  lemma {:induction false} ForwardStore(pool: Pool, initial: map<int, Symbol>, p: Prog, slot: nat)
    ensures var last, locals := LastStoreInto(p, slot), LocalsAfter(pool, p, initial);
            if last.None? then Local(locals, slot) == Local(initial, slot)
            else Local(locals, slot) == Eval(pool, LocalsAfter(pool, last.value.1, initial), last.value.2)
    decreases p
  {
    if p.Snoc? {
      ForwardStore(pool, initial, p.init, slot);
    }
  }

  lemma {:induction false} BackwardStore(pool: Pool, p: Prog, kind: Kind, slot: nat, depth: nat)
    ensures var last := LastStoreInto(p, slot);
            && (last.None? ==> Stored(pool, p, kind, slot, depth) == None)
            && (last.Some? && last.value.0 == kind && depth <= DEEPEST ==>
                  Stored(pool, p, kind, slot, depth) ==
                  Some(Meaning(pool, last.value.1, last.value.2, depth + 1)))
    decreases p
  {
    if p.Snoc? {
      BackwardStore(pool, p.init, kind, slot, depth);
    }
  }

  lemma {:induction false} AllBackwardCons(v: Symbol, vs: List<Symbol>)
    ensures AllBackward(Cons(v, vs)) == Cons(Backward(v), AllBackward(vs))
    decreases vs
  {
    if vs.Snoc? {
      AllBackwardCons(v, vs.init);
    }
  }

  /** A call means the same whether its receiver is kept apart or in front of its arguments. */
  lemma {:induction false} BackwardCall(callee: Ref, isStatic: bool, vs: List<Symbol>)
    requires isStatic || vs.Snoc?
    ensures Backward(Called(Some(callee), isStatic, vs)) == CallV(callee, AllBackward(vs))
  {
    if !isStatic {
      FirstAndRest(vs);
      AllBackwardCons(First(vs), Rest(vs));
    }
  }

  lemma {:induction false} LoadMeansValue(pool: Pool, initial: map<int, Symbol>, p: Prog, e: Expr, depth: nat)
    requires e.Load? && Agreeable(pool, initial, p, e, depth)
    requires var last := LastStoreInto(p, e.slot);
             last.Some? ==>
               Unspilled(Meaning(pool, last.value.1, last.value.2, depth + 1)) ==
               Backward(Eval(pool, LocalsAfter(pool, last.value.1, initial), last.value.2))
    ensures Unspilled(Meaning(pool, p, e, depth)) == Backward(Eval(pool, LocalsAfter(pool, p, initial), e))
  {
    ForwardStore(pool, initial, p, e.slot);
    BackwardStore(pool, p, e.kind, e.slot, depth);
  }

  lemma {:induction false} CallMeansValue(pool: Pool, initial: map<int, Symbol>, p: Prog, e: Expr, depth: nat)
    requires e.Call? && NarrowCall(pool, e.op, e.index, Length(e.operands))
    requires AllUnspilled(Meanings(pool, p, e.operands, depth)) ==
             AllBackward(EvalAll(pool, LocalsAfter(pool, p, initial), e.operands))
    ensures Unspilled(Meaning(pool, p, e, depth)) == Backward(Eval(pool, LocalsAfter(pool, p, initial), e))
  {
    var locals := LocalsAfter(pool, p, initial);
    EvalAllKeepsLength(pool, locals, e.operands);
    BackwardCall(Lookup(pool, e.index).value, e.op == 0xb8, EvalAll(pool, locals, e.operands));
  }

  /** On code whose locals are loaded as what they hold, following an expression backwards and
      evaluating it forwards come to the same value. */
  lemma {:induction false} MeaningIsValue(pool: Pool, initial: map<int, Symbol>, p: Prog, e: Expr, depth: nat)
    requires NarrowProg(pool, p) && NarrowExpr(pool, e) && Agreeable(pool, initial, p, e, depth)
    ensures Unspilled(Meaning(pool, p, e, depth)) == Backward(Eval(pool, LocalsAfter(pool, p, initial), e))
    decreases p, e
  {
    match e
    case Ldc(index) => ConstantsAgreeIff(pool, index);
    case Load(kind, slot) =>
      var last := LastStoreInto(p, slot);
      if last.Some? {
        StoredIsNarrow(pool, p, slot);
        MeaningIsValue(pool, initial, last.value.1, last.value.2, depth + 1);
      }
      LoadMeansValue(pool, initial, p, e, depth);
    case Call(_, _, operands) =>
      MeaningsAreValues(pool, initial, p, operands, depth);
      CallMeansValue(pool, initial, p, e, depth);
    case Cast(_, value) => MeaningIsValue(pool, initial, p, value, depth);
    case _ =>
  }

  lemma {:induction false} MeaningsAreValues(pool: Pool, initial: map<int, Symbol>, p: Prog, es: List<Expr>,
                                             depth: nat)
    requires NarrowProg(pool, p) && AllNarrow(pool, es) && AllAgreeable(pool, initial, p, es, depth)
    ensures AllUnspilled(Meanings(pool, p, es, depth)) ==
            AllBackward(EvalAll(pool, LocalsAfter(pool, p, initial), es))
    decreases p, es
  {
    if es.Snoc? {
      MeaningsAreValues(pool, initial, p, es.init, depth);
      MeaningIsValue(pool, initial, p, es.last, depth);
    }
  }

  lemma {:induction false} StoredIsNarrow(pool: Pool, p: Prog, slot: nat)
    requires NarrowProg(pool, p) && LastStoreInto(p, slot).Some?
    ensures var last := LastStoreInto(p, slot).value; NarrowProg(pool, last.1) && NarrowExpr(pool, last.2)
    decreases p
  {
    if !(p.last.Store? && p.last.slot == slot) {
      StoredIsNarrow(pool, p.init, slot);
    }
  }

  lemma {:induction false} RunsTheBytes(rules: Rules, s: SimState, list: seq<Instr>)
    requires ReadableCode(rules.pool, list) && ValidList(list) && AllFixed(list)
    ensures StateAfter(rules, s, Encode(list, 0)) == RunList(rules, s, list, 0).0
  {
    FixedIsNotWide(list);
    WalkRecoversTheListIff([], list);
    assert [] + Encode(list, 0) == Encode(list, 0);
    RunsTheListing(rules, s, list, 0);
  }

  /** Running the bytes of a program followed by an expression pushes the expression's value, sets the
      locals the program stores to, and records the events of both, each with its pc. */
  lemma {:induction false} RunPushesTheValue(rules: Rules, s: SimState, p: Prog, e: Expr)
    requires ProgCompilable(rules.pool, p) && Compilable(rules.pool, e)
    requires NarrowProg(rules.pool, p) && NarrowExpr(rules.pool, e)
    ensures var after, locals := StateAfter(rules, s, CodeOf(rules.pool, p, e)), LocalsAfter(rules.pool, p, s.locals);
            && after.stack == s.stack + [Eval(rules.pool, locals, e)] && after.locals == locals
            && after.events == s.events + EventsOfProg(rules.pool, s.locals, p, 0)
                               + CallsOf(rules.pool, locals, e, WidthProg(p))
  {
    hide StepOf, Compilable, ProgCompilable, NarrowExpr, NarrowProg, Compile, CompileProg, Eval, CallsOf, EventsOfProg;
    var before, code := CompileProg(rules.pool, p), Compile(rules.pool, e);
    RunsTheProgram(rules, s, p, 0);
    var middle := RunList(rules, s, before, 0);
    RunsTheExpression(rules, middle.0, e, middle.1);
    RunsInTurn(rules, s, before, code, 0);
    hide RunList;
    CodeIsReadable(rules.pool, p, e);
    ReadableCodeDecodes(rules.pool, before + code);
    RunsTheBytes(rules, s, before + code);
  }

  /** From the bytes of one method body: what the forward engine has on its stack at the end is, in
      the backward engine's terms, what value_at rebuilds from the last instruction. */
  lemma {:induction false} TheEnginesAgree(rules: Rules, isStatic: bool, types: seq<string>, p: Prog, e: Expr)
    requires ProgCompilable(rules.pool, p) && Compilable(rules.pool, e)
    requires NarrowProg(rules.pool, p) && NarrowExpr(rules.pool, e)
    requires Agreeable(rules.pool, Initial(isStatic, types).locals, p, e, 0)
    ensures var code := CodeOf(rules.pool, p, e);
            var stack, rebuilt := StateAfter(rules, Initial(isStatic, types), code).stack, LastValue(rules.pool, code);
            && |stack| == 1 && rebuilt.Some?
            && Backward(stack[0]) == Unspilled(rebuilt.value.0)
  {
    var initial := Initial(isStatic, types);
    ValueAtInvertsCompile(rules.pool, p, e);
    RunPushesTheValue(rules, initial, p, e);
    MeaningIsValue(rules.pool, initial.locals, p, e, 0);
  }

  // ---------------------------------------------------------------------------------------------
  // How far spills are followed
  // ---------------------------------------------------------------------------------------------

  /** int a1 = 7; int a2 = a1; and so on, each copied to the next. */
  function Chain(n: nat): Prog
  {
    if n == 0 then Nil
    else Snoc(Chain(n - 1), Store(IntKind, n, if n == 1 then Const(7) else Load(IntKind, n - 1)))
  }

  lemma {:induction false} ChainFollowed(pool: Pool, n: nat, depth: nat)
    requires n > 0 && depth <= DEEPEST + 1
    ensures Unspilled(Meaning(pool, Chain(n), Load(IntKind, n), depth)) ==
            if n + depth <= DEEPEST + 1 then IntV(7) else LocalV(IntKind, Some(n + depth - DEEPEST - 1))
    decreases n
  {
    if n == 1 {
      assert Chain(0) == Nil;
    } else if depth <= DEEPEST {
      ChainFollowed(pool, n - 1, depth + 1);
    }
  }

  /** The backward engine sees through a chain of copies exactly up to four stores; the forward one
      sees through all of them. */
  lemma {:induction false} ChainsAreFollowedIff(pool: Pool, n: nat)
    requires n > 0
    ensures Unspilled(Meaning(pool, Chain(n), Load(IntKind, n), 0)) == IntV(7) <==> n <= 4
    ensures Backward(Eval(pool, LocalsAfter(pool, Chain(n), map[]), Load(IntKind, n))) == IntV(7)
    decreases n
  {
    ChainFollowed(pool, n, 0);
    ChainEvaluates(pool, n);
  }

  lemma {:induction false} ChainEvaluates(pool: Pool, n: nat)
    requires n > 0
    ensures Local(LocalsAfter(pool, Chain(n), map[]), n) == IntS(7)
    decreases n
  {
    if n > 1 {
      ChainEvaluates(pool, n - 1);
    }
  }
}
