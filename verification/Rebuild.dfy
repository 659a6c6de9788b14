/** scripts/extract_caps.py:1028-1137: the backward engine, which rebuilds the expression behind one
    operand, and what it rebuilds from compiled straight-line code. */
module Rebuild {
  import opened Prelude
  import opened Bytecode
  import opened Descriptors
  import opened Compiling

  /** TaggedV is an ldc target that is neither a string nor an int. */
  datatype Value =
    | IntV(n: int)
    | StrV(s: string)
    | TaggedV(tag: int)
    | LocalV(kind: Kind, slot: Option<int>)
    | StaticV(field: Option<Ref>)
    | FieldV(field: Option<Ref>)
    | CallV(callee: Ref, args: List<Value>)
    | SpillV(kind: Kind, slot: Option<int>, value: Value)
    | UnknownV

  /** const */
  function Loaded(pool: Pool, i: int): Value
  {
    match pool(i)
    case Unused => UnknownV
    case StringEntry(s) => StrV(s)
    case IntegerEntry(n) => IntV(n)
    case LongEntry(_) => TaggedV(5)
    case OtherEntry(tag) => TaggedV(tag)
    case MemberEntry(tag, _) => TaggedV(tag)
    case DynamicEntry(tag, _, _) => TaggedV(tag)
  }

  const DEEPEST := 3

  /** How an instruction makes the value it pushes: on its own, from a local, by reading a field, by
      calling with a number of operands, or by passing on what is below it. */
  datatype Shape =
    | Leaf(value: Value)
    | FromLocal(kind: Kind, slot: Option<int>)
    | FromField(field: Option<Ref>)
    | FromCall(callee: Ref, operands: nat)
    | PassOn

  /** The branches of value_at. */
  function ShapeOf(pool: Pool, i: Ins): Shape
    requires ReadableIns(pool, i)
  {
    var op, arg := i.op, i.arg;
    if 0x02 <= op <= 0x08 then Leaf(IntV(op - 0x03))
    else if op in {0x10, 0x11} then Leaf(IntV(arg.value))
    else if op in {0x12, 0x13} then Leaf(Loaded(pool, arg.value))
    else if LoadSlot(op, arg).Some? then FromLocal(LoadSlot(op, arg).value.0, LoadSlot(op, arg).value.1)
    else if op == 0xb2 then Leaf(StaticV(Lookup(pool, arg.value)))
    else if op == 0xb4 then FromField(Lookup(pool, arg.value))
    else if op in INVOKE then
      var callee := Lookup(pool, arg.value);
      if callee.None? then Leaf(UnknownV) else FromCall(callee.value, Arity(op, callee.value))
    else if op == 0xc0 then PassOn
    else Leaf(UnknownV)
  }

  /** All the engine looks at in an instruction: the value it pushes and the local it stores into. */
  datatype Item = Item(shape: Shape, stores: Option<(Kind, Option<int>)>)

  function ItemOf(pool: Pool, i: Ins): Item
    requires ReadableIns(pool, i)
  {
    Item(ShapeOf(pool, i), StoreSlot(i.op, i.arg))
  }

  function ItemsOf(pool: Pool, ins: seq<Ins>): (items: seq<Item>)
    requires Readable(pool, ins)
    ensures |items| == |ins|
    decreases |ins|
  {
    if ins == [] then [] else ItemsOf(pool, ins[..|ins| - 1]) + [ItemOf(pool, ins[|ins| - 1])]
  }

  lemma {:induction false} ItemAt(pool: Pool, ins: seq<Ins>, k: nat)
    requires Readable(pool, ins) && k < |ins|
    ensures ReadableIns(pool, ins[k]) && ItemsOf(pool, ins)[k] == ItemOf(pool, ins[k])
    decreases |ins|
  {
    if k < |ins| - 1 {
      ItemAt(pool, ins[..|ins| - 1], k);
    }
  }

  /** value_at: the value the instruction at j pushes, and the index before its first operand. */
  function ValueAt(items: seq<Item>, j: int, depth: nat): (r: (Value, int))
    requires j < |items|
    ensures -1 <= r.1 && (if j < 0 then r.1 == -1 else r.1 < j)
    decreases if j < 0 then 0 else j + 1, 1, 0
  {
    if j < 0 then (UnknownV, -1)
    else
      match items[j].shape
      case Leaf(value) => (value, j - 1)
      case FromLocal(kind, slot) =>
        var got := Spill(items, j - 1, kind, slot, depth);
        (if got.Some? then SpillV(kind, slot, got.value) else LocalV(kind, slot), j - 1)
      case FromField(field) => (FieldV(field), ValueAt(items, j - 1, depth).1)
      case FromCall(callee, operands) =>
        var args := Operands(items, j - 1, operands, depth);
        (CallV(callee, args.0), args.1)
      case PassOn => ValueAt(items, j - 1, depth)
  }

  /** The operands of a call, last first, put back in order. */
  function Operands(items: seq<Item>, k: int, want: nat, depth: nat): (r: (List<Value>, int))
    requires -1 <= k < |items|
    ensures -1 <= r.1 <= k
    decreases k + 1, 2, want
  {
    if want == 0 then (Nil, k)
    else
      var last := ValueAt(items, k, depth);
      var rest := Operands(items, last.1, want - 1, depth);
      (Snoc(rest.0, last.0), rest.1)
  }

  /** _spill: the value last stored into a local at or before index j. */
  function Spill(items: seq<Item>, j: int, kind: Kind, slot: Option<int>, depth: nat): Option<Value>
    requires -1 <= j < |items|
    decreases j + 1, 0, 0
  {
    if depth > DEEPEST || j < 0 then None
    else if items[j].stores == Some((kind, slot)) then Some(ValueAt(items, j - 1, depth + 1).0)
    else Spill(items, j - 1, kind, slot, depth)
  }

  /** invoke_operands: the receiver and the declared arguments of the invoke at index i. */
  function InvokeOperands(pool: Pool, ins: seq<Ins>, i: nat): (Value, List<Value>)
    requires Readable(pool, ins) && i < |ins| && ins[i].op in INVOKE
    requires ins[i].arg.Some? && Lookup(pool, ins[i].arg.value).Some?
  {
    assert ReadableIns(pool, ins[i]);
    var items, callee := ItemsOf(pool, ins), Lookup(pool, ins[i].arg.value).value;
    var args := Operands(items, i - 1, |ParseArgs(callee.desc).value|, 0);
    (if ins[i].op in STATIC_INVOKE then UnknownV else ValueAt(items, args.1, 0).0, args.0)
  }

  /** One operand more is read from in front of the others. */
  lemma {:induction false} OneOperandMore(items: seq<Item>, k: int, n: nat, depth: nat)
    requires -1 <= k < |items|
    ensures var rest := Operands(items, k, n, depth);
            var first := ValueAt(items, rest.1, depth);
            Operands(items, k, n + 1, depth) == (Cons(first.0, rest.0), first.1)
    decreases n
  {
    if n == 0 {
      assert Operands(items, ValueAt(items, k, depth).1, 0, depth) == (Nil, ValueAt(items, k, depth).1);
    } else {
      OneOperandMore(items, ValueAt(items, k, depth).1, n - 1, depth);
    }
  }

  /** For any code at all, value_at at a call is the call of what invoke_operands finds: its
      arguments, behind its receiver when it has one. */
  lemma {:induction false} InvokeOperandsAreTheCalls(pool: Pool, ins: seq<Ins>, i: nat)
    requires Readable(pool, ins) && i < |ins| && ins[i].op in INVOKE
    requires ins[i].arg.Some? && Lookup(pool, ins[i].arg.value).Some?
    ensures var (receiver, args) := InvokeOperands(pool, ins, i);
            ValueAt(ItemsOf(pool, ins), i, 0).0 ==
            CallV(Lookup(pool, ins[i].arg.value).value,
                  if ins[i].op in STATIC_INVOKE then args else Cons(receiver, args))
  {
    var items, callee := ItemsOf(pool, ins), Lookup(pool, ins[i].arg.value).value;
    CallIsShown(pool, ins, i);
    hide ItemsOf;
    if ins[i].op !in STATIC_INVOKE {
      OneOperandMore(items, i - 1, |ParseArgs(callee.desc).value|, 0);
    }
  }

  lemma {:induction false} CallIsShown(pool: Pool, ins: seq<Ins>, i: nat)
    requires Readable(pool, ins) && i < |ins| && ins[i].op in INVOKE
    requires ins[i].arg.Some? && Lookup(pool, ins[i].arg.value).Some?
    ensures var callee := Lookup(pool, ins[i].arg.value).value;
            && ParseArgs(callee.desc).Some? && |ItemsOf(pool, ins)| == |ins|
            && ItemsOf(pool, ins)[i].shape == FromCall(callee, Arity(ins[i].op, callee))
  {
    ItemAt(pool, ins, i);
    hide ItemsOf;
  }

  // ---------------------------------------------------------------------------------------------
  // The source-level meaning: what an expression is after the statements before it
  // ---------------------------------------------------------------------------------------------

  /** An expression with every local followed to the expression last stored in it, at most four
      stores deep; the receivers of getfield are dropped. */
  function Meaning(pool: Pool, p: Prog, e: Expr, depth: nat): Value
    decreases p, 1, e
  {
    match e
    case Const(n) => IntV(n)
    case Ldc(index) => Loaded(pool, index)
    case Load(kind, slot) =>
      var got := Stored(pool, p, kind, slot, depth);
      if got.Some? then SpillV(kind, Some(slot), got.value) else LocalV(kind, Some(slot))
    case GetStatic(index) => StaticV(Lookup(pool, index))
    case GetField(index, _) => FieldV(Lookup(pool, index))
    case Call(_, index, operands) =>
      var callee, args := Lookup(pool, index), Meanings(pool, p, operands, depth);
      if callee.None? then UnknownV else CallV(callee.value, args)
    case Cast(_, value) => Meaning(pool, p, value, depth)
  }

  function Meanings(pool: Pool, p: Prog, es: List<Expr>, depth: nat): List<Value>
    decreases p, 1, es
  {
    match es
    case Nil => Nil
    case Snoc(init, last) => Snoc(Meanings(pool, p, init, depth), Meaning(pool, p, last, depth))
  }

  function Stored(pool: Pool, p: Prog, kind: Kind, slot: nat, depth: nat): Option<Value>
    decreases p, 0
  {
    match p
    case Nil => None
    case Snoc(init, s) =>
      if depth > DEEPEST then None
      else if s.Store? && s.kind == kind && s.slot == slot then Some(Meaning(pool, init, s.value, depth + 1))
      else Stored(pool, init, kind, slot, depth)
  }

  // ---------------------------------------------------------------------------------------------
  // Rebuilding undoes compiling
  // ---------------------------------------------------------------------------------------------

  function Size(e: Expr): (n: nat)
    ensures n > 0
  {
    match e
    case GetField(_, receiver) => Size(receiver) + 1
    case Call(_, _, operands) => SizeAll(operands) + 1
    case Cast(_, value) => Size(value) + 1
    case _ => 1
  }

  function SizeAll(es: List<Expr>): nat
  {
    match es
    case Nil => 0
    case Snoc(init, last) => SizeAll(init) + Size(last)
  }

  function SizeProg(p: Prog): nat
  {
    match p
    case Nil => 0
    case Snoc(init, s) => SizeProg(init) + Size(s.value) + if s.Perform? then 0 else 1
  }

  function ShapeOfExpr(pool: Pool, e: Expr): Shape
  {
    match e
    case Const(n) => Leaf(IntV(n))
    case Ldc(index) => Leaf(Loaded(pool, index))
    case Load(kind, slot) => FromLocal(kind, Some(slot))
    case GetStatic(index) => Leaf(StaticV(Lookup(pool, index)))
    case GetField(index, _) => FromField(Lookup(pool, index))
    case Call(_, index, operands) =>
      var callee := Lookup(pool, index);
      if callee.None? then Leaf(UnknownV) else FromCall(callee.value, Length(operands))
    case Cast(_, _) => PassOn
  }

  /** The instructions of an expression stand at index i. */
  ghost predicate LaidOut(pool: Pool, items: seq<Item>, i: nat, e: Expr)
    decreases e
  {
    && i + Size(e) <= |items| && items[i + Size(e) - 1] == Item(ShapeOfExpr(pool, e), None)
    && match e
       case GetField(_, receiver) => LaidOut(pool, items, i, receiver)
       case Call(_, index, operands) => Lookup(pool, index).Some? && AllLaidOut(pool, items, i, operands)
       case Cast(_, value) => LaidOut(pool, items, i, value)
       case _ => true
  }

  ghost predicate AllLaidOut(pool: Pool, items: seq<Item>, i: nat, es: List<Expr>)
    decreases es
  {
    match es
    case Nil => i <= |items|
    case Snoc(init, last) =>
      AllLaidOut(pool, items, i, init) && LaidOut(pool, items, i + SizeAll(init), last)
  }

  function Stores(s: Stmt): Option<(Kind, Option<int>)>
  {
    if s.Store? then Some((s.kind, Some(s.slot))) else None
  }

  /** The instructions start with those of a program. */
  ghost predicate ProgLaidOut(pool: Pool, items: seq<Item>, p: Prog)
    decreases p
  {
    match p
    case Nil => true
    case Snoc(init, s) =>
      && SizeProg(p) <= |items|
      && ProgLaidOut(pool, items, init) && LaidOut(pool, items, SizeProg(init), s.value)
      && (!s.Perform? ==> items[SizeProg(p) - 1].stores == Stores(s))
  }

  ghost predicate NoStore(items: seq<Item>, from: nat, to: nat)
  {
    to <= |items| && forall k | from <= k < to :: items[k].stores == None
  }

  lemma {:induction false} ExpressionsStoreNothing(pool: Pool, items: seq<Item>, i: nat, e: Expr)
    requires LaidOut(pool, items, i, e)
    ensures NoStore(items, i, i + Size(e))
    decreases e
  {
    match e
    case GetField(_, receiver) => ExpressionsStoreNothing(pool, items, i, receiver);
    case Call(_, _, operands) => OperandsStoreNothing(pool, items, i, operands);
    case Cast(_, value) => ExpressionsStoreNothing(pool, items, i, value);
    case _ =>
  }

  lemma {:induction false} OperandsStoreNothing(pool: Pool, items: seq<Item>, i: nat, es: List<Expr>)
    requires AllLaidOut(pool, items, i, es)
    ensures NoStore(items, i, i + SizeAll(es))
    decreases es
  {
    if es.Snoc? {
      OperandsStoreNothing(pool, items, i, es.init);
      ExpressionsStoreNothing(pool, items, i + SizeAll(es.init), es.last);
    }
  }

  lemma {:induction false} LeafIsRebuilt(pool: Pool, items: seq<Item>, p: Prog, start: nat, e: Expr, depth: nat)
    requires LaidOut(pool, items, start, e) && (e.Const? || e.Ldc? || e.GetStatic?)
    ensures ValueAt(items, start + Size(e) - 1, depth) == (Meaning(pool, p, e, depth), start - 1)
  {
  }

  lemma {:induction false} LoadIsRebuilt(pool: Pool, items: seq<Item>, p: Prog, start: nat, e: Expr, depth: nat)
    requires LaidOut(pool, items, start, e) && e.Load?
    requires Spill(items, start - 1, e.kind, Some(e.slot), depth) == Stored(pool, p, e.kind, e.slot, depth)
    ensures ValueAt(items, start + Size(e) - 1, depth) == (Meaning(pool, p, e, depth), start - 1)
  {
  }

  lemma {:induction false} FieldIsRebuilt(pool: Pool, items: seq<Item>, p: Prog, start: nat, e: Expr, depth: nat)
    requires LaidOut(pool, items, start, e) && e.GetField?
    requires ValueAt(items, start + Size(e.receiver) - 1, depth).1 == start - 1
    ensures ValueAt(items, start + Size(e) - 1, depth) == (Meaning(pool, p, e, depth), start - 1)
  {
  }

  lemma {:induction false} CastIsRebuilt(pool: Pool, items: seq<Item>, p: Prog, start: nat, e: Expr, depth: nat)
    requires LaidOut(pool, items, start, e) && e.Cast?
    requires ValueAt(items, start + Size(e.value) - 1, depth) == (Meaning(pool, p, e.value, depth), start - 1)
    ensures ValueAt(items, start + Size(e) - 1, depth) == (Meaning(pool, p, e, depth), start - 1)
  {
  }

  lemma {:induction false} CallIsRebuilt(pool: Pool, items: seq<Item>, p: Prog, start: nat, e: Expr, depth: nat)
    requires LaidOut(pool, items, start, e) && e.Call?
    requires Operands(items, start + SizeAll(e.operands) - 1, Length(e.operands), depth) ==
             (Meanings(pool, p, e.operands, depth), start - 1)
    ensures ValueAt(items, start + Size(e) - 1, depth) == (Meaning(pool, p, e, depth), start - 1)
  {
  }

  lemma {:induction false} SpillStep(items: seq<Item>, j: nat, kind: Kind, slot: nat, depth: nat)
    requires j < |items| && depth <= DEEPEST
    ensures Spill(items, j, kind, Some(slot), depth) ==
            if items[j].stores == Some((kind, Some(slot))) then Some(ValueAt(items, j - 1, depth + 1).0)
            else Spill(items, j - 1, kind, Some(slot), depth)
  {
  }

  lemma {:induction false} StoredStep(pool: Pool, p: Prog, kind: Kind, slot: nat, depth: nat)
    ensures Stored(pool, p, kind, slot, depth) ==
            if p.Nil? || depth > DEEPEST then None
            else if Stores(p.last) == Some((kind, Some(slot))) then Some(Meaning(pool, p.init, p.last.value, depth + 1))
            else Stored(pool, p.init, kind, slot, depth)
  {
  }

  /** The backward engine gives back the expression that was compiled, wherever its code stands
      behind its program, and the index before its first instruction. */
  lemma {:induction false} RebuildsTheExpression(pool: Pool, items: seq<Item>, p: Prog, start: nat, e: Expr, depth: nat)
    requires ProgLaidOut(pool, items, p) && SizeProg(p) <= start && NoStore(items, SizeProg(p), start)
    requires LaidOut(pool, items, start, e)
    ensures ValueAt(items, start + Size(e) - 1, depth) == (Meaning(pool, p, e, depth), start - 1)
    decreases p, 1, e
  {
    hide ValueAt, Meaning, Spill, Stored, Operands, Meanings, NoStore, ProgLaidOut, SizeProg;
    match e
    case Load(kind, slot) =>
      FindsTheStore(pool, items, p, start - 1, kind, slot, depth);
      LoadIsRebuilt(pool, items, p, start, e, depth);
    case GetField(_, receiver) =>
      RebuildsTheExpression(pool, items, p, start, receiver, depth);
      FieldIsRebuilt(pool, items, p, start, e, depth);
    case Call(_, _, operands) =>
      RebuildsTheOperands(pool, items, p, start, operands, depth);
      CallIsRebuilt(pool, items, p, start, e, depth);
    case Cast(_, value) =>
      RebuildsTheExpression(pool, items, p, start, value, depth);
      CastIsRebuilt(pool, items, p, start, e, depth);
    case _ => LeafIsRebuilt(pool, items, p, start, e, depth);
  }

  lemma {:induction false} RebuildsTheOperands(pool: Pool, items: seq<Item>, p: Prog, start: nat, es: List<Expr>,
                                               depth: nat)
    requires ProgLaidOut(pool, items, p) && SizeProg(p) <= start && NoStore(items, SizeProg(p), start)
    requires AllLaidOut(pool, items, start, es) && start + SizeAll(es) <= |items|
    ensures Operands(items, start + SizeAll(es) - 1, Length(es), depth) ==
            (Meanings(pool, p, es, depth), start - 1)
    decreases p, 1, es
  {
    hide ValueAt, Meaning, LaidOut, Spill, Stored;
    if es.Snoc? {
      OperandsStoreNothing(pool, items, start, es.init);
      RebuildsTheExpression(pool, items, p, start + SizeAll(es.init), es.last, depth);
      RebuildsTheOperands(pool, items, p, start, es.init, depth);
    }
  }

  /** Searching backwards from any index behind a program, past code that stores nothing, finds the
      program's last store. */
  lemma {:induction false} FindsTheStore(pool: Pool, items: seq<Item>, p: Prog, j: int, kind: Kind, slot: nat,
                                         depth: nat)
    requires ProgLaidOut(pool, items, p)
    requires SizeProg(p) - 1 <= j < |items| && NoStore(items, SizeProg(p), j + 1)
    ensures Spill(items, j, kind, Some(slot), depth) == Stored(pool, p, kind, slot, depth)
    decreases p, 0, 1
  {
    hide ValueAt, ProgLaidOut, NoStore, Spill, Stored, SizeProg;
    PassesOver(items, SizeProg(p), j + 1, kind, slot, depth);
    FindsItFromTheEnd(pool, items, p, kind, slot, depth);
  }

  lemma {:induction false} FindsItFromTheEnd(pool: Pool, items: seq<Item>, p: Prog, kind: Kind, slot: nat, depth: nat)
    requires ProgLaidOut(pool, items, p)
    ensures Spill(items, SizeProg(p) - 1, kind, Some(slot), depth) == Stored(pool, p, kind, slot, depth)
    decreases p, 0, 0
  {
    hide ValueAt, Meaning, LaidOut, ProgLaidOut, NoStore, Spill, Stored, Stores, SizeProg, Size;
    StatementStep(pool, items, p, kind, slot, depth);
    StoredStep(pool, p, kind, slot, depth);
    NothingBetween(pool, items, p);
    if depth <= DEEPEST && p.Snoc? {
      if Stores(p.last) == Some((kind, Some(slot))) {
        RebuildsTheExpression(pool, items, p.init, SizeProg(p.init), p.last.value, depth + 1);
      } else {
        FindsItFromTheEnd(pool, items, p.init, kind, slot, depth);
      }
    }
  }

  lemma {:induction false} NothingBetween(pool: Pool, items: seq<Item>, p: Prog)
    requires ProgLaidOut(pool, items, p)
    ensures p.Snoc? ==> NoStore(items, SizeProg(p.init), SizeProg(p.init))
  {
    hide LaidOut, Size;
  }

  lemma {:induction false} StatementStep(pool: Pool, items: seq<Item>, p: Prog, kind: Kind, slot: nat, depth: nat)
    requires ProgLaidOut(pool, items, p)
    ensures p.Snoc? ==> SizeProg(p.init) + Size(p.last.value) <= SizeProg(p) <= |items|
    ensures p.Snoc? ==> ProgLaidOut(pool, items, p.init) && LaidOut(pool, items, SizeProg(p.init), p.last.value)
    ensures Spill(items, SizeProg(p) - 1, kind, Some(slot), depth) ==
            if p.Nil? || depth > DEEPEST then None
            else if Stores(p.last) == Some((kind, Some(slot)))
            then Some(ValueAt(items, SizeProg(p.init) + Size(p.last.value) - 1, depth + 1).0)
            else Spill(items, SizeProg(p.init) - 1, kind, Some(slot), depth)
  {
    hide ValueAt, LaidOut, NoStore, Size;
    if p.Snoc? && depth <= DEEPEST {
      hide Spill;
      var first, end := SizeProg(p.init), SizeProg(p);
      ExpressionsStoreNothing(pool, items, first, p.last.value);
      PassesOver(items, first, first + Size(p.last.value), kind, slot, depth);
      if !p.last.Perform? {
        SpillStep(items, end - 1, kind, slot, depth);
      }
    }
  }

  /** It passes over code that stores nothing. */
  lemma {:induction false} PassesOver(items: seq<Item>, first: nat, end: nat, kind: Kind, slot: nat, depth: nat)
    requires first <= end && NoStore(items, first, end)
    ensures Spill(items, end - 1, kind, Some(slot), depth) == Spill(items, first - 1, kind, Some(slot), depth)
    decreases end
  {
    hide ValueAt;
    if first < end {
      PassesOver(items, first, end - 1, kind, slot, depth);
    }
  }

  // ---------------------------------------------------------------------------------------------
  // From the compiled instructions
  // ---------------------------------------------------------------------------------------------

  /** The instructions from index i on are the given code. */
  ghost predicate At(pool: Pool, items: seq<Item>, i: nat, code: seq<Instr>)
  {
    i + |code| <= |items| && forall k | 0 <= k < |code| :: Shows(pool, items[i + k], code[k])
  }

  ghost predicate Shows(pool: Pool, item: Item, i: Instr)
  {
    ValidInstr(i) && ReadableIns(pool, Read(i)) && item == ItemOf(pool, Read(i))
  }

  lemma {:induction false} AtSplits(pool: Pool, items: seq<Item>, i: nat, a: seq<Instr>, b: seq<Instr>)
    requires At(pool, items, i, a + b)
    ensures At(pool, items, i, a) && At(pool, items, i + |a|, b)
  {
    assert forall k | 0 <= k < |a| :: (a + b)[k] == a[k];
    assert forall k | 0 <= k < |b| :: (a + b)[|a| + k] == b[k];
  }

  lemma {:induction false} AtIsInside(pool: Pool, items: seq<Item>, i: nat, code: seq<Instr>)
    requires At(pool, items, i, code)
    ensures i <= |items|
  {
  }

  lemma {:induction false} LastSays(pool: Pool, e: Expr, item: Item)
    requires Compilable(pool, e) && |Compile(pool, e)| > 0
    requires Shows(pool, item, Compile(pool, e)[|Compile(pool, e)| - 1])
    ensures item == Item(ShapeOfExpr(pool, e), None)
  {
    match e
    case Const(n) => ConstRoundTrip(n);
    case Ldc(index) => LdcRoundTrip(index);
    case Load(kind, slot) => LoadSays(pool, kind, slot, item);
    case GetStatic(index) => MemberIsPlain(pool, 0xb2, index);
    case GetField(index, _) => MemberIsPlain(pool, 0xb4, index);
    case Call(op, index, operands) => CallRoundTrip(op, index, Length(operands));
    case Cast(index, _) => MemberIsPlain(pool, 0xc0, index);
  }

  lemma {:induction false} LoadSays(pool: Pool, kind: Kind, slot: nat, item: Item)
    requires slot < 256 && Shows(pool, item, LoadInstr(kind, slot))
    ensures item == Item(FromLocal(kind, Some(slot)), None)
  {
    LocalsRoundTrip(kind, slot);
  }

  lemma {:induction false} EndingSays(pool: Pool, s: Stmt, item: Item)
    requires !s.Perform? && GoodEnding(s)
    requires Shows(pool, item, Ending(s)[0])
    ensures item.stores == Stores(s)
  {
    if s.Store? {
      LocalsRoundTrip(s.kind, s.slot);
    }
  }

  lemma {:induction false} SizeIsLength(pool: Pool, e: Expr)
    requires Compilable(pool, e)
    ensures |Compile(pool, e)| == Size(e)
    decreases e
  {
    match e
    case GetField(_, receiver) => SizeIsLength(pool, receiver);
    case Call(_, _, operands) => SizeAllIsLength(pool, operands);
    case Cast(_, value) => SizeIsLength(pool, value);
    case _ =>
  }

  lemma {:induction false} SizeAllIsLength(pool: Pool, es: List<Expr>)
    requires AllCompilable(pool, es)
    ensures |CompileAll(pool, es)| == SizeAll(es)
    decreases es
  {
    if es.Snoc? {
      SizeAllIsLength(pool, es.init);
      SizeIsLength(pool, es.last);
    }
  }

  lemma {:induction false} CompiledIsLaidOut(pool: Pool, items: seq<Item>, i: nat, e: Expr)
    requires Compilable(pool, e) && At(pool, items, i, Compile(pool, e))
    ensures LaidOut(pool, items, i, e)
    decreases e
  {
    SizeIsLength(pool, e);
    assert Shows(pool, items[i + (Size(e) - 1)], Compile(pool, e)[Size(e) - 1]);
    LastSays(pool, e, items[i + (Size(e) - 1)]);
    match e
    case GetField(index, receiver) =>
      AtSplits(pool, items, i, Compile(pool, receiver), [Fixed(0xb4, U16(index))]);
      CompiledIsLaidOut(pool, items, i, receiver);
    case Call(op, index, operands) =>
      AtSplits(pool, items, i, CompileAll(pool, operands), [CallInstr(op, index, Length(operands))]);
      CompiledAreLaidOut(pool, items, i, operands);
    case Cast(index, value) =>
      AtSplits(pool, items, i, Compile(pool, value), [Fixed(0xc0, U16(index))]);
      CompiledIsLaidOut(pool, items, i, value);
    case _ =>
  }

  lemma {:induction false} CompiledAreLaidOut(pool: Pool, items: seq<Item>, i: nat, es: List<Expr>)
    requires AllCompilable(pool, es) && At(pool, items, i, CompileAll(pool, es))
    ensures AllLaidOut(pool, items, i, es)
    decreases es
  {
    hide At, LaidOut, Compile, Compilable, Size;
    AtIsInside(pool, items, i, CompileAll(pool, es));
    if es.Snoc? {
      SizeAllIsLength(pool, es.init);
      AtSplits(pool, items, i, CompileAll(pool, es.init), Compile(pool, es.last));
      CompiledAreLaidOut(pool, items, i, es.init);
      CompiledIsLaidOut(pool, items, i + SizeAll(es.init), es.last);
    }
  }

  lemma {:induction false} StatementIsLaidOut(pool: Pool, items: seq<Item>, i: nat, s: Stmt)
    requires Compilable(pool, s.value) && GoodEnding(s)
    requires At(pool, items, i, Compile(pool, s.value) + Ending(s))
    ensures |Compile(pool, s.value)| == Size(s.value) && LaidOut(pool, items, i, s.value)
    ensures !s.Perform? ==> i + Size(s.value) < |items| && items[i + Size(s.value)].stores == Stores(s)
  {
    SizeIsLength(pool, s.value);
    AtSplits(pool, items, i, Compile(pool, s.value), Ending(s));
    CompiledIsLaidOut(pool, items, i, s.value);
    if !s.Perform? {
      assert Shows(pool, items[i + Size(s.value) + 0], Ending(s)[0]);
      EndingSays(pool, s, items[i + Size(s.value)]);
    }
  }

  lemma {:induction false} ProgIsLaidOut(pool: Pool, items: seq<Item>, p: Prog)
    requires ProgCompilable(pool, p) && At(pool, items, 0, CompileProg(pool, p))
    ensures ProgLaidOut(pool, items, p) && |CompileProg(pool, p)| == SizeProg(p)
    decreases p
  {
    hide At, LaidOut, Compile, Compilable, Size;
    if p.Snoc? {
      AtSplits(pool, items, 0, CompileProg(pool, p.init), Compile(pool, p.last.value) + Ending(p.last));
      ProgIsLaidOut(pool, items, p.init);
      StatementIsLaidOut(pool, items, SizeProg(p.init), p.last);
    }
  }

  /** Reading a list of instructions shows every one of them at its index. */
  lemma {:induction false} ReadingShows(pool: Pool, list: seq<Instr>)
    requires ValidList(list) && Readable(pool, ReadAll(list))
    ensures At(pool, ItemsOf(pool, ReadAll(list)), 0, list)
  {
    var ins := ReadAll(list);
    forall k | 0 <= k < |list| ensures Shows(pool, ItemsOf(pool, ins)[0 + k], list[k]) {
      ItemAt(pool, ins, k);
      assert ins[k] == Read(list[k]);
    }
  }

  lemma {:induction false} CodeIsLaidOut(pool: Pool, items: seq<Item>, p: Prog, e: Expr)
    requires ProgCompilable(pool, p) && Compilable(pool, e)
    requires At(pool, items, 0, CompileProg(pool, p) + Compile(pool, e))
    ensures ProgLaidOut(pool, items, p) && LaidOut(pool, items, SizeProg(p), e)
    ensures |CompileProg(pool, p) + Compile(pool, e)| == SizeProg(p) + Size(e)
  {
    hide At, LaidOut, ProgLaidOut, Compile, CompileProg, Compilable, ProgCompilable, Size, SizeProg;
    AtSplits(pool, items, 0, CompileProg(pool, p), Compile(pool, e));
    ProgIsLaidOut(pool, items, p);
    SizeIsLength(pool, e);
    CompiledIsLaidOut(pool, items, SizeProg(p), e);
  }

  lemma {:induction false} RebuildsTheLast(pool: Pool, items: seq<Item>, p: Prog, e: Expr)
    ensures ProgLaidOut(pool, items, p) && LaidOut(pool, items, SizeProg(p), e) && |items| == SizeProg(p) + Size(e) ==>
              ValueAt(items, |items| - 1, 0) == (Meaning(pool, p, e, 0), SizeProg(p) - 1)
  {
    hide ProgLaidOut, LaidOut, ValueAt, Meaning, SizeProg, Size;
    if ProgLaidOut(pool, items, p) && LaidOut(pool, items, SizeProg(p), e) && |items| == SizeProg(p) + Size(e) {
      RebuildsTheExpression(pool, items, p, SizeProg(p), e, 0);
    }
  }

  /** A program followed by an expression is code the decoder and value_at can read. */
  lemma {:induction false} CodeIsReadable(pool: Pool, p: Prog, e: Expr)
    requires ProgCompilable(pool, p) && Compilable(pool, e)
    ensures ReadableCode(pool, CompileProg(pool, p) + Compile(pool, e))
  {
    ProgIsReadable(pool, p);
    CompiledIsPlain(pool, e);
    PlainIsReadable(pool, Compile(pool, e));
    ReadableCodeAppend(pool, CompileProg(pool, p), Compile(pool, e));
  }

  /** The bytes of a program followed by an expression. */
  function CodeOf(pool: Pool, p: Prog, e: Expr): bytes
    requires ProgCompilable(pool, p) && Compilable(pool, e)
  {
    CodeIsReadable(pool, p, e);
    ReadableCodeDecodes(pool, CompileProg(pool, p) + Compile(pool, e));
    Encode(CompileProg(pool, p) + Compile(pool, e), 0)
  }

  /** value_at at the last instruction of a method body; None where the body cannot be read. */
  function LastValue(pool: Pool, code: bytes): Option<(Value, int)>
  {
    var ins := Decode(code);
    if ins.Ok? && Readable(pool, ins.value) then
      Some(ValueAt(ItemsOf(pool, ins.value), |ins.value| - 1, 0))
    else None
  }

  lemma {:induction false} LastOfList(pool: Pool, code: bytes, list: seq<Instr>)
    requires ValidList(list) && Decode(code) == Ok(ReadAll(list)) && Readable(pool, ReadAll(list))
    ensures var items := ItemsOf(pool, ReadAll(list));
            LastValue(pool, code) == Some(ValueAt(items, |items| - 1, 0))
  {
  }

  lemma {:induction false} ReadListIsLaidOut(pool: Pool, list: seq<Instr>, p: Prog, e: Expr)
    requires ProgCompilable(pool, p) && Compilable(pool, e) && list == CompileProg(pool, p) + Compile(pool, e)
    requires ValidList(list) && Readable(pool, ReadAll(list))
    ensures var items := ItemsOf(pool, ReadAll(list));
            && ProgLaidOut(pool, items, p) && LaidOut(pool, items, SizeProg(p), e)
            && |items| == SizeProg(p) + Size(e)
  {
    ReadingShows(pool, list);
    CodeIsLaidOut(pool, ItemsOf(pool, ReadAll(list)), p, e);
  }

  lemma {:induction false} RebuildsTheReadList(pool: Pool, list: seq<Instr>, p: Prog, e: Expr)
    requires ProgCompilable(pool, p) && Compilable(pool, e) && list == CompileProg(pool, p) + Compile(pool, e)
    requires ValidList(list) && Readable(pool, ReadAll(list))
    ensures var items := ItemsOf(pool, ReadAll(list));
            ValueAt(items, |items| - 1, 0) == (Meaning(pool, p, e, 0), SizeProg(p) - 1)
  {
    hide LaidOut, ProgLaidOut, ValueAt, Meaning, ItemsOf, ReadAll, Compile, CompileProg, Readable, ValidList;
    ReadListIsLaidOut(pool, list, p, e);
    RebuildsTheLast(pool, ItemsOf(pool, ReadAll(list)), p, e);
  }

  /** Straight from the bytes: decoding the code of a program followed by an expression, and asking
      value_at for the last instruction, gives back that expression, and the index before it. */
  lemma {:induction false} ValueAtInvertsCompile(pool: Pool, p: Prog, e: Expr)
    requires ProgCompilable(pool, p) && Compilable(pool, e)
    ensures LastValue(pool, CodeOf(pool, p, e)) == Some((Meaning(pool, p, e, 0), SizeProg(p) - 1))
  {
    var list := CompileProg(pool, p) + Compile(pool, e);
    CodeIsReadable(pool, p, e);
    ReadableCodeDecodes(pool, list);
    LastOfList(pool, CodeOf(pool, p, e), list);
    RebuildsTheReadList(pool, list, p, e);
  }
}
