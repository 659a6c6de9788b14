/** scripts/extract_caps.py:213-258: constant-pool lookups; and expressions and local stores in the
    postorder javac lays them out in, which the two engines read back. */
module Compiling {
  import opened Prelude
  import opened Bytecode
  import opened Descriptors

  /** Lists that grow at the end, as operand stacks do. */
  datatype List<+T> = Nil | Snoc(init: List<T>, last: T)

  function Length<T>(l: List<T>): nat
  {
    match l
    case Nil => 0
    case Snoc(init, _) => Length(init) + 1
  }

  function Cons<T>(x: T, l: List<T>): List<T>
  {
    match l
    case Nil => Snoc(Nil, x)
    case Snoc(init, last) => Snoc(Cons(x, init), last)
  }

  // ---------------------------------------------------------------------------------------------
  // The constant pool
  // ---------------------------------------------------------------------------------------------

  datatype Ref = Ref(owner: string, name: string, desc: string)

  datatype Entry =
    | Unused
    | StringEntry(s: string)
    | IntegerEntry(n: int)
    | LongEntry(n: int)
    | OtherEntry(tag: int)
    | MemberEntry(tag: int, ref: Ref)
    | DynamicEntry(tag: int, name: string, desc: string)

  type Pool = int -> Entry

  /** ref */
  function Lookup(pool: Pool, i: int): Option<Ref>
  {
    match pool(i)
    case MemberEntry(_, ref) => Some(ref)
    case DynamicEntry(_, name, desc) => Some(Ref("<indy>", name, desc))
    case _ => None
  }

  // ---------------------------------------------------------------------------------------------
  // Locals
  // ---------------------------------------------------------------------------------------------

  /** The letters i, l, f, d and a of the load and store instructions. */
  datatype Kind = IntKind | LongKind | FloatKind | DoubleKind | RefKind

  function KindOf(n: nat): Kind
    requires n < 5
  {
    if n == 0 then IntKind
    else if n == 1 then LongKind
    else if n == 2 then FloatKind
    else if n == 3 then DoubleKind
    else RefKind
  }

  function KindIndex(k: Kind): (n: nat)
    ensures n < 5 && KindOf(n) == k
  {
    match k
    case IntKind => 0
    case LongKind => 1
    case FloatKind => 2
    case DoubleKind => 3
    case RefKind => 4
  }

  /** The kind and slot of a load, as value_at reads them. */
  function LoadSlot(op: byte, arg: Option<int>): Option<(Kind, Option<int>)>
  {
    if 0x15 <= op <= 0x19 then Some((KindOf(op - 0x15), arg))
    else if 0x1a <= op <= 0x2d then Some((KindOf((op - 0x1a) / 4), Some((op - 0x1a) % 4)))
    else None
  }

  /** store_slot */
  function StoreSlot(op: byte, arg: Option<int>): Option<(Kind, Option<int>)>
  {
    if 0x36 <= op <= 0x3a then Some((KindOf(op - 0x36), arg))
    else if 0x3b <= op <= 0x4e then Some((KindOf((op - 0x3b) / 4), Some((op - 0x3b) % 4)))
    else None
  }

  /** The short form for the first four slots, the one-byte form for the others. */
  function LoadInstr(kind: Kind, slot: nat): Instr
    requires slot < 256
  {
    var n := KindIndex(kind);
    if slot < 4 then Fixed(0x1a + 4 * n + slot, []) else Fixed(0x15 + n, [slot])
  }

  function StoreInstr(kind: Kind, slot: nat): Instr
    requires slot < 256
  {
    var n := KindIndex(kind);
    if slot < 4 then Fixed(0x3b + 4 * n + slot, []) else Fixed(0x36 + n, [slot])
  }

  /** The compact forms of loads and stores are decoded to the kind and slot they were made for. */
  lemma {:induction false} LocalsRoundTrip(kind: Kind, slot: nat)
    requires slot < 256
    ensures ValidInstr(LoadInstr(kind, slot)) && ValidInstr(StoreInstr(kind, slot))
    ensures var i := Read(LoadInstr(kind, slot));
            LoadSlot(i.op, i.arg) == Some((kind, Some(slot))) && StoreSlot(i.op, i.arg) == None
    ensures var i := Read(StoreInstr(kind, slot));
            StoreSlot(i.op, i.arg) == Some((kind, Some(slot))) && LoadSlot(i.op, i.arg) == None
  {
    LoadRoundTrip(kind, slot);
    StoreRoundTrip(kind, slot);
  }

  lemma {:induction false} LoadRoundTrip(kind: Kind, slot: nat)
    requires slot < 256
    ensures var load := LoadInstr(kind, slot);
            && ValidInstr(load) && LoadSlot(Read(load).op, Read(load).arg) == Some((kind, Some(slot)))
            && StoreSlot(Read(load).op, Read(load).arg) == None
  {
    ShortForm(KindIndex(kind), slot);
  }

  lemma {:induction false} StoreRoundTrip(kind: Kind, slot: nat)
    requires slot < 256
    ensures var store := StoreInstr(kind, slot);
            && ValidInstr(store) && StoreSlot(Read(store).op, Read(store).arg) == Some((kind, Some(slot)))
            && LoadSlot(Read(store).op, Read(store).arg) == None
  {
    ShortForm(KindIndex(kind), slot);
  }

  lemma {:induction false} ShortForm(n: nat, slot: nat)
    ensures slot < 4 ==> (4 * n + slot) / 4 == n && (4 * n + slot) % 4 == slot
  {
  }

  // ---------------------------------------------------------------------------------------------
  // Straight-line programs
  // ---------------------------------------------------------------------------------------------

  const STATIC_INVOKE: set<int> := {0xb8, 0xba}
  const INVOKE: set<int> := {0xb6, 0xb7, 0xb8, 0xb9, 0xba}

  datatype Expr =
    | Const(n: int)
    | Ldc(index: nat)
    | Load(kind: Kind, slot: nat)
    | GetStatic(index: nat)
    | GetField(index: nat, receiver: Expr)
    | Call(op: byte, index: nat, operands: List<Expr>)
    | Cast(index: nat, value: Expr)

  /** Assign is putstatic; Discard pops the value; Perform is a call that leaves none. */
  datatype Stmt =
    | Store(kind: Kind, slot: nat, value: Expr)
    | Assign(index: nat, value: Expr)
    | Discard(value: Expr)
    | Perform(value: Expr)

  type Prog = List<Stmt>

  function Arity(op: byte, ref: Ref): nat
    requires ParseArgs(ref.desc).Some?
  {
    |ParseArgs(ref.desc).value| + if op in STATIC_INVOKE then 0 else 1
  }

  /** What a compiler guarantees: operands in range, and as many of them as the descriptor says. */
  predicate Compilable(pool: Pool, e: Expr)
  {
    match e
    case Const(n) => -0x8000 <= n < 0x8000
    case Ldc(index) => index < 0x1_0000
    case Load(_, slot) => slot < 256
    case GetStatic(index) => index < 0x1_0000
    case GetField(index, receiver) => index < 0x1_0000 && Compilable(pool, receiver)
    case Call(op, index, operands) =>
      && op in INVOKE && index < 0x1_0000
      && Lookup(pool, index).Some? && ParseArgs(Lookup(pool, index).value.desc).Some?
      && Length(operands) == Arity(op, Lookup(pool, index).value)
      && AllCompilable(pool, operands)
    case Cast(index, value) => index < 0x1_0000 && Compilable(pool, value)
  }

  predicate AllCompilable(pool: Pool, es: List<Expr>)
  {
    match es
    case Nil => true
    case Snoc(init, last) => AllCompilable(pool, init) && Compilable(pool, last)
  }

  predicate GoodEnding(s: Stmt)
  {
    (s.Store? ==> s.slot < 256) && (s.Assign? ==> s.index < 0x1_0000)
  }

  predicate ProgCompilable(pool: Pool, p: Prog)
  {
    match p
    case Nil => true
    case Snoc(init, s) =>
      ProgCompilable(pool, init) && Compilable(pool, s.value) && GoodEnding(s)
  }

  function ConstInstr(n: int): Instr
    requires -0x8000 <= n < 0x8000
  {
    if -1 <= n <= 5 then Fixed(0x03 + n, [])
    else if -0x80 <= n < 0x80 then Fixed(0x10, [n % 0x100])
    else Fixed(0x11, U16(n % 0x1_0000))
  }

  function LdcInstr(index: nat): Instr
    requires index < 0x1_0000
  {
    if index < 0x100 then Fixed(0x12, [index]) else Fixed(0x13, U16(index))
  }

  /** invokeinterface carries a count and a zero behind the index, invokedynamic two zeros. */
  function CallInstr(op: byte, index: nat, operands: nat): Instr
  {
    Fixed(op, U16(index) + if op == 0xb9 then [operands % 0x100, 0] else if op == 0xba then [0, 0] else [])
  }

  function Compile(pool: Pool, e: Expr): seq<Instr>
    requires Compilable(pool, e)
  {
    match e
    case Const(n) => [ConstInstr(n)]
    case Ldc(index) => [LdcInstr(index)]
    case Load(kind, slot) => [LoadInstr(kind, slot)]
    case GetStatic(index) => [Fixed(0xb2, U16(index))]
    case GetField(index, receiver) => Compile(pool, receiver) + [Fixed(0xb4, U16(index))]
    case Call(op, index, operands) => CompileAll(pool, operands) + [CallInstr(op, index, Length(operands))]
    case Cast(index, value) => Compile(pool, value) + [Fixed(0xc0, U16(index))]
  }

  function CompileAll(pool: Pool, es: List<Expr>): seq<Instr>
    requires AllCompilable(pool, es)
  {
    match es
    case Nil => []
    case Snoc(init, last) => CompileAll(pool, init) + Compile(pool, last)
  }

  function Ending(s: Stmt): seq<Instr>
    requires GoodEnding(s)
  {
    match s
    case Store(kind, slot, _) => [StoreInstr(kind, slot)]
    case Assign(index, _) => [Fixed(0xb3, U16(index))]
    case Discard(_) => [Fixed(0x57, [])]
    case Perform(_) => []
  }

  function CompileProg(pool: Pool, p: Prog): seq<Instr>
    requires ProgCompilable(pool, p)
  {
    match p
    case Nil => []
    case Snoc(init, s) => CompileProg(pool, init) + (Compile(pool, s.value) + Ending(s))
  }

  // ---------------------------------------------------------------------------------------------
  // What compiled code is made of
  // ---------------------------------------------------------------------------------------------

  predicate Whole(i: Ins)
  {
    OpLen(i.op).Some? && OpLen(i.op).value > 0 ==> i.arg.Some?
  }

  /** What value_at needs of its instructions: whole operands, and descriptors that parse. */
  predicate ReadableIns(pool: Pool, i: Ins)
  {
    && Whole(i)
    && (i.op in INVOKE && Lookup(pool, i.arg.value).Some? ==>
          ParseArgs(Lookup(pool, i.arg.value).value.desc).Some?)
  }

  predicate Readable(pool: Pool, ins: seq<Ins>)
  {
    forall k | 0 <= k < |ins| :: ReadableIns(pool, ins[k])
  }

  /** An instruction of an expression: in the one form the reader knows, readable, and no store. */
  predicate Plain(pool: Pool, i: Instr)
  {
    && i.Fixed? && ValidInstr(i)
    && ReadableIns(pool, Read(i))
    && StoreSlot(Read(i).op, Read(i).arg) == None
  }

  predicate AllPlain(pool: Pool, code: seq<Instr>)
  {
    forall k | 0 <= k < |code| :: Plain(pool, code[k])
  }

  lemma {:induction false} IndexRoundTrip(op: byte, index: nat, more: bytes)
    requires index < 0x1_0000 && op !in {0x10, 0x11, WIDE, TABLESWITCH, LOOKUPSWITCH}
    requires OpLen(op) == Some(2 + |more|)
    ensures ValidInstr(Fixed(op, U16(index) + more)) && Read(Fixed(op, U16(index) + more)) == Ins(op, Some(index))
  {
    U16Truncates(index);
    assert (U16(index) + more)[..2] == U16(index);
  }

  lemma {:induction false} CallRoundTrip(op: byte, index: nat, operands: nat)
    requires index < 0x1_0000 && op in INVOKE
    ensures ValidInstr(CallInstr(op, index, operands))
    ensures Read(CallInstr(op, index, operands)) == Ins(op, Some(index))
  {
    IndexRoundTrip(op, index, CallInstr(op, index, operands).operand[2..]);
    assert CallInstr(op, index, operands).operand ==
           U16(index) + CallInstr(op, index, operands).operand[2..];
  }

  lemma {:induction false} LdcRoundTrip(index: nat)
    requires index < 0x1_0000
    ensures ValidInstr(LdcInstr(index)) && Read(LdcInstr(index)).op in {0x12, 0x13}
    ensures Read(LdcInstr(index)).arg == Some(index)
  {
    if index >= 0x100 {
      IndexRoundTrip(0x13, index, []);
      assert U16(index) + [] == U16(index);
    }
  }

  /** A constant is read back from whichever of the three encodings carries it. */
  lemma {:induction false} ConstRoundTrip(n: int)
    requires -0x8000 <= n < 0x8000
    ensures ValidInstr(ConstInstr(n))
    ensures var i := Read(ConstInstr(n));
            (0x02 <= i.op <= 0x08 && i.arg == None && n == i.op as int - 3)
            || (i.op in {0x10, 0x11} && i.arg == Some(n))
  {
    if !(-0x80 <= n < 0x80) {
      SipushRoundTrip(n);
    } else if !(-1 <= n <= 5) {
      hide U16, FromU16;
      assert Signed(n % 0x100, 0x100) == n;
    }
  }

  lemma {:induction false} SipushRoundTrip(n: int)
    requires -0x8000 <= n < 0x8000
    ensures var i := Fixed(0x11, U16(n % 0x1_0000)); ValidInstr(i) && Read(i) == Ins(0x11, Some(n))
  {
    U16Truncates(n % 0x1_0000);
    hide U16, FromU16;
    assert U16(n % 0x1_0000)[..2] == U16(n % 0x1_0000);
  }

  lemma {:induction false} MemberIsPlain(pool: Pool, op: byte, index: nat)
    requires index < 0x1_0000 && op in {0xb2, 0xb4, 0xc0}
    ensures Plain(pool, Fixed(op, U16(index))) && Read(Fixed(op, U16(index))) == Ins(op, Some(index))
  {
    IndexRoundTrip(op, index, []);
    assert U16(index) + [] == U16(index);
  }

  lemma {:induction false} ConstIsPlain(pool: Pool, n: int)
    requires -0x8000 <= n < 0x8000
    ensures Plain(pool, ConstInstr(n))
  {
    ConstRoundTrip(n);
  }

  lemma {:induction false} LdcIsPlain(pool: Pool, index: nat)
    requires index < 0x1_0000
    ensures Plain(pool, LdcInstr(index))
  {
    LdcRoundTrip(index);
  }

  lemma {:induction false} LoadIsPlain(pool: Pool, kind: Kind, slot: nat)
    requires slot < 256
    ensures Plain(pool, LoadInstr(kind, slot))
  {
    LocalsRoundTrip(kind, slot);
  }

  lemma {:induction false} CallIsPlain(pool: Pool, op: byte, index: nat, operands: nat)
    requires op in INVOKE && index < 0x1_0000
    requires Lookup(pool, index).Some? && ParseArgs(Lookup(pool, index).value.desc).Some?
    ensures Plain(pool, CallInstr(op, index, operands))
  {
    CallRoundTrip(op, index, operands);
  }

  lemma {:induction false} CompiledIsPlain(pool: Pool, e: Expr)
    requires Compilable(pool, e)
    ensures AllPlain(pool, Compile(pool, e)) && |Compile(pool, e)| > 0
    decreases e
  {
    match e
    case Const(n) => ConstIsPlain(pool, n);
    case Ldc(index) => LdcIsPlain(pool, index);
    case Load(kind, slot) => LoadIsPlain(pool, kind, slot);
    case GetStatic(index) => MemberIsPlain(pool, 0xb2, index);
    case GetField(index, receiver) =>
      CompiledIsPlain(pool, receiver);
      MemberIsPlain(pool, 0xb4, index);
    case Call(op, index, operands) =>
      AllCompiledArePlain(pool, operands);
      CallIsPlain(pool, op, index, Length(operands));
    case Cast(index, value) =>
      CompiledIsPlain(pool, value);
      MemberIsPlain(pool, 0xc0, index);
  }

  lemma {:induction false} AllCompiledArePlain(pool: Pool, es: List<Expr>)
    requires AllCompilable(pool, es)
    ensures AllPlain(pool, CompileAll(pool, es))
    decreases es
  {
    if es.Snoc? {
      AllCompiledArePlain(pool, es.init);
      CompiledIsPlain(pool, es.last);
    }
  }

  // ---------------------------------------------------------------------------------------------
  // Whole programs are readable
  // ---------------------------------------------------------------------------------------------

  /** Code in fixed-size instructions that value_at can read. */
  predicate ReadableCode(pool: Pool, code: seq<Instr>)
  {
    forall k | 0 <= k < |code| :: ReadableInstr(pool, code[k])
  }

  predicate ReadableInstr(pool: Pool, i: Instr)
  {
    i.Fixed? && ValidInstr(i) && ReadableIns(pool, Read(i))
  }

  lemma {:induction false} ReadableCodeAppend(pool: Pool, a: seq<Instr>, b: seq<Instr>)
    requires ReadableCode(pool, a) && ReadableCode(pool, b)
    ensures ReadableCode(pool, a + b)
  {
  }

  lemma {:induction false} PlainIsReadable(pool: Pool, code: seq<Instr>)
    requires AllPlain(pool, code)
    ensures ReadableCode(pool, code)
  {
    assert forall k | 0 <= k < |code| :: Plain(pool, code[k]) ==> ReadableInstr(pool, code[k]);
  }

  lemma {:induction false} EndingIsReadable(pool: Pool, s: Stmt)
    requires GoodEnding(s)
    ensures ReadableCode(pool, Ending(s))
  {
    if s.Store? {
      LocalsRoundTrip(s.kind, s.slot);
    }
  }

  lemma {:induction false} ProgIsReadable(pool: Pool, p: Prog)
    requires ProgCompilable(pool, p)
    ensures ReadableCode(pool, CompileProg(pool, p))
    decreases p
  {
    if p.Snoc? {
      var code := Compile(pool, p.last.value);
      ProgIsReadable(pool, p.init);
      CompiledIsPlain(pool, p.last.value);
      PlainIsReadable(pool, code);
      EndingIsReadable(pool, p.last);
      ReadableCodeAppend(pool, code, Ending(p.last));
      ReadableCodeAppend(pool, CompileProg(pool, p.init), code + Ending(p.last));
    }
  }

  lemma {:induction false} FixedIsNotWide(list: seq<Instr>)
    requires forall k | 0 <= k < |list| :: list[k].Fixed?
    ensures NoWide(list)
    decreases |list|
  {
    if list != [] {
      FixedIsNotWide(list[1..]);
    }
  }

  /** Readable code is a list the decoder gives back as it is. */
  lemma {:induction false} ReadableCodeDecodes(pool: Pool, code: seq<Instr>)
    requires ReadableCode(pool, code)
    ensures ValidList(code) && Decode(Encode(code, 0)) == Ok(ReadAll(code)) && Readable(pool, ReadAll(code))
  {
    assert forall k | 0 <= k < |code| :: ReadableInstr(pool, code[k]) ==> ValidInstr(code[k]) && code[k].Fixed?;
    FixedIsNotWide(code);
    DecodeReadsTheList(code);
    forall k | 0 <= k < |code| ensures ReadableIns(pool, ReadAll(code)[k]) {
      assert ReadableInstr(pool, code[k]);
    }
  }
}
