/** The two passes of the byte compiler (`bytecompile.c`), the layout of instructions
    (`gsbytecode.h`), and the walk over emitted code by which the collector copies a
    code block and relocates its case pointers (`eval.c`). */
module Bytecode {

  datatype Option<T> = None | Some(value: T)

  // registers of a code item; fields of a source line, the first two of which are its
  // label and its directive
  const MAX_REGISTERS := 0x100
  const MAX_FIELDS := 0x100

  // ----- Layout -----

  const WORD := 8
  const POS_SIZE := 16
  // offset of the argument bytes: a position and the opcode come first
  const ARGS := 17
  // size of struct gsbc, and of struct gsbco
  const MIN_SIZE := 24
  const HEADER_SIZE := 64

  /** `GS_SIZE_BYTECODE`: a whole word is added when the arguments end on a word
      boundary. */
  function SizeBytecode(numargs: nat): (r: nat)
    ensures ARGS + numargs < r <= ARGS + numargs + WORD && MIN_SIZE <= r
  {
    ARGS + numargs + WORD - (ARGS + numargs) % WORD
  }

  datatype Op =
    | Efv | Closure | UnknownPrim | Prim | Constr | Record | Field | Lfield | Undefined | Alias | Apply
    | UnknownApiPrim | ApiPrim | App | Force | Strict | Ubanalyze | Analyze | Danalyze | Undef | Enter | Yield
    | Ubprim | UnknownUbprim | Lprim | UnknownLprim | BindClosure | BindApply
    | BodyClosure | BodyUndefined | BodyAlias | BodyApply

  datatype Shape = Fixed | Counted | TwoCounts

  /** How the length of an instruction is found: it is fixed by its opcode, or one
      argument byte counts the list that follows it, or two do. */
  function ShapeOf(op: Op): Shape {
    match op
    case Ubanalyze => TwoCounts
    case Efv | UnknownPrim | Field | Lfield | Undefined | Alias | UnknownApiPrim | Analyze | Undef | Enter | Yield
       | UnknownUbprim | UnknownLprim | BodyUndefined | BodyAlias => Fixed
    case _ => Counted
  }

  /** The number of argument bytes before the count, or of all of them. */
  function Heads(op: Op): (r: nat)
    ensures r <= 2
  {
    match op
    case Prim | Field | Lfield | Ubprim | Lprim => 2
    case UnknownPrim | Record | Undefined | UnknownApiPrim | App | Ubanalyze | Undef | UnknownUbprim | UnknownLprim | BodyUndefined => 0
    case _ => 1
  }

  predicate IsTerminal(op: Op) {
    op == Undef || op == Enter || op == Yield || op == Ubprim || op == UnknownUbprim || op == Lprim || op == UnknownLprim
    || op == BodyClosure || op == BodyUndefined || op == BodyAlias || op == BodyApply
  }

  // ----- Source -----

  /** An instruction as the compiler sees it: `conts` is used by `.ubanalyze` alone. */
  datatype Ins = Ins(op: Op, pos: nat, heads: seq<nat>, conts: seq<nat>, list: seq<nat>)

  /** A case tree. The cases of `.danalyze` start with its default. */
  datatype Code =
    | Then(ins: Ins, rest: Code)
    | End(ins: Ins)
    | Branch(ins: Ins, cases: seq<Code>)

  predicate AreBytes(s: seq<nat>) {
    forall k :: 0 <= k < |s| ==> s[k] < 256
  }

  /** How long the list of an instruction can be. Operands of a source line are limited by
      the line; free variables by the registers of the code item that has them, see
      `FewFreeVariables`. Continuations of `.force` and `.strict` have an argument too. */
  function MostOf(op: Op): nat {
    match op
    case Closure | BindClosure | Ubanalyze | BodyClosure => MAX_REGISTERS - 1
    case Force | Strict => MAX_REGISTERS - 2
    case _ => MAX_FIELDS - 2
  }

  predicate IsIns(ins: Ins) {
    && |ins.heads| == Heads(ins.op) && |ins.list| <= MostOf(ins.op) && |ins.conts| <= MAX_FIELDS / 2
    && AreBytes(ins.heads) && AreBytes(ins.conts) && AreBytes(ins.list)
    && (ShapeOf(ins.op) == Fixed ==> ins.list == [])
    && (ShapeOf(ins.op) != TwoCounts ==> ins.conts == [])
  }

  /** What a register of a code item holds while the item is type-checked. */
  datatype Register = TypeRegister | FreeVariable | Argument | Other

  /** The register table that the type checker builds: there are so many registers, and a
      free variable or an argument names its type, which is looked up in those before it. */
  predicate IsRegisterTable(regs: seq<Register>) {
    && |regs| <= MAX_REGISTERS
    && forall i :: 0 <= i < |regs| && (regs[i] == FreeVariable || regs[i] == Argument) ==> TypeRegister in regs[..i]
  }

  function NumFreeVariables(regs: seq<Register>): nat {
    if regs == [] then 0 else NumFreeVariables(regs[..|regs| - 1]) + if regs[|regs| - 1] == FreeVariable then 1 else 0
  }

  lemma {:induction false} OthersCount(regs: seq<Register>)
    ensures NumFreeVariables(regs) + (if TypeRegister in regs then 1 else 0) + (if Argument in regs then 1 else 0) <= |regs|
  {
    if regs != [] {
      OthersCount(regs[..|regs| - 1]);
      assert regs == regs[..|regs| - 1] + [regs[|regs| - 1]];
    }
  }

  /** The list of the instruction is that of the free variables of another code item. */
  predicate ListsFreeVariables(op: Op) {
    op == Closure || op == BindClosure || op == Ubanalyze || op == BodyClosure || op == Force || op == Strict
  }

  /** No code item has as many free variables as there are registers, and one with an
      argument has fewer still: no more than the list of an instruction may hold. */
  lemma FewFreeVariables(regs: seq<Register>, op: Op)
    requires IsRegisterTable(regs) && ListsFreeVariables(op)
    requires op == Force || op == Strict ==> Argument in regs
    ensures NumFreeVariables(regs) <= MostOf(op) < MAX_REGISTERS
  {
    OthersCount(regs);
    if TypeRegister !in regs {
      NoFreeVariables(regs);
    }
  }

  lemma {:induction false} NoFreeVariables(regs: seq<Register>)
    requires IsRegisterTable(regs) && TypeRegister !in regs
    ensures NumFreeVariables(regs) == 0 && Argument !in regs
  {
    forall i | 0 <= i < |regs|
      ensures regs[i] != FreeVariable && regs[i] != Argument
    {
      assert TypeRegister !in regs[..i];
    }
    if regs != [] {
      NoFreeVariables(regs[..|regs| - 1]);
    }
  }

  /** Every count fits in the byte it is stored in. */
  lemma CountsFit(ins: Ins)
    requires IsIns(ins)
    ensures Stored(|ins.conts|) == |ins.conts| && Stored(|ins.list|) == |ins.list|
  {
    hide AreBytes;
  }

  /** A branch has a case: the loader rejects an `.analyze` without constructors, and a
      `.danalyze` has its default. */
  predicate IsCode(code: Code) {
    match code
    case Then(ins, rest) => IsIns(ins) && !IsTerminal(ins.op) && ins.op != Analyze && ins.op != Danalyze && IsCode(rest)
    case End(ins) => IsIns(ins) && IsTerminal(ins.op)
    case Branch(ins, cases) =>
      && IsIns(ins) && (ins.op == Analyze || ins.op == Danalyze) && cases != []
      && (ins.op == Danalyze ==> |cases| == |ins.list| + 1)
      && (forall i :: 0 <= i < |cases| ==> IsCode(cases[i]))
  }

  /** A count as it is stored: in one byte. */
  function Stored(n: nat): (r: nat)
    ensures r < 256 && r <= n && (r == n <==> n < 256)
  {
    n % 256
  }

  /** The argument bytes. */
  function ArgBytes(ins: Ins): seq<nat> {
    match ShapeOf(ins.op)
    case Fixed => ins.heads
    case Counted => ins.heads + [Stored(|ins.list|)] + ins.list
    case TwoCounts => [Stored(|ins.conts|), Stored(|ins.list|)] + ins.conts + ins.list
  }

  // ----- The sizing pass -----

  function InsSize(ins: Ins): (r: nat)
    ensures MIN_SIZE <= r
  {
    SizeBytecode(|ArgBytes(ins)|)
  }

  /** `gsbc_bytecode_size_terminal_code_op` and what comes before it */
  function Size(code: Code): (r: nat)
    ensures MIN_SIZE <= r
    decreases code
  {
    match code
    case Then(ins, rest) => InsSize(ins) + Size(rest)
    case End(ins) => InsSize(ins)
    case Branch(ins, cases) => InsSize(ins) + |cases| * WORD + CaseStart(cases, |cases|)
  }

  /** How far after the first case the `i`th starts. */
  function CaseStart(cases: seq<Code>, i: nat): (r: nat)
    requires i <= |cases|
    decreases cases, i
  {
    if i == 0 then 0 else CaseStart(cases, i - 1) + Size(cases[i - 1])
  }

  // ----- Alignment -----

  /** Every instruction of the code starts on a word boundary. */
  predicate Aligned(p: nat, code: Code)
    decreases code
  {
    OnWord(p) &&
    match code
    case Then(ins, rest) => Aligned(p + InsSize(ins), rest)
    case End(_) => true
    case Branch(ins, cases) =>
      forall i :: 0 <= i < |cases| ==> Aligned(FirstCase(p, ins, cases) + CaseStart(cases, i), cases[i])
  }

  /** The table of case pointers starts after the instruction, the first case after
      the table. */
  function FirstCase(p: nat, ins: Ins, cases: seq<Code>): nat {
    p + InsSize(ins) + |cases| * WORD
  }

  predicate OnWord(p: nat) { p % WORD == 0 }

  lemma OnWordSum(a: nat, b: nat)
    requires OnWord(a) && OnWord(b)
    ensures OnWord(a + b)
  {
  }

  lemma OnWordTable(n: nat)
    ensures OnWord(n * WORD)
  {
  }

  lemma InsSizeOnWord(ins: Ins)
    ensures OnWord(InsSize(ins))
  {
  }

  lemma {:induction false} SizeOnWord(code: Code)
    ensures OnWord(Size(code))
    decreases code
  {
    hide OnWord, InsSize;
    InsSizeOnWord(code.ins);
    match code
    case Then(ins, rest) =>
      SizeOnWord(rest);
      OnWordSum(InsSize(ins), Size(rest));
    case End(_) =>
    case Branch(ins, cases) =>
      OnWordTable(|cases|);
      CaseStartOnWord(cases, |cases|);
      OnWordSum(InsSize(ins), |cases| * WORD);
      OnWordSum(InsSize(ins) + |cases| * WORD, CaseStart(cases, |cases|));
  }

  lemma {:induction false} CaseStartOnWord(cases: seq<Code>, i: nat)
    requires i <= |cases|
    ensures OnWord(CaseStart(cases, i))
    decreases cases, i
  {
    if i > 0 {
      CaseStartOnWord(cases, i - 1);
      SizeOnWord(cases[i - 1]);
      hide OnWord;
      OnWordSum(CaseStart(cases, i - 1), Size(cases[i - 1]));
    }
  }

  lemma {:induction false} AllAligned(p: nat, code: Code)
    requires OnWord(p)
    ensures Aligned(p, code)
    decreases code
  {
    hide OnWord, InsSize, CaseStart, Size;
    InsSizeOnWord(code.ins);
    OnWordSum(p, InsSize(code.ins));
    match code
    case Then(ins, rest) => AllAligned(p + InsSize(ins), rest);
    case End(_) =>
    case Branch(ins, cases) =>
      OnWordTable(|cases|);
      OnWordSum(p + InsSize(ins), |cases| * WORD);
      forall i | 0 <= i < |cases|
        ensures Aligned(FirstCase(p, ins, cases) + CaseStart(cases, i), cases[i])
      {
        CaseStartOnWord(cases, i);
        OnWordSum(FirstCase(p, ins, cases), CaseStart(cases, i));
        AllAligned(FirstCase(p, ins, cases) + CaseStart(cases, i), cases[i]);
      }
  }

  // ----- Memory -----

  /** A byte of a code block. Positions and pointers take several bytes, all but the
      first of which are `Rest`. A pointer holds an address: that of the block plus an
      offset. */
  datatype Slot = Pos(pos: nat) | Instr(op: Op) | Byte(b: nat) | Ptr(addr: int) | Rest

  /** Outside `lo` to `hi` nothing has changed. */
  ghost predicate Changed(m: seq<Slot>, m': seq<Slot>, lo: nat, hi: nat) {
    |m| == |m'| && forall k :: 0 <= k < |m| && !(lo <= k < hi) ==> m'[k] == m[k]
  }

  ghost predicate BytesAt(m: seq<Slot>, p: nat, bs: seq<nat>) {
    p + |bs| <= |m| && forall k :: 0 <= k < |bs| ==> m[p + k] == Byte(bs[k])
  }

  ghost predicate InsAt(m: seq<Slot>, p: nat, ins: Ins) {
    && p + InsSize(ins) <= |m|
    && m[p] == Pos(ins.pos) && m[p + POS_SIZE] == Instr(ins.op)
    && BytesAt(m, p + ARGS, ArgBytes(ins))
  }

  ghost predicate PtrAt(m: seq<Slot>, p: nat, addr: int) {
    p + WORD <= |m| && m[p] == Ptr(addr)
  }

  /** The code lies at `p` of a block at address `base`. */
  ghost predicate CodeAt(m: seq<Slot>, base: int, p: nat, code: Code)
    decreases code
  {
    match code
    case Then(ins, rest) => InsAt(m, p, ins) && CodeAt(m, base, p + InsSize(ins), rest)
    case End(ins) => InsAt(m, p, ins)
    case Branch(ins, cases) => InsAt(m, p, ins) && CasesAt(m, base, p + InsSize(ins), cases)
  }

  /** A table of pointers and after it the cases it points at. */
  ghost predicate CasesAt(m: seq<Slot>, base: int, table: nat, cases: seq<Code>)
    decreases cases
  {
    forall i :: 0 <= i < |cases| ==>
      && PtrAt(m, table + i * WORD, base + CasePos(table, cases, i))
      && CodeAt(m, base, CasePos(table, cases, i), cases[i])
  }

  function CasePos(table: nat, cases: seq<Code>, i: nat): nat
    requires i <= |cases|
    decreases cases, |cases|
  {
    table + |cases| * WORD + CaseStart(cases, i)
  }

  lemma {:induction false} CaseStartGrows(cases: seq<Code>, i: nat, j: nat)
    requires i < j <= |cases|
    ensures CaseStart(cases, i) + Size(cases[i]) <= CaseStart(cases, j)
    decreases j
  {
    hide Size;
    if i < j - 1 {
      CaseStartGrows(cases, i, j - 1);
    }
  }

  lemma InsFrame(m: seq<Slot>, m': seq<Slot>, p: nat, ins: Ins, lo: nat, hi: nat)
    requires InsAt(m, p, ins) && Changed(m, m', lo, hi) && (p + InsSize(ins) <= lo || hi <= p)
    ensures InsAt(m', p, ins)
  {
    hide ArgBytes, SizeBytecode;
  }

  lemma SizeParts(code: Code)
    ensures InsSize(code.ins) <= Size(code)
    ensures code.Then? ==> Size(code) == InsSize(code.ins) + Size(code.rest)
    ensures code.End? ==> Size(code) == InsSize(code.ins)
    ensures code.Branch? ==> forall table: nat :: CasePos(table, code.cases, |code.cases|) == table + Size(code) - InsSize(code.ins)
  {
  }

  /** Code lies where it lay if nothing in its extent changes. */
  lemma {:induction false} CodeFrame(m: seq<Slot>, m': seq<Slot>, base: int, p: nat, code: Code, lo: nat, hi: nat)
    requires CodeAt(m, base, p, code) && Changed(m, m', lo, hi) && (p + Size(code) <= lo || hi <= p)
    ensures CodeAt(m', base, p, code)
    decreases code
  {
    hide InsAt, Changed, InsSize, Size, CasesAt, CasePos;
    SizeParts(code);
    InsFrame(m, m', p, code.ins, lo, hi);
    match code
    case Then(ins, rest) => CodeFrame(m, m', base, p + InsSize(ins), rest, lo, hi);
    case End(_) =>
    case Branch(ins, cases) => CasesFrame(m, m', base, p + InsSize(ins), cases, lo, hi);
  }

  lemma {:induction false} CasesFrame(m: seq<Slot>, m': seq<Slot>, base: int, table: nat, cases: seq<Code>, lo: nat, hi: nat)
    requires CasesAt(m, base, table, cases) && Changed(m, m', lo, hi)
    requires CasePos(table, cases, |cases|) <= lo || hi <= table
    ensures CasesAt(m', base, table, cases)
    decreases cases
  {
    forall i | 0 <= i < |cases|
      ensures PtrAt(m', table + i * WORD, base + CasePos(table, cases, i))
      ensures CodeAt(m', base, CasePos(table, cases, i), cases[i])
    {
      assert PtrAt(m, table + i * WORD, base + CasePos(table, cases, i));
      hide CodeAt, Size;
      CaseStartGrows(cases, i, |cases|);
      CodeFrame(m, m', base, CasePos(table, cases, i), cases[i], lo, hi);
    }
  }

  // ----- The emitting pass -----

  function ByteOf(slot: Slot): nat { if slot.Byte? then slot.b else 0 }

  /** What the skip macros read: the number of argument bytes, counts included. */
  function NumArgs(m: seq<Slot>, p: nat): nat
    requires p + MIN_SIZE <= |m| && m[p + POS_SIZE].Instr?
  {
    var op := m[p + POS_SIZE].op;
    match ShapeOf(op)
    case Fixed => Heads(op)
    case Counted => Heads(op) + 1 + ByteOf(m[p + ARGS + Heads(op)])
    case TwoCounts => 2 + ByteOf(m[p + ARGS]) + ByteOf(m[p + ARGS + 1])
  }

  function Skip(m: seq<Slot>, p: nat): nat
    requires p + MIN_SIZE <= |m| && m[p + POS_SIZE].Instr?
  {
    p + SizeBytecode(NumArgs(m, p))
  }

  lemma SkipIs(m: seq<Slot>, p: nat, ins: Ins)
    requires InsAt(m, p, ins) && IsIns(ins)
    ensures p + MIN_SIZE <= |m| && m[p + POS_SIZE] == Instr(ins.op)
    ensures Skip(m, p) == p + InsSize(ins)
  {
    hide SizeBytecode, AreBytes;
    CountsFit(ins);
    match ShapeOf(ins.op) {
      case Fixed =>
      case Counted =>
        assert ArgBytes(ins)[Heads(ins.op)] == Stored(|ins.list|);
      case TwoCounts =>
        assert ArgBytes(ins)[0] == Stored(|ins.conts|) && ArgBytes(ins)[1] == Stored(|ins.list|);
    }
  }

  /** Where each byte of an instruction lies: the operands, a count before each list. */
  lemma InsLayout(m: seq<Slot>, p: nat, ins: Ins)
    requires InsAt(m, p, ins) && IsIns(ins)
    ensures m[p] == Pos(ins.pos) && m[p + 16] == Instr(ins.op) && p + 17 + |ins.heads| <= |m|
    ensures forall k: nat, q: nat :: k < |ins.heads| && q == p + 17 + k ==> m[q] == Byte(ins.heads[k])
    ensures ShapeOf(ins.op) == Counted ==>
              && p + 18 + |ins.heads| + |ins.list| <= |m| && m[p + 17 + |ins.heads|] == Byte(|ins.list|)
              && forall k: nat, q: nat :: k < |ins.list| && q == p + 18 + |ins.heads| + k ==> m[q] == Byte(ins.list[k])
    ensures ShapeOf(ins.op) == TwoCounts ==>
              && p + 19 + |ins.conts| + |ins.list| <= |m| && m[p + 17] == Byte(|ins.conts|) && m[p + 18] == Byte(|ins.list|)
              && (forall k: nat, q: nat :: k < |ins.conts| && q == p + 19 + k ==> m[q] == Byte(ins.conts[k]))
              && (forall k: nat, q: nat :: k < |ins.list| && q == p + 19 + |ins.conts| + k ==> m[q] == Byte(ins.list[k]))
  {
    CountsFit(ins);
    hide SizeBytecode, AreBytes, BytesAt, ArgBytes, Stored;
    var a, bs, h, n := p + ARGS, ArgBytes(ins), |ins.heads|, |ins.conts|;
    ArgLayout(ins);
    BytesInside(m, a, bs);
    forall k: nat, q: nat | k < h && q == p + 17 + k
      ensures m[q] == Byte(ins.heads[k])
    {
      BytesHere(m, a, bs, k);
    }
    if ShapeOf(ins.op) == Counted {
      BytesHere(m, a, bs, h);
      forall k: nat, q: nat | k < |ins.list| && q == p + 18 + h + k
        ensures m[q] == Byte(ins.list[k])
      {
        BytesHere(m, a, bs, h + 1 + k);
      }
    }
    if ShapeOf(ins.op) == TwoCounts {
      BytesHere(m, a, bs, 0);
      BytesHere(m, a, bs, 1);
      forall k: nat, q: nat | k < n && q == p + 19 + k
        ensures m[q] == Byte(ins.conts[k])
      {
        BytesHere(m, a, bs, 2 + k);
      }
      forall k: nat, q: nat | k < |ins.list| && q == p + 19 + n + k
        ensures m[q] == Byte(ins.list[k])
      {
        BytesHere(m, a, bs, 2 + n + k);
      }
    }
  }

  lemma BytesInside(m: seq<Slot>, p: nat, bs: seq<nat>)
    requires BytesAt(m, p, bs)
    ensures p + |bs| <= |m|
  {
  }

  lemma ArgLayout(ins: Ins)
    requires IsIns(ins)
    ensures var bs, h, n, l := ArgBytes(ins), |ins.heads|, |ins.conts|, |ins.list|;
            && h <= |bs| && bs[..h] == ins.heads
            && (ShapeOf(ins.op) == Counted ==> |bs| == h + 1 + l && bs[h] == Stored(l) && forall k :: 0 <= k < l ==> bs[h + 1 + k] == ins.list[k])
            && (ShapeOf(ins.op) == TwoCounts ==>
                  && |bs| == 2 + n + l && bs[0] == Stored(n) && bs[1] == Stored(l)
                  && (forall k :: 0 <= k < n ==> bs[2 + k] == ins.conts[k]) && (forall k :: 0 <= k < l ==> bs[2 + n + k] == ins.list[k]))
  {
    hide AreBytes;
  }

  /** The size of each instruction, by its opcode. */
  lemma SizeTable(ins: Ins)
    requires IsIns(ins)
    ensures ins.op in {UnknownPrim, Undefined, UnknownApiPrim, Undef, UnknownUbprim, UnknownLprim, BodyUndefined} ==> InsSize(ins) == SizeBytecode(0)
    ensures ins.op in {Efv, Alias, Analyze, Enter, Yield, BodyAlias} ==> InsSize(ins) == SizeBytecode(1)
    ensures ins.op in {Field, Lfield} ==> InsSize(ins) == SizeBytecode(2)
    ensures ins.op in {Record, App} ==> InsSize(ins) == SizeBytecode(1 + |ins.list|)
    ensures ins.op in {Closure, Constr, Apply, ApiPrim, Force, Strict, Danalyze, BindClosure, BindApply, BodyClosure, BodyApply} ==>
              InsSize(ins) == SizeBytecode(2 + |ins.list|)
    ensures ins.op in {Prim, Ubprim, Lprim} ==> InsSize(ins) == SizeBytecode(3 + |ins.list|)
    ensures ins.op == Ubanalyze ==> InsSize(ins) == SizeBytecode(2 + |ins.conts| + |ins.list|)
    ensures IsTerminal(ins.op) <==>
              ins.op in {Undef, Enter, Yield, Ubprim, UnknownUbprim, Lprim, UnknownLprim, BodyClosure, BodyUndefined, BodyAlias, BodyApply}
  {
    hide SizeBytecode, AreBytes;
  }

  class Emitter {
    const mem: array<Slot>
    const base: int
    var pout: nat

    constructor (mem: array<Slot>, base: int, pout: nat)
      ensures this.mem == mem && this.base == base && this.pout == pout
    {
      this.mem, this.base, this.pout := mem, base, pout;
    }

    /** Writes a position or a pointer. */
    method PutWide(p: nat, slot: Slot, sz: nat)
      requires 0 < sz && p + sz <= mem.Length
      modifies mem
      ensures mem[..][p] == slot && Changed(old(mem[..]), mem[..], p, p + sz)
    {
      forall k | p <= k < p + sz {
        mem[k] := if k == p then slot else Rest;
      }
    }

    method PutBytes(p: nat, bs: seq<nat>)
      requires p + |bs| <= mem.Length
      modifies mem
      ensures BytesAt(mem[..], p, bs) && Changed(old(mem[..]), mem[..], p, p + |bs|)
    {
      for i := 0 to |bs|
        invariant forall k :: 0 <= k < i ==> mem[p + k] == Byte(bs[k])
        invariant forall k :: 0 <= k < mem.Length && !(p <= k < p + i) ==> mem[k] == old(mem[k])
      {
        mem[p + i] := Byte(bs[i]);
      }
    }

    /** One instruction: its position, opcode and arguments are written, and the output
        moves on as the skip macro says. */
    method EmitIns(ins: Ins)
      requires IsIns(ins) && pout + InsSize(ins) <= mem.Length
      modifies this, mem
      ensures InsAt(mem[..], old(pout), ins) && pout == old(pout) + InsSize(ins)
      ensures Changed(old(mem[..]), mem[..], old(pout), old(pout) + InsSize(ins))
    {
      hide IsIns, ArgBytes, SizeBytecode, Skip;
      PutWide(pout, Pos(ins.pos), POS_SIZE);
      PutWide(pout + POS_SIZE, Instr(ins.op), 1);
      PutBytes(pout + ARGS, ArgBytes(ins));
      SkipIs(mem[..], pout, ins);
      pout := Skip(mem[..], pout);
    }

    /** `gsbc_byte_compile_terminal_code_op` and what comes before it. */
    method EmitCode(code: Code)
      requires IsCode(code) && pout + Size(code) <= mem.Length
      modifies this, mem
      ensures pout == old(pout) + Size(code)
      ensures Changed(old(mem[..]), mem[..], old(pout), old(pout) + Size(code))
      ensures CodeAt(mem[..], base, old(pout), code)
      decreases code, 1
    {
      hide InsAt, Changed, InsSize, CasesAt, CodeAt, Size, IsCode, AreCode, IsIns;
      ghost var p, m0 := pout, mem[..];
      CodeParts(code);
      EmitIns(code.ins);
      ghost var m1 := mem[..];
      match code {
        case Then(ins, rest) =>
          EmitCode(rest);
          ThenEmitted(m0, m1, mem[..], base, p, code);
        case End(ins) =>
          EndEmitted(m1, base, p, code);
        case Branch(ins, cases) =>
          EmitCases(cases);
          BranchEmitted(m0, m1, mem[..], base, p, code);
      }
    }

    /** The table of case pointers and the cases. */
    method EmitCases(cases: seq<Code>)
      requires AreCode(cases) && CasePos(pout, cases, |cases|) <= mem.Length
      modifies this, mem
      ensures pout == CasePos(old(pout), cases, |cases|)
      ensures Changed(old(mem[..]), mem[..], old(pout), CasePos(old(pout), cases, |cases|))
      ensures CasesAt(mem[..], base, old(pout), cases)
      decreases cases, 0
    {
      hide Changed, CasesDone, CasesAt, CodeAt, Size, CasePos, IsCode, AreCode;
      ghost var table, m0 := pout, mem[..];
      var pcases := pout;
      pout := pcases + |cases| * WORD;
      NoCasesDone(m0, base, table, cases);
      for i := 0 to |cases|
        invariant pout == CasePos(table, cases, i)
        invariant Changed(m0, mem[..], table, CasePos(table, cases, |cases|))
        invariant CasesDone(mem[..], base, table, cases, i)
      {
        ghost var m1 := mem[..];
        CaseRoom(cases, i, table);
        PutWide(pcases + i * WORD, Ptr(base + pout), WORD);
        ghost var m2 := mem[..];
        EmitCode(cases[i]);
        CaseEmitted(m0, m1, m2, mem[..], base, table, cases, i);
      }
      AllCasesDone(mem[..], base, table, cases);
    }
  }

  predicate AreCode(cases: seq<Code>) { forall i :: 0 <= i < |cases| ==> IsCode(cases[i]) }

  /** The first `n` cases and their pointers are in place. */
  ghost predicate CasesDone(m: seq<Slot>, base: int, table: nat, cases: seq<Code>, n: nat)
    requires n <= |cases|
  {
    forall i :: 0 <= i < n ==> CaseAt(m, base, table, cases, i)
  }

  ghost predicate CaseAt(m: seq<Slot>, base: int, table: nat, cases: seq<Code>, i: nat)
    requires i < |cases|
  {
    && PtrAt(m, table + i * WORD, base + CasePos(table, cases, i))
    && CodeAt(m, base, CasePos(table, cases, i), cases[i])
  }

  lemma ChangedTwice(m: seq<Slot>, m1: seq<Slot>, m2: seq<Slot>, lo: nat, hi: nat, lo': nat, hi': nat, end: nat)
    requires Changed(m, m1, lo, hi) && Changed(m1, m2, lo', hi') && lo <= lo' && hi <= end && hi' <= end
    ensures Changed(m, m2, lo, end)
  {
  }

  lemma CodeParts(code: Code)
    requires IsCode(code)
    ensures IsIns(code.ins) && InsSize(code.ins) <= Size(code)
    ensures code.Then? ==> IsCode(code.rest) && Size(code) == InsSize(code.ins) + Size(code.rest)
    ensures code.End? ==> Size(code) == InsSize(code.ins)
    ensures code.Branch? ==>
              && AreCode(code.cases)
              && (forall table: nat :: CasePos(table, code.cases, |code.cases|) == table + Size(code) - InsSize(code.ins))
  {
  }

  lemma ThenEmitted(m0: seq<Slot>, m1: seq<Slot>, m2: seq<Slot>, base: int, p: nat, code: Code)
    requires code.Then? && IsCode(code) && InsAt(m1, p, code.ins)
    requires Changed(m0, m1, p, p + InsSize(code.ins))
    requires Changed(m1, m2, p + InsSize(code.ins), p + InsSize(code.ins) + Size(code.rest))
    requires CodeAt(m2, base, p + InsSize(code.ins), code.rest)
    ensures Changed(m0, m2, p, p + Size(code))
    ensures CodeAt(m2, base, p, code)
  {
    hide Changed, InsAt, InsSize, IsIns, CodeAt, IsCode, Size;
    CodeParts(code);
    ChangedTwice(m0, m1, m2, p, p + InsSize(code.ins), p + InsSize(code.ins), p + Size(code), p + Size(code));
    InsFrame(m1, m2, p, code.ins, p + InsSize(code.ins), p + Size(code));
    ThenAt(m2, base, p, code);
  }

  lemma ThenAt(m: seq<Slot>, base: int, p: nat, code: Code)
    requires code.Then? && InsAt(m, p, code.ins) && CodeAt(m, base, p + InsSize(code.ins), code.rest)
    ensures CodeAt(m, base, p, code)
  {
  }

  lemma EndEmitted(m: seq<Slot>, base: int, p: nat, code: Code)
    requires code.End? && InsAt(m, p, code.ins)
    ensures CodeAt(m, base, p, code)
  {
  }

  lemma BranchEmitted(m0: seq<Slot>, m1: seq<Slot>, m2: seq<Slot>, base: int, p: nat, code: Code)
    requires code.Branch? && IsCode(code) && InsAt(m1, p, code.ins)
    requires Changed(m0, m1, p, p + InsSize(code.ins))
    requires Changed(m1, m2, p + InsSize(code.ins), CasePos(p + InsSize(code.ins), code.cases, |code.cases|))
    requires CasesAt(m2, base, p + InsSize(code.ins), code.cases)
    ensures Changed(m0, m2, p, p + Size(code))
    ensures CodeAt(m2, base, p, code)
  {
    hide Changed, InsAt, InsSize, IsIns, CasesAt, CasePos, IsCode, CodeAt, Size;
    CodeParts(code);
    ChangedTwice(m0, m1, m2, p, p + InsSize(code.ins), p + InsSize(code.ins), p + Size(code), p + Size(code));
    InsFrame(m1, m2, p, code.ins, p + InsSize(code.ins), p + Size(code));
    BranchAt(m2, base, p, code);
  }

  lemma NoCasesDone(m: seq<Slot>, base: int, table: nat, cases: seq<Code>)
    ensures CasesDone(m, base, table, cases, 0)
    ensures Changed(m, m, table, CasePos(table, cases, |cases|))
    ensures CasePos(table, cases, 0) == table + |cases| * WORD
  {
  }

  lemma AllCasesDone(m: seq<Slot>, base: int, table: nat, cases: seq<Code>)
    ensures CasesDone(m, base, table, cases, |cases|) <==> CasesAt(m, base, table, cases)
  {
    hide CodeAt, PtrAt, CasePos;
    if CasesDone(m, base, table, cases, |cases|) {
      forall i | 0 <= i < |cases|
        ensures PtrAt(m, table + i * WORD, base + CasePos(table, cases, i)) && CodeAt(m, base, CasePos(table, cases, i), cases[i])
      {
        assert CaseAt(m, base, table, cases, i);
      }
    }
  }

  /** The `i`th case lies between the table and the end of the cases. */
  lemma CaseRoom(cases: seq<Code>, i: nat, table: nat)
    requires i < |cases| && AreCode(cases)
    ensures IsCode(cases[i])
    ensures table + i * WORD + WORD <= CasePos(table, cases, i)
    ensures CasePos(table, cases, i) + Size(cases[i]) <= CasePos(table, cases, |cases|)
    ensures CasePos(table, cases, i + 1) == CasePos(table, cases, i) + Size(cases[i])
  {
    hide Size, IsCode;
    CaseStartGrows(cases, i, |cases|);
  }

  lemma CaseEmitted(m0: seq<Slot>, m1: seq<Slot>, m2: seq<Slot>, m3: seq<Slot>, base: int, table: nat, cases: seq<Code>, i: nat)
    requires i < |cases| && AreCode(cases)
    requires Changed(m0, m1, table, CasePos(table, cases, |cases|))
    requires Changed(m1, m2, table + i * WORD, table + i * WORD + WORD)
    requires Changed(m2, m3, CasePos(table, cases, i), CasePos(table, cases, i) + Size(cases[i]))
    requires table + i * WORD + WORD <= |m2| && m2[table + i * WORD] == Ptr(base + CasePos(table, cases, i))
    requires CodeAt(m3, base, CasePos(table, cases, i), cases[i])
    requires CasesDone(m1, base, table, cases, i)
    ensures Changed(m0, m3, table, CasePos(table, cases, |cases|))
    ensures CasesDone(m3, base, table, cases, i + 1)
  {
    hide Size, IsCode, AreCode, CodeAt, CasesDone, CasePos, Changed;
    CaseRoom(cases, i, table);
    var p, end := CasePos(table, cases, i), CasePos(table, cases, |cases|);
    ChangedTwice(m0, m1, m2, table, end, table + i * WORD, table + i * WORD + WORD, end);
    ChangedTwice(m0, m2, m3, table, end, p, p + Size(cases[i]), end);
    StillPointer(m2, m3, table + i * WORD, base + p, p, p + Size(cases[i]));
    CasesStay(m1, m2, m3, base, table, cases, i);
  }

  lemma CasePosIs(table: nat, cases: seq<Code>, i: nat)
    requires i <= |cases|
    ensures CasePos(table, cases, i) == table + |cases| * WORD + CaseStart(cases, i)
  {
  }

  lemma StillPointer(m: seq<Slot>, m': seq<Slot>, p: nat, addr: int, lo: nat, hi: nat)
    requires PtrAt(m, p, addr) && Changed(m, m', lo, hi) && (p < lo || hi <= p)
    ensures PtrAt(m', p, addr)
  {
  }

  /** Writing the next pointer and the next case leaves the cases before it alone. */
  lemma CasesStay(m1: seq<Slot>, m2: seq<Slot>, m3: seq<Slot>, base: int, table: nat, cases: seq<Code>, i: nat)
    requires i < |cases| && CasesDone(m1, base, table, cases, i)
    requires Changed(m1, m2, table + i * WORD, table + i * WORD + WORD)
    requires Changed(m2, m3, CasePos(table, cases, i), CasePos(table, cases, i) + Size(cases[i]))
    requires CaseAt(m3, base, table, cases, i)
    ensures CasesDone(m3, base, table, cases, i + 1)
  {
    hide Size, CodeAt, Changed, CaseAt;
    forall k | 0 <= k < i
      ensures CaseAt(m3, base, table, cases, k)
    {
      CaseStays(m1, m2, base, table, cases, k, table + i * WORD, table + i * WORD + WORD);
      CaseStartGrows(cases, k, i);
      CaseStays(m2, m3, base, table, cases, k, CasePos(table, cases, i), CasePos(table, cases, i) + Size(cases[i]));
    }
  }

  lemma CaseStays(m: seq<Slot>, m': seq<Slot>, base: int, table: nat, cases: seq<Code>, k: nat, lo: nat, hi: nat)
    requires k < |cases| && CaseAt(m, base, table, cases, k) && Changed(m, m', lo, hi)
    requires table + k * WORD < lo || hi <= table + k * WORD
    requires CasePos(table, cases, k) + Size(cases[k]) <= lo || hi <= CasePos(table, cases, k)
    ensures CaseAt(m', base, table, cases, k)
  {
    hide Size, CodeAt, CasePos, Changed;
    StillPointer(m, m', table + k * WORD, base + CasePos(table, cases, k), lo, hi);
    CodeFrame(m, m', base, CasePos(table, cases, k), cases[k], lo, hi);
  }

  // ----- Decoding -----

  /** `n` argument bytes. */
  function Bytes(m: seq<Slot>, p: nat, n: nat): Option<seq<nat>>
    decreases n
  {
    if n == 0 then Some([])
    else if p >= |m| || !m[p].Byte? then None
    else
      var rest := Bytes(m, p + 1, n - 1);
      if rest.None? then None else Some([m[p].b] + rest.value)
  }

  function MakeIns(op: Op, pos: nat, heads: Option<seq<nat>>, conts: Option<seq<nat>>, list: Option<seq<nat>>): Option<Ins> {
    if heads.None? || conts.None? || list.None? then None
    else Some(Ins(op, pos, heads.value, conts.value, list.value))
  }

  /** The instruction at `p`. The walk stops short of `end` as the code does: there must
      be room for a whole `struct gsbc`. */
  function ReadIns(m: seq<Slot>, p: nat, end: nat): Option<Ins> {
    if p + MIN_SIZE > end || end > |m| || !m[p].Pos? || !m[p + POS_SIZE].Instr? then None else
      var op, pos, a := m[p + POS_SIZE].op, m[p].pos, p + ARGS;
      match ShapeOf(op)
      case Fixed => MakeIns(op, pos, Bytes(m, a, Heads(op)), Some([]), Some([]))
      case Counted =>
        var c := a + Heads(op);
        MakeIns(op, pos, Bytes(m, a, Heads(op)), Some([]), Bytes(m, c + 1, ByteOf(m[c])))
      case TwoCounts =>
        var c := ByteOf(m[a]);
        MakeIns(op, pos, Some([]), Bytes(m, a + 2, c), Bytes(m, a + 2 + c, ByteOf(m[a + 1])))
  }

  /** The number of cases of a branch whose table is at `table`. `.danalyze` stores
      it; for `.analyze` it is inferred from the first pointer, since the first case
      comes right after the table. */
  function NumCases(m: seq<Slot>, base: int, ins: Ins, table: nat, end: nat): Option<int> {
    if ins.op == Danalyze then Some(|ins.list| + 1)
    else if table + WORD > end || end > |m| || !m[table].Ptr? then None
    else Some((m[table].addr - base - table) / WORD)
  }

  /** The walk of `gs_gc_trace_bco_instrs` over a block at address `base` that ends at
      offset `end`. No result stands for an error return or a read through something
      that is not a pointer to a later instruction of the block. */
  function Decode(m: seq<Slot>, base: int, p: nat, end: nat): Option<Code>
    decreases end - p, 1, 0
  {
    var ins := ReadIns(m, p, end);
    if ins.None? then None else
      var next := Skip(m, p);
      if ins.value.op == Analyze || ins.value.op == Danalyze then
        var n := NumCases(m, base, ins.value, next, end);
        if n.None? then None
        else if n.value <= 0 then Some(Branch(ins.value, []))
        else
          var cases := DecodeCases(m, base, p, next, end, n.value);
          if cases.None? then None else Some(Branch(ins.value, cases.value))
      else if IsTerminal(ins.value.op) then Some(End(ins.value))
      else
        var rest := Decode(m, base, next, end);
        if rest.None? then None else Some(Then(ins.value, rest.value))
  }

  /** The first `n` cases of the branch at `p`. */
  function DecodeCases(m: seq<Slot>, base: int, p: nat, table: nat, end: nat, n: nat): (r: Option<seq<Code>>)
    requires p < end
    ensures r.Some? ==> |r.value| == n
    decreases end - p, 0, n
  {
    if n == 0 then Some([]) else
      var before := DecodeCases(m, base, p, table, end, n - 1);
      var q := table + (n - 1) * WORD;
      if before.None? || q + WORD > end || end > |m| || !m[q].Ptr? || m[q].addr - base <= p then None else
        var last := Decode(m, base, m[q].addr - base, end);
        if last.None? then None else Some(before.value + [last.value])
  }

  lemma {:induction false} BytesRead(m: seq<Slot>, p: nat, bs: seq<nat>)
    requires BytesAt(m, p, bs)
    ensures Bytes(m, p, |bs|) == Some(bs)
    decreases |bs|
  {
    if bs != [] {
      assert m[p] == Byte(bs[0]);
      forall k | 0 <= k < |bs| - 1
        ensures m[p + 1 + k] == Byte(bs[1..][k])
      {
        assert m[p + (k + 1)] == Byte(bs[k + 1]);
      }
      BytesRead(m, p + 1, bs[1..]);
      assert bs == [bs[0]] + bs[1..];
    }
  }

  lemma BytesPart(m: seq<Slot>, p: nat, bs: seq<nat>, lo: nat, hi: nat)
    requires BytesAt(m, p, bs) && lo <= hi <= |bs|
    ensures Bytes(m, p + lo, hi - lo) == Some(bs[lo..hi])
  {
    forall k | 0 <= k < hi - lo
      ensures m[p + lo + k] == Byte(bs[lo..hi][k])
    {
      assert m[p + (lo + k)] == Byte(bs[lo + k]);
    }
    BytesRead(m, p + lo, bs[lo..hi]);
  }

  lemma BytesHere(m: seq<Slot>, p: nat, bs: seq<nat>, k: nat)
    requires BytesAt(m, p, bs) && k < |bs|
    ensures p + k < |m| && m[p + k] == Byte(bs[k])
  {
  }

  /** An instruction is read back as it was written. */
  lemma InsRead(m: seq<Slot>, p: nat, ins: Ins, end: nat)
    requires InsAt(m, p, ins) && IsIns(ins) && p + InsSize(ins) <= end <= |m|
    ensures ReadIns(m, p, end) == Some(ins)
  {
    hide BytesAt, AreBytes, SizeBytecode, Bytes;
    CountsFit(ins);
    var a, bs, h := p + ARGS, ArgBytes(ins), |ins.heads|;
    match ShapeOf(ins.op) {
      case Fixed =>
        BytesPart(m, a, bs, 0, |bs|);
        assert bs[0..|bs|] == ins.heads;
      case Counted =>
        BytesHere(m, a, bs, h);
        BytesPart(m, a, bs, 0, h);
        BytesPart(m, a, bs, h + 1, |bs|);
        assert bs[0..h] == ins.heads && bs[h + 1..|bs|] == ins.list;
      case TwoCounts =>
        TwoListsRead(m, p, ins, end);
    }
  }

  lemma TwoListsRead(m: seq<Slot>, p: nat, ins: Ins, end: nat)
    requires InsAt(m, p, ins) && IsIns(ins) && p + InsSize(ins) <= end <= |m|
    requires ShapeOf(ins.op) == TwoCounts
    ensures ReadIns(m, p, end) == Some(ins)
  {
    hide BytesAt, AreBytes, SizeBytecode, Bytes;
    CountsFit(ins);
    var a, bs, c := p + ARGS, ArgBytes(ins), 2 + |ins.conts|;
    BytesHere(m, a, bs, 0);
    BytesHere(m, a, bs, 1);
    BytesPart(m, a, bs, 2, c);
    BytesPart(m, a, bs, c, |bs|);
    assert bs[2..c] == ins.conts && bs[c..|bs|] == ins.list;
  }

  // ----- Round trips -----

  /** The number of cases, as it is stored or inferred. */
  lemma NumCasesIs(m: seq<Slot>, base: int, ins: Ins, cases: seq<Code>, table: nat, end: nat)
    requires ins.op == Analyze || ins.op == Danalyze
    requires ins.op == Danalyze ==> |cases| == |ins.list| + 1
    requires CasesAt(m, base, table, cases) && CasePos(table, cases, |cases|) <= end <= |m| && cases != []
    ensures NumCases(m, base, ins, table, end) == Some(|cases|)
  {
    hide CasesAt, CodeAt, CasePos, CaseStart, Size, PtrAt;
    CaseOf(m, base, table, cases, 0);
    CasePosIs(table, cases, 0);
    CaseStartsAtZero(cases);
    LastCasePos(table, cases);
    CountFromPointer(m, base, table, |cases|);
  }

  lemma CountFromPointer(m: seq<Slot>, base: int, table: nat, n: nat)
    requires PtrAt(m, table, base + (table + n * WORD))
    ensures table + WORD <= |m| && m[table].Ptr? && (m[table].addr - base - table) / WORD == n
  {
    WordsBack(n);
  }

  lemma WordsBack(n: nat)
    ensures n * WORD / WORD == n
  {
  }

  lemma CaseStartsAtZero(cases: seq<Code>)
    ensures CaseStart(cases, 0) == 0
  {
  }

  lemma LastCasePos(table: nat, cases: seq<Code>)
    ensures table + |cases| * WORD <= CasePos(table, cases, |cases|)
  {
  }

  lemma CaseOf(m: seq<Slot>, base: int, table: nat, cases: seq<Code>, i: nat)
    requires CasesAt(m, base, table, cases) && i < |cases|
    ensures PtrAt(m, table + i * WORD, base + CasePos(table, cases, i))
    ensures CodeAt(m, base, CasePos(table, cases, i), cases[i])
  {
  }

  /** One step of the walk. */
  lemma DecodeStep(m: seq<Slot>, base: int, p: nat, end: nat, ins: Ins)
    requires ReadIns(m, p, end) == Some(ins)
    ensures p + MIN_SIZE <= end <= |m| && m[p + POS_SIZE].Instr?
    ensures IsTerminal(ins.op) && ins.op != Analyze && ins.op != Danalyze ==> Decode(m, base, p, end) == Some(End(ins))
    ensures !IsTerminal(ins.op) && ins.op != Analyze && ins.op != Danalyze ==>
              var rest := Decode(m, base, Skip(m, p), end);
              Decode(m, base, p, end) == if rest.None? then None else Some(Then(ins, rest.value))
    ensures ins.op == Analyze || ins.op == Danalyze ==>
              var n := NumCases(m, base, ins, Skip(m, p), end);
              && (n.None? ==> Decode(m, base, p, end) == None)
              && (n.Some? && n.value > 0 ==>
                    var cases := DecodeCases(m, base, p, Skip(m, p), end, n.value);
                    Decode(m, base, p, end) == if cases.None? then None else Some(Branch(ins, cases.value)))
  {
  }

  /** Decoding emitted code gives the code back. */
  lemma {:induction false} DecodeEmitted(m: seq<Slot>, base: int, p: nat, code: Code, end: nat)
    requires IsCode(code) && CodeAt(m, base, p, code) && p + Size(code) <= end <= |m|
    ensures Decode(m, base, p, end) == Some(code)
    decreases code, 1
  {
    hide CodeAt, IsCode, InsAt, Size, ReadIns, Skip, NumCases, IsIns, InsSize, Decode, DecodeCases, CasesAt, AreCode, CasePos, IsTerminal;
    HeadRead(m, base, p, code, end);
    OpParts(code);
    DecodeStep(m, base, p, end, code.ins);
    match code
    case Then(_, rest) =>
      DecodeEmitted(m, base, p + InsSize(code.ins), rest, end);
    case End(_) =>
    case Branch(ins, cases) =>
      NumCasesIs(m, base, ins, cases, p + InsSize(ins), end);
      CasesDecoded(m, base, p, p + InsSize(ins), cases, end, |cases|);
      assert cases[..|cases|] == cases;
  }

  /** What the walk finds at the start of the code. */
  lemma HeadRead(m: seq<Slot>, base: int, p: nat, code: Code, end: nat)
    requires IsCode(code) && CodeAt(m, base, p, code) && p + Size(code) <= end <= |m|
    ensures ReadIns(m, p, end) == Some(code.ins) && Skip(m, p) == p + InsSize(code.ins)
    ensures p + InsSize(code.ins) <= p + Size(code) && p < p + InsSize(code.ins)
    ensures code.Then? ==>
              && IsCode(code.rest) && CodeAt(m, base, p + InsSize(code.ins), code.rest)
              && Size(code) == InsSize(code.ins) + Size(code.rest)
              && code.ins.op != Analyze && code.ins.op != Danalyze && !IsTerminal(code.ins.op)
    ensures code.End? ==> code.ins.op != Analyze && code.ins.op != Danalyze && IsTerminal(code.ins.op)
    ensures code.Branch? ==>
              && (code.ins.op == Analyze || code.ins.op == Danalyze)
              && (code.ins.op == Danalyze ==> |code.cases| == |code.ins.list| + 1)
              && AreCode(code.cases) && CasesAt(m, base, p + InsSize(code.ins), code.cases)
              && CasePos(p + InsSize(code.ins), code.cases, |code.cases|) == p + Size(code)
  {
    hide InsAt, IsIns, ReadIns, Skip, InsSize, IsCode, CodeAt, Size, CasesAt, CasePos, AreCode, IsTerminal;
    SizeParts(code);
    CodeParts(code);
    AtParts(m, base, p, code);
    OpParts(code);
    InsRead(m, p, code.ins, end);
    SkipIs(m, p, code.ins);
  }

  lemma AtParts(m: seq<Slot>, base: int, p: nat, code: Code)
    requires CodeAt(m, base, p, code)
    ensures InsAt(m, p, code.ins)
    ensures code.Then? ==> CodeAt(m, base, p + InsSize(code.ins), code.rest)
    ensures code.Branch? ==> CasesAt(m, base, p + InsSize(code.ins), code.cases)
  {
  }

  lemma OpParts(code: Code)
    requires IsCode(code)
    ensures code.Branch? <==> code.ins.op == Analyze || code.ins.op == Danalyze
    ensures code.Branch? ==> code.cases != []
    ensures code.End? <==> IsTerminal(code.ins.op)
    ensures code.ins.op == Danalyze ==> |code.cases| == |code.ins.list| + 1
  {
  }

  lemma {:induction false} CasesDecoded(m: seq<Slot>, base: int, p: nat, table: nat, cases: seq<Code>, end: nat, n: nat)
    requires AreCode(cases) && CasesAt(m, base, table, cases) && n <= |cases|
    requires p < table && CasePos(table, cases, |cases|) <= end <= |m|
    ensures DecodeCases(m, base, p, table, end, n) == Some(cases[..n])
    decreases cases, 0, n
  {
    hide CodeAt, IsCode, Size, CasesAt, AreCode, Decode, CasePos;
    if n > 0 {
      var q := CasePos(table, cases, n - 1);
      CasesDecoded(m, base, p, table, cases, end, n - 1);
      LastCase(m, base, table, cases, end, n - 1);
      DecodeEmitted(m, base, q, cases[n - 1], end);
      assert cases[..n] == cases[..n - 1] + [cases[n - 1]];
    }
  }

  /** The `i`th case. */
  lemma LastCase(m: seq<Slot>, base: int, table: nat, cases: seq<Code>, end: nat, i: nat)
    requires AreCode(cases) && CasesAt(m, base, table, cases) && i < |cases|
    requires CasePos(table, cases, |cases|) <= end <= |m|
    ensures IsCode(cases[i])
    ensures PtrAt(m, table + i * WORD, base + CasePos(table, cases, i))
    ensures table + i * WORD + WORD <= CasePos(table, cases, i)
    ensures CodeAt(m, base, CasePos(table, cases, i), cases[i])
    ensures CasePos(table, cases, i) + Size(cases[i]) <= end
  {
    hide CodeAt, IsCode, Size, CasesAt, CaseStart;
    CaseOf(m, base, table, cases, i);
    CaseStartGrows(cases, i, |cases|);
  }

  // ----- Relocation -----

  /** `later` is where the walk comes to from the start of the code, without branching. */
  ghost predicate Reaches(code: Code, p: nat, later: Code, q: nat)
    decreases code
  {
    (code == later && p == q) || (code.Then? && Reaches(code.rest, p + InsSize(code.ins), later, q))
  }

  lemma {:induction false} ReachesNext(code: Code, p: nat, later: Code, q: nat)
    requires Reaches(code, p, later, q) && later.Then?
    ensures Reaches(code, p, later.rest, q + InsSize(later.ins))
    decreases code
  {
    hide InsSize;
    if code != later || p != q {
      ReachesNext(code.rest, p + InsSize(code.ins), later, q);
    } else {
      assert Reaches(code.rest, p + InsSize(code.ins), later.rest, q + InsSize(later.ins));
    }
  }

  lemma {:induction false} ReachesInside(code: Code, p: nat, later: Code, q: nat)
    requires Reaches(code, p, later, q)
    ensures p <= q && q + Size(later) == p + Size(code)
    decreases code
  {
    hide InsSize, Size;
    SizeParts(code);
    if code != later || p != q {
      ReachesInside(code.rest, p + InsSize(code.ins), later, q);
    }
  }

  /** Relocating what the walk comes to relocates the code. */
  lemma {:induction false} RelocatedTail(m: seq<Slot>, m': seq<Slot>, base: int, base': int, code: Code, p: nat, later: Code, q: nat)
    requires CodeAt(m, base, p, code) && Reaches(code, p, later, q)
    requires Changed(m, m', q, q + Size(later)) && CodeAt(m', base', q, later)
    ensures CodeAt(m', base', p, code)
    decreases code
  {
    hide InsSize, Size, Changed, InsAt, CasesAt;
    if code != later || p != q {
      AtParts(m, base, p, code);
      ReachesInside(code.rest, p + InsSize(code.ins), later, q);
      InsFrame(m, m', p, code.ins, q, q + Size(later));
      RelocatedTail(m, m', base, base', code.rest, p + InsSize(code.ins), later, q);
    }
  }

  /** The first `i` pointers of a table have been relocated, and the first `j` cases. */
  ghost predicate Mixed(m: seq<Slot>, base: int, base': int, table: nat, cases: seq<Code>, i: nat, j: nat) {
    forall k :: 0 <= k < |cases| ==> MixedCase(m, base, base', table, cases, i, j, k)
  }

  ghost predicate MixedCase(m: seq<Slot>, base: int, base': int, table: nat, cases: seq<Code>, i: nat, j: nat, k: nat)
    requires k < |cases|
  {
    && PtrAt(m, table + k * WORD, (if k < i then base' else base) + CasePos(table, cases, k))
    && CodeAt(m, if k < j then base' else base, CasePos(table, cases, k), cases[k])
  }

  lemma MixedStart(m: seq<Slot>, base: int, base': int, table: nat, cases: seq<Code>)
    requires CasesAt(m, base, table, cases)
    ensures Mixed(m, base, base', table, cases, 0, 0)
  {
    hide CasesAt, CodeAt, CasePos;
    forall k | 0 <= k < |cases|
      ensures MixedCase(m, base, base', table, cases, 0, 0, k)
    {
      CaseOf(m, base, table, cases, k);
    }
  }

  lemma MixedEnd(m: seq<Slot>, base: int, base': int, table: nat, cases: seq<Code>)
    requires Mixed(m, base, base', table, cases, |cases|, |cases|)
    ensures CasesAt(m, base', table, cases)
  {
    hide CodeAt, CasePos, MixedCase;
    forall k | 0 <= k < |cases|
      ensures PtrAt(m, table + k * WORD, base' + CasePos(table, cases, k)) && CodeAt(m, base', CasePos(table, cases, k), cases[k])
    {
      MixedOf(m, base, base', table, cases, |cases|, |cases|, k);
    }
  }

  lemma MixedOf(m: seq<Slot>, base: int, base': int, table: nat, cases: seq<Code>, i: nat, j: nat, k: nat)
    requires Mixed(m, base, base', table, cases, i, j) && k < |cases|
    ensures PtrAt(m, table + k * WORD, (if k < i then base' else base) + CasePos(table, cases, k))
    ensures CodeAt(m, if k < j then base' else base, CasePos(table, cases, k), cases[k])
  {
    hide CodeAt, CasePos;
    assert MixedCase(m, base, base', table, cases, i, j, k);
  }

  lemma PointerRelocated(m: seq<Slot>, m': seq<Slot>, base: int, base': int, table: nat, cases: seq<Code>, i: nat, j: nat)
    requires Mixed(m, base, base', table, cases, i, j) && i < |cases|
    requires Changed(m, m', table + i * WORD, table + i * WORD + WORD)
    requires PtrAt(m', table + i * WORD, base' + CasePos(table, cases, i))
    ensures Mixed(m', base, base', table, cases, i + 1, j)
  {
    hide CodeAt, CasePos, Changed, Mixed, Size, PtrAt;
    var i' := i + 1;
    forall k | 0 <= k < |cases|
      ensures MixedCase(m', base, base', table, cases, i', j, k)
    {
      MixedOf(m, base, base', table, cases, i, j, k);
      CasePosAfterTable(table, cases, k);
      CodeFrame(m, m', if k < j then base' else base, CasePos(table, cases, k), cases[k], table + i * WORD, table + i * WORD + WORD);
      if k != i {
        StillPointer(m, m', table + k * WORD, (if k < i then base' else base) + CasePos(table, cases, k), table + i * WORD, table + i * WORD + WORD);
      }
    }
    MixedNow(m', base, base', table, cases, i', j);
  }

  lemma MixedNow(m: seq<Slot>, base: int, base': int, table: nat, cases: seq<Code>, i: nat, j: nat)
    requires forall k :: 0 <= k < |cases| ==> MixedCase(m, base, base', table, cases, i, j, k)
    ensures Mixed(m, base, base', table, cases, i, j)
  {
    hide MixedCase;
  }

  lemma CasePosAfterTable(table: nat, cases: seq<Code>, k: nat)
    requires k <= |cases|
    ensures table + |cases| * WORD <= CasePos(table, cases, k)
  {
  }

  lemma CasesApart(table: nat, cases: seq<Code>, k: nat, j: nat)
    requires k < |cases| && j < |cases| && k != j
    ensures CasePos(table, cases, k) + Size(cases[k]) <= CasePos(table, cases, j)
            || CasePos(table, cases, j) + Size(cases[j]) <= CasePos(table, cases, k)
  {
    hide Size, CaseStart;
    if k < j {
      CaseStartGrows(cases, k, j);
    } else {
      CaseStartGrows(cases, j, k);
    }
  }

  lemma CaseRelocated(m: seq<Slot>, m': seq<Slot>, base: int, base': int, table: nat, cases: seq<Code>, i: nat, j: nat)
    requires Mixed(m, base, base', table, cases, i, j) && j < |cases|
    requires Changed(m, m', CasePos(table, cases, j), CasePos(table, cases, j) + Size(cases[j]))
    requires CodeAt(m', base', CasePos(table, cases, j), cases[j])
    ensures Mixed(m', base, base', table, cases, i, j + 1)
  {
    hide CodeAt, CasePos, Changed, Mixed, Size, PtrAt;
    var lo, hi := CasePos(table, cases, j), CasePos(table, cases, j) + Size(cases[j]);
    CasePosAfterTable(table, cases, j);
    var j' := j + 1;
    forall k | 0 <= k < |cases|
      ensures MixedCase(m', base, base', table, cases, i, j', k)
    {
      MixedOf(m, base, base', table, cases, i, j, k);
      StillPointer(m, m', table + k * WORD, (if k < i then base' else base) + CasePos(table, cases, k), lo, hi);
      if k != j {
        CasesApart(table, cases, k, j);
        CodeFrame(m, m', if k < j then base' else base, CasePos(table, cases, k), cases[k], lo, hi);
      }
    }
    MixedNow(m', base, base', table, cases, i, j');
  }

  /** The case the walk goes into next. */
  lemma CaseToTrace(m: seq<Slot>, base: int, base': int, table: nat, cases: seq<Code>, i: nat, j: nat, end: nat)
    requires Mixed(m, base, base', table, cases, i, j) && j < |cases| && j < i
    requires AreCode(cases) && CasePos(table, cases, |cases|) <= end <= |m|
    ensures PtrAt(m, table + j * WORD, base' + CasePos(table, cases, j))
    ensures CodeAt(m, base, CasePos(table, cases, j), cases[j])
    ensures IsCode(cases[j])
    ensures table <= CasePos(table, cases, j) && CasePos(table, cases, j) + Size(cases[j]) <= CasePos(table, cases, |cases|)
    ensures MIN_SIZE <= Size(cases[j])
  {
    hide CodeAt, Mixed, Size, PtrAt, IsCode, CaseStart;
    MixedOf(m, base, base', table, cases, i, j, j);
    CaseStartGrows(cases, j, |cases|);
  }

  /** The walk over a block that has just been copied from one address to another. */
  class Relocator {
    const mem: array<Slot>
    const oldbase: int
    const newbase: int
    const end: nat

    constructor (mem: array<Slot>, oldbase: int, newbase: int, end: nat)
      ensures this.mem == mem && this.oldbase == oldbase && this.newbase == newbase && this.end == end
    {
      this.mem, this.oldbase, this.newbase, this.end := mem, oldbase, newbase, end;
    }

    method Relocate(p: nat)
      requires p + WORD <= mem.Length && mem[p].Ptr?
      modifies mem
      ensures PtrAt(mem[..], p, newbase + (old(mem[p].addr) - oldbase))
      ensures Changed(old(mem[..]), mem[..], p, p + WORD)
    {
      mem[p] := Ptr(newbase + (mem[p].addr - oldbase));
    }

    /** `gs_gc_trace_bco_instrs` */
    method TraceInstrs(pin: nat, ghost code: Code) returns (ok: bool)
      requires IsCode(code) && CodeAt(mem[..], oldbase, pin, code)
      requires pin + Size(code) <= end <= mem.Length
      modifies mem
      ensures ok && CodeAt(mem[..], newbase, pin, code)
      ensures Changed(old(mem[..]), mem[..], pin, pin + Size(code))
      decreases code, 2
    {
      hide IsCode, CodeAt, Changed, Size, Skip, Reaches, InsSize, IsTerminal, AreCode, CasesAt, CasePos, ReadIns, IsIns, InsAt;
      ghost var m0 := mem[..];
      var p: nat := pin;
      ghost var cur := code;
      ReachesSelf(code, pin);
      while true
        invariant mem[..] == m0 && Reaches(code, pin, cur, p)
        invariant IsCode(cur) && CodeAt(m0, oldbase, p, cur)
        invariant cur == code || cur < code
        decreases cur
      {
        ReachesInside(code, pin, cur, p);
        HeadRead(m0, oldbase, p, cur, end);
        OpParts(cur);
        HeadThere(m0, p, cur, end);
        if p + MIN_SIZE > end {
          return false;
        }
        var op := mem[p + POS_SIZE].op;
        if op == Analyze || op == Danalyze {
          ok := TraceBranch(p, cur);
          RelocatedTail(m0, mem[..], oldbase, newbase, code, pin, cur, p);
          ChangedWithin(m0, mem[..], p, p + Size(cur), pin, pin + Size(code));
          return;
        }
        if IsTerminal(op) {
          EndAnywhere(m0, oldbase, newbase, p, cur);
          RelocatedTail(m0, mem[..], oldbase, newbase, code, pin, cur, p);
          ChangedWithin(m0, mem[..], p, p + Size(cur), pin, pin + Size(code));
          return true;
        }
        ReachesNext(code, pin, cur, p);
        p := Skip(mem[..], p);
        cur := cur.rest;
      }
    }

    /** `.analyze` and `.danalyze`: the table is relocated, and the walk goes into every
        case. */
    method TraceBranch(p: nat, ghost code: Code) returns (ok: bool)
      requires code.Branch? && IsCode(code) && CodeAt(mem[..], oldbase, p, code)
      requires p + Size(code) <= end <= mem.Length
      modifies mem
      ensures ok && CodeAt(mem[..], newbase, p, code)
      ensures Changed(old(mem[..]), mem[..], p, p + Size(code))
      decreases code, 1
    {
      hide IsCode, CodeAt, Changed, Size, Skip, InsSize, IsTerminal, AreCode, CasesAt, CasePos, InsAt, Mixed;
      ghost var m0 := mem[..];
      HeadRead(m0, oldbase, p, code, end);
      HeadThere(m0, p, code, end);
      OpParts(code);
      SizeParts(code);
      AtParts(m0, oldbase, p, code);
      var table := Skip(mem[..], p);
      CountThere(m0, p, code.ins, end);
      MixedStart(m0, oldbase, newbase, table, code.cases);
      if mem[p + POS_SIZE].op == Analyze {
        ok := TraceAnalyze(p, table, code.cases);
      } else {
        ok := TraceDanalyze(p, table, ByteOf(mem[p + ARGS + 1]), code.cases);
      }
      MixedEnd(mem[..], oldbase, newbase, table, code.cases);
      InsFrame(m0, mem[..], p, code.ins, table, CasePos(table, code.cases, |code.cases|));
      BranchAt(mem[..], newbase, p, code);
      ChangedWithin(m0, mem[..], table, CasePos(table, code.cases, |code.cases|), p, p + Size(code));
    }

    method TraceAnalyze(p: nat, table: nat, ghost cases: seq<Code>) returns (ok: bool)
      requires cases != [] && AreCode(cases)
      requires Mixed(mem[..], oldbase, newbase, table, cases, 0, 0)
      requires p <= table && CasePos(table, cases, |cases|) <= end <= mem.Length
      modifies mem
      ensures ok && Mixed(mem[..], oldbase, newbase, table, cases, |cases|, |cases|)
      ensures Changed(old(mem[..]), mem[..], table, CasePos(table, cases, |cases|))
      decreases cases, 0
    {
      hide CodeAt, Changed, Size, AreCode, CasePos, Mixed, IsCode;
      ghost var m0, n, last := mem[..], |cases|, CasePos(table, cases, |cases|);
      RelocatePointer(table, cases, 0, 0);
      FirstPos(table, cases);
      ChangedWithin(m0, mem[..], table + 0 * WORD, table + 0 * WORD + WORD, table, last);
      var ncases := (mem[table].addr - (newbase + table)) / WORD;
      for i := 1 to ncases
        invariant Mixed(mem[..], oldbase, newbase, table, cases, i, 0)
        invariant Changed(m0, mem[..], table, last)
      {
        ghost var m1 := mem[..];
        RelocatePointer(table, cases, i, 0);
        ChangedTwice(m0, m1, mem[..], table, last, table + i * WORD, table + i * WORD + WORD, last);
      }
      for i := 0 to ncases
        invariant Mixed(mem[..], oldbase, newbase, table, cases, n, i)
        invariant Changed(m0, mem[..], table, last)
      {
        ghost var m1 := mem[..];
        ok := TraceCase(p, table, cases, n, i);
        if !ok {
          return;
        }
        ChangedTwice(m0, m1, mem[..], table, last, table, last, last);
      }
      ok := true;
    }

    method TraceDanalyze(p: nat, table: nat, ncases: nat, ghost cases: seq<Code>) returns (ok: bool)
      requires |cases| == ncases + 1 && AreCode(cases)
      requires Mixed(mem[..], oldbase, newbase, table, cases, 0, 0)
      requires p <= table && CasePos(table, cases, |cases|) <= end <= mem.Length
      modifies mem
      ensures ok && Mixed(mem[..], oldbase, newbase, table, cases, |cases|, |cases|)
      ensures Changed(old(mem[..]), mem[..], table, CasePos(table, cases, |cases|))
      decreases cases, 0
    {
      hide CodeAt, Changed, Size, AreCode, CasePos, Mixed, IsCode;
      ghost var m0, last := mem[..], CasePos(table, cases, |cases|);
      NothingChanged(m0, table, last);
      for i := 0 to ncases + 1
        invariant Mixed(mem[..], oldbase, newbase, table, cases, i, i)
        invariant Changed(m0, mem[..], table, last)
      {
        ghost var m1 := mem[..];
        RelocatePointer(table, cases, i, i);
        ghost var m2 := mem[..];
        ChangedTwice(m0, m1, m2, table, last, table + i * WORD, table + i * WORD + WORD, last);
        ok := TraceCase(p, table, cases, i + 1, i);
        if !ok {
          return;
        }
        ChangedTwice(m0, m2, mem[..], table, last, table, last, last);
      }
      ok := true;
    }

    method RelocatePointer(table: nat, ghost cases: seq<Code>, i: nat, ghost j: nat)
      requires i < |cases| && Mixed(mem[..], oldbase, newbase, table, cases, i, j)
      modifies mem
      ensures Mixed(mem[..], oldbase, newbase, table, cases, i + 1, j)
      ensures PtrAt(mem[..], table + i * WORD, newbase + CasePos(table, cases, i))
      ensures Changed(old(mem[..]), mem[..], table + i * WORD, table + i * WORD + WORD)
      ensures table + i * WORD + WORD <= CasePos(table, cases, |cases|)
    {
      hide CodeAt, Changed, CasePos, Mixed;
      ghost var m0 := mem[..];
      MixedOf(m0, oldbase, newbase, table, cases, i, j, i);
      CasePosAfterTable(table, cases, |cases|);
      Relocate(table + i * WORD);
      PointerRelocated(m0, mem[..], oldbase, newbase, table, cases, i, j);
    }

    /** One case: it must not lie above the branch, and there must be room for an
        instruction. */
    method TraceCase(p: nat, table: nat, ghost cases: seq<Code>, ghost i: nat, j: nat) returns (ok: bool)
      requires j < |cases| && j < i && AreCode(cases)
      requires Mixed(mem[..], oldbase, newbase, table, cases, i, j)
      requires p <= table && CasePos(table, cases, |cases|) <= end <= mem.Length
      modifies mem
      ensures ok && Mixed(mem[..], oldbase, newbase, table, cases, i, j + 1)
      ensures Changed(old(mem[..]), mem[..], table, CasePos(table, cases, |cases|))
      decreases cases, 0, 0
    {
      hide CodeAt, Changed, Size, AreCode, CasePos, Mixed, IsCode;
      ghost var m0 := mem[..];
      CaseToTrace(m0, oldbase, newbase, table, cases, i, j, end);
      var target := mem[table + j * WORD].addr - newbase;
      if target < p || target + MIN_SIZE > end {
        return false;
      }
      ok := TraceInstrs(target, cases[j]);
      CaseRelocated(m0, mem[..], oldbase, newbase, table, cases, i, j);
      ChangedWithin(m0, mem[..], target, target + Size(cases[j]), table, CasePos(table, cases, |cases|));
    }
  }

  lemma ReachesSelf(code: Code, p: nat)
    ensures Reaches(code, p, code, p)
  {
  }

  lemma NothingChanged(m: seq<Slot>, lo: nat, hi: nat)
    ensures Changed(m, m, lo, hi)
  {
  }

  lemma ChangedWithin(m: seq<Slot>, m': seq<Slot>, lo: nat, hi: nat, lo': nat, hi': nat)
    requires lo' <= lo && hi <= hi'
    requires Changed(m, m', lo, hi) || m == m'
    ensures Changed(m, m', lo', hi')
  {
  }

  lemma HeadThere(m: seq<Slot>, p: nat, code: Code, end: nat)
    requires ReadIns(m, p, end) == Some(code.ins)
    ensures p + MIN_SIZE <= end <= |m| && m[p + POS_SIZE] == Instr(code.ins.op)
  {
  }

  /** `.danalyze` stores the number of its constructors in its second argument byte. */
  lemma CountThere(m: seq<Slot>, p: nat, ins: Ins, end: nat)
    requires ReadIns(m, p, end) == Some(ins)
    ensures p + MIN_SIZE <= |m| && (ins.op == Danalyze ==> ByteOf(m[p + ARGS + 1]) == |ins.list|)
  {
    if ins.op == Danalyze {
      BytesLength(m, p + ARGS + 2, ByteOf(m[p + ARGS + 1]));
    }
  }

  lemma {:induction false} BytesLength(m: seq<Slot>, p: nat, n: nat)
    ensures Bytes(m, p, n).Some? ==> |Bytes(m, p, n).value| == n
    decreases n
  {
    if n > 0 {
      BytesLength(m, p + 1, n - 1);
    }
  }

  lemma EndAnywhere(m: seq<Slot>, base: int, base': int, p: nat, code: Code)
    requires code.End? && CodeAt(m, base, p, code)
    ensures CodeAt(m, base', p, code) && Changed(m, m, p, p + Size(code))
  {
  }

  lemma BranchAt(m: seq<Slot>, base: int, p: nat, code: Code)
    requires code.Branch? && InsAt(m, p, code.ins) && CasesAt(m, base, p + InsSize(code.ins), code.cases)
    ensures CodeAt(m, base, p, code)
  {
  }

  lemma FirstPos(table: nat, cases: seq<Code>)
    requires cases != []
    ensures CasePos(table, cases, 0) == table + |cases| * WORD
    ensures |cases| * WORD / WORD == |cases|
    ensures CasePos(table, cases, |cases|) >= table + |cases| * WORD
  {
  }

  // ----- Code items -----

  /** A code item: pointers to its subexpressions, global values, and its code. */
  datatype Item = Item(subs: seq<int>, globals: seq<int>, code: Code)

  function CodeOffset(item: Item): nat {
    HEADER_SIZE + |item.subs| * WORD + |item.globals| * WORD
  }

  function ItemSize(item: Item): nat {
    CodeOffset(item) + Size(item.code)
  }

  /** The sizing pass. */
  class Sizer {
    var size: nat

    constructor ()
      ensures size == HEADER_SIZE
    {
      size := HEADER_SIZE;
    }

    method SizeCode(code: Code)
      modifies this
      ensures size == old(size) + Size(code)
      decreases code
    {
      hide InsSize;
      size := size + InsSize(code.ins);
      match code {
        case Then(_, rest) => SizeCode(rest);
        case End(_) =>
        case Branch(_, cases) =>
          size := size + |cases| * WORD;
          ghost var first := size;
          for i := 0 to |cases|
            invariant size == first + CaseStart(cases, i)
          {
            SizeCode(cases[i]);
          }
      }
    }

    /** `gsbc_bytecode_size_item`: the final rounding adds nothing. */
    method SizeItem(item: Item)
      requires size == HEADER_SIZE
      modifies this
      ensures size == ItemSize(item) && OnWord(size)
    {
      hide Size, OnWord;
      size := size + |item.subs| * WORD;
      size := size + |item.globals| * WORD;
      SizeCode(item.code);
      ItemOnWord(item);
      OnWordIs(size);
      if size % WORD != 0 {
        assert false;
      }
    }
  }

  lemma HeaderOnWord()
    ensures OnWord(HEADER_SIZE)
  {
  }

  lemma OnWordIs(n: nat)
    requires OnWord(n)
    ensures n % WORD == 0
  {
  }

  lemma ItemOnWord(item: Item)
    ensures OnWord(CodeOffset(item)) && OnWord(ItemSize(item))
  {
    hide OnWord, Size;
    HeaderOnWord();
    OnWordTable(|item.subs|);
    OnWordTable(|item.globals|);
    OnWordSum(HEADER_SIZE, |item.subs| * WORD);
    OnWordSum(HEADER_SIZE + |item.subs| * WORD, |item.globals| * WORD);
    SizeOnWord(item.code);
    OnWordSum(CodeOffset(item), Size(item.code));
  }

  /** The words before the code. */
  ghost predicate WordsAt(m: seq<Slot>, p: nat, words: seq<int>) {
    forall i :: 0 <= i < |words| ==> PtrAt(m, p + i * WORD, words[i])
  }

  lemma PointerWritten(m: seq<Slot>, p: nat, addr: int)
    requires p + WORD <= |m| && m[p] == Ptr(addr)
    ensures PtrAt(m, p, addr)
  {
  }

  method EmitWords(e: Emitter, words: seq<int>)
    requires e.pout + |words| * WORD <= e.mem.Length
    modifies e, e.mem
    ensures e.pout == old(e.pout) + |words| * WORD
    ensures WordsAt(e.mem[..], old(e.pout), words)
    ensures Changed(old(e.mem[..]), e.mem[..], old(e.pout), old(e.pout) + |words| * WORD)
  {
    hide Changed, PtrAt;
    ghost var p, m0, end := e.pout, e.mem[..], e.pout + |words| * WORD;
    NothingChanged(m0, p, end);
    for i := 0 to |words|
      invariant e.pout == p + i * WORD && Changed(m0, e.mem[..], p, end)
      invariant forall k :: 0 <= k < i ==> PtrAt(e.mem[..], p + k * WORD, words[k])
    {
      ghost var m1 := e.mem[..];
      e.PutWide(e.pout, Ptr(words[i]), WORD);
      ghost var m2 := e.mem[..];
      e.pout := e.pout + WORD;
      ChangedTwice(m0, m1, m2, p, end, p + i * WORD, p + i * WORD + WORD, end);
      PointerWritten(m2, p + i * WORD, words[i]);
      forall k | 0 <= k < i
        ensures PtrAt(m2, p + k * WORD, words[k])
      {
        StillPointer(m1, m2, p + k * WORD, words[k], p + i * WORD, p + i * WORD + WORD);
      }
    }
  }

  /** Emits a whole item into a block that the sizing pass has measured: it fills the
      block exactly, and decoding the block gives the code back. */
  method EmitItem(e: Emitter, item: Item)
    requires e.pout == 0 && e.mem.Length == ItemSize(item) && IsCode(item.code)
    modifies e, e.mem
    ensures e.pout == e.mem.Length
    ensures CodeAt(e.mem[..], e.base, CodeOffset(item), item.code)
    ensures Decode(e.mem[..], e.base, CodeOffset(item), e.mem.Length) == Some(item.code)
    ensures WordsAt(e.mem[..], HEADER_SIZE, item.subs)
    ensures WordsAt(e.mem[..], HEADER_SIZE + |item.subs| * WORD, item.globals)
  {
    hide CodeAt, Decode, Size, IsCode, WordsAt, Changed;
    e.pout := HEADER_SIZE;
    EmitWords(e, item.subs);
    ghost var m1 := e.mem[..];
    EmitWords(e, item.globals);
    ghost var m2 := e.mem[..];
    e.EmitCode(item.code);
    WordsStay(m1, m2, HEADER_SIZE, item.subs, HEADER_SIZE + |item.subs| * WORD, CodeOffset(item));
    WordsStay(m2, e.mem[..], HEADER_SIZE, item.subs, CodeOffset(item), ItemSize(item));
    WordsStay(m2, e.mem[..], HEADER_SIZE + |item.subs| * WORD, item.globals, CodeOffset(item), ItemSize(item));
    DecodeEmitted(e.mem[..], e.base, CodeOffset(item), item.code, e.mem.Length);
  }

  lemma WordsStay(m: seq<Slot>, m': seq<Slot>, p: nat, words: seq<int>, lo: nat, hi: nat)
    requires WordsAt(m, p, words) && Changed(m, m', lo, hi) && p + |words| * WORD <= lo
    ensures WordsAt(m', p, words)
  {
    hide Changed, PtrAt;
    forall i | 0 <= i < |words|
      ensures PtrAt(m', p + i * WORD, words[i])
    {
      StillPointer(m, m', p + i * WORD, words[i], lo, hi);
    }
  }

  /** `gs_gc_trace_bco` after it has copied the bytes of a block: the copy decodes to the
      code the original decoded to. */
  method RelocateBlock(r: Relocator, item: Item)
    requires IsCode(item.code)
    requires r.mem.Length == r.end == ItemSize(item) && CodeAt(r.mem[..], r.oldbase, CodeOffset(item), item.code)
    modifies r.mem
    ensures Decode(old(r.mem[..]), r.oldbase, CodeOffset(item), r.end) == Some(item.code)
    ensures Decode(r.mem[..], r.newbase, CodeOffset(item), r.end) == Some(item.code)
    ensures Changed(old(r.mem[..]), r.mem[..], CodeOffset(item), r.end)
  {
    hide CodeAt, Decode, Size, IsCode, Changed;
    DecodeEmitted(r.mem[..], r.oldbase, CodeOffset(item), item.code, r.end);
    var ok := r.TraceInstrs(CodeOffset(item), item.code);
    DecodeEmitted(r.mem[..], r.newbase, CodeOffset(item), item.code, r.end);
  }
}
