/** Monadic blocks in `apithread.c`: the instruction segment of an API thread is filled
    from its end; a block at the instruction pointer is replaced by its statements, each
    with a fresh promise for its result, and its body, which keeps the block's own. */
module BlockFlatten {

  datatype Option<T> = None | Some(value: T)

  const MAX_REGISTERS := 0x100

  // ----- Values and blocks -----

  datatype Value =
    | Closure(code: nat, fvs: seq<Value>)
    | Applied(fun: Value, args: seq<Value>)
    | Selected(fieldno: nat, record: Value)
    | Promise(p: nat)
    | Undefined
    | Other(n: nat)

  /** The promises a value mentions. */
  function Mentions(v: Value): set<nat> {
    match v
    case Closure(_, fvs) => MentionsAny(fvs)
    case Applied(fun, args) => Mentions(fun) + MentionsAny(args)
    case Selected(_, record) => Mentions(record)
    case Promise(p) => {p}
    case _ => {}
  }

  function MentionsAny(vs: seq<Value>): set<nat> {
    if vs == [] then {} else Mentions(vs[0]) + MentionsAny(vs[1..])
  }

  /** What an operation of a block computes from the registers. */
  datatype Expr =
    | MakeClosure(code: nat, regs: seq<nat>)
    | ApplyTo(fun: nat, regs: seq<nat>)
    | Select(fieldno: nat, reg: nat)
    | Alias(reg: nat)
    | Undef

  datatype Op = Let(e: Expr) | Bind(e: Expr) | Body(e: Expr)

  /** `numfvs` counts the values taken from the closure: free variables and arguments. */
  datatype Block = Block(globals: seq<Value>, numfvs: nat, ops: seq<Op>)

  function Fetch(regs: seq<Value>, rs: seq<nat>): Option<seq<Value>> {
    if rs == [] then Some([])
    else if rs[0] >= |regs| then None
    else
      var rest := Fetch(regs, rs[1..]);
      if rest.None? then None else Some([regs[rs[0]]] + rest.value)
  }

  function ValueOf(e: Expr, regs: seq<Value>): Option<Value> {
    match e
    case MakeClosure(code, rs) =>
      var vs := Fetch(regs, rs);
      if vs.None? then None else Some(Closure(code, vs.value))
    case ApplyTo(fun, rs) =>
      var vs := Fetch(regs, rs);
      if vs.None? || fun >= |regs| then None else Some(Applied(regs[fun], vs.value))
    case Select(fieldno, reg) => if reg < |regs| then Some(Selected(fieldno, regs[reg])) else None
    case Alias(reg) => if reg < |regs| then Some(regs[reg]) else None
    case Undef => Some(Value.Undefined)
  }

  /** The right-hand sides of the block from operation `i` on, the body last, given the
      registers and right-hand sides so far. Statement `k` has promise `next + k`. */
  function Interpret(ops: seq<Op>, i: nat, regs: seq<Value>, rhss: seq<Value>, next: nat): (r: Option<seq<Value>>)
    ensures r.Some? ==> |rhss| < |r.value|
    decreases |ops| - i
  {
    if i >= |ops| then None else
    match ops[i]
    case Let(e) =>
      var v := ValueOf(e, regs);
      if |regs| >= MAX_REGISTERS || v.None? then None else Interpret(ops, i + 1, regs + [v.value], rhss, next)
    case Bind(e) =>
      var v := ValueOf(e, regs);
      if |rhss| >= MAX_REGISTERS || |regs| >= MAX_REGISTERS || v.None? then None
      else Interpret(ops, i + 1, regs + [Promise(next + |rhss|)], rhss + [v.value], next)
    case Body(e) =>
      var v := ValueOf(e, regs);
      if |rhss| >= MAX_REGISTERS || v.None? then None else Some(rhss + [v.value])
  }

  function Unpack(block: Block, fvs: seq<Value>, next: nat): (r: Option<seq<Value>>)
    ensures r.Some? ==> 0 < |r.value|
  {
    if block.numfvs > |fvs| || |block.globals| + block.numfvs > MAX_REGISTERS then None
    else Interpret(block.ops, 0, block.globals + fvs[..block.numfvs], [], next)
  }

  // ----- The world -----

  /** Promises that have been set, the number allocated, and everything else. */
  datatype World<E> = World(promises: map<nat, Value>, next: nat, ext: E)

  /** What evaluating and executing an instruction leads to: it is a block, it delivers
      a result, it blocks and is tried again, or the thread abends. */
  datatype Reaction<E> = Opens(block: Block, fvs: seq<Value>) | Delivers(res: Value, ext: E) | Blocks(ext: E) | Abends

  type Host<!E> = (Value, map<nat, Value>, E) -> Reaction<E>

  // ----- Recursive bind semantics -----

  /** `need` is how many instructions have to fit in a segment. */
  datatype Result<E> = Done(res: Value, world: World<E>, need: nat) | Failed | OutOfFuel

  function Max(a: nat, b: nat): nat { if a < b then b else a }

  /** Running an instruction: a block runs its statements in order, each setting its
      promise, and its result is that of its body. */
  ghost function Eval<E>(host: Host<E>, v: Value, w: World<E>, fuel: nat): Result<E>
    decreases fuel, 0, 0
  {
    match host(v, w.promises, w.ext)
    case Abends => Failed
    case Delivers(res, ext) => Done(res, w.(ext := ext), 1)
    case Blocks(ext) => if fuel == 0 then OutOfFuel else Eval(host, v, w.(ext := ext), fuel - 1)
    case Opens(block, fvs) =>
      var rhss := Unpack(block, fvs, w.next);
      if rhss.None? then Failed
      else if fuel == 0 then OutOfFuel
      else EvalAll(host, rhss.value, w.next, w.(next := w.next + |rhss.value| - 1), fuel - 1)
  }

  ghost function EvalAll<E>(host: Host<E>, rhss: seq<Value>, p: nat, w: World<E>, fuel: nat): Result<E>
    requires rhss != []
    decreases fuel, 1, |rhss|
  {
    if |rhss| == 1 then Eval(host, rhss[0], w, fuel) else
      match Eval(host, rhss[0], w, fuel)
      case Done(res, w1, need) =>
        (match EvalAll(host, rhss[1..], p + 1, w1.(promises := w1.promises[p := res]), fuel)
         case Done(res2, w2, need2) => Done(res2, w2, Max(need + |rhss| - 1, need2))
         case Failed => Failed
         case OutOfFuel => OutOfFuel)
      case Failed => Failed
      case OutOfFuel => OutOfFuel
  }

  // ----- The segment -----

  datatype Instr = Instr(v: Value, p: nat)

  /** The instructions from the pointer to the end of the segment. */
  datatype Config<E> = Config(prog: seq<Instr>, world: World<E>) | Abended

  /** The statements of a block with their promises, then its body with promise `p`. */
  function Laid(rhss: seq<Value>, first: nat, p: nat): (r: seq<Instr>)
    requires rhss != []
    ensures |r| == |rhss|
  {
    if |rhss| == 1 then [Instr(rhss[0], p)] else [Instr(rhss[0], first)] + Laid(rhss[1..], first + 1, p)
  }

  /** One round of the thread, in a segment of `size` instructions. */
  ghost function Step<E>(host: Host<E>, size: nat, c: Config<E>): Config<E>
    requires c.Config? && c.prog != []
  {
    var v, p, w := c.prog[0].v, c.prog[0].p, c.world;
    match host(v, w.promises, w.ext)
    case Abends => Abended
    case Delivers(res, ext) => Config(c.prog[1..], w.(promises := w.promises[p := res], ext := ext))
    case Blocks(ext) => Config(c.prog, w.(ext := ext))
    case Opens(block, fvs) =>
      var rhss := Unpack(block, fvs, w.next);
      if rhss.None? || |c.prog| - 1 + |rhss.value| > size then Abended
      else Config(Laid(rhss.value, w.next, p) + c.prog[1..], w.(next := w.next + |rhss.value| - 1))
  }

  /** Runs until no more than `len` instructions are left, for at most `k` rounds. */
  ghost function RunTo<E>(host: Host<E>, size: nat, c: Config<E>, len: nat, k: nat): Option<Config<E>>
    decreases k
  {
    if c.Abended? || |c.prog| <= len then Some(c)
    else if k == 0 then None
    else RunTo(host, size, Step(host, size, c), len, k - 1)
  }

  lemma {:induction false} RunMore<E>(host: Host<E>, size: nat, c: Config<E>, len: nat, k: nat, k': nat)
    requires RunTo(host, size, c, len, k).Some? && k <= k'
    ensures RunTo(host, size, c, len, k') == RunTo(host, size, c, len, k)
    decreases k
  {
    if c.Config? && |c.prog| > len {
      RunMore(host, size, Step(host, size, c), len, k - 1, k' - 1);
    }
  }

  /** A run to fewer instructions comes by more instructions first. */
  lemma {:induction false} RunOn<E>(host: Host<E>, size: nat, c: Config<E>, len: nat, mid: nat, k: nat, k2: nat)
    requires len <= mid && RunTo(host, size, c, mid, k).Some?
    requires RunTo(host, size, RunTo(host, size, c, mid, k).value, len, k2).Some?
    ensures RunTo(host, size, c, len, k + k2) == RunTo(host, size, RunTo(host, size, c, mid, k).value, len, k2)
    decreases k
  {
    if c.Abended? || |c.prog| <= mid {
      RunMore(host, size, c, len, k2, k + k2);
    } else {
      RunOn(host, size, Step(host, size, c), len, mid, k - 1, k2);
    }
  }

  lemma {:induction false} RunPasses<E>(host: Host<E>, size: nat, c: Config<E>, len: nat, mid: nat, k: nat)
    requires len <= mid && RunTo(host, size, c, len, k).Some?
    ensures RunTo(host, size, c, mid, k).Some?
    ensures RunTo(host, size, RunTo(host, size, c, mid, k).value, len, k) == RunTo(host, size, c, len, k)
    decreases k
  {
    if c.Abended? || |c.prog| <= mid {
    } else {
      RunPasses(host, size, Step(host, size, c), len, mid, k - 1);
      RunMore(host, size, RunTo(host, size, c, mid, k).value, len, k - 1, k);
    }
  }

  // ----- The segment runs as the recursive semantics says -----

  function With<E>(w: World<E>, p: nat, res: Value): World<E> {
    w.(promises := w.promises[p := res])
  }

  /** Where a run of one instruction, or of the instructions of one block, ends. */
  ghost function Expected<E>(r: Result<E>, size: nat, rest: seq<Instr>, p: nat): Config<E>
    requires !r.OutOfFuel?
  {
    if r.Failed? || |rest| + r.need > size then Abended else Config(rest, With(r.world, p, r.res))
  }

  lemma {:induction false} NeedsItsOwn<E>(host: Host<E>, rhss: seq<Value>, p: nat, w: World<E>, fuel: nat)
    requires rhss != [] && EvalAll(host, rhss, p, w, fuel).Done?
    ensures EvalAll(host, rhss, p, w, fuel).need >= |rhss|
    decreases fuel, 1, |rhss|
  {
    NeedsOne(host, rhss[0], w, fuel);
  }

  lemma {:induction false} NeedsOne<E>(host: Host<E>, v: Value, w: World<E>, fuel: nat)
    ensures Eval(host, v, w, fuel).Done? ==> Eval(host, v, w, fuel).need >= 1
    decreases fuel, 0, 0
  {
    match host(v, w.promises, w.ext)
    case Opens(block, fvs) =>
      var rhss := Unpack(block, fvs, w.next);
      if rhss.Some? && fuel > 0 {
        var w1 := w.(next := w.next + |rhss.value| - 1);
        if EvalAll(host, rhss.value, w.next, w1, fuel - 1).Done? {
          NeedsItsOwn(host, rhss.value, w.next, w1, fuel - 1);
        }
      }
    case Blocks(ext) =>
      if fuel > 0 {
        NeedsOne(host, v, w.(ext := ext), fuel - 1);
      }
    case _ =>
  }

  lemma RunStep<E>(host: Host<E>, size: nat, c: Config<E>, len: nat, k: nat)
    requires c.Config? && |c.prog| > len
    ensures RunTo(host, size, c, len, k + 1) == RunTo(host, size, Step(host, size, c), len, k)
  {
  }

  lemma RunEnds<E>(host: Host<E>, size: nat, c: Config<E>, len: nat, k: nat)
    requires c.Abended? || |c.prog| <= len
    ensures RunTo(host, size, c, len, k) == Some(c)
  {
  }

  /** Running an instruction at the pointer uses it up and sets its promise to what the
      recursive semantics gives; the thread abends exactly if that fails or the segment
      is too small. */
  lemma {:induction false} EvalRuns<E>(host: Host<E>, size: nat, v: Value, p: nat, rest: seq<Instr>, w: World<E>, fuel: nat) returns (k: nat)
    requires |rest| < size && !Eval(host, v, w, fuel).OutOfFuel?
    ensures RunTo(host, size, Config([Instr(v, p)] + rest, w), |rest|, k) == Some(Expected(Eval(host, v, w, fuel), size, rest, p))
    decreases fuel, 0, 1
  {
    hide RunTo, Unpack;
    var c := Config([Instr(v, p)] + rest, w);
    assert c.prog[1..] == rest;
    match host(v, w.promises, w.ext)
    case Opens(block, fvs) =>
      k := OpenedRuns(host, size, v, p, rest, w, fuel, block, fvs);
    case Blocks(ext) =>
      k := EvalRuns(host, size, v, p, rest, w.(ext := ext), fuel - 1);
      RunStep(host, size, c, |rest|, k);
      k := k + 1;
    case _ =>
      k := 1;
      RunStep(host, size, c, |rest|, 0);
      RunEnds(host, size, Step(host, size, c), |rest|, 0);
  }

  lemma {:induction false} OpenedRuns<E>(host: Host<E>, size: nat, v: Value, p: nat, rest: seq<Instr>, w: World<E>, fuel: nat,
                                         block: Block, fvs: seq<Value>) returns (k: nat)
    requires |rest| < size && !Eval(host, v, w, fuel).OutOfFuel? && host(v, w.promises, w.ext) == Opens(block, fvs)
    ensures RunTo(host, size, Config([Instr(v, p)] + rest, w), |rest|, k) == Some(Expected(Eval(host, v, w, fuel), size, rest, p))
    decreases fuel, 0, 0
  {
    hide RunTo, Unpack, EvalAll;
    var c := Config([Instr(v, p)] + rest, w);
    assert c.prog[1..] == rest;
    var rhss := Unpack(block, fvs, w.next);
    if rhss.Some? && |rest| + |rhss.value| <= size {
      k := EvalAllRuns(host, size, rhss.value, w.next, p, rest, w.(next := w.next + |rhss.value| - 1), fuel - 1);
    } else {
      if rhss.Some? && EvalAll(host, rhss.value, w.next, w.(next := w.next + |rhss.value| - 1), fuel - 1).Done? {
        NeedsItsOwn(host, rhss.value, w.next, w.(next := w.next + |rhss.value| - 1), fuel - 1);
      }
      k := 0;
      RunEnds(host, size, Step(host, size, c), |rest|, 0);
    }
    RunStep(host, size, c, |rest|, k);
    k := k + 1;
  }

  lemma {:induction false} EvalAllRuns<E>(host: Host<E>, size: nat, rhss: seq<Value>, first: nat, p: nat, rest: seq<Instr>, w: World<E>, fuel: nat)
    returns (k: nat)
    requires rhss != [] && |rhss| + |rest| <= size && !EvalAll(host, rhss, first, w, fuel).OutOfFuel?
    ensures RunTo(host, size, Config(Laid(rhss, first, p) + rest, w), |rest|, k) == Some(Expected(EvalAll(host, rhss, first, w, fuel), size, rest, p))
    decreases fuel, 1, |rhss|
  {
    hide RunTo, Eval;
    if |rhss| == 1 {
      k := EvalRuns(host, size, rhss[0], p, rest, w, fuel);
    } else {
      var rest' := Laid(rhss[1..], first + 1, p) + rest;
      var c := Config(Laid(rhss, first, p) + rest, w);
      assert c.prog == [Instr(rhss[0], first)] + rest';
      var k1 := EvalRuns(host, size, rhss[0], first, rest', w, fuel);
      var r := Eval(host, rhss[0], w, fuel);
      if Expected(r, size, rest', first).Abended? {
        RunEnds(host, size, Config<E>.Abended, |rest|, 0);
        RunOn(host, size, c, |rest|, |rest'|, k1, 0);
        k := k1;
      } else {
        var k2 := EvalAllRuns(host, size, rhss[1..], first + 1, p, rest, With(r.world, first, r.res), fuel);
        RunOn(host, size, c, |rest|, |rest'|, k1, k2);
        k := k1 + k2;
      }
    }
  }

  /** If the segment uses up an instruction, the recursive semantics ends. */
  lemma {:induction false} RunEvals<E>(host: Host<E>, size: nat, v: Value, p: nat, rest: seq<Instr>, w: World<E>, k: nat)
    requires |rest| < size
    requires var r := RunTo(host, size, Config([Instr(v, p)] + rest, w), |rest|, k); r.Some? && r.value.Config?
    ensures !Eval(host, v, w, k).OutOfFuel?
    decreases k, 0, 0
  {
    var c := Config([Instr(v, p)] + rest, w);
    assert c.prog[1..] == rest;
    match host(v, w.promises, w.ext)
    case Opens(block, fvs) =>
      hide Unpack, EvalAll;
      var rhss := Unpack(block, fvs, w.next);
      if rhss.Some? && |rest| + |rhss.value| <= size {
        RunEvalsAll(host, size, rhss.value, w.next, p, rest, w.(next := w.next + |rhss.value| - 1), k - 1);
      }
    case Blocks(ext) => RunEvals(host, size, v, p, rest, w.(ext := ext), k - 1);
    case _ =>
  }

  lemma {:induction false} RunEvalsAll<E>(host: Host<E>, size: nat, rhss: seq<Value>, first: nat, p: nat, rest: seq<Instr>, w: World<E>, k: nat)
    requires rhss != [] && |rhss| + |rest| <= size
    requires var r := RunTo(host, size, Config(Laid(rhss, first, p) + rest, w), |rest|, k); r.Some? && r.value.Config?
    ensures !EvalAll(host, rhss, first, w, k).OutOfFuel?
    decreases k, 1, |rhss|
  {
    hide RunTo, Eval;
    if |rhss| == 1 {
      RunEvals(host, size, rhss[0], p, rest, w, k);
    } else {
      var rest' := Laid(rhss[1..], first + 1, p) + rest;
      var c := Config(Laid(rhss, first, p) + rest, w);
      assert c.prog == [Instr(rhss[0], first)] + rest';
      RunPasses(host, size, c, |rest|, |rest'|, k);
      var c1 := RunTo(host, size, c, |rest'|, k).value;
      if c1.Abended? {
        RunEnds(host, size, c1, |rest|, k);
      } else {
        RunEvals(host, size, rhss[0], first, rest', w, k);
        var k1 := EvalRuns(host, size, rhss[0], first, rest', w, k);
        SameRun(host, size, c, |rest'|, k, k1);
        var r := Eval(host, rhss[0], w, k);
        RunEvalsAll(host, size, rhss[1..], first + 1, p, rest, With(r.world, first, r.res), k);
      }
    }
  }

  lemma SameRun<E>(host: Host<E>, size: nat, c: Config<E>, len: nat, k: nat, k': nat)
    requires RunTo(host, size, c, len, k).Some? && RunTo(host, size, c, len, k').Some?
    ensures RunTo(host, size, c, len, k) == RunTo(host, size, c, len, k')
  {
    RunMore(host, size, c, len, k, k + k');
    RunMore(host, size, c, len, k', k + k');
  }

  /** The other way round: what a run of the segment leaves behind is what the recursive
      semantics gives, and the segment was large enough. */
  lemma RunIsEval<E>(host: Host<E>, size: nat, v: Value, p: nat, rest: seq<Instr>, w: World<E>, k: nat)
    requires |rest| < size
    requires var r := RunTo(host, size, Config([Instr(v, p)] + rest, w), |rest|, k); r.Some? && r.value.Config?
    ensures var e := Eval(host, v, w, k);
            && e.Done? && |rest| + e.need <= size
            && RunTo(host, size, Config([Instr(v, p)] + rest, w), |rest|, k) == Some(Config(rest, With(e.world, p, e.res)))
  {
    hide RunTo, Eval;
    RunEvals(host, size, v, p, rest, w, k);
    var k1 := EvalRuns(host, size, v, p, rest, w, k);
    SameRun(host, size, Config([Instr(v, p)] + rest, w), |rest|, k, k1);
  }

  // ----- Promises -----

  /** Nothing the thread is given mentions a promise that is not set. */
  ghost predicate HostOk<E(!new)>(host: Host<E>) {
    forall v: Value, promises: map<nat, Value>, ext: E :: Mentions(v) <= promises.Keys ==> ReactionOk(host(v, promises, ext), promises)
  }

  ghost predicate ReactionOk<E>(r: Reaction<E>, promises: map<nat, Value>) {
    match r
    case Opens(block, fvs) => MentionsAny(fvs) <= promises.Keys && MentionsAny(block.globals) <= promises.Keys
    case Delivers(res, _) => Mentions(res) <= promises.Keys
    case Blocks(_) => true
    case Abends => true
  }

  /** The promises of the first `j` instructions. */
  ghost function Pending(prog: seq<Instr>, j: nat): set<nat>
    requires j <= |prog|
  {
    set i | 0 <= i < j :: prog[i].p
  }

  /** No promise is awaited twice. */
  ghost predicate Distinct(prog: seq<Instr>) {
    forall i, j :: 0 <= i < j < |prog| ==> prog[i].p != prog[j].p
  }

  /** The instruction's own promise is allocated but not set; it mentions promises that
      are set and promises of instructions before it. */
  ghost predicate InstrOk<E>(c: Config<E>, j: nat)
    requires c.Config? && j < |c.prog|
  {
    && c.prog[j].p < c.world.next && c.prog[j].p !in c.world.promises
    && Mentions(c.prog[j].v) <= c.world.promises.Keys + Pending(c.prog, j)
  }

  /** Every allocated promise is set or awaits an instruction, and not both. */
  ghost predicate PromisesOk<E>(c: Config<E>) {
    c.Config? ==> Distinct(c.prog) && InstrsOk(c) && Accounted(c)
  }

  ghost predicate InstrsOk<E>(c: Config<E>)
    requires c.Config?
  {
    forall j :: 0 <= j < |c.prog| ==> InstrOk(c, j)
  }

  ghost predicate Accounted<E>(c: Config<E>)
    requires c.Config?
  {
    && (forall q :: q in c.world.promises ==> q < c.world.next)
    && (forall q: nat :: q < c.world.next ==> q in c.world.promises || q in Pending(c.prog, |c.prog|))
  }

  /** A statement that is current mentions only promises that have been set: those of
      all statements before it. */
  lemma CurrentIsReady<E>(c: Config<E>)
    requires c.Config? && c.prog != [] && PromisesOk(c)
    ensures Mentions(c.prog[0].v) <= c.world.promises.Keys && c.prog[0].p !in c.world.promises
    ensures forall q: nat :: q < c.world.next && q !in Pending(c.prog, |c.prog|) ==> q in c.world.promises
  {
    assert InstrOk(c, 0);
    assert Pending(c.prog, 0) == {};
  }

  /** Promises from `lo` to before `hi`. */
  ghost function Fresh(lo: nat, hi: nat): set<nat> { set q: nat | lo <= q < hi && IsFrom(q, lo) }

  predicate IsFrom(q: nat, lo: nat) { lo <= q }

  lemma {:induction false} MentionsOne(vs: seq<Value>, i: nat, s: set<nat>)
    requires i < |vs| && MentionsAny(vs) <= s
    ensures Mentions(vs[i]) <= s
    decreases i
  {
    if i > 0 {
      MentionsOne(vs[1..], i - 1, s);
    }
  }

  lemma {:induction false} MentionsEvery(vs: seq<Value>, s: set<nat>)
    requires forall i :: 0 <= i < |vs| ==> Mentions(vs[i]) <= s
    ensures MentionsAny(vs) <= s
    decreases |vs|
  {
    if vs != [] {
      forall i | 0 <= i < |vs[1..]|
        ensures Mentions(vs[1..][i]) <= s
      {
        assert vs[1..][i] == vs[i + 1];
      }
      MentionsEvery(vs[1..], s);
    }
  }

  lemma {:induction false} FetchMentions(regs: seq<Value>, rs: seq<nat>, s: set<nat>)
    requires MentionsAny(regs) <= s && Fetch(regs, rs).Some?
    ensures MentionsAny(Fetch(regs, rs).value) <= s
    decreases |rs|
  {
    if rs != [] {
      FetchMentions(regs, rs[1..], s);
      MentionsOne(regs, rs[0], s);
      var rest := Fetch(regs, rs[1..]).value;
      assert ([regs[rs[0]]] + rest)[1..] == rest;
    }
  }

  lemma ValueMentions(e: Expr, regs: seq<Value>, s: set<nat>)
    requires MentionsAny(regs) <= s && ValueOf(e, regs).Some?
    ensures Mentions(ValueOf(e, regs).value) <= s
  {
    match e
    case MakeClosure(_, rs) => FetchMentions(regs, rs, s);
    case ApplyTo(fun, rs) =>
      FetchMentions(regs, rs, s);
      MentionsOne(regs, fun, s);
    case Select(_, reg) => MentionsOne(regs, reg, s);
    case Alias(reg) => MentionsOne(regs, reg, s);
    case Undef =>
  }

  /** Each right-hand side mentions only promises of the statements before it. */
  ghost predicate RhssOk(rhss: seq<Value>, s: set<nat>, next: nat) {
    forall k :: 0 <= k < |rhss| ==> Mentions(rhss[k]) <= s + Fresh(next, next + k)
  }

  lemma {:induction false} InterpretMentions(ops: seq<Op>, i: nat, regs: seq<Value>, rhss: seq<Value>, next: nat, s: set<nat>)
    requires MentionsAny(regs) <= s + Fresh(next, next + |rhss|) && RhssOk(rhss, s, next)
    requires Interpret(ops, i, regs, rhss, next).Some?
    ensures RhssOk(Interpret(ops, i, regs, rhss, next).value, s, next)
    decreases |ops| - i
  {
    var now := s + Fresh(next, next + |rhss|);
    hide ValueOf, Mentions;
    match ops[i]
    case Let(e) =>
      ValueMentions(e, regs, now);
      MentionsSnoc(regs, ValueOf(e, regs).value, now);
      InterpretMentions(ops, i + 1, regs + [ValueOf(e, regs).value], rhss, next, s);
    case Bind(e) =>
      ValueMentions(e, regs, now);
      PromiseMentions(next + |rhss|);
      var after := s + Fresh(next, next + |rhss| + 1);
      MentionsSnoc(regs, Promise(next + |rhss|), after);
      InterpretMentions(ops, i + 1, regs + [Promise(next + |rhss|)], rhss + [ValueOf(e, regs).value], next, s);
    case Body(e) =>
      ValueMentions(e, regs, now);
  }

  lemma PromiseMentions(p: nat)
    ensures Mentions(Promise(p)) == {p}
  {
  }

  lemma MentionsSnoc(vs: seq<Value>, v: Value, s: set<nat>)
    requires MentionsAny(vs) <= s && Mentions(v) <= s
    ensures MentionsAny(vs + [v]) <= s
  {
    hide Mentions, MentionsAny;
    forall i | 0 <= i < |vs + [v]|
      ensures Mentions((vs + [v])[i]) <= s
    {
      if i < |vs| {
        MentionsOne(vs, i, s);
      }
    }
    MentionsEvery(vs + [v], s);
  }

  lemma UnpackMentions(block: Block, fvs: seq<Value>, next: nat, s: set<nat>)
    requires MentionsAny(fvs) <= s && MentionsAny(block.globals) <= s && Unpack(block, fvs, next).Some?
    ensures RhssOk(Unpack(block, fvs, next).value, s, next)
  {
    hide Mentions, MentionsAny;
    var regs := block.globals + fvs[..block.numfvs];
    forall i | 0 <= i < |regs|
      ensures Mentions(regs[i]) <= s
    {
      if i < |block.globals| {
        MentionsOne(block.globals, i, s);
      } else {
        MentionsOne(fvs, i - |block.globals|, s);
      }
    }
    MentionsEvery(regs, s);
    assert Fresh(next, next) == {};
    InterpretMentions(block.ops, 0, regs, [], next, s);
  }

  lemma {:induction false} LaidAt(rhss: seq<Value>, first: nat, p: nat, j: nat)
    requires j < |rhss|
    ensures Laid(rhss, first, p)[j] == Instr(rhss[j], if j == |rhss| - 1 then p else first + j)
    decreases j
  {
    if j > 0 {
      LaidAt(rhss[1..], first + 1, p, j - 1);
    }
  }

  lemma LaidNext(rhss: seq<Value>, n: nat, first: nat, p: nat)
    requires n + 1 < |rhss|
    ensures Laid(rhss[n..], first + n, p) == [Instr(rhss[n], first + n)] + Laid(rhss[n + 1..], first + n + 1, p)
  {
    assert rhss[n..][1..] == rhss[n + 1..];
  }

  lemma LaidLast(rhss: seq<Value>, first: nat, p: nat)
    requires rhss != []
    ensures Laid(rhss[|rhss| - 1..], first + |rhss| - 1, p) == [Instr(rhss[|rhss| - 1], p)]
  {
  }

  lemma StepKeepsPromises<E(!new)>(host: Host<E>, size: nat, c: Config<E>)
    requires c.Config? && c.prog != [] && PromisesOk(c) && HostOk(host)
    ensures PromisesOk(Step(host, size, c))
    ensures Step(host, size, c).Config? ==> SetOnce(c.world.promises, Step(host, size, c).world.promises)
  {
    hide PromisesOk, HostOk, Unpack;
    CurrentIsReady(c);
    HostReacts(host, c.prog[0].v, c.world.promises, c.world.ext);
    match host(c.prog[0].v, c.world.promises, c.world.ext)
    case Abends => AbendedOk<E>();
    case Delivers(res, ext) => DeliverKeepsPromises(host, size, c, res, ext);
    case Blocks(ext) => BlockKeepsPromises(c, ext);
    case Opens(block, fvs) =>
      var rhss := Unpack(block, fvs, c.world.next);
      AbendedOk<E>();
      if rhss.Some? {
        UnpackMentions(block, fvs, c.world.next, c.world.promises.Keys);
        OpenKeepsPromises(c, rhss.value);
      }
  }

  lemma AbendedOk<E>()
    ensures PromisesOk(Config<E>.Abended)
  {
  }

  lemma BlockKeepsPromises<E>(c: Config<E>, ext: E)
    requires c.Config? && PromisesOk(c)
    ensures PromisesOk(Config(c.prog, c.world.(ext := ext)))
  {
    forall j | 0 <= j < |c.prog|
      ensures InstrOk(Config(c.prog, c.world.(ext := ext)), j)
    {
      assert InstrOk(c, j);
    }
  }

  lemma HostReacts<E(!new)>(host: Host<E>, v: Value, promises: map<nat, Value>, ext: E)
    requires HostOk(host) && Mentions(v) <= promises.Keys
    ensures ReactionOk(host(v, promises, ext), promises)
  {
  }

  /** A promise that is set keeps its value. */
  ghost predicate SetOnce(a: map<nat, Value>, b: map<nat, Value>) {
    forall q :: q in a ==> q in b && b[q] == a[q]
  }

  lemma DeliverKeepsPromises<E>(host: Host<E>, size: nat, c: Config<E>, res: Value, ext: E)
    requires c.Config? && c.prog != [] && PromisesOk(c)
    ensures var c' := Config(c.prog[1..], c.world.(promises := c.world.promises[c.prog[0].p := res], ext := ext));
            PromisesOk(c') && SetOnce(c.world.promises, c'.world.promises)
  {
    var c' := Config(c.prog[1..], c.world.(promises := c.world.promises[c.prog[0].p := res], ext := ext));
    assert InstrOk(c, 0);
    forall j | 0 <= j < |c'.prog|
      ensures InstrOk(c', j)
    {
      assert InstrOk(c, j + 1);
      forall q | q in Pending(c.prog, j + 1)
        ensures q == c.prog[0].p || q in Pending(c'.prog, j)
      {
        var i :| 0 <= i < j + 1 && c.prog[i].p == q;
        if i > 0 {
          assert c'.prog[i - 1].p == q;
        }
      }
    }
    forall q: nat | q < c'.world.next
      ensures q in c'.world.promises || q in Pending(c'.prog, |c'.prog|)
    {
      if q in Pending(c.prog, |c.prog|) {
        var i :| 0 <= i < |c.prog| && c.prog[i].p == q;
        if i > 0 {
          assert c'.prog[i - 1].p == q;
        }
      }
    }
  }

  lemma OpenKeepsPromises<E>(c: Config<E>, rhss: seq<Value>)
    requires c.Config? && c.prog != [] && PromisesOk(c) && rhss != []
    requires RhssOk(rhss, c.world.promises.Keys, c.world.next)
    ensures PromisesOk(Config(Laid(rhss, c.world.next, c.prog[0].p) + c.prog[1..], c.world.(next := c.world.next + |rhss| - 1)))
  {
    hide Laid, Distinct, InstrsOk, Accounted, RhssOk;
    var c' := Config(Laid(rhss, c.world.next, c.prog[0].p) + c.prog[1..], c.world.(next := c.world.next + |rhss| - 1));
    OpenedProg(c, c', rhss);
    hide Opened;
    OpenedInstrs(c, c', rhss);
    OpenedDistinct(c, c', rhss);
    OpenedAll(c, c', rhss);
  }

  lemma OpenedInstrs<E>(c: Config<E>, c': Config<E>, rhss: seq<Value>)
    requires Opened(c, c', rhss) && PromisesOk(c) && RhssOk(rhss, c.world.promises.Keys, c.world.next)
    ensures c'.Config? && InstrsOk(c')
  {
    hide PromisesOk, RhssOk, InstrOk;
    forall j | 0 <= j < |c'.prog|
      ensures InstrOk(c', j)
    {
      OpenedInstr(c, c', rhss, j);
    }
  }

  /** The instructions after a block has been opened. */
  ghost predicate Opened<E>(c: Config<E>, c': Config<E>, rhss: seq<Value>) {
    && c.Config? && c'.Config? && c.prog != [] && rhss != []
    && c'.world == c.world.(next := c.world.next + |rhss| - 1) && |c'.prog| == |rhss| + |c.prog| - 1
    && (forall j :: 0 <= j < |rhss| ==> OpenedAt(c, c', rhss, j))
    && (forall j :: |rhss| <= j < |c'.prog| ==> c'.prog[j] == c.prog[j - |rhss| + 1])
  }

  ghost predicate OpenedAt<E>(c: Config<E>, c': Config<E>, rhss: seq<Value>, j: nat)
    requires c.Config? && c'.Config? && c.prog != [] && j < |rhss| <= |c'.prog|
  {
    c'.prog[j] == Instr(rhss[j], if j == |rhss| - 1 then c.prog[0].p else c.world.next + j)
  }

  lemma OpenedProg<E>(c: Config<E>, c': Config<E>, rhss: seq<Value>)
    requires c.Config? && c.prog != [] && rhss != []
    requires c' == Config(Laid(rhss, c.world.next, c.prog[0].p) + c.prog[1..], c.world.(next := c.world.next + |rhss| - 1))
    ensures Opened(c, c', rhss)
  {
    hide Laid;
    forall j | 0 <= j < |rhss|
      ensures OpenedAt(c, c', rhss, j)
    {
      LaidAt(rhss, c.world.next, c.prog[0].p, j);
    }
  }

  /** Where the promises of the opened block come from. */
  lemma OpenedPromise<E>(c: Config<E>, c': Config<E>, rhss: seq<Value>, j: nat)
    requires Opened(c, c', rhss) && j < |c'.prog|
    ensures c'.prog[j].p == if j < |rhss| - 1 then c.world.next + j else c.prog[j - |rhss| + 1].p
    ensures j < |rhss| ==> c'.prog[j].v == rhss[j]
  {
    if j < |rhss| {
      assert OpenedAt(c, c', rhss, j);
    }
  }

  lemma OpenedDistinct<E>(c: Config<E>, c': Config<E>, rhss: seq<Value>)
    requires Opened(c, c', rhss) && PromisesOk(c)
    ensures c'.Config? && Distinct(c'.prog)
  {
    hide Opened;
    var n := |rhss|;
    OpenedSizes(c, c', rhss);
    forall i, j | 0 <= i < j < |c'.prog|
      ensures c'.prog[i].p != c'.prog[j].p
    {
      OpenedPromise(c, c', rhss, i);
      OpenedPromise(c, c', rhss, j);
      if j >= n - 1 {
        assert InstrOk(c, j - n + 1);
      }
    }
  }

  lemma OpenedSizes<E>(c: Config<E>, c': Config<E>, rhss: seq<Value>)
    requires Opened(c, c', rhss)
    ensures c.Config? && c'.Config? && c.prog != [] && rhss != [] && |c'.prog| == |rhss| + |c.prog| - 1
    ensures c'.world == c.world.(next := c.world.next + |rhss| - 1)
    ensures forall j :: |rhss| <= j < |c'.prog| ==> c'.prog[j] == c.prog[j - |rhss| + 1]
  {
  }

  lemma OpenedAll<E>(c: Config<E>, c': Config<E>, rhss: seq<Value>)
    requires Opened(c, c', rhss) && PromisesOk(c)
    ensures c'.Config? && Accounted(c')
  {
    var n, next := |rhss|, c.world.next;
    forall q: nat | q < c'.world.next
      ensures q in c'.world.promises || q in Pending(c'.prog, |c'.prog|)
    {
      if q >= next {
        OpenedPromise(c, c', rhss, q - next);
      } else if q in Pending(c.prog, |c.prog|) {
        var i :| 0 <= i < |c.prog| && c.prog[i].p == q;
        OpenedPromise(c, c', rhss, i + n - 1);
      }
    }
  }

  lemma OpenedInstr<E>(c: Config<E>, c': Config<E>, rhss: seq<Value>, j: nat)
    requires Opened(c, c', rhss) && PromisesOk(c) && j < |c'.prog|
    requires RhssOk(rhss, c.world.promises.Keys, c.world.next)
    ensures InstrOk(c', j)
  {
    hide Opened;
    OpenedSizes(c, c', rhss);
    var n, next := |rhss|, c.world.next;
    OpenedPromise(c, c', rhss, j);
    if j >= n - 1 {
      assert InstrOk(c, j - n + 1);
    }
    if j < n {
      forall q | q in Fresh(next, next + j)
        ensures q in Pending(c'.prog, j)
      {
        OpenedPromise(c, c', rhss, q - next);
        assert c'.prog[q - next].p == q;
      }
    } else {
      forall q | q in Pending(c.prog, j - n + 1)
        ensures q in Pending(c'.prog, j)
      {
        var i :| 0 <= i < j - n + 1 && c.prog[i].p == q;
        OpenedPromise(c, c', rhss, i + n - 1);
        assert c'.prog[i + n - 1].p == q;
      }
    }
  }

  /** Along any run every promise is set at most once, and whatever is current is
      ready. */
  lemma {:induction false} RunKeepsPromises<E(!new)>(host: Host<E>, size: nat, c: Config<E>, len: nat, k: nat)
    requires PromisesOk(c) && HostOk(host) && RunTo(host, size, c, len, k).Some?
    ensures PromisesOk(RunTo(host, size, c, len, k).value)
    ensures c.Config? && RunTo(host, size, c, len, k).value.Config? ==>
              SetOnce(c.world.promises, RunTo(host, size, c, len, k).value.world.promises)
    decreases k
  {
    hide PromisesOk, HostOk, Step;
    if c.Config? && |c.prog| > len {
      StepKeepsPromises(host, size, c);
      RunKeepsPromises(host, size, Step(host, size, c), len, k - 1);
    }
  }

  // ----- What unpacking means -----

  ghost predicate AreRead(rs: seq<nat>, regs: seq<Value>, vs: seq<Value>) {
    |vs| == |rs| && forall i :: 0 <= i < |rs| ==> rs[i] < |regs| && vs[i] == regs[rs[i]]
  }

  /** The expression stands for `v` when it is read in these registers. */
  ghost predicate IsRead(e: Expr, regs: seq<Value>, v: Value) {
    match e
    case MakeClosure(code, rs) => v.Closure? && v.code == code && AreRead(rs, regs, v.fvs)
    case ApplyTo(fun, rs) => v.Applied? && fun < |regs| && v.fun == regs[fun] && AreRead(rs, regs, v.args)
    case Select(fieldno, reg) => reg < |regs| && v == Selected(fieldno, regs[reg])
    case Alias(reg) => reg < |regs| && v == regs[reg]
    case Undef => v == Undefined
  }

  lemma {:induction false} FetchIff(regs: seq<Value>, rs: seq<nat>, vs: seq<Value>)
    ensures Fetch(regs, rs) == Some(vs) <==> AreRead(rs, regs, vs)
    decreases |rs|
  {
    if rs != [] {
      if vs != [] {
        FetchIff(regs, rs[1..], vs[1..]);
        assert vs == [vs[0]] + vs[1..];
        if AreRead(rs, regs, vs) {
          assert AreRead(rs[1..], regs, vs[1..]);
        }
        if Fetch(regs, rs) == Some(vs) {
          var rest := Fetch(regs, rs[1..]).value;
          assert ([regs[rs[0]]] + rest)[1..] == rest;
          forall i | 0 <= i < |rs|
            ensures rs[i] < |regs| && vs[i] == regs[rs[i]]
          {
            if i > 0 {
              assert rs[1..][i - 1] == rs[i] && vs[1..][i - 1] == vs[i];
            }
          }
        }
      }
    }
  }

  lemma ReadIff(e: Expr, regs: seq<Value>, v: Value)
    ensures ValueOf(e, regs) == Some(v) <==> IsRead(e, regs, v)
  {
    hide Fetch, AreRead;
    match e
    case MakeClosure(_, rs) => if v.Closure? { FetchIff(regs, rs, v.fvs); }
    case ApplyTo(_, rs) => if v.Applied? { FetchIff(regs, rs, v.args); }
    case _ =>
  }

  /** How many statements there are among the first `j` operations. */
  function Binds(ops: seq<Op>, j: nat): (r: nat)
    requires j <= |ops|
    ensures r <= j
  {
    if j == 0 then 0 else Binds(ops, j - 1) + if ops[j - 1].Bind? then 1 else 0
  }

  lemma {:induction false} BindsGrow(ops: seq<Op>, i: nat, j: nat)
    requires i <= j <= |ops|
    ensures Binds(ops, i) <= Binds(ops, j)
    decreases j
  {
    if i < j {
      BindsGrow(ops, i, j - 1);
    }
  }

  /** Operation `j` has register `base + j`: what a `Let` computes, or, for the `k`th
      statement, promise `next + k`; and right-hand side `k` is what the statement
      computes. Each is computed from the registers before. */
  ghost predicate OpMeans(ops: seq<Op>, base: nat, next: nat, regs: seq<Value>, rhss: seq<Value>, j: nat)
    requires j < |ops| && base + j < |regs|
  {
    match ops[j]
    case Let(e) => IsRead(e, regs[..base + j], regs[base + j])
    case Bind(e) =>
      var k := Binds(ops, j);
      regs[base + j] == Promise(next + k) && k < |rhss| && IsRead(e, regs[..base + j], rhss[k])
    case Body(_) => false
  }

  /** The operations from `i` up to the body, which is operation `m`. */
  ghost predicate OpsMean(ops: seq<Op>, base: nat, next: nat, i: nat, m: nat, regs: seq<Value>, rhss: seq<Value>) {
    && i <= m < |ops| && ops[m].Body? && |regs| == base + m <= MAX_REGISTERS
    && |rhss| == Binds(ops, m) + 1 <= MAX_REGISTERS
    && (forall j :: i <= j < m ==> OpMeans(ops, base, next, regs, rhss, j))
    && IsRead(ops[m].e, regs, rhss[|rhss| - 1])
  }

  /** The block has these registers when its body, operation `m`, is reached: its globals,
      the values it takes from the closure, and one register for each operation. */
  ghost predicate BlockMeans(block: Block, fvs: seq<Value>, next: nat, m: nat, regs: seq<Value>, rhss: seq<Value>) {
    var base := |block.globals| + block.numfvs;
    && block.numfvs <= |fvs| && base <= MAX_REGISTERS
    && OpsMean(block.ops, base, next, 0, m, regs, rhss)
    && regs[..base] == block.globals + fvs[..block.numfvs]
  }

  lemma {:induction false} InterpretMeans(ops: seq<Op>, i: nat, regs: seq<Value>, rhss: seq<Value>, next: nat, base: nat)
    returns (m: nat, all: seq<Value>)
    requires i <= |ops| && |regs| == base + i <= MAX_REGISTERS && |rhss| == Binds(ops, i)
    requires Interpret(ops, i, regs, rhss, next).Some?
    ensures var r := Interpret(ops, i, regs, rhss, next).value;
            OpsMean(ops, base, next, i, m, all, r) && regs <= all && rhss <= r
    decreases |ops| - i
  {
    hide ValueOf, IsRead;
    var v := ValueOf(ops[i].e, regs);
    ReadIff(ops[i].e, regs, v.value);
    match ops[i] {
      case Let(_) =>
        m, all := InterpretMeans(ops, i + 1, regs + [v.value], rhss, next, base);
        assert all[..base + i] == regs;
      case Bind(_) =>
        m, all := InterpretMeans(ops, i + 1, regs + [Promise(next + |rhss|)], rhss + [v.value], next, base);
        assert all[..base + i] == regs;
      case Body(_) =>
        m, all := i, regs;
    }
  }

  lemma {:induction false} MeansInterpret(ops: seq<Op>, i: nat, m: nat, regs: seq<Value>, rhss: seq<Value>, next: nat, base: nat)
    requires OpsMean(ops, base, next, i, m, regs, rhss)
    ensures Binds(ops, i) < |rhss|
    ensures Interpret(ops, i, regs[..base + i], rhss[..Binds(ops, i)], next) == Some(rhss)
    decreases m - i
  {
    hide ValueOf, IsRead;
    BindsGrow(ops, i, m);
    var k := Binds(ops, i);
    if i == m {
      assert regs[..base + i] == regs && rhss == rhss[..k] + [rhss[k]];
      ReadIff(ops[i].e, regs, rhss[k]);
    } else {
      assert OpMeans(ops, base, next, regs, rhss, i);
      MeansInterpret(ops, i + 1, m, regs, rhss, next, base);
      assert regs[..base + (i + 1)] == regs[..base + i] + [regs[base + i]];
      if ops[i].Bind? {
        assert rhss[..k + 1] == rhss[..k] + [rhss[k]];
        ReadIff(ops[i].e, regs[..base + i], rhss[k]);
      } else {
        ReadIff(ops[i].e, regs[..base + i], regs[base + i]);
      }
    }
  }

  /** Unpacking a block succeeds with exactly the right-hand sides that it means: if it has
      a body before it runs out of registers, and reads no register that is not there. */
  lemma UnpackIff(block: Block, fvs: seq<Value>, next: nat, rhss: seq<Value>)
    ensures Unpack(block, fvs, next) == Some(rhss) <==> exists m: nat, regs: seq<Value> :: BlockMeans(block, fvs, next, m, regs, rhss)
  {
    hide Interpret, OpsMean;
    var base := |block.globals| + block.numfvs;
    if Unpack(block, fvs, next) == Some(rhss) {
      var m, regs := InterpretMeans(block.ops, 0, block.globals + fvs[..block.numfvs], [], next, base);
      assert BlockMeans(block, fvs, next, m, regs, rhss);
    }
    if m: nat, regs: seq<Value> :| BlockMeans(block, fvs, next, m, regs, rhss) {
      MeansInterpret(block.ops, 0, m, regs, rhss, next, base);
      assert rhss[..Binds(block.ops, 0)] == [];
    }
  }

  /** What is read in the register of a statement is the promise that the statement, once
      the block is laid out, sets. */
  lemma RegisterIsItsPromise(block: Block, fvs: seq<Value>, next: nat, m: nat, regs: seq<Value>, rhss: seq<Value>, j: nat, p: nat)
    requires BlockMeans(block, fvs, next, m, regs, rhss) && j < m && block.ops[j].Bind?
    ensures var k := Binds(block.ops, j);
            && k < |rhss| - 1
            && regs[|block.globals| + block.numfvs + j] == Promise(Laid(rhss, next, p)[k].p)
            && Laid(rhss, next, p)[k].v == rhss[k]
            && IsRead(block.ops[j].e, regs[..|block.globals| + block.numfvs + j], rhss[k])
  {
    hide IsRead, Laid;
    var k := Binds(block.ops, j);
    assert OpMeans(block.ops, |block.globals| + block.numfvs, next, regs, rhss, j);
    BindsGrow(block.ops, j + 1, m);
    LaidAt(rhss, next, p, k);
  }

  // ----- The thread -----

  datatype ThreadState = Active | DoneState | Abend

  class Thread<E> {
    const instrs: array<Instr>
    var ip: nat
    var promises: map<nat, Value>
    var next: nat
    var ext: E
    var state: ThreadState

    ghost predicate Valid()
      reads this, instrs
    {
      ip <= instrs.Length && (state == Active ==> ip < instrs.Length)
    }

    ghost function Abs(): Config<E>
      requires Valid()
      reads this, instrs
    {
      if state == Abend then Abended else Config(instrs[ip..], World(promises, next, ext))
    }

    /** `api_alloc_code_segment`: a program fills the last place of a new segment. */
    constructor (instrs: array<Instr>, entry: Value, ext: E)
      requires instrs.Length > 0
      modifies instrs
      ensures Valid() && state == Active && this.instrs == instrs
      ensures Abs() == Config([Instr(entry, 0)], World(map[], 1, ext))
      ensures Mentions(entry) == {} ==> PromisesOk(Abs())
    {
      this.instrs, ip, promises, next, this.ext, state := instrs, instrs.Length - 1, map[], 1, ext, Active;
      new;
      instrs[ip] := Instr(entry, 0);
      assert instrs[ip..] == [Instr(entry, 0)];
      assert Pending(Abs().prog, 1) == {0} by { assert Abs().prog[0].p == 0; }
    }

    /** The first half of `api_unpack_block_statement`: walk the operations of the block,
        collecting right-hand sides. */
    method Collect(block: Block, fvs: seq<Value>) returns (r: Option<seq<Value>>)
      ensures r == Unpack(block, fvs, next)
    {
      hide ValueOf;
      if block.numfvs > |fvs| || |block.globals| + block.numfvs > MAX_REGISTERS {
        return None;
      }
      var regs, rhss, i := block.globals + fvs[..block.numfvs], [], 0;
      while i < |block.ops|
        invariant i <= |block.ops|
        invariant Unpack(block, fvs, next) == Interpret(block.ops, i, regs, rhss, next)
      {
        var op := block.ops[i];
        var v := ValueOf(op.e, regs);
        if v.None? || (op.Let? && |regs| >= MAX_REGISTERS) || (op.Body? && |rhss| >= MAX_REGISTERS)
           || (op.Bind? && (|rhss| >= MAX_REGISTERS || |regs| >= MAX_REGISTERS)) {
          return None;
        }
        match op {
          case Let(_) => regs := regs + [v.value];
          case Bind(_) =>
            var lhs := Promise(next + |rhss|);
            regs, rhss := regs + [lhs], rhss + [v.value];
          case Body(_) => return Some(rhss + [v.value]);
        }
        i := i + 1;
      }
      r := None;
    }

    /** `api_unpack_block_statement`: the body takes the place of the block and keeps its
        promise; the statements go before it, last first. */
    method UnpackBlock(block: Block, fvs: seq<Value>)
      requires Valid() && state == Active
      modifies this, instrs
      ensures Valid() && state != DoneState && promises == old(promises) && ext == old(ext)
      ensures var rhss, c := Unpack(block, fvs, old(next)), old(Abs());
              Abs() == if rhss.None? || |c.prog| - 1 + |rhss.value| > instrs.Length then Abended
                       else Config(Laid(rhss.value, c.world.next, c.prog[0].p) + c.prog[1..], c.world.(next := c.world.next + |rhss.value| - 1))
    {
      hide Unpack, Laid;
      var rhss := Collect(block, fvs);
      if rhss.None? {
        state := Abend;
        return;
      }
      var first := next;
      next := next + |rhss.value| - 1;
      Store(rhss.value, first);
    }

    method Prepend(instr: Instr)
      requires 0 < ip <= instrs.Length
      modifies this`ip, instrs
      ensures ip == old(ip) - 1 && instrs[ip..] == [instr] + old(instrs[ip..])
    {
      ip := ip - 1;
      instrs[ip] := instr;
    }

    /** Its second half. */
    method Store(rhss: seq<Value>, first: nat)
      requires Valid() && state == Active && rhss != []
      modifies this`ip, this`state, instrs
      ensures Valid() && state != DoneState
      ensures var prog := old(instrs[ip..]);
              if |prog| - 1 + |rhss| > instrs.Length then state == Abend
              else state == Active && instrs[ip..] == Laid(rhss, first, prog[0].p) + prog[1..]
    {
      hide Laid;
      ghost var prog, ip0 := instrs[ip..], ip;
      var n := |rhss| - 1;
      instrs[ip] := instrs[ip].(v := rhss[n]);
      LaidLast(rhss, first, prog[0].p);
      assert instrs[ip..] == Laid(rhss[n..], first + n, prog[0].p) + prog[1..];
      while n > 0
        invariant n <= |rhss| - 1 && ip + |rhss| - 1 - n == ip0 && state == Active
        invariant instrs[ip..] == Laid(rhss[n..], first + n, prog[0].p) + prog[1..]
      {
        n := n - 1;
        if ip == 0 {
          state := Abend;
          return;
        }
        Prepend(Instr(rhss[n], first + n));
        LaidNext(rhss, n, first, prog[0].p);
      }
      assert rhss[0..] == rhss;
    }

    /** One round of the thread: evaluate and execute the current instruction. */
    method Round(host: Host<E>)
      requires Valid() && state == Active
      modifies this, instrs
      ensures Valid() && Abs() == Step(host, instrs.Length, old(Abs()))
      ensures state == DoneState <==> Abs().Config? && Abs().prog == []
      ensures match host(old(instrs[ip].v), old(promises), old(ext))
              case Delivers(res, ext') =>
                && promises == old(promises)[old(instrs[ip].p) := res] && ext == ext'
                && ip == old(ip) + 1 && instrs[..] == old(instrs[..]) && next == old(next)
              case Blocks(ext') =>
                && promises == old(promises) && ext == ext'
                && ip == old(ip) && instrs[..] == old(instrs[..]) && state == Active && next == old(next)
              case Abends => state == Abend
              case Opens(_, _) => promises == old(promises) && ext == old(ext)
    {
      hide Unpack;
      match host(instrs[ip].v, promises, ext) {
        case Abends => state := Abend;
        case Opens(block, fvs) => UnpackBlock(block, fvs);
        case Blocks(ext') => ext := ext';
        case Delivers(res, ext') =>
          promises := promises[instrs[ip].p := res];
          ext := ext';
          ip := ip + 1;
          if ip >= instrs.Length {
            state := DoneState;
          }
      }
    }
  }
}
