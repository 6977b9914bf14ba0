/** Application of functions to argument lists: `gsnapplyv` of `clientexpr.c`, which
    builds closures and application thunks, and `ace_return_to_app` of `ace.c`, which
    returns a function into the application frame on top of a thread's stack. */
module Apply {

  datatype Tag = Expr | ImpProg | OtherTag

  /** A code block: how many free variables and arguments it takes, and its global
      values. */
  datatype Code = Code(tag: Tag, numfvs: nat, numargs: nat, globals: seq<nat>)

  /** Heap items by address. An address that is not in the heap is that of some other
      value: a constructor, a record, a number. */
  datatype Item = Closure(code: Code, fvs: seq<nat>) | Application(fun: nat, args: seq<nat>) | OtherItem

  type Heap = map<nat, Item>

  const MAX_REGISTERS := 0x100

  // ----- Meaning -----

  /** A reading of values: application, the function a code block denotes for given
      free variables, and what every address stands for. */
  datatype Reading<!D> = Reading(ap: (D, D) -> D, den: (Code, seq<D>) -> D, rho: nat -> D)

  ghost function Values<D>(r: Reading<D>, vs: seq<nat>): (ds: seq<D>)
    ensures |ds| == |vs|
  {
    if vs == [] then [] else [r.rho(vs[0])] + Values(r, vs[1..])
  }

  /** Left-nested application. */
  ghost function Fold<D>(r: Reading<D>, d: D, vs: seq<nat>): D {
    if vs == [] then d else Fold(r, r.ap(d, r.rho(vs[0])), vs[1..])
  }

  /** A closure stands for the function its code denotes for the first values, applied
      to the others; an application for its function applied to its arguments. */
  ghost predicate ReadsItem<D>(r: Reading<D>, a: nat, item: Item) {
    match item
    case Closure(code, fvs) =>
      code.numfvs <= |fvs| ==> r.rho(a) == Fold(r, r.den(code, Values(r, fvs[..code.numfvs])), fvs[code.numfvs..])
    case Application(fun, args) => r.rho(a) == Fold(r, r.rho(fun), args)
    case OtherItem => true
  }

  ghost predicate Reads<D>(r: Reading<D>, heap: Heap) {
    forall a :: a in heap ==> ReadsItem(r, a, heap[a])
  }

  lemma {:induction false} FoldAppend<D>(r: Reading<D>, d: D, vs: seq<nat>, ws: seq<nat>)
    ensures Fold(r, d, vs + ws) == Fold(r, Fold(r, d, vs), ws)
    decreases |vs|
  {
    if vs == [] {
      assert vs + ws == ws;
    } else {
      assert (vs + ws)[1..] == vs[1..] + ws;
      FoldAppend(r, r.ap(d, r.rho(vs[0])), vs[1..], ws);
    }
  }

  /** A closure with more values stands for the closure applied to them. */
  lemma ClosureApplied<D>(r: Reading<D>, heap: Heap, a: nat, b: nat, more: seq<nat>)
    requires Reads(r, heap) && a in heap && b in heap && heap[a].Closure? && heap[a].code.numfvs <= |heap[a].fvs|
    requires heap[b] == Closure(heap[a].code, heap[a].fvs + more)
    ensures r.rho(b) == Fold(r, r.rho(a), more)
  {
    var code, fvs := heap[a].code, heap[a].fvs;
    var n := code.numfvs;
    assert ReadsItem(r, a, heap[a]) && ReadsItem(r, b, heap[b]);
    assert (fvs + more)[..n] == fvs[..n] && (fvs + more)[n..] == fvs[n..] + more;
    FoldAppend(r, r.den(code, Values(r, fvs[..n])), fvs[n..], more);
  }

  // ----- Closures -----

  function Min(a: int, b: int): int { if a < b then a else b }

  /** The arguments the code needs beyond those its closure holds. */
  function Needed(code: Code, fvs: seq<nat>): int {
    code.numargs - (|fvs| - code.numfvs)
  }

  /** An expression closure never holds more than its code takes. */
  predicate NotOverFull(item: Item) {
    item.Closure? && item.code.tag == Expr ==> |item.fvs| <= item.code.numfvs + item.code.numargs
  }

  /** Every closure holds the free variables of its code. */
  predicate HasFreeVariables(item: Item) {
    item.Closure? ==> item.code.numfvs <= |item.fvs|
  }

  ghost predicate ItemsOk(heap: Heap) {
    forall a :: a in heap ==> NotOverFull(heap[a]) && HasFreeVariables(heap[a])
  }

  ghost predicate Grown(heap: Heap, heap': Heap) {
    forall a :: a in heap ==> a in heap' && heap'[a] == heap[a]
  }

  lemma StillReads<D>(r: Reading<D>, heap: Heap, heap': Heap)
    requires Reads(r, heap') && Grown(heap, heap')
    ensures Reads(r, heap)
  {
    forall a | a in heap
      ensures ReadsItem(r, a, heap[a])
    {
      assert heap'[a] == heap[a];
    }
  }

  /** The address occurs nowhere in the item, as an address that is just being given out
      does not. */
  predicate Unmentioned(item: Item, a: nat) {
    match item
    case Closure(_, fvs) => a !in fvs
    case Application(fun, args) => a != fun && a !in args
    case OtherItem => true
  }

  ghost predicate IsNew(heap: Heap, a: nat) {
    a !in heap && forall b :: b in heap ==> Unmentioned(heap[b], a)
  }

  /** The readings agree on everything but what `news` stand for. */
  ghost predicate AgreeBut<D>(r: Reading<D>, r': Reading<D>, news: set<nat>) {
    r'.ap == r.ap && r'.den == r.den && forall a :: a !in news ==> r'.rho(a) == r.rho(a)
  }

  lemma {:induction false} ValuesAgree<D>(r: Reading<D>, r': Reading<D>, news: set<nat>, vs: seq<nat>)
    requires AgreeBut(r, r', news) && forall v :: v in vs ==> v !in news
    ensures Values(r', vs) == Values(r, vs)
    decreases |vs|
  {
    if vs != [] {
      assert vs[0] in vs && forall v :: v in vs[1..] ==> v in vs;
      ValuesAgree(r, r', news, vs[1..]);
    }
  }

  lemma {:induction false} FoldAgrees<D>(r: Reading<D>, r': Reading<D>, news: set<nat>, d: D, vs: seq<nat>)
    requires AgreeBut(r, r', news) && forall v :: v in vs ==> v !in news
    ensures Fold(r', d, vs) == Fold(r, d, vs)
    decreases |vs|
  {
    if vs != [] {
      assert vs[0] in vs && forall v :: v in vs[1..] ==> v in vs;
      FoldAgrees(r, r', news, r.ap(d, r.rho(vs[0])), vs[1..]);
    }
  }

  lemma ItemReadsOn<D>(r: Reading<D>, r': Reading<D>, a: nat, b: nat, item: Item)
    requires AgreeBut(r, r', {a}) && b != a && Unmentioned(item, a) && ReadsItem(r, b, item)
    ensures ReadsItem(r', b, item)
  {
    match item
    case Closure(code, fvs) =>
      if code.numfvs <= |fvs| {
        ValuesAgree(r, r', {a}, fvs[..code.numfvs]);
        FoldAgrees(r, r', {a}, r.den(code, Values(r, fvs[..code.numfvs])), fvs[code.numfvs..]);
      }
    case Application(fun, args) => FoldAgrees(r, r', {a}, r.rho(fun), args);
    case OtherItem =>
  }

  /** What an item at a new address has to stand for. */
  ghost function ItemMeans<D>(r: Reading<D>, a: nat, item: Item): D {
    match item
    case Closure(code, fvs) =>
      if code.numfvs <= |fvs| then Fold(r, r.den(code, Values(r, fvs[..code.numfvs])), fvs[code.numfvs..]) else r.rho(a)
    case Application(fun, args) => Fold(r, r.rho(fun), args)
    case OtherItem => r.rho(a)
  }

  /** A new item can be read without changing what anything else stands for. */
  lemma ReadingExtends<D>(r: Reading<D>, heap: Heap, a: nat, item: Item) returns (r': Reading<D>)
    requires Reads(r, heap) && IsNew(heap, a) && Unmentioned(item, a)
    ensures Reads(r', heap[a := item]) && AgreeBut(r, r', {a})
  {
    var d := ItemMeans(r, a, item);
    r' := Reading(r.ap, r.den, b => if b == a then d else r.rho(b));
    forall b | b in heap
      ensures ReadsItem(r', b, heap[b])
    {
      assert ReadsItem(r, b, heap[b]);
      ItemReadsOn(r, r', a, b, heap[b]);
    }
    NewItemReads(r, r', a, item);
  }

  lemma NewItemReads<D>(r: Reading<D>, r': Reading<D>, a: nat, item: Item)
    requires AgreeBut(r, r', {a}) && r'.rho(a) == ItemMeans(r, a, item) && Unmentioned(item, a)
    ensures ReadsItem(r', a, item)
  {
    match item
    case Closure(code, fvs) =>
      if code.numfvs <= |fvs| {
        ValuesAgree(r, r', {a}, fvs[..code.numfvs]);
        FoldAgrees(r, r', {a}, r.den(code, Values(r, fvs[..code.numfvs])), fvs[code.numfvs..]);
      }
    case Application(fun, args) => FoldAgrees(r, r', {a}, r.rho(fun), args);
    case OtherItem =>
  }

  // ----- gsnapplyv -----

  /** How many of `n` arguments go into a new closure. */
  function Supplied(heap: Heap, fun: nat, n: nat): (r: nat)
    ensures r <= n
  {
    if fun in heap && heap[fun].Closure? && 0 < Min(Needed(heap[fun].code, heap[fun].fvs), n)
    then Min(Needed(heap[fun].code, heap[fun].fvs), n) else 0
  }

  /** The value `res` is `fun` applied to `args`: a closure takes as many arguments as
      its code still needs, and an application thunk takes the rest. */
  ghost predicate IsApplied(heap: Heap, fun: nat, args: seq<nat>, heap': Heap, res: nat) {
    exists mid: nat :: AppliedVia(heap, fun, args, heap', res, mid)
  }

  /** `mid` is the function with the arguments it can take. */
  ghost predicate AppliedVia(heap: Heap, fun: nat, args: seq<nat>, heap': Heap, res: nat, mid: nat) {
    var n := Supplied(heap, fun, |args|);
    && (n == 0 ==> mid == fun)
    && (n > 0 ==> mid !in heap && mid in heap' && fun in heap && heap[fun].Closure?
                  && heap'[mid] == Closure(heap[fun].code, heap[fun].fvs + args[..n]))
    && (n == |args| ==> res == mid)
    && (n < |args| ==> res !in heap && res in heap' && heap'[res] == Application(mid, args[n..]) && (n > 0 ==> res != mid))
    && heap'.Keys == heap.Keys + (if n > 0 then {mid} else {}) + (if n < |args| then {res} else {})
  }

  /** The result stands for the function applied to the arguments, one after the
      other: under partial, exact and over-application. */
  lemma AppliedMeans<D>(r: Reading<D>, heap: Heap, fun: nat, args: seq<nat>, heap': Heap, res: nat)
    requires IsApplied(heap, fun, args, heap', res) && Grown(heap, heap') && Reads(r, heap') && ItemsOk(heap)
    ensures r.rho(res) == Fold(r, r.rho(fun), args)
  {
    var n := Supplied(heap, fun, |args|);
    var mid: nat :| AppliedVia(heap, fun, args, heap', res, mid);
    if n > 0 {
      ClosureApplied(r, heap', fun, mid, args[..n]);
    }
    assert args[..n] + args[n..] == args;
    FoldAppend(r, r.rho(fun), args[..n], args[n..]);
    if n < |args| {
      assert ReadsItem(r, res, heap'[res]);
    } else {
      assert args[n..] == [];
    }
  }

  /** What is built: a closure takes arguments up to those its code needs, and is then
      partial or exactly saturated; arguments that are left over, or all of them if there is
      no closure that needs any, are held by an application. */
  lemma AppliedShape(heap: Heap, fun: nat, args: seq<nat>, heap': Heap, res: nat)
    requires IsApplied(heap, fun, args, heap', res)
    ensures var needed := if fun in heap && heap[fun].Closure? then Needed(heap[fun].code, heap[fun].fvs) else 0;
            if args == [] then res == fun && heap'.Keys == heap.Keys
            else if needed <= 0 then res !in heap && res in heap' && heap'[res] == Application(fun, args)
            else if |args| <= needed then res !in heap && res in heap' && heap'[res] == Closure(heap[fun].code, heap[fun].fvs + args)
            else
              && res !in heap && res in heap' && heap'[res].Application? && heap'[res].args == args[needed..]
              && heap'[res].fun !in heap && heap'[res].fun in heap'
              && heap'[heap'[res].fun] == Closure(heap[fun].code, heap[fun].fvs + args[..needed])
  {
    var mid: nat :| AppliedVia(heap, fun, args, heap', res, mid);
    var n := Supplied(heap, fun, |args|);
    if n == |args| {
      assert args[..n] == args;
    }
    if n == 0 {
      assert args[0..] == args;
    }
  }

  /** Addresses that are new to the heap, the function and the arguments. */
  ghost predicate AllNew(heap: Heap, fun: nat, args: seq<nat>, news: set<nat>) {
    forall a :: a in news ==> IsNew(heap, a) && a != fun && a !in args
  }

  /** Applying a function changes no meaning: every reading of the heap before is, but for
      the new items, one of the heap after, and in it the result stands for the function
      applied to the arguments as they were read before. */
  lemma AppliedConservatively<D>(r: Reading<D>, heap: Heap, fun: nat, args: seq<nat>, heap': Heap, res: nat) returns (r': Reading<D>)
    requires IsApplied(heap, fun, args, heap', res) && Grown(heap, heap') && Reads(r, heap) && ItemsOk(heap)
    requires AllNew(heap, fun, args, heap'.Keys - heap.Keys)
    ensures Reads(r', heap') && AgreeBut(r, r', heap'.Keys - heap.Keys)
    ensures r'.rho(res) == Fold(r, r.rho(fun), args)
  {
    hide Reads, ReadsItem, Supplied, IsNew, AgreeBut, ItemsOk;
    var mid: nat :| AppliedVia(heap, fun, args, heap', res, mid);
    r' := BothRead(r, heap, fun, args, heap', res, mid);
    AppliedMeans(r', heap, fun, args, heap', res);
    FoldAgrees(r, r', heap'.Keys - heap.Keys, r'.rho(fun), args);
    OldAgrees(r, r', heap'.Keys - heap.Keys, fun);
  }

  /** Where everything in use lies below `next`, addresses from there on are new. */
  lemma FromNextIsNew(heap: Heap, fun: nat, args: seq<nat>, next: nat, news: set<nat>)
    requires fun < next && (forall v :: v in args ==> v < next) && forall a :: a in heap ==> a < next && AllBelow(heap[a], next)
    requires forall a :: a in news ==> a >= next
    ensures AllNew(heap, fun, args, news)
  {
    forall a, b | a in news && b in heap
      ensures Unmentioned(heap[b], a)
    {
      assert AllBelow(heap[b], next);
    }
  }

  predicate AllBelow(item: Item, next: nat) {
    match item
    case Closure(_, fvs) => forall v :: v in fvs ==> v < next
    case Application(fun, args) => fun < next && forall v :: v in args ==> v < next
    case OtherItem => true
  }

  lemma OldAgrees<D>(r: Reading<D>, r': Reading<D>, news: set<nat>, a: nat)
    requires AgreeBut(r, r', news) && a !in news
    ensures r'.rho(a) == r.rho(a)
  {
  }

  lemma AgreeTwice<D>(r: Reading<D>, r1: Reading<D>, r2: Reading<D>, a: set<nat>, b: set<nat>, news: set<nat>)
    requires AgreeBut(r, r1, a) && AgreeBut(r1, r2, b) && a + b <= news
    ensures AgreeBut(r, r2, news)
  {
  }

  /** The new closure is read first, then the application. */
  lemma BothRead<D>(r: Reading<D>, heap: Heap, fun: nat, args: seq<nat>, heap': Heap, res: nat, mid: nat) returns (r': Reading<D>)
    requires AppliedVia(heap, fun, args, heap', res, mid) && Grown(heap, heap') && Reads(r, heap)
    requires AllNew(heap, fun, args, heap'.Keys - heap.Keys)
    ensures Reads(r', heap') && AgreeBut(r, r', heap'.Keys - heap.Keys)
  {
    hide Reads, ReadsItem, Supplied, IsNew, AgreeBut;
    var n := Supplied(heap, fun, |args|);
    var news := heap'.Keys - heap.Keys;
    var r1, heap1 := r, heap;
    AgreeSelf(r, {});
    if n > 0 {
      NewItemApart(heap, fun, args, heap'[mid], mid, n);
      r1 := ReadingExtends(r, heap, mid, heap'[mid]);
      heap1 := heap[mid := heap'[mid]];
    }
    r' := r1;
    if n < |args| {
      StillNew(heap, fun, args, heap1, mid, res, n);
      r' := ReadingExtends(r1, heap1, res, heap'[res]);
      heap1 := heap1[res := heap'[res]];
    } else {
      AgreeSelf(r1, {});
    }
    assert heap1 == heap';
    AgreeTwice(r, r1, r', if n > 0 then {mid} else {}, if n < |args| then {res} else {}, news);
  }

  lemma AgreeSelf<D>(r: Reading<D>, news: set<nat>)
    ensures AgreeBut(r, r, news)
  {
  }

  lemma NewItemApart(heap: Heap, fun: nat, args: seq<nat>, item: Item, a: nat, n: nat)
    requires n <= |args| && fun in heap && heap[fun].Closure? && item == Closure(heap[fun].code, heap[fun].fvs + args[..n])
    requires IsNew(heap, a) && a !in args
    ensures Unmentioned(item, a)
  {
    assert Unmentioned(heap[fun], a);
  }

  lemma StillNew(heap: Heap, fun: nat, args: seq<nat>, heap1: Heap, mid: nat, res: nat, n: nat)
    requires n <= |args| && IsNew(heap, res) && res != fun && res !in args
    requires if n > 0 then mid != res && fun in heap && heap[fun].Closure? && heap1 == heap[mid := Closure(heap[fun].code, heap[fun].fvs + args[..n])]
             else mid == fun && heap1 == heap
    ensures IsNew(heap1, res) && Unmentioned(Application(mid, args[n..]), res)
  {
    if n > 0 {
      assert Unmentioned(heap[fun], res);
    }
  }

  class Memory {
    var heap: Heap
    var next: nat

    ghost predicate Valid()
      reads this
    {
      (forall a :: a in heap ==> a < next) && ItemsOk(heap)
    }

    constructor (heap: Heap, next: nat)
      requires (forall a :: a in heap ==> a < next) && ItemsOk(heap)
      ensures Valid() && this.heap == heap && this.next == next
    {
      this.heap, this.next := heap, next;
    }

    /** A freshly reserved item. */
    method Reserve(item: Item) returns (a: nat)
      requires Valid() && NotOverFull(item) && HasFreeVariables(item)
      modifies this
      ensures Valid() && a !in old(heap) && heap == old(heap)[a := item] && a >= old(next)
    {
      a := next;
      heap := heap[a := item];
      next := next + 1;
    }

    /** The first values of `vs` and then those of `ws`, copied one by one. */
    method Copy(vs: seq<nat>, ws: seq<nat>, n: nat) returns (fvs: seq<nat>)
      requires n <= |ws|
      ensures fvs == vs + ws[..n]
    {
      fvs := [];
      for i := 0 to |vs|
        invariant fvs == vs[..i]
      {
        fvs := fvs + [vs[i]];
      }
      for i := 0 to n
        invariant fvs == vs + ws[..i]
      {
        fvs := fvs + [ws[i]];
      }
    }

    /** `gsnapplyv` */
    method NApply(fun0: nat, args0: seq<nat>) returns (res: nat)
      requires Valid()
      modifies this
      ensures Valid() && Grown(old(heap), heap)
      ensures IsApplied(old(heap), fun0, args0, heap, res)
      ensures forall a :: a in heap.Keys - old(heap).Keys ==> a >= old(next)
    {
      var fun, n, args := fun0, |args0|, args0;
      if n < 1 {
        assert AppliedVia(heap, fun0, args0, heap, fun, fun);
        return fun;
      }
      if fun in heap && heap[fun].Closure? {
        var code, fvs := heap[fun].code, heap[fun].fvs;
        var neededArgs := code.numargs - (|fvs| - code.numfvs);
        var suppliedArgs := Min(neededArgs, n);
        if suppliedArgs > 0 {
          var newfvs := Copy(fvs, args, suppliedArgs);
          fun := Reserve(Closure(code, newfvs));
          n := n - suppliedArgs;
          args := args[suppliedArgs..];
        }
      }
      if n < 1 {
        assert AppliedVia(old(heap), fun0, args0, heap, fun, fun);
        return fun;
      }
      var copied := Copy([], args, n);
      assert copied == args0[Supplied(old(heap), fun0, |args0|)..];
      res := Reserve(Application(fun, copied));
      assert AppliedVia(old(heap), fun0, args0, heap, res, fun);
    }
  }

  // ----- ace_return_to_app -----

  datatype Word = Node(isApp: bool) | PosFile(pos: nat) | PosLine(pos: nat) | Count(n: nat) | Val(v: nat) | OtherWord

  // words of struct gsbc_cont_app before the arguments
  const HEADER := 4

  /** An application frame at `p`. */
  ghost predicate AppFrame(w: seq<Word>, p: nat, pos: nat, args: seq<nat>) {
    && p + HEADER + |args| <= |w|
    && w[p] == Node(true) && w[p + 1] == PosFile(pos) && w[p + 2] == PosLine(pos) && w[p + 3] == Count(|args|)
    && forall k :: 0 <= k < |args| ==> w[p + HEADER + k] == Val(args[k])
  }

  /** What a thread is about to do: return a value, evaluate one, or run a code block
      whose registers hold free variables and arguments. */
  datatype Focus = Returned(v: nat) | Evaluating(v: nat) | Entered(code: Code, vals: seq<nat>)

  /** What the focus stands for. */
  ghost function Means<D>(r: Reading<D>, focus: Focus): D {
    match focus
    case Returned(v) => r.rho(v)
    case Evaluating(v) => r.rho(v)
    case Entered(code, vals) =>
      if code.numfvs <= |vals| then Fold(r, r.den(code, Values(r, vals[..code.numfvs])), vals[code.numfvs..]) else r.den(code, [])
  }

  /** Returning closure `fn` into a frame with `args` leads to `focus`, with the
      arguments `left` still on the stack: too few arguments make a closure, and so do
      all those of an imperative program; an expression is entered with as many as it
      needs. */
  ghost predicate Returns(heap: Heap, fn: nat, args: seq<nat>, heap': Heap, focus: Focus, left: seq<nat>) {
    && fn in heap && heap[fn].Closure?
    && var Closure(code, fvs) := heap[fn];
       var needed := Needed(code, fvs);
       if |args| < needed || code.tag == ImpProg then
         && focus.Returned? && left == []
         && focus.v !in heap && heap' == heap[focus.v := Closure(code, fvs + args)]
       else
         && code.tag == Expr && 0 <= needed <= |args| && heap' == heap
         && focus == Entered(code, fvs + args[..needed]) && left == args[needed..]
  }

  /** Returning a function into a frame keeps what function and frame stand for. */
  lemma ReturnMeans<D>(r: Reading<D>, heap: Heap, fn: nat, args: seq<nat>, heap': Heap, focus: Focus, left: seq<nat>)
    requires Returns(heap, fn, args, heap', focus, left) && Reads(r, heap') && ItemsOk(heap)
    ensures Fold(r, Means(r, focus), left) == Fold(r, r.rho(fn), args)
  {
    var Closure(code, fvs) := heap[fn];
    assert NotOverFull(heap[fn]) && HasFreeVariables(heap[fn]);
    hide ItemsOk;
    if focus.Returned? {
      ClosureApplied(r, heap', fn, focus.v, args);
    } else {
      var n, needed := code.numfvs, Needed(code, fvs);
      assert ReadsItem(r, fn, heap'[fn]);
      hide Reads;
      var vals := fvs + args[..needed];
      assert vals[..n] == fvs[..n] && vals[n..] == fvs[n..] + args[..needed];
      FoldAppend(r, r.den(code, Values(r, fvs[..n])), fvs[n..], args[..needed]);
      assert args == args[..needed] + args[needed..];
      FoldAppend(r, r.rho(fn), args[..needed], args[needed..]);
    }
  }

  datatype ThreadState = Returning | AtCode | Finished

  class Thread {
    const mem: array<Word>
    const memory: Memory
    var top: nat
    var state: ThreadState
    var regs: seq<nat>

    constructor (mem: array<Word>, memory: Memory, top: nat)
      ensures this.mem == mem && this.memory == memory && this.top == top && state == Returning && regs == []
    {
      this.mem, this.memory, this.top, state, regs := mem, memory, top, Returning, [];
    }

    /** The new frame overlaps the old one and is filled in from its highest word to
        its lowest. */
    method ReHead(i: nat, ghost pos: nat, ghost args: seq<nat>)
      requires AppFrame(mem[..], top, pos, args) && i <= |args|
      modifies mem
      ensures AppFrame(mem[..], top + i, pos, args[i..])
      ensures mem[..][top + HEADER + |args|..] == old(mem[..])[top + HEADER + |args|..]
    {
      var newapp := top + i;
      mem[newapp + 3] := Count(mem[top + 3].n - i);
      mem[newapp + 1], mem[newapp + 2] := mem[top + 1], mem[top + 2];
      mem[newapp] := Node(true);
      ghost var w := mem[..];
      forall k | 0 <= k < |args[i..]|
        ensures w[newapp + HEADER + k] == Val(args[i..][k])
      {
        assert old(mem[..])[top + HEADER + (i + k)] == Val(args[i + k]);
      }
    }

    /** Reads the arguments of the frame on top. */
    method Arguments(n: nat, ghost pos: nat, ghost args: seq<nat>) returns (vs: seq<nat>)
      requires AppFrame(mem[..], top, pos, args) && n <= |args|
      ensures vs == args[..n]
    {
      vs := [];
      for i := 0 to n
        invariant vs == args[..i]
      {
        assert mem[..][top + HEADER + i] == Val(args[i]);
        vs := vs + [mem[top + HEADER + i].v];
      }
    }

    /** `ace_return` after the frame on top has been popped. */
    method PopAndReturn(v: nat, bot: nat)
      requires 0 < bot <= mem.Length
      modifies this`top, this`state, mem
      ensures state == Returning && top == bot && mem[..] == old(mem[..])[bot - 1 := Val(v)]
    {
      top := bot;
      state := Returning;
      mem[bot - 1] := Val(v);
    }

    /** `ace_return_to_app`. The value returned lies just above the frame. */
    method ReturnToApp(ghost pos: nat, ghost args: seq<nat>) returns (ghost focus: Focus, ghost left: seq<nat>)
      requires memory.Valid() && state == Returning
      requires AppFrame(mem[..], top, pos, args) && 0 < top && mem[top - 1].Val?
      modifies this, mem, memory
      ensures memory.Valid()
      ensures var fn, heap, bot := old(mem[top - 1].v), old(memory.heap), old(top) + HEADER + |args|;
              && (state == Finished <==> Fails(heap, fn, args)) && (state == Finished ==> memory.heap == heap)
              && (state != Finished ==>
                    && Returns(heap, fn, args, memory.heap, focus, left)
                    && mem[..][bot..] == old(mem[..])[bot..]
                    && (if left == [] then top == bot else AppFrame(mem[..], top, pos, left) && top + HEADER + |left| == bot))
              && (state == Returning ==> focus.Returned? && mem[..][top - 1] == Val(focus.v))
              && (state == AtCode ==> focus.Entered? && regs == focus.code.globals + focus.vals)
    {
      hide AppFrame;
      ghost var w0 := mem[..];
      FrameFits(w0, top, pos, args);
      var fn, numargs, bot := mem[top - 1].v, mem[top + 3].n, top + HEADER + mem[top + 3].n;
      focus, left := Returned(fn), [];
      if fn !in memory.heap || !memory.heap[fn].Closure? {
        state := Finished;
        return;
      }
      var code, fvs := memory.heap[fn].code, memory.heap[fn].fvs;
      var needed := code.numargs - (|fvs| - code.numfvs);
      if numargs < needed || code.tag == ImpProg {
        var vs := Arguments(numargs, pos, args);
        var all := memory.Copy(fvs, vs, numargs);
        assert all == fvs + args;
        var res := memory.Reserve(Closure(code, all));
        PopAndReturn(res, bot);
        focus := Returned(res);
        return;
      }
      if code.tag != Expr || |code.globals| + |fvs| + needed > MAX_REGISTERS {
        state := Finished;
        return;
      }
      var vs := Arguments(needed, pos, args);
      regs := code.globals + fvs + vs;
      focus, left := Entered(code, fvs + vs), args[needed..];
      assert regs == code.globals + (fvs + vs);
      if needed < numargs {
        ReHead(needed, pos, args);
        top := top + needed;
      } else {
        top := bot;
      }
      state := AtCode;
    }
  }

  lemma FrameFits(w: seq<Word>, p: nat, pos: nat, args: seq<nat>)
    requires AppFrame(w, p, pos, args)
    ensures p + HEADER + |args| <= |w| && w[p + 3] == Count(|args|)
  {
  }

  /** The thread is shut down: the value is no closure, its code is of a kind that
      cannot be applied, or there are too few registers. */
  ghost predicate Fails(heap: Heap, fn: nat, args: seq<nat>) {
    fn !in heap || !heap[fn].Closure? ||
    var Closure(code, fvs) := heap[fn];
    !(|args| < Needed(code, fvs)) && code.tag != ImpProg
    && (code.tag != Expr || |code.globals| + |fvs| + Needed(code, fvs) > MAX_REGISTERS)
  }

  /** A thread is shut down by what it returns only if that is no closure, or nothing that
      can be entered with enough arguments, or code whose globals, free variables and
      arguments exceed the registers: never because there are too few or too many
      arguments. */
  lemma FailsIff(heap: Heap, fn: nat, args: seq<nat>)
    ensures Fails(heap, fn, args) <==>
            || fn !in heap || !heap[fn].Closure?
            || var Closure(code, fvs) := heap[fn];
               && |fvs| + |args| >= code.numfvs + code.numargs
               && (code.tag == OtherTag || (code.tag == Expr && |code.globals| + code.numfvs + code.numargs > MAX_REGISTERS))
  {
  }

  // ----- Weak head normal form -----

  datatype HeapState = Thunk | Whnf | Stuck | Poisoned | Unknown

  /** `gsheapstate` */
  function StateOf(item: Item): HeapState {
    match item
    case Closure(code, fvs) =>
      (match code.tag
       case Expr =>
         if |fvs| < code.numfvs then Poisoned
         else if |fvs| > code.numfvs + code.numargs then Poisoned
         else if |fvs| < code.numfvs + code.numargs then Whnf
         else Thunk
       case ImpProg => Whnf
       case OtherTag => Unknown)
    case Application(_, _) => Thunk
    case OtherItem => Unknown
  }

  /** A closure in order is in weak head normal form if its code needs more arguments or is
      an imperative program, and a thunk otherwise; applications are thunks. */
  lemma ThunkIff(item: Item)
    requires NotOverFull(item) && HasFreeVariables(item)
    ensures StateOf(item) == Thunk <==>
            item.Application? || (item.Closure? && item.code.tag == Expr && Needed(item.code, item.fvs) == 0)
    ensures StateOf(item) == Whnf <==>
            item.Closure? && (item.code.tag == ImpProg || (item.code.tag == Expr && Needed(item.code, item.fvs) > 0))
  {
  }

  // ----- Runs -----

  /** The heap, what a thread is about to do, and a stack that holds application frames
      down to the frame of interest. */
  datatype Config = Config(heap: Heap, focus: Focus, frames: seq<seq<nat>>)

  ghost function AllArgs(frames: seq<seq<nat>>): seq<nat> {
    if frames == [] then [] else frames[0] + AllArgs(frames[1..])
  }

  /** What thread and stack stand for. */
  ghost function Total<D>(r: Reading<D>, c: Config): D {
    Fold(r, Means(r, c.focus), AllArgs(c.frames))
  }

  ghost predicate Pushed(left: seq<nat>, frames: seq<seq<nat>>, frames': seq<seq<nat>>) {
    frames' == if left == [] then frames else [left] + frames
  }

  /** What this or another thread builds: a closure with the free variables of its code
      and no more, an application thunk, a function applied by `gsnapplyv`, or an item of
      another kind. */
  ghost predicate Builds(heap: Heap, heap': Heap) {
    || (exists a: nat, item: Item :: a !in heap && heap' == heap[a := item] && IsFreshItem(item))
    || (exists fun: nat, args: seq<nat>, res: nat :: IsApplied(heap, fun, args, heap', res) && Grown(heap, heap'))
  }

  predicate IsFreshItem(item: Item) {
    item.Closure? ==> |item.fvs| == item.code.numfvs
  }

  /** Evaluating an application thunk pushes a frame and evaluates the function; a closure
      that is a thunk is entered, and anything but a thunk is returned. */
  ghost predicate Evaluates(heap: Heap, v: nat, frames: seq<seq<nat>>, focus': Focus, frames': seq<seq<nat>>) {
    if v !in heap || (StateOf(heap[v]) != Thunk && StateOf(heap[v]) != Poisoned) then
      focus' == Returned(v) && frames' == frames
    else
      StateOf(heap[v]) == Thunk &&
      match heap[v]
      case Application(fun, args) => focus' == Evaluating(fun) && frames' == [args] + frames
      case Closure(code, fvs) => focus' == Entered(code, fvs) && frames' == frames
      case OtherItem => false
  }

  /** Returning a value into the frame on top. */
  ghost predicate ReturnsInto(heap: Heap, v: nat, frames: seq<seq<nat>>, heap': Heap, focus': Focus, frames': seq<seq<nat>>) {
    frames != [] && exists left: seq<nat> :: Returns(heap, v, frames[0], heap', focus', left) && Pushed(left, frames[1..], frames')
  }

  /** One step: something is built, the focus is evaluated or returned, or the code that
      has been entered ends in evaluating a value it denotes. */
  ghost predicate Steps<D>(r: Reading<D>, c: Config, c': Config) {
    || (Builds(c.heap, c'.heap) && c'.focus == c.focus && c'.frames == c.frames)
    || (c.focus.Evaluating? && c'.heap == c.heap && Evaluates(c.heap, c.focus.v, c.frames, c'.focus, c'.frames))
    || (c.focus.Entered? && c'.heap == c.heap && c'.focus.Evaluating? && r.rho(c'.focus.v) == Means(r, c.focus) && c'.frames == c.frames)
    || (c.focus.Returned? && ReturnsInto(c.heap, c.focus.v, c.frames, c'.heap, c'.focus, c'.frames))
  }

  // ----- The heap stays in order -----

  lemma FreshKeepsItems(heap: Heap, a: nat, item: Item)
    requires ItemsOk(heap) && a !in heap && NotOverFull(item) && HasFreeVariables(item)
    ensures ItemsOk(heap[a := item]) && Grown(heap, heap[a := item])
  {
  }

  lemma ReturnsKeepsItems(heap: Heap, fn: nat, args: seq<nat>, heap': Heap, focus: Focus, left: seq<nat>)
    requires ItemsOk(heap) && Returns(heap, fn, args, heap', focus, left)
    ensures ItemsOk(heap') && Grown(heap, heap')
  {
    assert NotOverFull(heap[fn]) && HasFreeVariables(heap[fn]);
    if focus.Returned? {
      FreshKeepsItems(heap, focus.v, Closure(heap[fn].code, heap[fn].fvs + args));
    }
  }

  /** Partial, exact and over-application keep the heap in order. */
  lemma AppliedKeepsItems(heap: Heap, fun: nat, args: seq<nat>, heap': Heap, res: nat)
    requires ItemsOk(heap) && IsApplied(heap, fun, args, heap', res) && Grown(heap, heap')
    ensures ItemsOk(heap')
  {
    var mid: nat :| AppliedVia(heap, fun, args, heap', res, mid);
    var n := Supplied(heap, fun, |args|);
    forall a | a in heap'
      ensures NotOverFull(heap'[a]) && HasFreeVariables(heap'[a])
    {
      if a in heap {
        assert NotOverFull(heap[a]) && HasFreeVariables(heap[a]);
      } else if n > 0 && a == mid {
        assert NotOverFull(heap[fun]) && HasFreeVariables(heap[fun]);
      }
    }
  }

  lemma BuildsKeepsItems(heap: Heap, heap': Heap)
    requires ItemsOk(heap) && Builds(heap, heap')
    ensures ItemsOk(heap') && Grown(heap, heap')
  {
    hide ItemsOk, Grown, IsApplied, NotOverFull, HasFreeVariables;
    if a: nat, item: Item :| a !in heap && heap' == heap[a := item] && IsFreshItem(item) {
      FreshIsOk(item);
      FreshKeepsItems(heap, a, item);
    } else {
      var fun: nat, args: seq<nat>, res: nat :| IsApplied(heap, fun, args, heap', res) && Grown(heap, heap');
      AppliedKeepsItems(heap, fun, args, heap', res);
    }
  }

  lemma FreshIsOk(item: Item)
    requires IsFreshItem(item)
    ensures NotOverFull(item) && HasFreeVariables(item)
  {
  }

  lemma GrownSelf(heap: Heap)
    ensures Grown(heap, heap)
  {
  }

  /** Every step leaves the items it finds and keeps the heap in order. */
  lemma StepKeepsItems<D>(r: Reading<D>, c: Config, c': Config)
    requires ItemsOk(c.heap) && Steps(r, c, c')
    ensures ItemsOk(c'.heap) && Grown(c.heap, c'.heap)
  {
    hide ItemsOk, Grown, Returns, Builds, Evaluates, Pushed;
    GrownSelf(c.heap);
    if Builds(c.heap, c'.heap) {
      BuildsKeepsItems(c.heap, c'.heap);
    } else if c.focus.Returned? {
      var left: seq<nat> :| Returns(c.heap, c.focus.v, c.frames[0], c'.heap, c'.focus, left) && Pushed(left, c.frames[1..], c'.frames);
      ReturnsKeepsItems(c.heap, c.focus.v, c.frames[0], c'.heap, c'.focus, left);
    }
  }

  ghost predicate IsRun<D>(r: Reading<D>, cs: seq<Config>) {
    cs != [] && forall i :: 0 < i < |cs| ==> Steps(r, cs[i - 1], cs[i])
  }

  lemma {:induction false} RunKeepsItems<D>(r: Reading<D>, cs: seq<Config>)
    requires IsRun(r, cs) && ItemsOk(cs[0].heap)
    ensures ItemsOk(cs[|cs| - 1].heap)
    decreases |cs|
  {
    hide ItemsOk, Steps;
    var n := |cs| - 1;
    if n > 0 {
      RunKeepsItems(r, cs[..n]);
      StepKeepsItems(r, cs[n - 1], cs[n]);
    }
  }

  /** Along any run from a heap in order no expression closure ever holds more values than
      its code has free variables and arguments, or fewer than its free variables: none is
      poisoned. One is a thunk exactly if it needs no more arguments. */
  lemma NeverPoisoned<D>(r: Reading<D>, cs: seq<Config>, a: nat)
    requires IsRun(r, cs) && ItemsOk(cs[0].heap) && a in cs[|cs| - 1].heap
    ensures var item := cs[|cs| - 1].heap[a];
            && StateOf(item) != Poisoned
            && (item.Closure? && item.code.tag == Expr ==> (StateOf(item) == Thunk <==> Needed(item.code, item.fvs) == 0))
  {
    hide Steps;
    RunKeepsItems(r, cs);
    assert NotOverFull(cs[|cs| - 1].heap[a]) && HasFreeVariables(cs[|cs| - 1].heap[a]);
  }

  // ----- What runs compute -----

  lemma PushedArgs(left: seq<nat>, frames: seq<seq<nat>>, frames': seq<seq<nat>>)
    requires Pushed(left, frames, frames')
    ensures AllArgs(frames') == left + AllArgs(frames)
  {
    if left != [] {
      assert frames'[1..] == frames;
    }
  }

  lemma EvaluateStep<D>(r: Reading<D>, heap: Heap, v: nat, frames: seq<seq<nat>>, focus': Focus, frames': seq<seq<nat>>)
    requires Reads(r, heap) && Evaluates(heap, v, frames, focus', frames')
    ensures Fold(r, Means(r, focus'), AllArgs(frames')) == Fold(r, r.rho(v), AllArgs(frames))
  {
    if v in heap {
      assert ReadsItem(r, v, heap[v]);
      if heap[v].Application? {
        assert frames'[1..] == frames;
        FoldAppend(r, r.rho(heap[v].fun), heap[v].args, AllArgs(frames));
      }
    }
  }

  lemma ReturnStep<D>(r: Reading<D>, heap: Heap, v: nat, frames: seq<seq<nat>>, heap': Heap, focus': Focus, frames': seq<seq<nat>>)
    requires Reads(r, heap') && ItemsOk(heap) && ReturnsInto(heap, v, frames, heap', focus', frames')
    ensures Fold(r, Means(r, focus'), AllArgs(frames')) == Fold(r, r.rho(v), AllArgs(frames))
  {
    hide Returns, Reads, ItemsOk, Pushed;
    var left: seq<nat> :| Returns(heap, v, frames[0], heap', focus', left) && Pushed(left, frames[1..], frames');
    ReturnMeans(r, heap, v, frames[0], heap', focus', left);
    PushedArgs(left, frames[1..], frames');
    var rest := AllArgs(frames[1..]);
    FoldAppend(r, r.rho(v), frames[0], rest);
    FoldAppend(r, Means(r, focus'), left, rest);
  }

  lemma StepKeepsTotal<D>(r: Reading<D>, c: Config, c': Config)
    requires Reads(r, c'.heap) && ItemsOk(c.heap) && Steps(r, c, c')
    ensures Total(r, c') == Total(r, c)
  {
    hide ReturnsInto, Evaluates, Builds, Reads, ItemsOk;
    if c'.focus == c.focus && c'.frames == c.frames {
    } else if c.focus.Returned? {
      ReturnStep(r, c.heap, c.focus.v, c.frames, c'.heap, c'.focus, c'.frames);
    } else if c.focus.Evaluating? {
      EvaluateStep(r, c.heap, c.focus.v, c.frames, c'.focus, c'.frames);
    }
  }

  /** Along any run the thread and its stack stand for the same value; so a value
      returned when the frames are used up is the function applied to all arguments. */
  lemma {:induction false} RunKeepsTotal<D>(r: Reading<D>, cs: seq<Config>)
    requires IsRun(r, cs) && ItemsOk(cs[0].heap) && Reads(r, cs[|cs| - 1].heap)
    ensures Total(r, cs[|cs| - 1]) == Total(r, cs[0])
    decreases |cs|
  {
    hide ItemsOk, Steps, Reads, Total, Grown;
    var n := |cs| - 1;
    if n > 0 {
      RunKeepsItems(r, cs[..n]);
      StepKeepsItems(r, cs[n - 1], cs[n]);
      StillReads(r, cs[n - 1].heap, cs[n].heap);
      RunKeepsTotal(r, cs[..n]);
      StepKeepsTotal(r, cs[n - 1], cs[n]);
    }
  }

  lemma RunDeliversTheApplication<D>(r: Reading<D>, cs: seq<Config>, fun: nat, args: seq<nat>, v: nat)
    requires IsRun(r, cs) && ItemsOk(cs[0].heap) && Reads(r, cs[|cs| - 1].heap)
    requires cs[0].focus == Evaluating(fun) && cs[0].frames == [args]
    requires cs[|cs| - 1].focus == Returned(v) && cs[|cs| - 1].frames == []
    ensures r.rho(v) == Fold(r, r.rho(fun), args)
  {
    hide Steps, Reads, ItemsOk;
    RunKeepsTotal(r, cs);
    assert AllArgs(cs[0].frames) == args;
  }
}
