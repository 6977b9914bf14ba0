/** Lazy evacuation of thread stacks during a collection (`ace_eval_gc_trace` of `ace.c`,
    `ace_stack_gcevacuate` of `acestack.c`): when a cell under evaluation is reached, the
    stack of its thread is traced down to the cell's update frame. Tracing is re-entrant:
    what a frame refers to may lead to a deeper update frame of the same thread. */
module StackEvacuate {

  // words of the continuations before their arguments, code pointers and free variables
  const UPDATE_SIZE := 5
  const APP_SIZE := 4
  const CODE_SIZE := 5
  const UBANALYZE_SIZE := 4

  // ----- Heap and stacks -----

  /** What the tracer does with a value in the heap: trace what it refers to; for a cell
      under evaluation, evacuate a stack down to an update frame; or give up. */
  datatype Node = Plain(children: seq<nat>) | Eval(tid: nat, update: nat) | Untraceable

  datatype Frame =
    | UpdateFrame
    | AppFrame(args: seq<nat>)
    | CodeFrame(code: nat, fvs: seq<nat>)     // force and strict
    | UbanalyzeFrame(conts: seq<nat>, fvs: seq<nat>)

  function Size(f: Frame): (r: nat)
    ensures r > 0
  {
    match f
    case UpdateFrame => UPDATE_SIZE
    case AppFrame(args) => APP_SIZE + |args|
    case CodeFrame(_, fvs) => CODE_SIZE + |fvs|
    case UbanalyzeFrame(conts, fvs) => UBANALYZE_SIZE + |conts| + |fvs|
  }

  /** The values of a frame that are traced, in order. */
  function Slots(f: Frame): seq<nat> {
    match f
    case UpdateFrame => []
    case AppFrame(args) => args
    case CodeFrame(code, fvs) => [code] + fvs
    case UbanalyzeFrame(conts, fvs) => conts + fvs
  }

  /** A stack: its frames by position, and the values its thread holds outside of it. */
  datatype Stack = Stack(frames: map<nat, Frame>, top: nat, bot: nat, regs: seq<nat>)

  type Heap = map<nat, Node>
  type Stacks = map<nat, Stack>

  predicate IsBoundary(s: Stack, p: nat) { p == s.bot || p in s.frames }

  /** Frames follow each other from the top to the bottom. */
  ghost predicate StackOk(s: Stack) {
    && s.top <= s.bot && IsBoundary(s, s.top)
    && forall p :: p in s.frames ==> FrameOk(s, p)
  }

  ghost predicate FrameOk(s: Stack, p: nat)
    requires p in s.frames
  {
    var end := p + Size(s.frames[p]);
    s.top <= p && end <= s.bot && IsBoundary(s, end) && forall q :: p < q < end ==> q !in s.frames
  }

  ghost predicate StacksOk(ss: Stacks) { forall t :: t in ss ==> StackOk(ss[t]) }

  /** Cells under evaluation point at update frames. */
  ghost predicate EvalsOk(heap: Heap, ss: Stacks) {
    forall a :: a in heap && heap[a].Eval? ==> EvalOk(ss, heap[a].tid, heap[a].update)
  }

  ghost predicate EvalOk(ss: Stacks, t: nat, u: nat) {
    t in ss && u in ss[t].frames && ss[t].frames[u] == UpdateFrame
  }

  // ----- Progress -----

  /** A slot: a value of a frame of a thread. */
  datatype Slot = Slot(tid: nat, pos: nat, i: nat)

  /** Values that have been forwarded, the evacuated boundary of each stack, how often
      each slot has been traced, the threads copied, the values that are just being traced,
      and the threads whose own values are. */
  datatype Progress = Progress(forwarded: set<nat>, bottom: map<nat, nat>, traced: multiset<Slot>, copied: set<nat>, pending: set<nat>, opening: set<nat>)

  ghost predicate IsSlot(ss: Stacks, k: Slot) {
    k.tid in ss && k.pos in ss[k.tid].frames && k.i < |Slots(ss[k.tid].frames[k.pos])|
  }

  ghost function ValueAt(ss: Stacks, k: Slot): nat
    requires IsSlot(ss, k)
  {
    Slots(ss[k.tid].frames[k.pos])[k.i]
  }

  /** The slot lies between the two boundaries of its stack. */
  ghost predicate Between(ss: Stacks, lo: map<nat, nat>, hi: map<nat, nat>, k: Slot) {
    IsSlot(ss, k) && k.tid in lo && k.tid in hi && lo[k.tid] <= k.pos < hi[k.tid]
  }

  ghost predicate BottomsOk(ss: Stacks, bottom: map<nat, nat>) {
    forall t :: t in ss ==> t in bottom && IsBoundary(ss[t], bottom[t])
  }

  ghost predicate IsEvacuated(pr: Progress, node: Node)
    requires node.Eval?
  {
    node.tid in pr.bottom && node.update + UPDATE_SIZE <= pr.bottom[node.tid]
  }

  // ----- What is referred to -----

  ghost predicate AllWithin(heap: Heap, vs: seq<nat>, s: set<nat>) {
    forall v :: v in vs && v in heap ==> v in s
  }

  /** Every value that the frame holds, field by field. */
  ghost predicate FrameWithin(heap: Heap, f: Frame, s: set<nat>) {
    match f
    case UpdateFrame => true
    case AppFrame(args) => AllWithin(heap, args, s)
    case CodeFrame(code, fvs) => (code in heap ==> code in s) && AllWithin(heap, fvs, s)
    case UbanalyzeFrame(conts, fvs) => AllWithin(heap, conts, s) && AllWithin(heap, fvs, s)
  }

  /** What a value needs: a plain one its children; a cell under evaluation what its thread
      holds and every frame down to its update frame, and no more of the stack. */
  ghost predicate NeedsWithin(heap: Heap, ss: Stacks, node: Node, s: set<nat>) {
    match node
    case Plain(children) => AllWithin(heap, children, s)
    case Eval(t, u) =>
      t in ss ==>
        && AllWithin(heap, ss[t].regs, s)
        && forall p :: p in ss[t].frames && p <= u ==> FrameWithin(heap, ss[t].frames[p], s)
    case Untraceable => true
  }

  ghost predicate IsClosed(heap: Heap, ss: Stacks, s: set<nat>) {
    forall a :: a in s && a in heap ==> NeedsWithin(heap, ss, heap[a], s)
  }

  ghost predicate HasBlocker(heap: Heap, s: set<nat>) {
    exists a :: a in s && a in heap && heap[a].Untraceable?
  }

  /** What the slots of a frame are, in the order in which the source traces them. */
  lemma SlotsOfFrame(ss: Stacks, t: nat, p: nat)
    requires t in ss && p in ss[t].frames
    ensures match ss[t].frames[p]
            case UpdateFrame => forall i: nat :: !IsSlot(ss, Slot(t, p, i))
            case AppFrame(args) =>
              && (forall i: nat :: IsSlot(ss, Slot(t, p, i)) <==> i < |args|)
              && (forall i :: 0 <= i < |args| ==> ValueAt(ss, Slot(t, p, i)) == args[i])
            case CodeFrame(code, fvs) =>
              && (forall i: nat :: IsSlot(ss, Slot(t, p, i)) <==> i < 1 + |fvs|)
              && ValueAt(ss, Slot(t, p, 0)) == code
              && (forall i: nat, j: nat :: i < |fvs| && j == 1 + i ==> ValueAt(ss, Slot(t, p, j)) == fvs[i])
            case UbanalyzeFrame(conts, fvs) =>
              && (forall i: nat :: IsSlot(ss, Slot(t, p, i)) <==> i < |conts| + |fvs|)
              && (forall i :: 0 <= i < |conts| ==> ValueAt(ss, Slot(t, p, i)) == conts[i])
              && (forall i: nat, j: nat :: i < |fvs| && j == |conts| + i ==> ValueAt(ss, Slot(t, p, j)) == fvs[i])
  {
  }

  /** The slots are every value that the frame holds. */
  lemma SlotsWithin(heap: Heap, f: Frame, s: set<nat>)
    ensures AllWithin(heap, Slots(f), s) <==> FrameWithin(heap, f, s)
  {
    match f
    case UpdateFrame =>
    case AppFrame(_) =>
    case CodeFrame(code, fvs) =>
      assert forall v :: v in [code] + fvs <==> v == code || v in fvs;
    case UbanalyzeFrame(conts, fvs) =>
      assert forall v :: v in conts + fvs <==> v in conts || v in fvs;
  }

  // ----- The invariant -----

  /** What a value needs has been seen to. */
  ghost predicate Handled(heap: Heap, pr: Progress, node: Node) {
    match node
    case Plain(children) => AllWithin(heap, children, pr.forwarded)
    case Eval(t, _) => IsEvacuated(pr, node) && t in pr.copied
    case Untraceable => false
  }

  ghost predicate HandledOk(heap: Heap, pr: Progress) {
    forall a :: a in pr.forwarded && a !in pr.pending && a in heap ==> Handled(heap, pr, heap[a])
  }

  ghost predicate RegsOk(heap: Heap, ss: Stacks, pr: Progress) {
    forall t :: t in pr.copied && t !in pr.opening && t in ss ==> AllWithin(heap, ss[t].regs, pr.forwarded)
  }

  /** No stack has been evacuated further than to a cell that has been reached. */
  ghost predicate BottomsReached(heap: Heap, ss: Stacks, pr: Progress) {
    forall t :: t in ss && t in pr.bottom ==> pr.bottom[t] == ss[t].top || exists a :: ReachedAt(heap, pr, a, t, pr.bottom[t])
  }

  ghost predicate ReachedAt(heap: Heap, pr: Progress, a: nat, t: nat, base: nat) {
    a in pr.forwarded && a in heap && heap[a].Eval? && heap[a].tid == t && heap[a].update + UPDATE_SIZE == base
  }

  ghost predicate Inv(heap: Heap, ss: Stacks, pr: Progress) {
    pr.forwarded <= heap.Keys && BottomsOk(ss, pr.bottom) && HandledOk(heap, pr) && RegsOk(heap, ss, pr) && BottomsReached(heap, ss, pr)
  }

  /** More has been forwarded and copied, and boundaries have moved down. */
  ghost predicate Later(a: Progress, b: Progress) {
    a.forwarded <= b.forwarded && a.copied <= b.copied
    && forall t :: t in a.bottom ==> t in b.bottom && a.bottom[t] <= b.bottom[t]
  }

  lemma HandledLater(heap: Heap, a: Progress, b: Progress, node: Node)
    requires Handled(heap, a, node) && Later(a, b)
    ensures Handled(heap, b, node)
  {
  }

  /** Values that were seen to still are: what remains is to see to those that are new, or
      no longer being traced. */
  lemma InvLater(heap: Heap, ss: Stacks, a: Progress, b: Progress)
    requires Inv(heap, ss, a) && Later(a, b)
    requires b.forwarded <= heap.Keys && BottomsOk(ss, b.bottom)
    requires forall x :: x in b.forwarded && x !in b.pending && x in heap ==> (x in a.forwarded && x !in a.pending) || Handled(heap, b, heap[x])
    requires forall t :: t in b.copied && t !in b.opening && t in ss ==> (t in a.copied && t !in a.opening) || AllWithin(heap, ss[t].regs, b.forwarded)
    requires forall t :: t in ss && t in b.bottom ==> (t in a.bottom && b.bottom[t] == a.bottom[t]) || exists x :: ReachedAt(heap, b, x, t, b.bottom[t])
    ensures Inv(heap, ss, b)
  {
    hide Handled, BottomsOk;
    forall x | x in b.forwarded && x !in b.pending && x in heap
      ensures Handled(heap, b, heap[x])
    {
      if x in a.forwarded && x !in a.pending {
        HandledLater(heap, a, b, heap[x]);
      }
    }
    forall t | t in ss && t in b.bottom
      ensures b.bottom[t] == ss[t].top || exists x :: ReachedAt(heap, b, x, t, b.bottom[t])
    {
      if t in a.bottom && b.bottom[t] == a.bottom[t] && b.bottom[t] != ss[t].top {
        var x :| ReachedAt(heap, a, x, t, a.bottom[t]);
        assert ReachedAt(heap, b, x, t, b.bottom[t]);
      }
    }
  }

  /** Boundaries have only moved down; exactly the slots they moved over have been traced
      once more; and the values of these slots have been forwarded. */
  ghost predicate Evolves(heap: Heap, ss: Stacks, a: Progress, b: Progress) {
    && a.forwarded <= b.forwarded && a.copied <= b.copied && b.pending == a.pending && b.opening == a.opening
    && (forall t :: t in ss ==> t in a.bottom && t in b.bottom && a.bottom[t] <= b.bottom[t])
    && (forall k :: b.traced[k] == a.traced[k] + (if Between(ss, a.bottom, b.bottom, k) then 1 else 0))
    && (forall k :: Between(ss, a.bottom, b.bottom, k) && ValueAt(ss, k) in heap ==> ValueAt(ss, k) in b.forwarded)
  }

  lemma EvolvesNot(heap: Heap, ss: Stacks, a: Progress)
    requires BottomsOk(ss, a.bottom)
    ensures Evolves(heap, ss, a, a)
  {
  }

  lemma EvolvesTwice(heap: Heap, ss: Stacks, a: Progress, b: Progress, c: Progress)
    requires Evolves(heap, ss, a, b) && Evolves(heap, ss, b, c)
    ensures Evolves(heap, ss, a, c)
  {
    hide IsSlot, ValueAt;
    forall k
      ensures c.traced[k] == a.traced[k] + (if Between(ss, a.bottom, c.bottom, k) then 1 else 0)
      ensures Between(ss, a.bottom, c.bottom, k) <==> Between(ss, a.bottom, b.bottom, k) || Between(ss, b.bottom, c.bottom, k)
    {
      BetweenSplits(ss, a.bottom, b.bottom, c.bottom, k);
    }
    BottomsMove(ss, a.bottom, b.bottom, c.bottom);
  }

  lemma BottomsMove(ss: Stacks, a: map<nat, nat>, b: map<nat, nat>, c: map<nat, nat>)
    requires forall t :: t in ss ==> t in a && t in b && a[t] <= b[t]
    requires forall t :: t in ss ==> t in b && t in c && b[t] <= c[t]
    ensures forall t :: t in ss ==> t in a && t in c && a[t] <= c[t]
  {
  }

  lemma BetweenSplits(ss: Stacks, a: map<nat, nat>, b: map<nat, nat>, c: map<nat, nat>, k: Slot)
    requires forall t :: t in ss ==> t in a && t in b && a[t] <= b[t]
    requires forall t :: t in ss ==> t in b && t in c && b[t] <= c[t]
    ensures Between(ss, a, c, k) <==> Between(ss, a, b, k) || Between(ss, b, c, k)
    ensures !(Between(ss, a, b, k) && Between(ss, b, c, k))
  {
  }

  // ----- The loop over frames -----

  /** While the part of stack `t` from `lo` is traced, the slots up to `i` of the frame at
      `p` and those of frames before it have been traced, beside what nested calls
      did. */
  ghost predicate Reached(ss: Stacks, t: nat, lo: nat, p: nat, i: nat, k: Slot) {
    IsSlot(ss, k) && k.tid == t && lo <= k.pos && (k.pos < p || (k.pos == p && k.i < i))
  }

  /** Progress inside the loop: `a` is where the boundary had just been moved. */
  ghost predicate EvolvesInside(heap: Heap, ss: Stacks, a: Progress, b: Progress, t: nat, lo: nat, p: nat, i: nat) {
    && a.forwarded <= b.forwarded && a.copied <= b.copied && b.pending == a.pending && b.opening == a.opening
    && (forall t :: t in ss ==> t in a.bottom && t in b.bottom && a.bottom[t] <= b.bottom[t])
    && (forall k :: b.traced[k] == a.traced[k] + (if Between(ss, a.bottom, b.bottom, k) then 1 else 0) + (if Reached(ss, t, lo, p, i, k) then 1 else 0))
    && (forall k :: (Between(ss, a.bottom, b.bottom, k) || Reached(ss, t, lo, p, i, k)) && ValueAt(ss, k) in heap ==> ValueAt(ss, k) in b.forwarded)
  }

  lemma InsideStarts(heap: Heap, ss: Stacks, a: Progress, t: nat, lo: nat)
    requires BottomsOk(ss, a.bottom)
    ensures EvolvesInside(heap, ss, a, a, t, lo, lo, 0)
  {
  }

  /** One slot: it is counted, and then traced. */
  lemma InsideSlot(heap: Heap, ss: Stacks, a: Progress, b: Progress, c: Progress, t: nat, lo: nat, p: nat, i: nat)
    requires EvolvesInside(heap, ss, a, b, t, lo, p, i) && IsSlot(ss, Slot(t, p, i)) && lo <= p
    requires Evolves(heap, ss, b.(traced := b.traced + multiset{Slot(t, p, i)}), c)
    requires ValueAt(ss, Slot(t, p, i)) in heap ==> ValueAt(ss, Slot(t, p, i)) in c.forwarded
    ensures EvolvesInside(heap, ss, a, c, t, lo, p, i + 1)
  {
    BottomsMove(ss, a.bottom, b.bottom, c.bottom);
    hide IsSlot, ValueAt;
    forall k
      ensures Reached(ss, t, lo, p, i + 1, k) <==> Reached(ss, t, lo, p, i, k) || k == Slot(t, p, i)
    {
    }
    hide Between, Reached;
    forall k
      ensures Between(ss, a.bottom, c.bottom, k) <==> Between(ss, a.bottom, b.bottom, k) || Between(ss, b.bottom, c.bottom, k)
      ensures !(Between(ss, a.bottom, b.bottom, k) && Between(ss, b.bottom, c.bottom, k))
    {
      BetweenSplits(ss, a.bottom, b.bottom, c.bottom, k);
    }
    NotReachedYet(ss, t, lo, p, i);
  }

  lemma NotReachedYet(ss: Stacks, t: nat, lo: nat, p: nat, i: nat)
    ensures !Reached(ss, t, lo, p, i, Slot(t, p, i))
  {
  }

  /** All slots of a frame: the loop goes on with the next frame. */
  lemma InsideFrame(heap: Heap, ss: Stacks, a: Progress, b: Progress, t: nat, lo: nat, p: nat)
    requires t in ss && StackOk(ss[t]) && p in ss[t].frames
    requires EvolvesInside(heap, ss, a, b, t, lo, p, |Slots(ss[t].frames[p])|)
    ensures EvolvesInside(heap, ss, a, b, t, lo, p + Size(ss[t].frames[p]), 0)
  {
    hide Reached, IsSlot, Between, ValueAt, Slots, Size, StackOk;
    forall k
      ensures Reached(ss, t, lo, p + Size(ss[t].frames[p]), 0, k) <==> Reached(ss, t, lo, p, |Slots(ss[t].frames[p])|, k)
    {
      ReachedFrame(ss, t, lo, p, k);
    }
  }

  lemma ReachedFrame(ss: Stacks, t: nat, lo: nat, p: nat, k: Slot)
    requires t in ss && StackOk(ss[t]) && p in ss[t].frames
    ensures Reached(ss, t, lo, p + Size(ss[t].frames[p]), 0, k) <==> Reached(ss, t, lo, p, |Slots(ss[t].frames[p])|, k)
  {
    hide Size, Slots;
    FrameAt(ss[t], p);
  }

  /** The loop is done: with the move of the boundary, everything it moved over has been
      traced. */
  lemma InsideEnds(heap: Heap, ss: Stacks, a: Progress, b: Progress, t: nat, base: nat)
    requires t in ss && t in a.bottom && a.bottom[t] <= base
    requires EvolvesInside(heap, ss, a.(bottom := a.bottom[t := base]), b, t, a.bottom[t], base, 0)
    requires BottomsOk(ss, a.bottom)
    ensures Evolves(heap, ss, a, b)
  {
    hide IsSlot, ValueAt;
    var m := a.bottom[t := base];
    forall k
      ensures Between(ss, a.bottom, m, k) <==> Reached(ss, t, a.bottom[t], base, 0, k)
    {
    }
    BottomsMove(ss, a.bottom, m, b.bottom);
    forall k
      ensures Between(ss, a.bottom, b.bottom, k) <==> Between(ss, a.bottom, m, k) || Between(ss, m, b.bottom, k)
      ensures !(Between(ss, a.bottom, m, k) && Between(ss, m, b.bottom, k))
    {
      BetweenSplits(ss, a.bottom, m, b.bottom, k);
    }
  }

  lemma FewerLeft(heap: Heap, a: set<nat>, b: set<nat>)
    requires a <= b
    ensures |heap.Keys - b| <= |heap.Keys - a|
    ensures (exists v :: v in heap && v in b && v !in a) ==> |heap.Keys - b| < |heap.Keys - a|
  {
    var x, y := heap.Keys - a, heap.Keys - b;
    assert x == y + (x - y);
    if v :| v in heap && v in b && v !in a {
      assert v in x - y;
    }
  }

  lemma FrameStops(s: Stack, p: nat, base: nat)
    requires StackOk(s) && IsBoundary(s, p) && IsBoundary(s, base) && p < base <= s.bot
    ensures p in s.frames && p + Size(s.frames[p]) <= base && IsBoundary(s, p + Size(s.frames[p]))
  {
    hide Size, StackOk;
    FrameAt(s, p);
  }

  lemma FrameAt(s: Stack, p: nat)
    requires StackOk(s) && p in s.frames
    ensures FrameOk(s, p)
  {
  }

  lemma BaseIsBoundary(ss: Stacks, t: nat, u: nat)
    requires StacksOk(ss) && EvalOk(ss, t, u)
    ensures IsBoundary(ss[t], u + UPDATE_SIZE) && u + UPDATE_SIZE <= ss[t].bot && StackOk(ss[t])
  {
    assert FrameOk(ss[t], u);
  }

  /** Moving the boundary of one stack down to a reached cell keeps the invariant. */
  lemma BoundaryMoves(heap: Heap, ss: Stacks, pr: Progress, a: nat, t: nat, u: nat)
    requires Inv(heap, ss, pr) && t in ss && IsBoundary(ss[t], u + UPDATE_SIZE) && t in pr.bottom && pr.bottom[t] <= u + UPDATE_SIZE
    requires a in pr.forwarded && a in heap && heap[a] == Eval(t, u)
    ensures Inv(heap, ss, pr.(bottom := pr.bottom[t := u + UPDATE_SIZE]))
  {
    hide HandledOk, RegsOk, BottomsReached, Handled, IsBoundary;
    var pr' := pr.(bottom := pr.bottom[t := u + UPDATE_SIZE]);
    assert ReachedAt(heap, pr', a, t, u + UPDATE_SIZE);
    InvLater(heap, ss, pr, pr');
  }

  // ----- The order of tracing -----

  /** The slots of one frame are traced from first to last. */
  ghost predicate InOrder(trace: seq<Slot>) {
    forall i, j :: 0 <= i < j < |trace| && trace[i].tid == trace[j].tid && trace[i].pos == trace[j].pos ==> trace[i].i < trace[j].i
  }

  /** The slots traced so far, in order; they lie above the boundaries. */
  ghost predicate TraceOk(trace: seq<Slot>, pr: Progress) {
    && multiset(trace) == pr.traced && InOrder(trace)
    && forall k :: k in trace ==> k.tid in pr.bottom && k.pos < pr.bottom[k.tid]
  }

  lemma TraceAppends(trace: seq<Slot>, pr: Progress, k: Slot)
    requires TraceOk(trace, pr) && k.tid in pr.bottom && k.pos < pr.bottom[k.tid]
    requires forall j: nat :: j >= k.i ==> pr.traced[Slot(k.tid, k.pos, j)] == 0
    ensures TraceOk(trace + [k], pr.(traced := pr.traced + multiset{k}))
  {
    forall i | 0 <= i < |trace| && trace[i].tid == k.tid && trace[i].pos == k.pos
      ensures trace[i].i < k.i
    {
      assert trace[i] in multiset(trace);
    }
  }

  lemma TraceBoundaries(trace: seq<Slot>, pr: Progress, t: nat, base: nat)
    requires TraceOk(trace, pr) && t in pr.bottom && pr.bottom[t] <= base
    ensures TraceOk(trace, pr.(bottom := pr.bottom[t := base]))
    ensures forall k: Slot :: k.tid == t && k.pos >= pr.bottom[t] ==> pr.traced[k] == 0
  {
    forall k: Slot | k.tid == t && k.pos >= pr.bottom[t]
      ensures pr.traced[k] == 0
    {
      if k in multiset(trace) {
        assert k in trace;
      }
    }
  }

  /** The slots of the frame at hand from the next one on have not been traced. */
  lemma NotYetTraced(heap: Heap, ss: Stacks, m: Progress, b: Progress, t: nat, top: nat, p: nat, i: nat)
    requires EvolvesInside(heap, ss, m, b, t, top, p, i) && t in m.bottom && p < m.bottom[t]
    requires forall k: Slot :: k.tid == t && k.pos == p ==> m.traced[k] == 0
    ensures forall j: nat :: j >= i ==> b.traced[Slot(t, p, j)] == 0
  {
    forall j: nat | j >= i
      ensures b.traced[Slot(t, p, j)] == 0
    {
      assert !Between(ss, m.bottom, b.bottom, Slot(t, p, j)) && !Reached(ss, t, top, p, i, Slot(t, p, j));
    }
  }

  lemma SlotCounted(heap: Heap, ss: Stacks, m: Progress, b: Progress, trace: seq<Slot>, k: Slot, top: nat)
    requires EvolvesInside(heap, ss, m, b, k.tid, top, k.pos, k.i) && Inv(heap, ss, b) && TraceOk(trace, b)
    requires k.tid in ss && k.tid in m.bottom && k.pos < m.bottom[k.tid]
    requires forall j: Slot :: j.tid == k.tid && j.pos == k.pos ==> m.traced[j] == 0
    ensures var c := b.(traced := b.traced + multiset{k}); Inv(heap, ss, c) && TraceOk(trace + [k], c)
  {
    hide EvolvesInside, Inv, TraceOk;
    InsideGrows(heap, ss, m, b, k.tid, top, k.pos, k.i);
    NotYetTraced(heap, ss, m, b, k.tid, top, k.pos, k.i);
    TraceAppends(trace, b, k);
    CountedInv(heap, ss, b, k);
  }

  class Collector {
    const heap: Heap
    const stacks: Stacks
    var forwarded: set<nat>
    var bottom: map<nat, nat>
    var copied: set<nat>
    ghost var traced: multiset<Slot>
    ghost var pending: set<nat>
    ghost var opening: set<nat>
    /** The slots in the order in which they are traced. */
    ghost var trace: seq<Slot>
    /** Any closed set that holds the roots. */
    ghost const live: set<nat>

    ghost function Abs(): Progress
      reads this
    {
      Progress(forwarded, bottom, traced, copied, pending, opening)
    }

    ghost predicate Ready()
      reads this
    {
      && StacksOk(stacks) && EvalsOk(heap, stacks) && Inv(heap, stacks, Abs()) && pending <= forwarded && opening <= copied
      && forwarded <= live && IsClosed(heap, stacks, live) && TraceOk(trace, Abs())
    }

    /** Nothing has been traced yet. */
    constructor (heap: Heap, stacks: Stacks, ghost live: set<nat>)
      requires StacksOk(stacks) && EvalsOk(heap, stacks) && IsClosed(heap, stacks, live)
      ensures Ready() && this.heap == heap && this.stacks == stacks && this.live == live
      ensures Abs() == Progress({}, map t | t in stacks :: stacks[t].top, multiset{}, {}, {}, {})
    {
      this.heap, this.stacks, this.live := heap, stacks, live;
      forwarded, bottom, copied, traced, pending, opening := {}, map t | t in stacks :: stacks[t].top, {}, multiset{}, {}, {};
      trace := [];
      new;
      forall t | t in stacks
        ensures IsBoundary(stacks[t], stacks[t].top)
      {
        assert StackOk(stacks[t]);
      }
    }

    /** `GS_GC_TRACE` */
    method Trace(v: nat) returns (ok: bool)
      requires Ready() && (v in heap ==> v in live)
      modifies this
      ensures ok ==> Ready() && Evolves(heap, stacks, old(Abs()), Abs())
      ensures ok && v in heap ==> v in forwarded
      ensures !ok ==> HasBlocker(heap, live)
      decreases |heap.Keys - forwarded|, 0
    {
      hide Inv, Evolves, StacksOk, EvalsOk, BottomsOk, TraceOk, IsClosed, Handled;
      ghost var a := Abs();
      InvParts(heap, stacks, a);
      EvolvesNot(heap, stacks, a);
      if v !in heap || v in forwarded {
        return true;
      }
      forwarded := forwarded + {v};
      pending := pending + {v};
      FewerLeft(heap, a.forwarded, forwarded);
      ValueForwarded(heap, stacks, a, v);
      TraceStays(trace, a, Abs());
      NeedsOf(heap, stacks, live, v);
      match heap[v] {
        case Untraceable => ok := false;
        case Plain(children) =>
          ok := TraceAll(children);
        case Eval(t, u) =>
          EvalIsOk(heap, stacks, v);
          ok := EvalTrace(t, u, v);
      }
      if ok {
        NowHandled(heap, Abs(), heap[v]);
        Settled(heap, stacks, a, v, Abs());
        TraceStays(trace, Abs(), Abs().(pending := pending - {v}));
        pending := pending - {v};
      }
    }

    method TraceAll(vs: seq<nat>) returns (ok: bool)
      requires Ready() && AllWithin(heap, vs, live)
      modifies this
      ensures ok ==> Ready() && Evolves(heap, stacks, old(Abs()), Abs())
      ensures ok ==> AllWithin(heap, vs, forwarded)
      ensures !ok ==> HasBlocker(heap, live)
      decreases |heap.Keys - forwarded|, 1
    {
      hide Inv, Evolves, StacksOk, EvalsOk, BottomsOk, TraceOk, IsClosed;
      ghost var a := Abs();
      InvParts(heap, stacks, a);
      EvolvesNot(heap, stacks, a);
      for i := 0 to |vs|
        invariant Ready() && Evolves(heap, stacks, a, Abs())
        invariant forall k :: 0 <= k < i && vs[k] in heap ==> vs[k] in forwarded
      {
        ghost var b := Abs();
        Grows(heap, stacks, a, b);
        FewerLeft(heap, a.forwarded, b.forwarded);
        ok := Trace(vs[i]);
        if !ok {
          return;
        }
        Grows(heap, stacks, b, Abs());
        EvolvesTwice(heap, stacks, a, b, Abs());
      }
      ok := true;
    }

    /** `ace_eval_gc_trace`: the thread is copied and its own values are traced when it is
        first reached. */
    method EvalTrace(t: nat, u: nat, ghost v: nat) returns (ok: bool)
      requires Ready() && EvalOk(stacks, t, u) && v in forwarded && v in heap && heap[v] == Eval(t, u)
      modifies this
      ensures ok ==> Ready() && Evolves(heap, stacks, old(Abs()), Abs())
      ensures ok ==> t in bottom && u + UPDATE_SIZE <= bottom[t] && t in copied
      ensures !ok ==> HasBlocker(heap, live)
      decreases |heap.Keys - forwarded|, 4
    {
      hide Inv, Evolves, StacksOk, EvalsOk, BottomsOk, TraceOk, IsClosed, AllWithin, FrameWithin;
      ghost var a := Abs();
      InvParts(heap, stacks, a);
      EvolvesNot(heap, stacks, a);
      NeedsOf(heap, stacks, live, v);
      if t !in copied {
        copied := copied + {t};
        opening := opening + {t};
        ThreadCopied(heap, stacks, a, t);
        TraceStays(trace, a, Abs());
        ok := TraceAll(stacks[t].regs);
        if !ok {
          return;
        }
        ThreadSettled(heap, stacks, a, t, Abs());
        TraceStays(trace, Abs(), Abs().(opening := opening - {t}));
        opening := opening - {t};
      }
      ghost var b := Abs();
      Grows(heap, stacks, a, b);
      FewerLeft(heap, a.forwarded, b.forwarded);
      ok := Evacuate(t, u, v);
      if ok {
        Grows(heap, stacks, b, Abs());
        EvolvesTwice(heap, stacks, a, b, Abs());
      }
    }

    /** `ace_stack_gcevacuate`: the boundary is moved before the loop, so that a nested
        call leaves this part of the stack alone. */
    method Evacuate(t: nat, u: nat, ghost v: nat) returns (ok: bool)
      requires Ready() && EvalOk(stacks, t, u) && v in forwarded && v in heap && heap[v] == Eval(t, u)
      modifies this
      ensures ok ==> Ready() && Evolves(heap, stacks, old(Abs()), Abs())
      ensures ok ==> t in bottom && u + UPDATE_SIZE <= bottom[t]
      ensures !ok ==> HasBlocker(heap, live)
      decreases |heap.Keys - forwarded|, 3
    {
      hide Inv, Evolves, StacksOk, EvalsOk, BottomsOk, EvolvesInside, StackOk, TraceOk, IsClosed, FrameWithin, AllWithin;
      ghost var a := Abs();
      InvParts(heap, stacks, a);
      EvolvesNot(heap, stacks, a);
      BottomThere(stacks, bottom, t);
      BaseIsBoundary(stacks, t, u);
      NeedsOf(heap, stacks, live, v);
      var top, base := bottom[t], u + UPDATE_SIZE;
      if base <= top {
        return true;
      }
      BoundaryMoves(heap, stacks, a, v, t, u);
      TraceBoundaries(trace, a, t, base);
      bottom := bottom[t := base];
      ghost var m := Abs();
      InvParts(heap, stacks, m);
      InsideStarts(heap, stacks, m, t, top);
      var p := top;
      while p < base
        invariant top <= p <= base && IsBoundary(stacks[t], p) && Ready()
        invariant EvolvesInside(heap, stacks, m, Abs(), t, top, p, 0)
      {
        FrameStops(stacks[t], p, base);
        UpdateFrameLast(stacks, t, u, p);
        ok := EvacuateFrame(t, p, stacks[t].frames[p], m, top);
        if !ok {
          return;
        }
        InsideFrame(heap, stacks, m, Abs(), t, top, p);
        p := p + Size(stacks[t].frames[p]);
      }
      InsideGrows(heap, stacks, m, Abs(), t, top, p, 0);
      InsideEnds(heap, stacks, a, Abs(), t, base);
      ok := true;
    }

    /** The values of one frame, in the order of the source's loops. */
    method EvacuateFrame(t: nat, p: nat, frame: Frame, ghost m: Progress, ghost top: nat) returns (ok: bool)
      requires Ready() && t in stacks && p in stacks[t].frames && frame == stacks[t].frames[p] && top <= p
      requires EvolvesInside(heap, stacks, m, Abs(), t, top, p, 0) && FrameWithin(heap, frame, live)
      requires t in m.bottom && p < m.bottom[t] && forall k: Slot :: k.tid == t && k.pos == p ==> m.traced[k] == 0
      modifies this
      ensures ok ==> Ready() && EvolvesInside(heap, stacks, m, Abs(), t, top, p, |Slots(frame)|)
      ensures !ok ==> HasBlocker(heap, live)
      decreases |heap.Keys - m.forwarded|, 2
    {
      hide Inv, Evolves, StacksOk, EvalsOk, BottomsOk, EvolvesInside, Slots, TraceOk, IsClosed, FrameWithin;
      var slots := Slots(frame);
      SlotsWithin(heap, frame, live);
      for i := 0 to |slots|
        invariant Ready() && EvolvesInside(heap, stacks, m, Abs(), t, top, p, i)
      {
        ok := TraceSlot(Slot(t, p, i), slots[i], m, top);
        if !ok {
          return;
        }
      }
      ok := true;
    }

    method TraceSlot(k: Slot, v: nat, ghost m: Progress, ghost top: nat) returns (ok: bool)
      requires Ready() && IsSlot(stacks, k) && v == ValueAt(stacks, k) && (v in heap ==> v in live) && top <= k.pos
      requires EvolvesInside(heap, stacks, m, Abs(), k.tid, top, k.pos, k.i)
      requires k.tid in m.bottom && k.pos < m.bottom[k.tid] && forall j: Slot :: j.tid == k.tid && j.pos == k.pos ==> m.traced[j] == 0
      modifies this
      ensures ok ==> Ready() && EvolvesInside(heap, stacks, m, Abs(), k.tid, top, k.pos, k.i + 1)
      ensures !ok ==> HasBlocker(heap, live)
      decreases |heap.Keys - m.forwarded|, 1
    {
      hide Inv, Evolves, StacksOk, EvalsOk, BottomsOk, EvolvesInside, IsSlot, ValueAt, TraceOk, IsClosed, HasBlocker;
      ghost var b := Abs();
      InsideGrows(heap, stacks, m, b, k.tid, top, k.pos, k.i);
      SlotThread(stacks, k);
      FewerLeft(heap, m.forwarded, b.forwarded);
      SlotCounted(heap, stacks, m, b, trace, k, top);
      traced, trace := traced + multiset{k}, trace + [k];
      assert Abs() == b.(traced := b.traced + multiset{k});
      ok := Trace(v);
      if ok {
        InsideSlot(heap, stacks, m, b, Abs(), k.tid, top, k.pos, k.i);
      }
    }
  }

  // ----- Small steps -----

  lemma InvParts(heap: Heap, ss: Stacks, pr: Progress)
    requires Inv(heap, ss, pr)
    ensures pr.forwarded <= heap.Keys && BottomsOk(ss, pr.bottom)
  {
  }

  lemma BottomThere(ss: Stacks, bottom: map<nat, nat>, t: nat)
    requires BottomsOk(ss, bottom) && t in ss
    ensures t in bottom && IsBoundary(ss[t], bottom[t])
  {
  }

  lemma Grows(heap: Heap, ss: Stacks, a: Progress, b: Progress)
    requires Evolves(heap, ss, a, b)
    ensures a.forwarded <= b.forwarded && a.copied <= b.copied && b.pending == a.pending && b.opening == a.opening
  {
  }

  /** Nothing but the slots and the boundaries matters to the order. */
  lemma TraceStays(trace: seq<Slot>, a: Progress, b: Progress)
    requires TraceOk(trace, a) && b.traced == a.traced && b.bottom == a.bottom
    ensures TraceOk(trace, b)
  {
  }

  lemma SlotThread(ss: Stacks, k: Slot)
    requires IsSlot(ss, k)
    ensures k.tid in ss
  {
  }

  lemma NeedsOf(heap: Heap, ss: Stacks, live: set<nat>, v: nat)
    requires IsClosed(heap, ss, live) && v in live && v in heap
    ensures NeedsWithin(heap, ss, heap[v], live)
  {
  }

  lemma NowHandled(heap: Heap, pr: Progress, node: Node)
    requires match node
             case Plain(children) => AllWithin(heap, children, pr.forwarded)
             case Eval(t, u) => t in pr.bottom && u + UPDATE_SIZE <= pr.bottom[t] && t in pr.copied
             case Untraceable => false
    ensures Handled(heap, pr, node)
  {
  }

  /** No frame that ends at or before the end of an update frame lies after it. */
  lemma UpdateFrameLast(ss: Stacks, t: nat, u: nat, p: nat)
    requires StacksOk(ss) && EvalOk(ss, t, u) && p in ss[t].frames && p < u + UPDATE_SIZE
    ensures p <= u
  {
    assert StackOk(ss[t]) && FrameOk(ss[t], u);
  }

  lemma InsideGrows(heap: Heap, ss: Stacks, a: Progress, b: Progress, t: nat, lo: nat, p: nat, i: nat)
    requires EvolvesInside(heap, ss, a, b, t, lo, p, i)
    ensures a.forwarded <= b.forwarded && a.copied <= b.copied && b.pending == a.pending && b.opening == a.opening
    ensures forall t :: t in ss ==> t in a.bottom && t in b.bottom && a.bottom[t] <= b.bottom[t]
  {
  }

  lemma CountedInv(heap: Heap, ss: Stacks, b: Progress, k: Slot)
    requires Inv(heap, ss, b)
    ensures Inv(heap, ss, b.(traced := b.traced + multiset{k}))
  {
    hide HandledOk, RegsOk, BottomsReached, Handled, BottomsOk;
    InvLater(heap, ss, b, b.(traced := b.traced + multiset{k}));
  }

  lemma ValueForwarded(heap: Heap, ss: Stacks, a: Progress, v: nat)
    requires Inv(heap, ss, a) && v in heap
    ensures Inv(heap, ss, a.(forwarded := a.forwarded + {v}, pending := a.pending + {v}))
  {
    hide HandledOk, RegsOk, BottomsReached, Handled, BottomsOk;
    InvLater(heap, ss, a, a.(forwarded := a.forwarded + {v}, pending := a.pending + {v}));
  }

  lemma EvalIsOk(heap: Heap, ss: Stacks, v: nat)
    requires EvalsOk(heap, ss) && v in heap && heap[v].Eval?
    ensures EvalOk(ss, heap[v].tid, heap[v].update)
  {
  }

  lemma ThreadCopied(heap: Heap, ss: Stacks, a: Progress, t: nat)
    requires Inv(heap, ss, a)
    ensures Inv(heap, ss, a.(copied := a.copied + {t}, opening := a.opening + {t}))
  {
    hide HandledOk, RegsOk, BottomsReached, Handled, BottomsOk;
    InvLater(heap, ss, a, a.(copied := a.copied + {t}, opening := a.opening + {t}));
  }

  /** What the thread itself holds has been traced. */
  lemma ThreadSettled(heap: Heap, ss: Stacks, a: Progress, t: nat, b: Progress)
    requires t in ss && t !in a.opening && Inv(heap, ss, b) && AllWithin(heap, ss[t].regs, b.forwarded)
    requires Evolves(heap, ss, a.(copied := a.copied + {t}, opening := a.opening + {t}), b)
    ensures var c := b.(opening := b.opening - {t}); Inv(heap, ss, c) && Evolves(heap, ss, a, c) && t in c.copied
  {
    hide HandledOk, RegsOk, BottomsReached, Handled, BottomsOk, Between, AllWithin;
    InvLater(heap, ss, b, b.(opening := b.opening - {t}));
  }

  /** The value is no longer being traced: what it needs has been seen to. */
  lemma Settled(heap: Heap, ss: Stacks, a: Progress, v: nat, b: Progress)
    requires v in heap && v !in a.pending && Inv(heap, ss, b) && Handled(heap, b, heap[v])
    requires Evolves(heap, ss, a.(forwarded := a.forwarded + {v}, pending := a.pending + {v}), b)
    ensures var c := b.(pending := b.pending - {v}); Inv(heap, ss, c) && Evolves(heap, ss, a, c) && v in c.forwarded
  {
    hide HandledOk, RegsOk, BottomsReached, Handled, BottomsOk, Between;
    var c := b.(pending := b.pending - {v});
    HandledLater(heap, b, c, heap[v]);
    InvLater(heap, ss, b, c);
  }

  // ----- A whole collection -----

  /** After the roots have been traced, each slot of an evacuated part has been traced
      exactly once and its value forwarded, no other slot has been traced, and every
      reached cell's update frame lies in an evacuated part, with all frames above it. */
  ghost predicate Evacuated(heap: Heap, ss: Stacks, pr: Progress) {
    && (forall k :: pr.traced[k] == if IsSlot(ss, k) && k.tid in pr.bottom && k.pos < pr.bottom[k.tid] then 1 else 0)
    && (forall k :: IsSlot(ss, k) && k.tid in pr.bottom && k.pos < pr.bottom[k.tid] && ValueAt(ss, k) in heap ==> ValueAt(ss, k) in pr.forwarded)
    && (forall a :: a in pr.forwarded && a in heap && heap[a].Eval? ==> IsEvacuated(pr, heap[a]))
  }

  /** What has been forwarded is all that the roots need and nothing else: a closed set
      with the roots, inside any other. Tracing fails only because of something in it. */
  method TraceRoots(heap: Heap, stacks: Stacks, roots: seq<nat>, ghost live: set<nat>) returns (ok: bool, c: Collector)
    requires StacksOk(stacks) && EvalsOk(heap, stacks) && IsClosed(heap, stacks, live) && AllWithin(heap, roots, live)
    ensures ok ==> Evacuated(heap, stacks, c.Abs()) && BottomsReached(heap, stacks, c.Abs())
    ensures ok ==> AllWithin(heap, roots, c.forwarded) && IsClosed(heap, stacks, c.forwarded) && c.forwarded <= live
    ensures ok ==> multiset(c.trace) == c.traced && InOrder(c.trace)
    ensures !ok ==> HasBlocker(heap, live)
  {
    hide Inv, Evolves, Evacuated, EvalsOk, IsClosed, AllWithin, InOrder, BottomsReached;
    c := new Collector(heap, stacks, live);
    ghost var a := c.Abs();
    ok := c.TraceAll(roots);
    if ok {
      AllEvacuated(heap, stacks, a, c.Abs());
      ForwardedIsClosed(heap, stacks, c.Abs());
    }
  }

  lemma AllEvacuated(heap: Heap, ss: Stacks, a: Progress, b: Progress)
    requires StacksOk(ss) && a == Progress({}, map t | t in ss :: ss[t].top, multiset{}, {}, {}, {})
    requires Inv(heap, ss, b) && Evolves(heap, ss, a, b)
    ensures Evacuated(heap, ss, b) && b.pending == {} && b.opening == {} && BottomsReached(heap, ss, b)
  {
    hide ValueAt, Slots;
    forall k
      ensures Between(ss, a.bottom, b.bottom, k) <==> IsSlot(ss, k) && k.tid in b.bottom && k.pos < b.bottom[k.tid]
    {
      if IsSlot(ss, k) {
        assert StackOk(ss[k.tid]) && FrameOk(ss[k.tid], k.pos);
      }
    }
    assert b.pending == {};
    forall x | x in b.forwarded && x in heap && heap[x].Eval?
      ensures IsEvacuated(b, heap[x])
    {
      assert Handled(heap, b, heap[x]);
    }
  }

  /** Every value of an evacuated frame, field by field, has been forwarded. */
  lemma FrameForwarded(heap: Heap, ss: Stacks, pr: Progress, t: nat, p: nat)
    requires Evacuated(heap, ss, pr) && t in ss && p in ss[t].frames && t in pr.bottom && p < pr.bottom[t]
    ensures FrameWithin(heap, ss[t].frames[p], pr.forwarded)
  {
    hide Slots, FrameWithin;
    var f := ss[t].frames[p];
    SlotsWithin(heap, f, pr.forwarded);
    forall i | 0 <= i < |Slots(f)|
      ensures Slots(f)[i] in heap ==> Slots(f)[i] in pr.forwarded
    {
      assert IsSlot(ss, Slot(t, p, i)) && ValueAt(ss, Slot(t, p, i)) == Slots(f)[i];
    }
  }

  lemma ForwardedIsClosed(heap: Heap, ss: Stacks, pr: Progress)
    requires StacksOk(ss) && Inv(heap, ss, pr) && Evacuated(heap, ss, pr) && pr.pending == {} && pr.opening == {}
    ensures IsClosed(heap, ss, pr.forwarded)
  {
    hide Evacuated, FrameWithin, AllWithin, StacksOk, BottomsOk, BottomsReached;
    forall a | a in pr.forwarded && a in heap
      ensures NeedsWithin(heap, ss, heap[a], pr.forwarded)
    {
      assert Handled(heap, pr, heap[a]);
      if heap[a].Eval? && heap[a].tid in ss {
        var t := heap[a].tid;
        forall p | p in ss[t].frames && p <= heap[a].update
          ensures FrameWithin(heap, ss[t].frames[p], pr.forwarded)
        {
          FrameForwarded(heap, ss, pr, t, p);
        }
      }
    }
  }

  lemma ReachedBase(heap: Heap, ss: Stacks, pr: Progress, a: nat)
    requires EvalsOk(heap, ss) && Evacuated(heap, ss, pr) && a in pr.forwarded && a in heap && heap[a].Eval?
    ensures EvalOk(ss, heap[a].tid, heap[a].update)
    ensures heap[a].tid in pr.bottom && heap[a].update + UPDATE_SIZE <= pr.bottom[heap[a].tid]
  {
    hide IsSlot, ValueAt, EvalOk;
  }

  lemma TracedOnce(heap: Heap, ss: Stacks, pr: Progress, k: Slot)
    requires Evacuated(heap, ss, pr) && IsSlot(ss, k) && k.tid in pr.bottom && k.pos < pr.bottom[k.tid]
    ensures pr.traced[k] == 1 && (ValueAt(ss, k) in heap ==> ValueAt(ss, k) in pr.forwarded)
  {
    hide IsSlot, ValueAt, IsEvacuated;
  }

  /** A frame survives consolidation if it lies at or above the update frame of a reached
      cell: all of it has been evacuated, once. */
  lemma SurvivorIsEvacuated(heap: Heap, ss: Stacks, pr: Progress, a: nat, k: Slot)
    requires StacksOk(ss) && EvalsOk(heap, ss) && Evacuated(heap, ss, pr)
    requires a in pr.forwarded && a in heap && heap[a].Eval?
    requires IsSlot(ss, k) && k.tid == heap[a].tid && k.pos <= heap[a].update
    ensures k.tid in pr.bottom && k.pos + Size(ss[k.tid].frames[k.pos]) <= pr.bottom[k.tid] && pr.traced[k] == 1
    ensures ValueAt(ss, k) in heap ==> ValueAt(ss, k) in pr.forwarded
  {
    hide ValueAt, Slots, Size, StacksOk, StackOk, EvalsOk, EvalOk, Evacuated, IsBoundary;
    ReachedBase(heap, ss, pr, a);
    BaseIsBoundary(ss, k.tid, heap[a].update);
    SlotIsBoundary(ss, k);
    FrameStops(ss[k.tid], k.pos, heap[a].update + UPDATE_SIZE);
    TracedOnce(heap, ss, pr, k);
  }

  /** Every value that such a frame holds, field by field, has been forwarded. */
  lemma SurvivorIsForwarded(heap: Heap, ss: Stacks, pr: Progress, a: nat, p: nat)
    requires StacksOk(ss) && EvalsOk(heap, ss) && Evacuated(heap, ss, pr)
    requires a in pr.forwarded && a in heap && heap[a].Eval? && p <= heap[a].update
    requires heap[a].tid in ss && p in ss[heap[a].tid].frames
    ensures FrameWithin(heap, ss[heap[a].tid].frames[p], pr.forwarded)
  {
    hide StacksOk, EvalsOk, Evacuated, FrameWithin, EvalOk;
    ReachedBase(heap, ss, pr, a);
    FrameForwarded(heap, ss, pr, heap[a].tid, p);
  }

  lemma SlotIsBoundary(ss: Stacks, k: Slot)
    requires IsSlot(ss, k)
    ensures IsBoundary(ss[k.tid], k.pos)
  {
  }
}
