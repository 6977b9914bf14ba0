/** A whole collection as seen from the stack of one thread: what the tracer of the heap,
    the evacuation of stacks, their consolidation and the update-frame protocol promise
    each other. */
module Collection {
  import H = HeapTrace
  import E = StackEvacuate
  import C = StackConsolidate
  import U = UpdateFrames

  // ----- One thread, seen by each part -----

  /** The words of the stack of `t` and its frames: they agree on the update frames. */
  ghost predicate SameFrames(ss: E.Stacks, t: nat, st: C.Stack) {
    && t in ss && C.IsStack(st)
    && forall i :: 0 <= i < |st.us| ==> st.us[i] in ss[t].frames && ss[t].frames[st.us[i]] == E.UpdateFrame
  }

  /** Each update frame points at a cell under evaluation that points back at it; if the
      cell has a copy, the tracer has reached it. */
  ghost predicate SameCells(eh: E.Heap, pr: E.Progress, t: nat, st: C.Stack, cells: C.Heap)
    requires C.IsStack(st)
  {
    forall i :: 0 <= i < |st.us| ==> SameCell(eh, pr, t, st.us[i], st.w[st.us[i] + C.DEST], cells)
  }

  ghost predicate SameCell(eh: E.Heap, pr: E.Progress, t: nat, u: nat, dest: C.Word, cells: C.Heap) {
    dest.Cell? ==>
      && dest.cell in eh && eh[dest.cell] == E.Eval(t, u)
      && (dest.cell in cells && cells[dest.cell].Forwarded? ==> dest.cell in pr.forwarded)
  }

  /** The forwarding pointers consolidation finds are those the tracer left. */
  ghost predicate SameCopies(s: H.State, cells: C.Heap) {
    forall a :: a in cells && cells[a].Forwarded? ==> a in s.fwd && cells[a].to == s.fwd[a]
  }

  /** The update frames of the words are those of the chain of `t`. */
  ghost predicate SameChain(u: U.State, t: nat, st: C.Stack)
    requires C.IsStack(st)
  {
    forall i :: 0 <= i < |st.us| ==>
      && U.OnChain(u, U.Ref(t, st.us[i])) && U.Ref(t, st.us[i]) in u.frames
      && st.w[st.us[i] + C.DEST] == C.Cell(u.frames[U.Ref(t, st.us[i])].dest)
  }

  ghost predicate SameBefore(u: U.State, t: nat, before: C.Heap) {
    forall a, p: nat :: a in u.cells && u.cells[a] == U.Eval(U.Ref(t, p)) ==> a in before && before[a] == C.EvalCell(p)
  }

  // ----- What is live -----

  /** An object as consolidation sees it. */
  function CellOf(o: H.Obj): C.Item {
    match o
    case Forward(_, to) => C.Forwarded(to)
    case Node(Eval(update), _) => C.EvalCell(update)
    case _ => C.OtherItem
  }

  ghost predicate SameItems(s: H.State, cells: C.Heap) {
    cells.Keys == s.mem.Keys && forall a :: a in cells ==> cells[a] == CellOf(s.mem[a])
  }

  /** Consolidation takes the update frame of a cell for live exactly if the cell could be
      seen from a root, and then finds its copy. */
  lemma LiveIffSeen(h: H.Heap, c: H.Canon, s: H.State, roots: seq<H.Value>, res: seq<H.Value>, cells: C.Heap, a: nat)
    requires H.HeapOk(h) && H.Rebuilt(h, c, s, roots, res) && SameItems(s, cells)
    requires a in h && h[a].Node? && h[a].kind.Eval?
    ensures a in s.fwd <==> H.IsLive(h, c, roots, a)
    ensures C.Judge(cells, h.Keys, C.Cell(a)) == if H.IsLive(h, c, roots, a) then C.Live(s.fwd[a]) else C.Dead
  {
    hide H.IsLive;
    assert a in H.LiveSet(h, c, roots) <==> H.IsLive(h, c, roots, a);
    if a in s.fwd {
      assert H.CopyOk(h, c, s, a, {});
    }
  }

  lemma ToSpaceIsNodes(h: H.Heap, c: H.Canon, s: H.State, a: nat)
    requires H.Inv(h, c, s, {}) && a in s.mem && a !in h
    ensures s.mem[a].Node?
  {
    var b :| b in s.fwd && s.fwd[b] == a;
    assert H.CopyOk(h, c, s, b, {});
  }

  lemma FromSpaceForwards(h: H.Heap, c: H.Canon, s: H.State, a: nat)
    requires H.HeapOk(h) && H.Inv(h, c, s, {}) && a in h
    ensures a in s.mem && (s.mem[a].Forward? ==> a in s.fwd && s.mem[a].to == s.fwd[a])
  {
    if a in s.fwd {
      assert H.CopyOk(h, c, s, a, {});
    } else {
      assert H.ObjOk(h, a);
    }
  }

  /** The copies it finds are those the tracer made. */
  lemma ItemsAreCopies(h: H.Heap, c: H.Canon, s: H.State, cells: C.Heap)
    requires H.HeapOk(h) && H.Inv(h, c, s, {}) && SameItems(s, cells)
    ensures SameCopies(s, cells)
  {
    hide H.Inv, H.HeapOk;
    forall a | a in cells && cells[a].Forwarded?
      ensures a in s.fwd && cells[a].to == s.fwd[a]
    {
      if a !in h {
        ToSpaceIsNodes(h, c, s, a);
      } else {
        FromSpaceForwards(h, c, s, a);
      }
    }
  }

  // ----- Live frames have different cells -----

  /** The protocol makes every cell point back at its one update frame. */
  lemma ProtocolPointsBack(u: U.State, t: nat, st: C.Stack, before: C.Heap)
    requires U.Inv(u) && C.IsStack(st) && SameChain(u, t, st) && SameBefore(u, t, before)
    ensures C.CellsPointBack(before, st)
  {
    hide C.IsStack, U.OnChain, U.Inv;
    forall i | 0 <= i < |st.us|
      ensures st.us[i] + C.DEST < |st.w| && C.PointsBack(before, st.w[st.us[i] + C.DEST], st.us[i])
    {
      C.FramesApart(st, i, i);
      U.FramePointsBack(u, U.Ref(t, st.us[i]));
    }
  }

  /** The tracer copies each object once, to a place of its own. */
  lemma CopiesAreApart(h: H.Heap, s: H.State, cells: C.Heap)
    requires H.FwdOk(h, s) && SameCopies(s, cells)
    ensures C.ForwardedApart(cells)
  {
  }

  /** In a collection over the protocol every live cell points at its moved frame, after
      all frames have been moved. */
  lemma LiveCellsFindFrames(u: U.State, h: H.Heap, s: H.State, before: C.Heap, cells: C.Heap, from: set<nat>, t: nat, st: C.Stack, k: nat)
    requires U.Inv(u) && C.IsStack(st) && SameChain(u, t, st) && SameBefore(u, t, before)
    requires H.FwdOk(h, s) && SameCopies(s, cells)
    requires k < |st.us| && C.Verdicts(cells, from, st)[k].Live?
    ensures var vs := C.Verdicts(cells, from, st);
            && vs[k].to in C.Repointed(st, vs, 0, cells)
            && C.Repointed(st, vs, 0, cells)[vs[k].to] == C.EvalCell(C.NewPosition(st, vs, k))
  {
    hide C.IsStack, C.CellsPointBack, C.ForwardedApart, C.Repointed, C.NewPosition, C.Judge, U.Inv, SameChain, SameBefore, SameCopies, H.FwdOk;
    ProtocolPointsBack(u, t, st, before);
    CopiesAreApart(h, s, cells);
    C.CellsPointAtFrames(before, cells, from, st, k);
  }

  // ----- What is kept has been evacuated -----

  lemma {:induction false} LiveBelow(vs: seq<C.Verdict>, i: nat) returns (j: nat)
    requires C.AnyLive(vs, i)
    ensures i <= j < |vs| && vs[j].Live?
    decreases |vs| - i
  {
    if vs[i].Live? {
      j := i;
    } else {
      j := LiveBelow(vs, i + 1);
    }
  }

  lemma LiveIsReached(eh: E.Heap, pr: E.Progress, t: nat, st: C.Stack, cells: C.Heap, from: set<nat>, j: nat) returns (a: nat)
    requires C.IsStack(st) && SameCells(eh, pr, t, st, cells)
    requires j < |st.us| && C.Verdicts(cells, from, st)[j].Live?
    ensures a in eh && eh[a] == E.Eval(t, st.us[j]) && a in pr.forwarded
  {
    a := st.w[st.us[j] + C.DEST].cell;
    assert SameCell(eh, pr, t, st.us[j], st.w[st.us[j] + C.DEST], cells);
  }

  /** The frames above update frame `i` are kept if some update frame from there down is
      live; then they have been evacuated, each slot traced exactly once. */
  lemma KeptIsEvacuated(eh: E.Heap, ss: E.Stacks, pr: E.Progress, t: nat, st: C.Stack, cells: C.Heap, from: set<nat>, i: nat, k: E.Slot)
    requires E.StacksOk(ss) && E.EvalsOk(eh, ss) && E.Evacuated(eh, ss, pr)
    requires SameFrames(ss, t, st) && SameCells(eh, pr, t, st, cells)
    requires i < |st.us| && E.IsSlot(ss, k) && k.tid == t && C.Above(st, i) <= k.pos < st.us[i]
    requires C.Others(st, C.Verdicts(cells, from, st), i) != []
    ensures t in pr.bottom && k.pos + E.Size(ss[t].frames[k.pos]) <= pr.bottom[t] && pr.traced[k] == 1
    ensures E.ValueAt(ss, k) in eh ==> E.ValueAt(ss, k) in pr.forwarded
  {
    hide C.IsStack, C.Verdicts, E.StacksOk, E.EvalsOk, E.Evacuated, E.IsSlot, E.ValueAt, SameCells, C.Above, C.AnyLive;
    var vs := C.Verdicts(cells, from, st);
    var j := LiveBelow(vs, i);
    var a := LiveIsReached(eh, pr, t, st, cells, from, j);
    C.FramesApart(st, i, j);
    E.SurvivorIsEvacuated(eh, ss, pr, a, k);
  }

  /** So has every value of such a frame, field by field. */
  lemma KeptIsForwarded(eh: E.Heap, ss: E.Stacks, pr: E.Progress, t: nat, st: C.Stack, cells: C.Heap, from: set<nat>, i: nat, p: nat)
    requires E.StacksOk(ss) && E.EvalsOk(eh, ss) && E.Evacuated(eh, ss, pr)
    requires SameFrames(ss, t, st) && SameCells(eh, pr, t, st, cells)
    requires i < |st.us| && p in ss[t].frames && C.Above(st, i) <= p < st.us[i]
    requires C.Others(st, C.Verdicts(cells, from, st), i) != []
    ensures E.FrameWithin(eh, ss[t].frames[p], pr.forwarded)
  {
    hide C.IsStack, C.Verdicts, E.StacksOk, E.EvalsOk, E.Evacuated, E.FrameWithin, SameCells, C.Above, C.AnyLive;
    var j := LiveBelow(C.Verdicts(cells, from, st), i);
    var a := LiveIsReached(eh, pr, t, st, cells, from, j);
    C.FramesApart(st, i, j);
    E.SurvivorIsForwarded(eh, ss, pr, a, p);
  }

  // ----- No slot of a kept frame points into from-space -----

  /** A slot as the tracer of the heap sees it: a pointer if it holds an object of the
      heap. */
  ghost function RootOf(h: H.Heap, ss: E.Stacks, k: E.Slot): H.Value {
    if !E.IsSlot(ss, k) then H.Null
    else if E.ValueAt(ss, k) in h then H.Ptr(E.ValueAt(ss, k)) else H.Unboxed(E.ValueAt(ss, k))
  }

  /** The slots that evacuation has traced, in the order in which they were. */
  ghost predicate IsTrace(pr: E.Progress, trace: seq<E.Slot>) {
    multiset(trace) == pr.traced
  }

  /** What the tracer of the heap is called on: what these slots hold, after other roots. */
  ghost function Roots(h: H.Heap, ss: E.Stacks, others: seq<H.Value>, trace: seq<E.Slot>): (roots: seq<H.Value>)
    ensures |roots| == |others| + |trace|
    ensures forall j :: 0 <= j < |trace| ==> roots[|others| + j] == RootOf(h, ss, trace[j])
  {
    others + seq(|trace|, j requires 0 <= j < |trace| => RootOf(h, ss, trace[j]))
  }

  lemma TracedOnce(pr: E.Progress, trace: seq<E.Slot>, k: E.Slot)
    requires IsTrace(pr, trace) && pr.traced[k] == 1
    ensures exists j :: 0 <= j < |trace| && trace[j] == k
    ensures forall i, j :: 0 <= i < j < |trace| && trace[i] == k ==> trace[j] != k
  {
    assert multiset(trace)[k] == 1;
    assert k in multiset(trace);
    forall i, j | 0 <= i < j < |trace| && trace[i] == k
      ensures trace[j] != k
    {
      assert trace == trace[..j] + [trace[j]] + trace[j + 1..];
      assert k in multiset(trace[..j]);
    }
  }

  /** A collection traces the stacks and with them the heap: after it a slot of a kept
      frame, which was traced once, holds a copy or no pointer: the copy of what it held
      before. */
  lemma KeptHoldsNoOldPointer(eh: E.Heap, ss: E.Stacks, pr: E.Progress, t: nat, st: C.Stack, cells: C.Heap, from: set<nat>, i: nat, k: E.Slot,
                              h: H.Heap, c: H.Canon, s: H.State, others: seq<H.Value>, trace: seq<E.Slot>, res: seq<H.Value>) returns (j: nat)
    requires E.StacksOk(ss) && E.EvalsOk(eh, ss) && E.Evacuated(eh, ss, pr)
    requires SameFrames(ss, t, st) && SameCells(eh, pr, t, st, cells)
    requires i < |st.us| && E.IsSlot(ss, k) && k.tid == t && C.Above(st, i) <= k.pos < st.us[i]
    requires C.Others(st, C.Verdicts(cells, from, st), i) != []
    requires IsTrace(pr, trace) && H.Rebuilt(h, c, s, Roots(h, ss, others, trace), res)
    ensures j < |trace| && trace[j] == k && forall j' :: 0 <= j' < |trace| && trace[j'] == k ==> j' == j
    ensures |res| == |others| + |trace|
    ensures var now := res[|others| + j];
            && (now.Ptr? ==> now.addr in s.mem && now.addr !in h)
            && (E.ValueAt(ss, k) in h ==> H.Done(c, s.fwd, H.Ptr(E.ValueAt(ss, k)), now))
            && (E.ValueAt(ss, k) !in h ==> now == H.Unboxed(E.ValueAt(ss, k)))
  {
    hide C.IsStack, C.Verdicts, E.StacksOk, E.EvalsOk, E.Evacuated, E.IsSlot, E.ValueAt, SameCells, SameFrames, C.Above, C.AnyLive, C.Others, H.Inv, H.LiveSet, E.Size, IsTrace, Roots, H.Done;
    KeptIsEvacuated(eh, ss, pr, t, st, cells, from, i, k);
    TracedOnce(pr, trace, k);
    j :| 0 <= j < |trace| && trace[j] == k;
    var roots := Roots(h, ss, others, trace);
    H.DonePointsToCopy(h, c, s, roots[|others| + j], res[|others| + j]);
    UnboxedIsDone(c, s.fwd, E.ValueAt(ss, k), res[|others| + j]);
  }

  lemma UnboxedIsDone(c: H.Canon, fwd: map<nat, nat>, word: nat, v: H.Value)
    ensures H.Done(c, fwd, H.Unboxed(word), v) <==> v == H.Unboxed(word)
  {
  }
}
