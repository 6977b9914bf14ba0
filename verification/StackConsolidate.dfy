/** `ace_stack_post_gc_consolidate` of `acestack.c`: after a collection, the stack of
    a thread is compacted in place. Update frames whose cell is dead disappear, and so
    does all that lies below the deepest live update frame.

    The stack grows towards lower indices of a word array; a pointer into the stack is
    an index, and no pointer is -1. */
module StackConsolidate {

  // sizes in words: struct ace_cont, struct gsbc_cont_update, struct ace_stack_ubanalyze_cont
  const UPDATE_SIZE := 5
  const DEST := 3
  const NEXT := 4

  datatype NodeTag = UpdateTag | AppTag | ForceTag | StrictTag | UbanalyzeTag

  datatype Word =
    | Node(tag: NodeTag)
    | Cell(cell: nat)
    | Link(next: int)
    | Bco(numargs: nat)
    | Constr(number: nat)
    | Plain(bits: nat)

  // ----- Cells -----

  datatype Item = Forwarded(to: nat) | EvalCell(update: int) | OtherItem

  datatype Verdict = Live(to: nat) | Dead | Broken

  type Heap = map<nat, Item>

  /** What the collector knows of the cell an update frame points at. `Broken` stands
      for the error returns. */
  function Judge(heap: Heap, from: set<nat>, dest: Word): Verdict {
    if !dest.Cell? || dest.cell !in heap || dest.cell !in from then Broken else
    match heap[dest.cell]
    case Forwarded(to) => if to in heap && heap[to].EvalCell? && to !in from then Live(to) else Broken
    case EvalCell(_) => Dead
    case OtherItem => Broken
  }

  /** A cell is live if it has been forwarded to a cell under evaluation outside
      from-space, dead if it is one in from-space itself; anything else is an error. */
  lemma JudgeIff(heap: Heap, from: set<nat>, a: nat)
    requires a in heap && a in from
    ensures forall to :: Judge(heap, from, Cell(a)) == Live(to) <==>
                           heap[a] == Forwarded(to) && to in heap && to !in from && heap[to].EvalCell?
    ensures Judge(heap, from, Cell(a)) == Dead <==> heap[a].EvalCell?
  {
  }

  // ----- The stack before -----

  /** The words of the stack, and the positions of its update frames from the top
      down, which is in ascending order. */
  datatype Stack = Stack(w: seq<Word>, us: seq<nat>, top: nat, bot: nat)

  /** Where update frame `i` is, or -1. */
  function At(us: seq<nat>, i: int): int {
    if 0 <= i < |us| then us[i] else -1
  }

  /** The end of update frame `i - 1`, or the top of the stack. */
  function Above(s: Stack, i: nat): nat {
    if 0 < i <= |s.us| then s.us[i - 1] + UPDATE_SIZE else s.top
  }

  ghost predicate Within(us: seq<nat>, top: nat, bot: nat) {
    forall i :: 0 <= i < |us| ==> top <= us[i] && us[i] + UPDATE_SIZE <= bot
  }

  ghost predicate InOrder(us: seq<nat>) {
    forall i, j :: 0 <= i < j < |us| ==> us[i] + UPDATE_SIZE <= us[j]
  }

  /** The update frames are disjoint, in order, and linked by their chain; the bottom
      frame is an update frame, since evaluation starts by pushing one. */
  ghost predicate IsStack(s: Stack) {
    && s.top <= s.bot <= |s.w|
    && Within(s.us, s.top, s.bot) && InOrder(s.us)
    && (s.us != [] ==> Above(s, |s.us|) == s.bot)
  }

  ghost predicate PointsDown(s: Stack, w: seq<Word>, i: int)
    requires IsStack(s) && |w| == |s.w| && 0 <= i < |s.us|
  {
    w[s.us[i] + NEXT] == Link(At(s.us, i + 1))
  }

  ghost predicate PointsUp(s: Stack, w: seq<Word>, i: int)
    requires IsStack(s) && |w| == |s.w| && 0 <= i < |s.us|
  {
    w[s.us[i] + NEXT] == Link(At(s.us, i - 1))
  }

  ghost predicate IsLinked(s: Stack, w: seq<Word>)
    requires IsStack(s) && |w| == |s.w|
  {
    forall i :: 0 <= i < |s.us| ==> PointsDown(s, w, i)
  }

  // ----- The stack after -----

  /** An update frame at or below number `i` is live. */
  predicate AnyLive(vs: seq<Verdict>, i: nat)
    decreases |vs| - i
  {
    i < |vs| && (vs[i].Live? || AnyLive(vs, i + 1))
  }

  /** The frames above update frame `i`, up to the next update frame. */
  function Others(s: Stack, vs: seq<Verdict>, i: nat): (r: seq<Word>)
    requires IsStack(s) && i < |s.us|
  {
    if AnyLive(vs, i) then s.w[Above(s, i)..s.us[i]] else []
  }

  /** A live update frame points at the copy of its cell and at the next kept frame. */
  function MovedFrame(s: Stack, i: nat, to: nat, down: int): (r: seq<Word>)
    requires IsStack(s) && i < |s.us|
    ensures |r| == UPDATE_SIZE
  {
    s.w[s.us[i]..s.us[i] + UPDATE_SIZE][DEST := Cell(to)][NEXT := Link(down)]
  }

  /** What is left of the part of the stack from the end of update frame `i - 1` to
      the bottom. */
  function Kept(s: Stack, vs: seq<Verdict>, i: nat): (r: seq<Word>)
    requires IsStack(s) && |vs| == |s.us| && i <= |vs|
    ensures |r| <= s.bot - Above(s, i)
    decreases |vs| - i
  {
    if i == |vs| then [] else Others(s, vs, i) + KeptFrom(s, vs, i)
  }

  /** The same from the position of update frame `i`. */
  function KeptFrom(s: Stack, vs: seq<Verdict>, i: nat): (r: seq<Word>)
    requires IsStack(s) && |vs| == |s.us| && i < |vs|
    ensures |r| <= s.bot - s.us[i]
    decreases |vs| - i, 0
  {
    (if vs[i].Live? then MovedFrame(s, i, vs[i].to, Down(s, vs, i + 1)) else []) + Kept(s, vs, i + 1)
  }

  /** The new position of the first kept update frame numbered `i` or more, or -1. */
  function Down(s: Stack, vs: seq<Verdict>, i: nat): int
    requires IsStack(s) && |vs| == |s.us| && i <= |vs|
    decreases |vs| - i, 1
  {
    if i == |vs| then -1
    else if vs[i].Live? then NewPosition(s, vs, i)
    else Down(s, vs, i + 1)
  }

  function NewPosition(s: Stack, vs: seq<Verdict>, i: nat): (r: nat)
    requires IsStack(s) && |vs| == |s.us| && i < |vs|
    ensures s.us[i] <= r && r + UPDATE_SIZE <= s.bot
    decreases |vs| - i, 0
  {
    s.bot - |Kept(s, vs, i + 1)| - UPDATE_SIZE
  }

  /** The cells once the live ones among update frames `i` and up point at their
      moved frames. */
  function Repointed(s: Stack, vs: seq<Verdict>, i: nat, heap: Heap): Heap
    requires IsStack(s) && |vs| == |s.us| && i <= |vs|
    decreases |vs| - i
  {
    if i == |vs| then heap else
      var h := Repointed(s, vs, i + 1, heap);
      if vs[i].Live? then h[vs[i].to := EvalCell(NewPosition(s, vs, i))] else h
  }

  // ----- The compaction -----

  /** The links of the update frames from number `i` down, reversed. */
  ghost predicate LinkedUp(s: Stack, w: seq<Word>, i: nat)
    requires IsStack(s) && |w| == |s.w| && i <= |s.us|
  {
    forall k :: 0 <= k < i ==> PointsUp(s, w, k)
  }

  ghost predicate LinkedDown(s: Stack, w: seq<Word>, i: nat)
    requires IsStack(s) && |w| == |s.w| && i <= |s.us|
  {
    forall k :: i <= k < |s.us| ==> PointsDown(s, w, k)
  }

  /** Up to `end`, only links of update frames differ from the original words. */
  ghost predicate SameButLinks(s: Stack, w: seq<Word>, end: nat)
    requires |w| == |s.w|
  {
    forall p :: 0 <= p < end && p < |w| && !IsLink(s, p) ==> w[p] == s.w[p]
  }

  ghost predicate IsLink(s: Stack, p: nat) {
    exists k :: 0 <= k < |s.us| && p == s.us[k] + NEXT
  }

  lemma FramesApart(s: Stack, i: nat, k: nat)
    requires IsStack(s) && i < |s.us| && k < |s.us|
    ensures s.us[k] + NEXT < s.bot <= |s.w|
    ensures i < k ==> s.us[i] + UPDATE_SIZE <= s.us[k]
    ensures k < i ==> s.us[k] + UPDATE_SIZE <= s.us[i]
  {
  }

  lemma LinkStepUp(s: Stack, w: seq<Word>, w': seq<Word>, i: nat)
    requires IsStack(s) && |w| == |s.w| && i < |s.us| && LinkedUp(s, w, i)
    requires s.us[i] + NEXT < |w| && w' == w[s.us[i] + NEXT := Link(At(s.us, i - 1))]
    ensures LinkedUp(s, w', i + 1)
  {
    forall k | 0 <= k < i + 1
      ensures PointsUp(s, w', k)
    {
      FramesApart(s, i, k);
      assert k < i ==> PointsUp(s, w, k);
    }
  }

  lemma LinkStepDown(s: Stack, w: seq<Word>, w': seq<Word>, i: nat)
    requires IsStack(s) && |w| == |s.w| && i < |s.us| && LinkedDown(s, w, i)
    requires s.us[i] + NEXT < |w| && w' == w[s.us[i] + NEXT := Link(At(s.us, i - 1))]
    ensures LinkedDown(s, w', i + 1)
  {
    forall k | i + 1 <= k < |s.us|
      ensures PointsDown(s, w', k)
    {
      FramesApart(s, i, k);
      assert PointsDown(s, w, k);
    }
  }

  lemma LinkStep(s: Stack, w: seq<Word>, i: nat)
    requires IsStack(s) && |w| == |s.w| && i < |s.us|
    requires LinkedUp(s, w, i) && LinkedDown(s, w, i) && SameButLinks(s, w, |w|)
    ensures s.us[i] + NEXT < |w|
    ensures var w' := w[s.us[i] + NEXT := Link(At(s.us, i - 1))];
            LinkedUp(s, w', i + 1) && LinkedDown(s, w', i + 1) && SameButLinks(s, w', |w'|)
  {
    FramesApart(s, i, i);
    hide IsLink, SameButLinks, LinkedUp, LinkedDown;
    var w' := w[s.us[i] + NEXT := Link(At(s.us, i - 1))];
    LinkStepUp(s, w, w', i);
    LinkStepDown(s, w, w', i);
    SameAfterLink(s, w, i, Link(At(s.us, i - 1)));
  }

  lemma SameAfterLink(s: Stack, w: seq<Word>, i: nat, v: Word)
    requires |w| == |s.w| && i < |s.us| && s.us[i] + NEXT < |w| && SameButLinks(s, w, |w|)
    ensures SameButLinks(s, w[s.us[i] + NEXT := v], |w|)
  {
    assert IsLink(s, s.us[i] + NEXT);
  }

  // ----- Moving the frames -----

  /** A word of an update frame that is rewritten. */
  ghost predicate IsPointer(s: Stack, p: nat) {
    exists k :: 0 <= k < |s.us| && (p == s.us[k] + NEXT || p == s.us[k] + DEST)
  }

  /** Nothing below `end` has been written but pointers of update frames. */
  ghost predicate Untouched(s: Stack, w: seq<Word>, end: nat)
    requires |w| == |s.w|
  {
    forall p :: 0 <= p < end && p < |w| && !IsPointer(s, p) ==> w[p] == s.w[p]
  }

  /** The end of the unread part of the stack when the update frames from number `i`
      on have been handled. */
  function Src(s: Stack, i: nat): nat {
    if i == |s.us| then s.bot else Above(s, i)
  }

  /** The memory when the update frames from number `i` on have been handled: what is
      kept of them is in place, and what lies above them is unread and intact. */
  ghost predicate Moved(s: Stack, vs: seq<Verdict>, w: seq<Word>, i: nat)
    requires IsStack(s) && |vs| == |s.us| && i <= |vs| && |w| == |s.w|
  {
    && w[s.bot - |Kept(s, vs, i)|..s.bot] == Kept(s, vs, i)
    && w[s.bot..] == s.w[s.bot..]
    && LinkedUp(s, w, i)
    && SameButLinks(s, w, Src(s, i))
    && Untouched(s, w, s.bot - |Kept(s, vs, i)|)
  }

  /** The same after only the update frame itself was handled. */
  ghost predicate FrameMoved(s: Stack, vs: seq<Verdict>, w: seq<Word>, i: nat)
    requires IsStack(s) && |vs| == |s.us| && i < |vs| && |w| == |s.w|
  {
    && w[s.bot - |KeptFrom(s, vs, i)|..s.bot] == KeptFrom(s, vs, i)
    && w[s.bot..] == s.w[s.bot..]
    && LinkedUp(s, w, i)
    && SameButLinks(s, w, s.us[i])
    && Untouched(s, w, s.bot - |KeptFrom(s, vs, i)|)
  }

  /** `memmove`, as a function of the memory. */
  function Blit(w: seq<Word>, dest: nat, src: nat, sz: nat): (r: seq<Word>)
    requires dest + sz <= |w| && src + sz <= |w|
    ensures |r| == |w|
  {
    w[..dest] + w[src..src + sz] + w[dest + sz..]
  }

  lemma BlitKeepsBelow(s: Stack, w: seq<Word>, i: nat, dest: nat, src: nat, sz: nat, end: nat)
    requires IsStack(s) && |w| == |s.w| && i <= |s.us|
    requires LinkedUp(s, w, i) && SameButLinks(s, w, end) && Untouched(s, w, dest)
    requires dest + sz <= |w| && src + sz <= |w| && end <= dest
    requires i > 0 ==> s.us[i - 1] + UPDATE_SIZE <= end
    ensures LinkedUp(s, Blit(w, dest, src, sz), i) && SameButLinks(s, Blit(w, dest, src, sz), end)
    ensures Untouched(s, Blit(w, dest, src, sz), dest)
  {
    var w' := Blit(w, dest, src, sz);
    forall k | 0 <= k < i
      ensures PointsUp(s, w', k)
    {
      assert PointsUp(s, w, k);
      if k < i - 1 {
        FramesApart(s, k, i - 1);
      }
    }
  }

  lemma NotALink(s: Stack, i: nat, p: nat)
    requires IsStack(s) && i < |s.us|
    requires s.us[i] <= p < s.us[i] + UPDATE_SIZE && p != s.us[i] + NEXT
    ensures !IsLink(s, p)
  {
    forall k | 0 <= k < |s.us|
      ensures p != s.us[k] + NEXT
    {
      FramesApart(s, i, k);
    }
  }

  lemma NotALinkAbove(s: Stack, i: nat, p: nat)
    requires IsStack(s) && i < |s.us| && Above(s, i) <= p < s.us[i]
    ensures !IsLink(s, p)
  {
    forall k | 0 <= k < |s.us|
      ensures p != s.us[k] + NEXT
    {
      FramesApart(s, i, k);
      if i > 0 {
        FramesApart(s, i - 1, k);
      }
    }
  }

  lemma BottomFrame(s: Stack, i: nat)
    requires IsStack(s) && i < |s.us|
    ensures Src(s, i + 1) == s.us[i] + UPDATE_SIZE <= s.bot <= |s.w|
    ensures Above(s, i) <= s.us[i]
  {
    if i > 0 {
      FramesApart(s, i - 1, i);
    }
  }

  /** One word written. */
  function Put(w: seq<Word>, p: nat, word: Word): (r: seq<Word>)
    requires p < |w|
    ensures |r| == |w|
  {
    w[p := word]
  }

  /** The frame as it is rewritten before the move. */
  function Rewritten(w: seq<Word>, u: nat, to: nat, down: int): (r: seq<Word>)
    requires u + UPDATE_SIZE <= |w|
    ensures |r| == |w|
  {
    Put(Put(w, u + NEXT, Link(down)), u + DEST, Cell(to))
  }

  lemma RewrittenFrame(s: Stack, w: seq<Word>, i: nat, to: nat, down: int)
    requires IsStack(s) && |w| == |s.w| && i < |s.us| && SameButLinks(s, w, s.us[i] + UPDATE_SIZE)
    ensures Rewritten(w, s.us[i], to, down)[s.us[i]..s.us[i] + UPDATE_SIZE] == MovedFrame(s, i, to, down)
  {
    var u := s.us[i];
    var l, r := Rewritten(w, u, to, down)[u..u + UPDATE_SIZE], MovedFrame(s, i, to, down);
    forall j | 0 <= j < UPDATE_SIZE
      ensures l[j] == r[j]
    {
      if j != NEXT {
        NotALink(s, i, u + j);
      }
    }
  }

  /** Rewriting words of frame `i` leaves the frames above it and all that was moved. */
  lemma RewritingIsLocal(s: Stack, vs: seq<Verdict>, w: seq<Word>, w': seq<Word>, i: nat)
    requires IsStack(s) && |vs| == |s.us| && i < |vs| && |w| == |w'| == |s.w|
    requires Moved(s, vs, w, i + 1)
    requires forall p :: 0 <= p < |w| && p != s.us[i] + NEXT && p != s.us[i] + DEST ==> w'[p] == w[p]
    ensures LinkedUp(s, w', i) && SameButLinks(s, w', s.us[i])
    ensures w'[s.bot..] == s.w[s.bot..]
    ensures w'[s.bot - |Kept(s, vs, i + 1)|..s.bot] == Kept(s, vs, i + 1)
    ensures Untouched(s, w', s.bot - |Kept(s, vs, i + 1)|)
  {
    BottomFrame(s, i);
    assert IsPointer(s, s.us[i] + NEXT) && IsPointer(s, s.us[i] + DEST);
    var dest := s.bot - |Kept(s, vs, i + 1)|;
    assert s.us[i] + UPDATE_SIZE <= dest;
    hide Kept, IsStack, Within, InOrder;
    SameStretch(w, w', dest, s.bot);
    SameStretch(w, w', s.bot, |w|);
    forall k | 0 <= k < i
      ensures PointsUp(s, w', k)
    {
      FramesApart(s, k, i);
      assert PointsUp(s, w, k);
    }
  }

  lemma SameStretch(w: seq<Word>, w': seq<Word>, lo: nat, hi: nat)
    requires lo <= hi <= |w| == |w'| && forall p :: lo <= p < hi ==> w'[p] == w[p]
    ensures w'[lo..hi] == w[lo..hi]
    ensures hi == |w| ==> w'[lo..] == w[lo..]
  {
  }

  lemma LiveFrameIsKept(s: Stack, vs: seq<Verdict>, i: nat)
    requires IsStack(s) && |vs| == |s.us| && i < |vs| && vs[i].Live?
    ensures KeptFrom(s, vs, i) == MovedFrame(s, i, vs[i].to, Down(s, vs, i + 1)) + Kept(s, vs, i + 1)
    ensures NewPosition(s, vs, i) == s.bot - |KeptFrom(s, vs, i)|
    ensures NewPosition(s, vs, i) + UPDATE_SIZE == s.bot - |Kept(s, vs, i + 1)|
  {
  }

  /** A block moved to just before another leaves the two next to each other. */
  lemma BlitPlaces(w: seq<Word>, dest: nat, src: nat, sz: nat, end: nat)
    requires dest + sz <= end <= |w| && src + sz <= |w|
    ensures Blit(w, dest, src, sz)[dest..end] == w[src..src + sz] + w[dest + sz..end]
    ensures Blit(w, dest, src, sz)[end..] == w[end..]
  {
    BlitAt(w, dest, src, sz);
    var b := Blit(w, dest, src, sz);
    hide Blit;
    var l, r := b[dest..end], w[src..src + sz] + w[dest + sz..end];
    forall j | 0 <= j < |l|
      ensures l[j] == r[j]
    {
      assert l[j] == b[dest + j];
    }
  }

  lemma BlitAt(w: seq<Word>, dest: nat, src: nat, sz: nat)
    requires dest + sz <= |w| && src + sz <= |w|
    ensures forall p :: 0 <= p < |w| ==> Blit(w, dest, src, sz)[p] == if dest <= p < dest + sz then w[src + (p - dest)] else w[p]
  {
  }

  lemma MoveLiveFrame(s: Stack, vs: seq<Verdict>, w: seq<Word>, i: nat)
    requires IsStack(s) && |vs| == |s.us| && i < |vs| && |w| == |s.w|
    requires Moved(s, vs, w, i + 1) && vs[i].Live?
    ensures s.us[i] + UPDATE_SIZE <= |w| && NewPosition(s, vs, i) + UPDATE_SIZE <= |w|
    ensures FrameMoved(s, vs, Blit(Rewritten(w, s.us[i], vs[i].to, Down(s, vs, i + 1)),
                                   NewPosition(s, vs, i), s.us[i], UPDATE_SIZE), i)
  {
    hide Kept, KeptFrom, Down, SameButLinks, LinkedUp, Untouched;
    BottomFrame(s, i);
    var u, dest := s.us[i], NewPosition(s, vs, i);
    var frame := MovedFrame(s, i, vs[i].to, Down(s, vs, i + 1));
    var w1 := Rewritten(w, u, vs[i].to, Down(s, vs, i + 1));
    var w2 := Blit(w1, dest, u, UPDATE_SIZE);
    RewrittenFrame(s, w, i, vs[i].to, Down(s, vs, i + 1));
    RewritingIsLocal(s, vs, w, w1, i);
    UntouchedBelow(s, w1, s.bot - |Kept(s, vs, i + 1)|, dest);
    BlitKeepsBelow(s, w1, i, dest, u, UPDATE_SIZE, u);
    LiveFrameIsKept(s, vs, i);
    BlitPlaces(w1, dest, u, UPDATE_SIZE, s.bot);
  }

  lemma SkipDeadFrame(s: Stack, vs: seq<Verdict>, w: seq<Word>, i: nat)
    requires IsStack(s) && |vs| == |s.us| && i < |vs| && |w| == |s.w|
    requires Moved(s, vs, w, i + 1) && !vs[i].Live?
    ensures s.us[i] + NEXT < |w|
    ensures FrameMoved(s, vs, w[s.us[i] + NEXT := Link(Down(s, vs, i + 1))], i)
  {
    RewritingIsLocal(s, vs, w, w[s.us[i] + NEXT := Link(Down(s, vs, i + 1))], i);
  }

  lemma OthersInPlace(s: Stack, w: seq<Word>, i: nat)
    requires IsStack(s) && |w| == |s.w| && i < |s.us| && SameButLinks(s, w, s.us[i])
    ensures Above(s, i) <= s.us[i]
    ensures w[Above(s, i)..s.us[i]] == s.w[Above(s, i)..s.us[i]]
  {
    BottomFrame(s, i);
    forall p | Above(s, i) <= p < s.us[i]
      ensures w[p] == s.w[p]
    {
      NotALinkAbove(s, i, p);
    }
  }

  lemma OthersAreKept(s: Stack, vs: seq<Verdict>, i: nat)
    requires IsStack(s) && |vs| == |s.us| && i < |vs| && AnyLive(vs, i)
    ensures Above(s, i) <= s.us[i] <= |s.w|
    ensures Kept(s, vs, i) == s.w[Above(s, i)..s.us[i]] + KeptFrom(s, vs, i)
  {
    BottomFrame(s, i);
  }

  lemma MoveOthers(s: Stack, vs: seq<Verdict>, w: seq<Word>, i: nat)
    requires IsStack(s) && |vs| == |s.us| && i < |vs| && |w| == |s.w|
    requires FrameMoved(s, vs, w, i) && AnyLive(vs, i)
    ensures var sz := s.us[i] - Above(s, i);
            && 0 <= sz <= s.bot - |KeptFrom(s, vs, i)|
            && Moved(s, vs, Blit(w, s.bot - |KeptFrom(s, vs, i)| - sz, Above(s, i), sz), i)
            && |Kept(s, vs, i)| == |KeptFrom(s, vs, i)| + sz
  {
    hide Kept, KeptFrom, AnyLive, IsStack, Within, InOrder, SameButLinks, LinkedUp, Untouched, Blit;
    OthersAreKept(s, vs, i);
    BottomFrame(s, i);
    var end, sz := s.bot - |KeptFrom(s, vs, i)|, s.us[i] - Above(s, i);
    OthersInPlace(s, w, i);
    SameBelow(s, w, s.us[i], Above(s, i));
    UntouchedBelow(s, w, end, end - sz);
    BlitKeepsBelow(s, w, i, end - sz, Above(s, i), sz, Above(s, i));
    BlitPlaces(w, end - sz, Above(s, i), sz, s.bot);
  }

  lemma UntouchedBelow(s: Stack, w: seq<Word>, end: nat, end': nat)
    requires |w| == |s.w| && Untouched(s, w, end) && end' <= end
    ensures Untouched(s, w, end')
  {
  }

  lemma SameBelow(s: Stack, w: seq<Word>, end: nat, end': nat)
    requires |w| == |s.w| && SameButLinks(s, w, end) && end' <= end
    ensures SameButLinks(s, w, end')
  {
  }

  lemma DropOthers(s: Stack, vs: seq<Verdict>, w: seq<Word>, i: nat)
    requires IsStack(s) && |vs| == |s.us| && i < |vs| && |w| == |s.w|
    requires FrameMoved(s, vs, w, i) && !AnyLive(vs, i)
    ensures Moved(s, vs, w, i)
    ensures |Kept(s, vs, i)| == |KeptFrom(s, vs, i)|
  {
    BottomFrame(s, i);
  }


  // ----- Verdicts while cells are being repointed -----

  function Verdicts(heap: Heap, from: set<nat>, s: Stack): (vs: seq<Verdict>)
    requires IsStack(s)
    ensures |vs| == |s.us|
  {
    seq(|s.us|, i requires 0 <= i < |s.us| => Judge(heap, from, s.w[s.us[i] + DEST]))
  }

  ghost predicate SameShape(h: Heap, h': Heap) {
    && h.Keys == h'.Keys
    && forall a :: a in h ==> h'[a] == h[a] || (h[a].EvalCell? && h'[a].EvalCell?)
  }

  lemma RepointedShape(s: Stack, vs: seq<Verdict>, i: nat, from: set<nat>, heap: Heap)
    requires IsStack(s) && vs == Verdicts(heap, from, s) && i <= |vs|
    ensures SameShape(heap, Repointed(s, vs, i, heap))
    decreases |vs| - i
  {
    if i < |vs| {
      RepointedShape(s, vs, i + 1, from, heap);
    }
  }

  lemma JudgeIsStable(h: Heap, h': Heap, from: set<nat>, dest: Word)
    requires SameShape(h, h')
    ensures Judge(h', from, dest) == Judge(h, from, dest)
  {
  }

  lemma DestIsRead(s: Stack, vs: seq<Verdict>, w: seq<Word>, i: nat)
    requires IsStack(s) && |vs| == |s.us| && i < |vs| && |w| == |s.w| && Moved(s, vs, w, i + 1)
    ensures s.us[i] + UPDATE_SIZE <= |w| && w[s.us[i] + DEST] == s.w[s.us[i] + DEST]
  {
    BottomFrame(s, i);
    NotALink(s, i, s.us[i] + DEST);
  }

  lemma UpLink(s: Stack, vs: seq<Verdict>, w: seq<Word>, i: nat)
    requires IsStack(s) && |vs| == |s.us| && i < |vs| && |w| == |s.w| && Moved(s, vs, w, i + 1)
    ensures s.us[i] + UPDATE_SIZE <= |w| && w[s.us[i] + NEXT] == Link(At(s.us, i - 1))
  {
    assert PointsUp(s, w, i);
  }

  /** Where the loop stands when update frames `i` and up have been handled. */
  ghost predicate Handled(s: Stack, vs: seq<Verdict>, w: seq<Word>, i: nat, heap0: Heap, from: set<nat>, heap: Heap) {
    && IsStack(s) && vs == Verdicts(heap0, from, s) && i <= |vs| && |w| == |s.w|
    && Moved(s, vs, w, i) && heap == Repointed(s, vs, i, heap0)
  }

  /** The cursors of the loop when update frames `i` and up have been handled. */
  ghost predicate AtRound(s: Stack, vs: seq<Verdict>, i: nat, src: nat, dest: nat, down: int, isLive: bool) {
    && IsStack(s) && |vs| == |s.us| && i <= |vs|
    && src == Src(s, i) && dest == s.bot - |Kept(s, vs, i)| && down == Down(s, vs, i) && isLive == AnyLive(vs, i)
  }

  /** Where the round stands when only its update frame was handled. */
  ghost predicate FrameHandled(s: Stack, vs: seq<Verdict>, w: seq<Word>, i: nat, heap0: Heap, from: set<nat>,
                               heap: Heap, dest: nat, down: int) {
    && IsStack(s) && vs == Verdicts(heap0, from, s) && i < |vs| && |w| == |s.w|
    && FrameMoved(s, vs, w, i) && heap == Repointed(s, vs, i, heap0)
    && dest == s.bot - |KeptFrom(s, vs, i)| && down == Down(s, vs, i)
  }

  lemma FrameFits(s: Stack, vs: seq<Verdict>, w: seq<Word>, i: nat, heap0: Heap, from: set<nat>, heap: Heap)
    requires Handled(s, vs, w, i + 1, heap0, from, heap)
    ensures s.us[i] + UPDATE_SIZE == Src(s, i + 1) <= s.bot - |Kept(s, vs, i + 1)| <= |w|
    ensures Judge(heap, from, w[s.us[i] + DEST]) == vs[i]
  {
    BottomFrame(s, i);
    DestIsRead(s, vs, w, i);
    hide Moved, Repointed, Kept;
    RepointedShape(s, vs, i + 1, from, heap0);
    JudgeIsStable(heap0, heap, from, w[s.us[i] + DEST]);
  }

  /** The words and sizes the round reads. */
  lemma FrameReads(s: Stack, vs: seq<Verdict>, w: seq<Word>, i: nat, heap0: Heap, from: set<nat>, heap: Heap,
                   src: nat, dest: nat, down: int, isLive: bool)
    requires Handled(s, vs, w, i + 1, heap0, from, heap) && AtRound(s, vs, i + 1, src, dest, down, isLive)
    ensures i < |s.us| == |vs| && 0 <= At(s.us, i) && At(s.us, i) + UPDATE_SIZE == src <= dest <= |w|
    ensures Judge(heap, from, Put(w, At(s.us, i) + NEXT, Link(down))[At(s.us, i) + DEST]) == vs[i]
  {
    FrameFits(s, vs, w, i, heap0, from, heap);
    hide Handled, Kept, Down, AnyLive, Judge, IsStack, Within, InOrder;
  }

  lemma DeadStep(s: Stack, vs: seq<Verdict>, w: seq<Word>, i: nat, heap0: Heap, from: set<nat>, heap: Heap,
                 src: nat, dest: nat, down: int, isLive: bool)
    requires Handled(s, vs, w, i + 1, heap0, from, heap) && AtRound(s, vs, i + 1, src, dest, down, isLive)
    requires vs[i].Dead?
    ensures At(s.us, i) + NEXT < |w|
    ensures FrameHandled(s, vs, Put(w, At(s.us, i) + NEXT, Link(down)), i, heap0, from, heap, dest, down)
  {
    hide Moved, FrameMoved, IsStack, Within, InOrder, Verdicts, Judge;
    SkipDeadFrame(s, vs, w, i);
  }

  lemma RepointedLive(s: Stack, vs: seq<Verdict>, i: nat, heap: Heap)
    requires IsStack(s) && |vs| == |s.us| && i < |vs| && vs[i].Live?
    ensures Repointed(s, vs, i, heap) == Repointed(s, vs, i + 1, heap)[vs[i].to := EvalCell(NewPosition(s, vs, i))]
    ensures Down(s, vs, i) == NewPosition(s, vs, i)
  {
  }

  lemma LiveStep(s: Stack, vs: seq<Verdict>, w: seq<Word>, i: nat, heap0: Heap, from: set<nat>, heap: Heap,
                 src: nat, dest: nat, down: int, isLive: bool)
    requires Handled(s, vs, w, i + 1, heap0, from, heap) && AtRound(s, vs, i + 1, src, dest, down, isLive)
    requires vs[i].Live?
    ensures At(s.us, i) + UPDATE_SIZE <= dest <= |w|
    ensures var dest' := dest - UPDATE_SIZE;
            FrameHandled(s, vs, Blit(Rewritten(w, At(s.us, i), vs[i].to, down), dest', At(s.us, i), UPDATE_SIZE), i,
                         heap0, from, heap[vs[i].to := EvalCell(dest')], dest', dest')
  {
    hide Moved, FrameMoved, Kept, KeptFrom, NewPosition, Repointed, Verdicts, IsStack, Within, InOrder, Blit, Rewritten, Judge;
    MoveLiveFrame(s, vs, w, i);
    LiveFrameIsKept(s, vs, i);
    RepointedLive(s, vs, i, heap0);
  }

  predicate NoneBroken(vs: seq<Verdict>, i: nat) {
    forall k :: i <= k < |vs| ==> !vs[k].Broken?
  }

  lemma BrokenStep(vs: seq<Verdict>, i: nat)
    requires i < |vs|
    ensures NoneBroken(vs, i) <==> NoneBroken(vs, i + 1) && !vs[i].Broken?
    ensures NoneBroken(vs, 0) ==> NoneBroken(vs, i)
  {
  }

  lemma AtTop(s: Stack, vs: seq<Verdict>, src: nat, dest: nat, down: int, isLive: bool)
    requires AtRound(s, vs, 0, src, dest, down, isLive)
    ensures IsStack(s) && |vs| == |s.us| && src == Src(s, 0) && dest == s.bot - |Kept(s, vs, 0)| && down == Down(s, vs, 0)
  {
  }

  lemma AnyLiveStep(s: Stack, vs: seq<Verdict>, i: nat, src: nat, dest: nat, down: int, isLive: bool)
    requires i < |vs| && AtRound(s, vs, i + 1, src, dest, down, isLive)
    ensures AnyLive(vs, i) == (vs[i].Live? || isLive)
  {
  }

  lemma FrameRoom(s: Stack, vs: seq<Verdict>, w: seq<Word>, i: nat, heap0: Heap, from: set<nat>,
                  heap: Heap, dest: nat, down: int)
    requires FrameHandled(s, vs, w, i, heap0, from, heap, dest, down)
    ensures i < |s.us| && 0 <= Above(s, i) <= s.us[i] <= dest <= |w|
    ensures Above(s, i) == if i > 0 then At(s.us, i - 1) + UPDATE_SIZE else s.top
    ensures i > 0 <==> At(s.us, i - 1) != -1
  {
    BottomFrame(s, i);
  }

  lemma OthersStep(s: Stack, vs: seq<Verdict>, w: seq<Word>, i: nat, heap0: Heap, from: set<nat>,
                   heap: Heap, dest: nat, down: int)
    requires FrameHandled(s, vs, w, i, heap0, from, heap, dest, down) && AnyLive(vs, i)
    ensures i < |s.us|
    ensures var src, sz := Above(s, i), s.us[i] - Above(s, i);
            && 0 <= sz <= dest && dest <= |w| && src + sz <= |w|
            && Handled(s, vs, Blit(w, dest - sz, src, sz), i, heap0, from, heap)
            && AtRound(s, vs, i, src, dest - sz, down, true)
  {
    hide Moved, FrameMoved, Kept, KeptFrom, Down, AnyLive, IsStack, Within, InOrder, Repointed, Verdicts, Blit;
    FrameRoom(s, vs, w, i, heap0, from, heap, dest, down);
    MoveOthers(s, vs, w, i);
  }

  lemma OthersDropped(s: Stack, vs: seq<Verdict>, w: seq<Word>, i: nat, heap0: Heap, from: set<nat>,
                      heap: Heap, dest: nat, down: int)
    requires FrameHandled(s, vs, w, i, heap0, from, heap, dest, down) && !AnyLive(vs, i)
    ensures Handled(s, vs, w, i, heap0, from, heap) && AtRound(s, vs, i, Above(s, i), dest, down, false)
  {
    FrameRoom(s, vs, w, i, heap0, from, heap, dest, down);
    DropOthers(s, vs, w, i);
    hide Moved, FrameMoved, Kept, KeptFrom, Down, AnyLive, IsStack, Within, InOrder, Repointed, Verdicts;
  }

  lemma UpLinkAndRoom(s: Stack, vs: seq<Verdict>, w: seq<Word>, i: nat, heap0: Heap, from: set<nat>, heap: Heap)
    requires Handled(s, vs, w, i + 1, heap0, from, heap)
    ensures IsStack(s) && vs == Verdicts(heap0, from, s) && i < |vs| == |s.us| && |w| == |s.w|
    ensures s.us[i] + NEXT < |w| && w[s.us[i] + NEXT] == Link(At(s.us, i - 1))
  {
    UpLink(s, vs, w, i);
  }

  lemma StartHandled(s: Stack, vs: seq<Verdict>, w: seq<Word>, heap: Heap, from: set<nat>)
    requires IsStack(s) && vs == Verdicts(heap, from, s) && |w| == |s.w|
    requires LinkedUp(s, w, |s.us|) && SameButLinks(s, w, |w|)
    ensures Handled(s, vs, w, |s.us|, heap, from, heap)
    ensures AtRound(s, vs, |s.us|, s.bot, s.bot, -1, false) && NoneBroken(vs, |s.us|)
  {
    forall p | s.bot <= p < |w|
      ensures w[p] == s.w[p]
    {
      assert !IsLink(s, p);
    }
    forall p | 0 <= p < |w| && !IsPointer(s, p)
      ensures w[p] == s.w[p]
    {
      assert !IsLink(s, p);
    }
  }

  datatype State = Entering(numfvs: nat) | Returning | OtherState

  datatype Outcome = Consolidated | GcError | WildRead

  // words before the continuations of an unboxed case frame
  const HEADER := 4

  /** The state of the thread fits its stack: registers or values lie just above the
      top frame. A returning unboxed constructor selects one continuation of the
      unboxed case frame on top, which says how many values there are. */
  ghost predicate StateFits(s: Stack, state: State) {
    match state
    case OtherState => true
    case Entering(numfvs) => s.us != [] && numfvs <= s.top
    case Returning =>
      && s.us != [] && 0 < s.top < |s.w| && s.w[s.top].Node?
      && (s.w[s.top].tag == UbanalyzeTag ==> SelectionFits(s))
  }

  ghost predicate SelectionFits(s: Stack) {
    && s.us != [] && 0 < s.top <= |s.w| && s.w[s.top - 1].Constr?
    && Selected(s) < s.us[0] <= |s.w|
    && s.w[Selected(s)].Bco? && s.w[Selected(s)].numargs < s.top
  }

  /** The position of the continuation the returned constructor selects. */
  ghost function Selected(s: Stack): nat
    requires 0 < s.top <= |s.w| && s.w[s.top - 1].Constr?
  {
    s.top + HEADER + s.w[s.top - 1].number
  }

  /** The number of words that belong to the state. */
  ghost function WordsOf(s: Stack, state: State): nat
    requires StateFits(s, state)
  {
    match state
    case OtherState => 0
    case Entering(numfvs) => numfvs
    case Returning => if s.w[s.top].tag == UbanalyzeTag then 1 + s.w[Selected(s)].numargs else 1
  }

  /** What belongs to the state of the thread lies just above the top as it did: the
      registers of a thread that enters a closure; the value that is returned, and with an
      unboxed constructor the values that its continuation takes. */
  ghost predicate StateKept(s: Stack, state: State, w: seq<Word>, top: nat)
    requires StateFits(s, state)
  {
    match state
    case OtherState => true
    case Entering(numfvs) => numfvs <= top <= |w| && numfvs <= s.top <= |s.w| && w[top - numfvs..top] == s.w[s.top - numfvs..s.top]
    case Returning =>
      && 0 < top <= |w| && w[top - 1] == s.w[s.top - 1]
      && (s.w[s.top].tag == UbanalyzeTag ==>
            var n := s.w[s.top + HEADER + s.w[s.top - 1].number].numargs;
            && n < top && w[top - 1 - n..top - 1] == s.w[s.top - 1 - n..s.top - 1])
  }

  lemma StateMoved(s: Stack, state: State, w: seq<Word>, top: nat)
    requires StateFits(s, state) && IsStack(s)
    requires var n := WordsOf(s, state); n <= top <= |w| && n <= s.top && w[top - n..top] == s.w[s.top - n..s.top]
    ensures StateKept(s, state, w, top)
  {
    hide IsStack;
    StackInside(s);
    var n := WordsOf(s, state);
    if state.Returning? {
      LastOf(w, top - n, top);
      LastOf(s.w, s.top - n, s.top);
    }
  }

  lemma LastOf(w: seq<Word>, lo: nat, hi: nat)
    requires lo < hi <= |w|
    ensures w[lo..hi][hi - lo - 1] == w[hi - 1] && w[lo..hi][..hi - lo - 1] == w[lo..hi - 1]
  {
  }

  lemma StackInside(s: Stack)
    requires IsStack(s)
    ensures s.top <= |s.w|
  {
  }

  /** How far the top of the stack moves. */
  ghost function Gap(s: Stack, vs: seq<Verdict>): (r: nat)
    requires IsStack(s) && |vs| == |s.us|
  {
    s.bot - |Kept(s, vs, 0)| - (if s.us == [] then s.bot else s.top)
  }

  /** The word the code finds where it looks for the selected continuation: the frames
      have been moved by then, so from the new top on it sees words `gap` further up. */
  ghost function SelectedRead(s: Stack, gap: nat): Word
    requires StateFits(s, Returning) && s.w[s.top].tag == UbanalyzeTag
  {
    var p := Selected(s);
    if gap == 0 || p < s.top + gap then s.w[p] else s.w[p - gap]
  }

  /** The number of words the code moves, or -1. */
  ghost function WordsRead(s: Stack, state: State, gap: nat): (r: int)
    requires StateFits(s, state)
    ensures r >= -1
  {
    match state
    case OtherState => 0
    case Entering(numfvs) => numfvs
    case Returning =>
      if s.w[s.top].tag != UbanalyzeTag then 1 else
        var cont := SelectedRead(s, gap);
        if cont.Bco? && cont.numargs < s.top then 1 + cont.numargs else -1
  }

  /** The number read is the right one for every state but the return of an unboxed
      constructor, and for that one if the stack did not move, if it moved past the
      whole header up to the selected continuation, or if the continuation `gap` words
      further up happens to take as many values. */
  lemma WordsReadRight(s: Stack, state: State, gap: nat)
    requires StateFits(s, state)
    ensures WordsRead(s, state, gap) == WordsOf(s, state) <==>
            !state.Returning? || s.w[s.top].tag != UbanalyzeTag
            || gap == 0 || HEADER + s.w[s.top - 1].number < gap
            || s.w[Selected(s) - gap] == s.w[Selected(s)]
  {
  }

  /** A two-way unboxed case on top of a dead and a live update frame, with a constructor
      numbered 1 and without arguments being returned. */
  const CASE_WORDS: seq<Word> := [Constr(1), Node(UbanalyzeTag), Plain(0), Plain(0), Plain(0), Bco(0), Bco(0)]
  const CASE_STACK := Stack(CASE_WORDS + UpdateFrame(0, 12) + UpdateFrame(1, -1), [7, 12], 1, 17)
  const CASE_HEAP: Heap := map[0 := EvalCell(7), 1 := Forwarded(2), 2 := EvalCell(12)]

  function UpdateFrame(cell: nat, next: int): (r: seq<Word>)
    ensures |r| == UPDATE_SIZE
  {
    [Node(UpdateTag), Plain(0), Plain(0), Cell(cell), Link(next)]
  }

  lemma CaseStackOk()
    ensures IsStack(CASE_STACK) && IsLinked(CASE_STACK, CASE_STACK.w)
    ensures Verdicts(CASE_HEAP, {0, 1}, CASE_STACK) == [Dead, Live(2)]
  {
    var s := CASE_STACK;
    assert s.w[10] == Cell(0) && s.w[11] == Link(12) && s.w[15] == Cell(1) && s.w[16] == Link(-1);
    assert PointsDown(s, s.w, 0) && PointsDown(s, s.w, 1);
  }

  lemma CaseGap()
    ensures IsStack(CASE_STACK) && Gap(CASE_STACK, [Dead, Live(2)]) == UPDATE_SIZE
  {
    CaseStackOk();
    hide IsStack;
    var s, vs := CASE_STACK, [Dead, Live(2)];
    assert AnyLive(vs, 1);
    assert |Kept(s, vs, 2)| == 0;
    assert |Kept(s, vs, 1)| == UPDATE_SIZE;
    assert |Kept(s, vs, 0)| == 6 + UPDATE_SIZE;
  }

  /** The collector leaves out the dead frame, and then takes the first word of the case
      frame for a pointer to code: one word has to be moved, and none can be counted. */
  lemma WordsReadWrong()
    ensures IsStack(CASE_STACK) && IsLinked(CASE_STACK, CASE_STACK.w) && StateFits(CASE_STACK, Returning)
    ensures WordsOf(CASE_STACK, Returning) == 1
    ensures WordsRead(CASE_STACK, Returning, Gap(CASE_STACK, Verdicts(CASE_HEAP, {0, 1}, CASE_STACK))) == -1
  {
    CaseStackOk();
    CaseGap();
    hide IsStack, IsLinked, Gap;
    var s := CASE_STACK;
    assert s.w[0] == Constr(1) && s.w[1] == Node(UbanalyzeTag) && s.w[6] == Bco(0) && |s.w| == 17;
  }

  /** The result of the compaction: what is kept is at the bottom, the words of the
      state are just above it, and nothing below the stack has changed. */
  ghost predicate Compacted(s: Stack, vs: seq<Verdict>, count: nat, w: seq<Word>, top: nat, cureval: int) {
    && IsStack(s) && |vs| == |s.us| && |w| == |s.w| && count <= s.top && count <= top
    && top == s.bot - |Kept(s, vs, 0)| && cureval == Down(s, vs, 0)
    && w[top..s.bot] == Kept(s, vs, 0)
    && w[s.bot..] == s.w[s.bot..]
    && w[top - count..top] == s.w[s.top - count..s.top]
  }

  lemma CompactedState(s: Stack, vs: seq<Verdict>, count: nat, w: seq<Word>, top: nat, cureval: int)
    requires Compacted(s, vs, count, w, top, cureval)
    ensures count <= s.top && count <= top <= |w| && s.top <= |s.w| && w[top - count..top] == s.w[s.top - count..s.top]
  {
  }

  lemma NotAPointer(s: Stack, p: nat)
    requires IsStack(s) && (s.us != [] ==> p < s.us[0] || p == s.us[0])
    ensures !IsPointer(s, p)
  {
    forall k | 0 <= k < |s.us|
      ensures p != s.us[k] + NEXT && p != s.us[k] + DEST
    {
      FramesApart(s, 0, k);
    }
  }

  /** If the top has not moved, its frames and the first word of its first update
      frame are what they were. */
  lemma UnmovedTop(s: Stack, vs: seq<Verdict>, p: nat)
    requires IsStack(s) && |vs| == |s.us| && s.us != [] && s.top <= p <= s.us[0]
    requires |Kept(s, vs, 0)| == s.bot - s.top && (p == s.us[0] ==> p == s.top)
    ensures p < s.bot && Kept(s, vs, 0)[p - s.top] == s.w[p]
  {
    BottomFrame(s, 0);
    assert AnyLive(vs, 0);
    OthersAreKept(s, vs, 0);
    if p == s.us[0] {
      assert vs[0].Live?;
      LiveFrameIsKept(s, vs, 0);
    }
  }

  lemma MovedTop(s: Stack, vs: seq<Verdict>, p: nat)
    requires IsStack(s) && |vs| == |s.us| && s.us != [] && s.top <= p < s.us[0]
    requires s.bot - |Kept(s, vs, 0)| <= p
    ensures 0 <= Gap(s, vs) <= p - s.top && Kept(s, vs, 0)[p - s.top - Gap(s, vs)] == s.w[p - Gap(s, vs)]
  {
    BottomFrame(s, 0);
    assert AnyLive(vs, 0);
    OthersAreKept(s, vs, 0);
  }

  /** What is read after the frames have been moved. */
  lemma ReadAfter(s: Stack, vs: seq<Verdict>, w: seq<Word>, p: nat)
    requires IsStack(s) && |vs| == |s.us| && |w| == |s.w| && Moved(s, vs, w, 0) && s.us != []
    requires p < s.us[0] || p == s.top <= s.us[0]
    ensures s.us[0] <= |w| && (p < s.top + Gap(s, vs) ==> w[p] == s.w[p])
    ensures p == s.top || Gap(s, vs) == 0 ==> p < |w| && w[p] == s.w[p]
    ensures s.top + Gap(s, vs) <= p < s.us[0] ==> w[p] == s.w[p - Gap(s, vs)]
  {
    BottomFrame(s, 0);
    NotAPointer(s, p);
    var dest := s.bot - |Kept(s, vs, 0)|;
    if dest <= p {
      assert w[p] == w[dest..s.bot][p - dest];
      hide Kept, SameButLinks, Untouched, LinkedUp;
      if p < s.us[0] {
        MovedTop(s, vs, p);
      } else {
        UnmovedTop(s, vs, p);
      }
    }
  }

  lemma StateReads(s: Stack, vs: seq<Verdict>, w: seq<Word>, state: State, heap0: Heap, from: set<nat>, heap: Heap)
    requires Handled(s, vs, w, 0, heap0, from, heap) && StateFits(s, state)
    ensures IsStack(s) && |vs| == |s.us| && |w| == |s.w|
    ensures state.Returning? ==> w[s.top] == s.w[s.top] && w[s.top - 1] == s.w[s.top - 1]
    ensures state.Returning? && s.w[s.top].tag == UbanalyzeTag ==> w[Selected(s)] == SelectedRead(s, Gap(s, vs))
  {
    hide Moved, Gap, Verdicts, Repointed;
    if state.Returning? {
      BottomFrame(s, 0);
      hide IsStack, Within, InOrder;
      ReadAfter(s, vs, w, s.top);
      ReadAfter(s, vs, w, s.top - 1);
      if s.w[s.top].tag == UbanalyzeTag {
        ReadAfter(s, vs, w, Selected(s));
      }
    }
  }

  lemma BlitIsLocal(w: seq<Word>, dest: nat, src: nat, sz: nat, end: nat)
    requires dest + sz <= end <= |w| && src + sz <= |w|
    ensures Blit(w, dest, src, sz)[dest + sz..end] == w[dest + sz..end]
    ensures Blit(w, dest, src, sz)[end..] == w[end..]
    ensures Blit(w, dest, src, sz)[dest..dest + sz] == w[src..src + sz]
  {
    var r := Blit(w, dest, src, sz);
    assert forall p :: dest + sz <= p < |w| ==> r[p] == w[p];
  }

  lemma WordsAboveTop(s: Stack, w: seq<Word>, end: nat, lo: nat)
    requires IsStack(s) && |w| == |s.w| && Untouched(s, w, end) && lo <= s.top <= end
    ensures s.top <= |w| && w[lo..s.top] == s.w[lo..s.top]
  {
    forall p | lo <= p < s.top
      ensures w[p] == s.w[p]
    {
      if s.us != [] {
        FramesApart(s, 0, 0);
      }
      NotAPointer(s, p);
    }
  }

  lemma NoWordsWithoutFrames(s: Stack, state: State, count: int, gap: nat)
    requires StateFits(s, state) && count == WordsRead(s, state, gap)
    ensures s.us == [] ==> count == 0
  {
  }

  lemma FinalMove(s: Stack, vs: seq<Verdict>, w: seq<Word>, state: State, count: nat, heap0: Heap, from: set<nat>, heap: Heap)
    requires Handled(s, vs, w, 0, heap0, from, heap) && count <= s.top && StateFits(s, state)
    requires count == WordsRead(s, state, Gap(s, vs))
    ensures heap == Repointed(s, vs, 0, heap0)
    ensures var dest := s.bot - |Kept(s, vs, 0)|;
            && count <= Src(s, 0) <= dest <= |w|
            && Compacted(s, vs, count, Blit(w, dest - count, Src(s, 0) - count, count), dest, Down(s, vs, 0))
  {
    hide Moved, LinkedUp, SameButLinks, Untouched, Kept, Down, Blit, Repointed, Verdicts, WordsRead, StateFits, Gap, Compacted;
    hide IsStack, Within, InOrder;
    NoWordsWithoutFrames(s, state, count, Gap(s, vs));
    TopIsAbove(s, vs);
    PlaceWords(s, vs, w, count, s.bot - |Kept(s, vs, 0)|, Src(s, 0));
  }

  lemma PlaceWords(s: Stack, vs: seq<Verdict>, w: seq<Word>, count: nat, dest: nat, src: nat)
    requires IsStack(s) && |vs| == |s.us| && |w| == |s.w| && Moved(s, vs, w, 0)
    requires dest == s.bot - |Kept(s, vs, 0)| && count <= s.top <= src <= dest <= s.bot <= |w|
    requires count == 0 || src == s.top
    ensures Compacted(s, vs, count, Blit(w, dest - count, src - count, count), dest, Down(s, vs, 0))
  {
    hide IsStack, Within, InOrder, Kept, Down, Untouched, LinkedUp, SameButLinks, Blit;
    WordsAboveTop(s, w, dest, s.top - count);
    BlitIsLocal(w, dest - count, src - count, count, s.bot);
  }

  lemma TopIsAbove(s: Stack, vs: seq<Verdict>)
    requires IsStack(s) && |vs| == |s.us|
    ensures s.top <= Src(s, 0) <= s.bot - |Kept(s, vs, 0)| && s.bot <= |s.w| && (s.us != [] ==> Src(s, 0) == s.top)
  {
  }

  // ----- What the compaction keeps -----

  /** The new positions of the live update frames numbered `i` and up. */
  ghost function NewFrames(s: Stack, vs: seq<Verdict>, i: nat): (r: seq<nat>)
    requires IsStack(s) && |vs| == |s.us| && i <= |vs|
    decreases |vs| - i
  {
    if i == |vs| then []
    else (if vs[i].Live? then [NewPosition(s, vs, i)] else []) + NewFrames(s, vs, i + 1)
  }

  /** A chain of update frames between `top` and `bot`: each lies below the one
      before it and points at the next, and the last ends at `bot`. */
  ghost predicate IsChain(w: seq<Word>, us: seq<nat>, top: nat, bot: nat) {
    if us == [] then top == bot <= |w| else
      && top <= us[0] && us[0] + UPDATE_SIZE <= bot <= |w|
      && w[us[0] + NEXT] == Link(At(us, 1))
      && IsChain(w, us[1..], us[0] + UPDATE_SIZE, bot)
  }

  lemma ChainShifts(us: seq<nat>, i: nat)
    requires us != []
    ensures At(us[1..], i) == At(us, i + 1)
  {
  }

  lemma {:induction false} ChainIsStack(w: seq<Word>, us: seq<nat>, top: nat, bot: nat)
    requires IsChain(w, us, top, bot)
    ensures IsStack(Stack(w, us, top, bot)) && IsLinked(Stack(w, us, top, bot), w)
    decreases us
  {
    if us != [] {
      ChainIsStack(w, us[1..], us[0] + UPDATE_SIZE, bot);
      ChainFits(w, us[1..], us[0] + UPDATE_SIZE, bot);
      hide IsStack, IsLinked;
      StackGrows(Stack(w, us, top, bot), Stack(w, us[1..], us[0] + UPDATE_SIZE, bot));
    }
  }

  lemma StackGrows(s: Stack, s': Stack)
    requires s.us != [] && s'.us == s.us[1..] && s'.w == s.w && s'.bot == s.bot <= |s.w|
    requires s.top <= s.us[0] && s'.top == s.us[0] + UPDATE_SIZE <= s.bot
    requires s.w[s.us[0] + NEXT] == Link(At(s.us, 1))
    requires IsStack(s') && IsLinked(s', s'.w) && (s'.us == [] ==> s'.top == s'.bot)
    ensures IsStack(s) && IsLinked(s, s.w)
  {
    FramesShift(s, s');
    hide IsLinked;
    forall i | 0 <= i < |s.us|
      ensures PointsDown(s, s.w, i)
    {
      if i > 0 {
        LinkShifts(s, s', i - 1);
      }
    }
    AllLinked(s, s.w);
  }

  lemma AllLinked(s: Stack, w: seq<Word>)
    requires IsStack(s) && |w| == |s.w| && forall i :: 0 <= i < |s.us| ==> PointsDown(s, w, i)
    ensures IsLinked(s, w)
  {
    hide IsStack, PointsDown;
  }

  lemma FramesShift(s: Stack, s': Stack)
    requires s.us != [] && s'.us == s.us[1..] && s'.w == s.w && s'.bot == s.bot <= |s.w|
    requires s.top <= s.us[0] && s'.top == s.us[0] + UPDATE_SIZE <= s.bot
    requires IsStack(s') && (s'.us == [] ==> s'.top == s'.bot)
    ensures IsStack(s)
  {
    forall i | 0 <= i < |s.us|
      ensures s.top <= s.us[i] && s.us[i] + UPDATE_SIZE <= s.bot
      ensures i > 0 ==> s.us[i] == s'.us[i - 1]
    {
    }
    forall i, j | 0 <= i < j < |s.us|
      ensures s.us[i] + UPDATE_SIZE <= s.us[j]
    {
      assert s.us[j] == s'.us[j - 1];
    }
    assert |s.us| > 1 ==> Above(s, |s.us|) == Above(s', |s.us| - 1);
  }

  lemma LinkShifts(s: Stack, s': Stack, i: nat)
    requires IsStack(s) && IsStack(s') && s.us != [] && s'.us == s.us[1..] && s'.w == s.w
    requires i < |s'.us| && IsLinked(s', s'.w)
    ensures i + 1 < |s.us| && PointsDown(s, s.w, i + 1)
  {
    assert PointsDown(s', s'.w, i);
    ChainShifts(s.us, i + 1);
  }

  /** The kept frames of a part of the stack are a chain. */
  lemma {:induction false} KeptIsChain(s: Stack, vs: seq<Verdict>, w: seq<Word>, i: nat)
    requires IsStack(s) && |vs| == |s.us| && i <= |vs| && |w| == |s.w|
    requires w[s.bot - |Kept(s, vs, i)|..s.bot] == Kept(s, vs, i)
    ensures IsChain(w, NewFrames(s, vs, i), s.bot - |Kept(s, vs, i)|, s.bot)
    ensures At(NewFrames(s, vs, i), 0) == Down(s, vs, i)
    decreases |vs| - i
  {
    if i < |vs| {
      KeptTail(s, vs, w, i);
      KeptIsChain(s, vs, w, i + 1);
      hide Kept, NewPosition, IsChain, IsStack, Within, InOrder, Others, MovedFrame;
      if vs[i].Live? {
        ChainGrows(s, vs, w, i);
      } else {
        NoneLiveNothingKept(s, vs, i);
        NewFramesDead(s, vs, i);
        ChainStretches(w, NewFrames(s, vs, i + 1), s.bot - |Kept(s, vs, i)|, s.bot - |Kept(s, vs, i + 1)|, s.bot);
      }
    }
  }

  lemma {:induction false} NoneLiveNothingKept(s: Stack, vs: seq<Verdict>, i: nat)
    requires IsStack(s) && |vs| == |s.us| && i <= |vs|
    ensures NewFrames(s, vs, i) == [] <==> !AnyLive(vs, i)
    ensures !AnyLive(vs, i) ==> Kept(s, vs, i) == []
    decreases |vs| - i
  {
    if i < |vs| {
      NoneLiveNothingKept(s, vs, i + 1);
    }
  }

  lemma ChainStretches(w: seq<Word>, us: seq<nat>, top: nat, top': nat, bot: nat)
    requires IsChain(w, us, top', bot) && top <= top' && (us == [] ==> top == top')
    ensures IsChain(w, us, top, bot)
  {
  }

  function FrameOrNone(s: Stack, vs: seq<Verdict>, i: nat): seq<Word>
    requires IsStack(s) && |vs| == |s.us| && i < |vs|
  {
    if vs[i].Live? then MovedFrame(s, i, vs[i].to, Down(s, vs, i + 1)) else []
  }

  lemma KeptSplits(s: Stack, vs: seq<Verdict>, i: nat)
    requires IsStack(s) && |vs| == |s.us| && i < |vs|
    ensures Kept(s, vs, i) == Others(s, vs, i) + (FrameOrNone(s, vs, i) + Kept(s, vs, i + 1))
    ensures s.bot <= |s.w|
    ensures NewPosition(s, vs, i) + UPDATE_SIZE == s.bot - |Kept(s, vs, i + 1)|
  {
  }

  /** What is kept from frame `i` on ends with what is kept from the next on. */
  lemma KeptTail(s: Stack, vs: seq<Verdict>, w: seq<Word>, i: nat)
    requires IsStack(s) && |vs| == |s.us| && i < |vs| && |w| == |s.w|
    requires w[s.bot - |Kept(s, vs, i)|..s.bot] == Kept(s, vs, i)
    ensures |Kept(s, vs, i)| == |Others(s, vs, i)| + (if vs[i].Live? then UPDATE_SIZE else 0) + |Kept(s, vs, i + 1)|
    ensures NewPosition(s, vs, i) + UPDATE_SIZE == s.bot - |Kept(s, vs, i + 1)|
    ensures w[s.bot - |Kept(s, vs, i + 1)|..s.bot] == Kept(s, vs, i + 1)
    ensures vs[i].Live? ==>
              w[NewPosition(s, vs, i)..NewPosition(s, vs, i) + UPDATE_SIZE] == MovedFrame(s, i, vs[i].to, Down(s, vs, i + 1))
    ensures w[s.bot - |Kept(s, vs, i)|..s.bot - |Kept(s, vs, i)| + |Others(s, vs, i)|] == Others(s, vs, i)
  {
    hide Kept, KeptFrom, Others, MovedFrame, Down, NewPosition, IsStack, Within, InOrder;
    KeptSplits(s, vs, i);
    SplitThree(w, s.bot, Others(s, vs, i), FrameOrNone(s, vs, i), Kept(s, vs, i + 1));
  }

  lemma SplitThree(w: seq<Word>, bot: nat, a: seq<Word>, b: seq<Word>, c: seq<Word>)
    requires |a| + |b| + |c| <= bot <= |w| && w[bot - (|a| + |b| + |c|)..bot] == a + (b + c)
    ensures w[bot - |c|..bot] == c
    ensures w[bot - |c| - |b|..bot - |c|] == b
    ensures w[bot - (|a| + |b| + |c|)..bot - (|b| + |c|)] == a
  {
    var lo, abc := bot - (|a| + |b| + |c|), a + (b + c);
    assert forall j :: 0 <= j < |abc| ==> w[lo + j] == abc[j];
    assert forall j :: 0 <= j < |a| ==> abc[j] == a[j];
    assert forall j :: 0 <= j < |b| ==> abc[|a| + j] == b[j];
    assert forall j :: 0 <= j < |c| ==> abc[|a| + |b| + j] == c[j];
  }

  lemma ChainGrows(s: Stack, vs: seq<Verdict>, w: seq<Word>, i: nat)
    requires IsStack(s) && |vs| == |s.us| && i < |vs| && |w| == |s.w| && vs[i].Live?
    requires s.bot - |Kept(s, vs, i)| <= NewPosition(s, vs, i)
    requires NewPosition(s, vs, i) + UPDATE_SIZE == s.bot - |Kept(s, vs, i + 1)|
    requires w[NewPosition(s, vs, i)..NewPosition(s, vs, i) + UPDATE_SIZE] == MovedFrame(s, i, vs[i].to, Down(s, vs, i + 1))
    requires IsChain(w, NewFrames(s, vs, i + 1), s.bot - |Kept(s, vs, i + 1)|, s.bot)
    requires At(NewFrames(s, vs, i + 1), 0) == Down(s, vs, i + 1)
    ensures IsChain(w, NewFrames(s, vs, i), s.bot - |Kept(s, vs, i)|, s.bot)
    ensures At(NewFrames(s, vs, i), 0) == Down(s, vs, i) == NewPosition(s, vs, i)
  {
    hide Kept, NewPosition, Others, MovedFrame, NewFrames, IsStack, Within, InOrder, IsChain, Down;
    FrameWords(s, vs, w, i);
    NewFramesLive(s, vs, i);
    ChainCons(w, NewPosition(s, vs, i), NewFrames(s, vs, i + 1), s.bot - |Kept(s, vs, i)|, s.bot);
  }

  lemma ChainCons(w: seq<Word>, p: nat, us: seq<nat>, top: nat, bot: nat)
    requires IsChain(w, us, p + UPDATE_SIZE, bot) && top <= p
    requires p + UPDATE_SIZE <= |w| && w[p + NEXT] == Link(At(us, 0))
    ensures IsChain(w, [p] + us, top, bot)
  {
    assert ([p] + us)[1..] == us;
    ChainShifts([p] + us, 0);
    ChainFits(w, us, p + UPDATE_SIZE, bot);
  }

  lemma ChainFits(w: seq<Word>, us: seq<nat>, top: nat, bot: nat)
    requires IsChain(w, us, top, bot)
    ensures top <= bot <= |w|
  {
  }

  lemma NewFramesDead(s: Stack, vs: seq<Verdict>, i: nat)
    requires IsStack(s) && |vs| == |s.us| && i < |vs| && !vs[i].Live?
    ensures NewFrames(s, vs, i) == NewFrames(s, vs, i + 1)
    ensures Down(s, vs, i) == Down(s, vs, i + 1)
  {
  }

  lemma NewFramesLive(s: Stack, vs: seq<Verdict>, i: nat)
    requires IsStack(s) && |vs| == |s.us| && i < |vs| && vs[i].Live?
    ensures NewFrames(s, vs, i) == [NewPosition(s, vs, i)] + NewFrames(s, vs, i + 1)
    ensures Down(s, vs, i) == NewPosition(s, vs, i)
  {
  }

  lemma FrameWords(s: Stack, vs: seq<Verdict>, w: seq<Word>, i: nat)
    requires IsStack(s) && |vs| == |s.us| && i < |vs| && |w| == |s.w| && vs[i].Live?
    requires w[NewPosition(s, vs, i)..NewPosition(s, vs, i) + UPDATE_SIZE] == MovedFrame(s, i, vs[i].to, Down(s, vs, i + 1))
    ensures NewPosition(s, vs, i) + UPDATE_SIZE <= |w|
    ensures w[NewPosition(s, vs, i) + NEXT] == Link(Down(s, vs, i + 1))
    ensures w[NewPosition(s, vs, i) + DEST] == Cell(vs[i].to)
  {
    var frame := MovedFrame(s, i, vs[i].to, Down(s, vs, i + 1));
    var p := NewPosition(s, vs, i);
    assert w[p + NEXT] == w[p..p + UPDATE_SIZE][NEXT] && w[p + DEST] == w[p..p + UPDATE_SIZE][DEST];
  }

  /** The compacted stack is again a stack, linked by its chain, and it ends in a live
      update frame that has no successor. */
  lemma CompactedIsStack(s: Stack, vs: seq<Verdict>, count: nat, w: seq<Word>, top: nat, cureval: int)
    requires Compacted(s, vs, count, w, top, cureval)
    ensures var s' := Stack(w, NewFrames(s, vs, 0), top, s.bot);
            IsStack(s') && IsLinked(s', w) && cureval == At(s'.us, 0)
  {
    hide IsStack, IsLinked, IsChain, Kept, NewFrames, Down;
    KeptIsChain(s, vs, w, 0);
    ChainIsStack(w, NewFrames(s, vs, 0), top, s.bot);
  }

  // ----- Cells and frames -----

  ghost predicate DistinctCells(vs: seq<Verdict>) {
    forall i, j :: 0 <= i < j < |vs| && vs[i].Live? && vs[j].Live? ==> vs[i].to != vs[j].to
  }

  /** Before the collection the cell of every update frame points back at it. */
  ghost predicate CellsPointBack(before: Heap, s: Stack)
    requires IsStack(s)
  {
    forall i :: 0 <= i < |s.us| ==> PointsBack(before, s.w[s.us[i] + DEST], s.us[i])
  }

  predicate PointsBack(before: Heap, dest: Word, u: nat) {
    dest.Cell? && dest.cell in before && before[dest.cell] == EvalCell(u)
  }

  /** Two cells have two copies. */
  ghost predicate ForwardedApart(heap: Heap) {
    forall a, b :: a in heap && b in heap && a != b && heap[a].Forwarded? && heap[b].Forwarded? ==> heap[a].to != heap[b].to
  }

  /** One update frame for each cell and one copy of each cell: live frames have different
      cells. */
  lemma LiveCellsDistinct(before: Heap, heap: Heap, from: set<nat>, s: Stack)
    requires IsStack(s) && CellsPointBack(before, s) && ForwardedApart(heap)
    ensures DistinctCells(Verdicts(heap, from, s))
  {
    var vs := Verdicts(heap, from, s);
    forall i, j | 0 <= i < j < |vs| && vs[i].Live? && vs[j].Live?
      ensures vs[i].to != vs[j].to
    {
      assert PointsBack(before, s.w[s.us[i] + DEST], s.us[i]) && PointsBack(before, s.w[s.us[j] + DEST], s.us[j]);
      assert s.us[i] + UPDATE_SIZE <= s.us[j];
    }
  }

  /** Every live cell points at its moved frame. */
  lemma CellsPointAtFrames(before: Heap, heap: Heap, from: set<nat>, s: Stack, k: nat)
    requires IsStack(s) && CellsPointBack(before, s) && ForwardedApart(heap)
    requires k < |s.us| && Verdicts(heap, from, s)[k].Live?
    ensures var vs := Verdicts(heap, from, s);
            && vs[k].to in Repointed(s, vs, 0, heap)
            && Repointed(s, vs, 0, heap)[vs[k].to] == EvalCell(NewPosition(s, vs, k))
  {
    hide IsStack, CellsPointBack, ForwardedApart, Repointed, NewPosition, Judge, DistinctCells;
    LiveCellsDistinct(before, heap, from, s);
    CellAtFrame(s, Verdicts(heap, from, s), 0, heap, k);
  }

  lemma {:induction false} CellAtFrame(s: Stack, vs: seq<Verdict>, i: nat, heap: Heap, k: nat)
    requires IsStack(s) && |vs| == |s.us| && i <= k < |vs| && DistinctCells(vs) && vs[k].Live?
    ensures vs[k].to in Repointed(s, vs, i, heap)
    ensures Repointed(s, vs, i, heap)[vs[k].to] == EvalCell(NewPosition(s, vs, k))
    decreases |vs| - i
  {
    hide NewPosition, IsStack, Within, InOrder;
    if i < k {
      CellAtFrame(s, vs, i + 1, heap, k);
    }
  }

  lemma {:induction false} OtherCellsStay(s: Stack, vs: seq<Verdict>, i: nat, heap: Heap, a: nat)
    requires IsStack(s) && |vs| == |s.us| && i <= |vs| && a in heap
    requires forall k :: i <= k < |vs| && vs[k].Live? ==> vs[k].to != a
    ensures a in Repointed(s, vs, i, heap) && Repointed(s, vs, i, heap)[a] == heap[a]
    decreases |vs| - i
  {
    hide NewPosition, IsStack, Within, InOrder;
    if i < |vs| {
      OtherCellsStay(s, vs, i + 1, heap, a);
    }
  }

  lemma {:induction false} FramesPointAtCells(s: Stack, vs: seq<Verdict>, w: seq<Word>, i: nat, k: nat)
    requires IsStack(s) && |vs| == |s.us| && i <= k < |vs| && |w| == |s.w| && vs[k].Live?
    requires w[s.bot - |Kept(s, vs, i)|..s.bot] == Kept(s, vs, i)
    ensures w[NewPosition(s, vs, k) + DEST] == Cell(vs[k].to)
    ensures w[NewPosition(s, vs, k) + NEXT] == Link(Down(s, vs, k + 1))
    decreases k - i
  {
    hide Kept, NewPosition, Others, MovedFrame, IsStack, Within, InOrder;
    KeptTail(s, vs, w, i);
    if i < k {
      FramesPointAtCells(s, vs, w, i + 1, k);
    } else {
      FrameWords(s, vs, w, k);
    }
  }

  // ----- Returning a value -----

  /** What evaluation makes of a value returned into a stretch of frames without update
      frames: returning into two stretches is returning into one and then the other. */
  ghost predicate IsAction<V(!new)>(f: (seq<Word>, V) -> V) {
    && (forall v :: f([], v) == v)
    && forall a, b, v :: f(a + b, v) == f(b, f(a, v))
  }

  /** The updates of live cells made by returning a value into the original stack. */
  ghost function Updates<V(!new)>(s: Stack, vs: seq<Verdict>, i: nat, v: V, f: (seq<Word>, V) -> V): seq<(nat, V)>
    requires IsStack(s) && |vs| == |s.us| && i <= |vs|
    decreases |vs| - i
  {
    if i == |vs| then [] else
      var v' := f(Stretch(s, i), v);
      (if vs[i].Live? then [(vs[i].to, v')] else []) + Updates(s, vs, i + 1, v', f)
  }

  ghost function Stretch(s: Stack, i: nat): seq<Word>
    requires IsStack(s) && i < |s.us|
  {
    BottomFrame(s, i);
    s.w[Above(s, i)..s.us[i]]
  }

  /** The updates made by returning a value into a stack all of whose update frames
      are live. */
  ghost function ChainUpdates<V(!new)>(w: seq<Word>, us: seq<nat>, top: nat, bot: nat, v: V, f: (seq<Word>, V) -> V): seq<(nat, V)>
    requires IsChain(w, us, top, bot)
    decreases us
  {
    if us == [] || !w[us[0] + DEST].Cell? then [] else
      var v' := f(w[top..us[0]], v);
      [(w[us[0] + DEST].cell, v')] + ChainUpdates(w, us[1..], us[0] + UPDATE_SIZE, bot, v', f)
  }

  /** Returning any value into the compacted stack updates the same live cells with the
      same values in the same order. */
  lemma SameUpdates<V(!new)>(s: Stack, vs: seq<Verdict>, count: nat, w: seq<Word>, top: nat, cureval: int, v: V, f: (seq<Word>, V) -> V)
    requires Compacted(s, vs, count, w, top, cureval) && IsAction(f)
    ensures IsChain(w, NewFrames(s, vs, 0), top, s.bot)
    ensures ChainUpdates(w, NewFrames(s, vs, 0), top, s.bot, v, f) == Updates(s, vs, 0, v, f)
  {
    hide IsStack, IsChain, Kept, NewFrames, Down, ChainUpdates, Updates, IsAction;
    KeptIsChain(s, vs, w, 0);
    SameUpdatesFrom(s, vs, w, 0, v, f);
  }

  lemma {:induction false} SameUpdatesFrom<V(!new)>(s: Stack, vs: seq<Verdict>, w: seq<Word>, i: nat, v: V, f: (seq<Word>, V) -> V)
    requires IsStack(s) && |vs| == |s.us| && i <= |vs| && |w| == |s.w| && IsAction(f)
    requires w[s.bot - |Kept(s, vs, i)|..s.bot] == Kept(s, vs, i)
    ensures IsChain(w, NewFrames(s, vs, i), s.bot - |Kept(s, vs, i)|, s.bot)
    ensures ChainUpdates(w, NewFrames(s, vs, i), s.bot - |Kept(s, vs, i)|, s.bot, v, f) == Updates(s, vs, i, v, f)
    decreases |vs| - i
  {
    hide IsStack, Within, InOrder, IsChain, Kept, Down, NewFrames, NewPosition, Others, MovedFrame, IsAction, ChainUpdates, Stretch, AnyLive, Updates;
    KeptIsChain(s, vs, w, i);
    NoneLiveNothingKept(s, vs, i);
    if !AnyLive(vs, i) {
      NoneLiveNoUpdates(s, vs, i, v, f);
      NoFramesNoUpdates(w, s.bot - |Kept(s, vs, i)|, s.bot, v, f);
    } else {
      LiveHasIndex(vs, i);
      var v' := f(Stretch(s, i), v);
      KeptTail(s, vs, w, i);
      KeptIsChain(s, vs, w, i + 1);
      SameUpdatesFrom(s, vs, w, i + 1, v', f);
      OthersIsStretch(s, vs, i);
      var lo, p, us := s.bot - |Kept(s, vs, i)|, NewPosition(s, vs, i), NewFrames(s, vs, i + 1);
      UpdatesUnfold(s, vs, i, v, f);
      if vs[i].Live? {
        FrameWords(s, vs, w, i);
        NewFramesLive(s, vs, i);
        ChainUpdatesCons(w, p, us, lo, s.bot, v, f);
      } else {
        NewFramesDead(s, vs, i);
        UpdatesStretch(w, us, lo, s.bot - |Kept(s, vs, i + 1)|, s.bot, v, f);
      }
    }
  }

  lemma LiveHasIndex(vs: seq<Verdict>, i: nat)
    requires AnyLive(vs, i)
    ensures i < |vs|
  {
  }

  lemma OthersIsStretch(s: Stack, vs: seq<Verdict>, i: nat)
    requires IsStack(s) && |vs| == |s.us| && i < |vs| && AnyLive(vs, i)
    ensures Others(s, vs, i) == Stretch(s, i)
  {
  }

  lemma NoFramesNoUpdates<V(!new)>(w: seq<Word>, top: nat, bot: nat, v: V, f: (seq<Word>, V) -> V)
    requires IsChain(w, [], top, bot)
    ensures ChainUpdates(w, [], top, bot, v, f) == []
  {
  }

  lemma {:induction false} NoneLiveNoUpdates<V(!new)>(s: Stack, vs: seq<Verdict>, i: nat, v: V, f: (seq<Word>, V) -> V)
    requires IsStack(s) && |vs| == |s.us| && i <= |vs| && !AnyLive(vs, i)
    ensures Updates(s, vs, i, v, f) == []
    decreases |vs| - i
  {
    hide IsStack, Within, InOrder, Stretch;
    if i < |vs| {
      NoneLiveNoUpdates(s, vs, i + 1, f(Stretch(s, i), v), f);
    }
  }

  lemma UpdatesUnfold<V(!new)>(s: Stack, vs: seq<Verdict>, i: nat, v: V, f: (seq<Word>, V) -> V)
    requires IsStack(s) && |vs| == |s.us| && i < |vs|
    ensures var v' := f(Stretch(s, i), v);
            Updates(s, vs, i, v, f) == (if vs[i].Live? then [(vs[i].to, v')] else []) + Updates(s, vs, i + 1, v', f)
  {
  }

  lemma ChainUpdatesCons<V(!new)>(w: seq<Word>, p: nat, us: seq<nat>, top: nat, bot: nat, v: V, f: (seq<Word>, V) -> V)
    requires IsChain(w, [p] + us, top, bot) && IsChain(w, us, p + UPDATE_SIZE, bot)
    requires top <= p && p + UPDATE_SIZE <= |w| && w[p + DEST].Cell?
    ensures var v' := f(w[top..p], v);
            ChainUpdates(w, [p] + us, top, bot, v, f) == [(w[p + DEST].cell, v')] + ChainUpdates(w, us, p + UPDATE_SIZE, bot, v', f)
  {
    assert ([p] + us)[1..] == us;
  }

  /** A longer first stretch acts first. */
  lemma UpdatesStretch<V(!new)>(w: seq<Word>, us: seq<nat>, top: nat, top': nat, bot: nat, v: V, f: (seq<Word>, V) -> V)
    requires top <= top' && us != [] && IsChain(w, us, top, bot) && IsChain(w, us, top', bot) && IsAction(f)
    ensures top' <= |w|
    ensures ChainUpdates(w, us, top, bot, v, f) == ChainUpdates(w, us, top', bot, f(w[top..top'], v), f)
  {
    assert w[top..us[0]] == w[top..top'] + w[top'..us[0]];
  }

  class Thread {
    const mem: array<Word>
    var top: nat
    const bot: nat
    var cureval: int
    const state: State

    const from: set<nat>
    var heap: Heap

    constructor (mem: array<Word>, top: nat, bot: nat, cureval: int, state: State, from: set<nat>, heap: Heap)
      ensures this.mem == mem && this.top == top && this.bot == bot && this.cureval == cureval
      ensures this.state == state && this.from == from && this.heap == heap
    {
      this.mem, this.top, this.bot, this.cureval := mem, top, bot, cureval;
      this.state, this.from, this.heap := state, from, heap;
    }

    method Set(p: nat, word: Word)
      requires p < mem.Length
      modifies mem
      ensures mem[..] == Put(old(mem[..]), p, word)
    {
      mem[p] := word;
    }

    method Memmove(dest: nat, src: nat, sz: nat)
      requires dest + sz <= mem.Length && src + sz <= mem.Length
      modifies mem
      ensures mem[..] == Blit(old(mem[..]), dest, src, sz)
    {
      forall i | 0 <= i < sz {
        mem[dest + i] := mem[src + i];
      }
    }

    /** The first loop: reverse the chain of update frames in place. The result is the
        deepest frame. */
    method ReverseChain(ghost s: Stack) returns (deepest: int)
      requires IsStack(s) && s.w == mem[..] && s.top == top && s.bot == bot
      requires cureval == At(s.us, 0) && IsLinked(s, mem[..])
      modifies mem
      ensures deepest == At(s.us, |s.us| - 1)
      ensures LinkedUp(s, mem[..], |s.us|) && SameButLinks(s, mem[..], mem.Length)
    {
      deepest := -1;
      var update := cureval;
      ghost var i := 0;
      while update != -1
        invariant i <= |s.us| && update == At(s.us, i) && deepest == At(s.us, i - 1)
        invariant LinkedUp(s, mem[..], i) && LinkedDown(s, mem[..], i)
        invariant SameButLinks(s, mem[..], mem.Length)
        decreases |s.us| - i
      {
        assert PointsDown(s, mem[..], i);
        var next := mem[update + NEXT].next;
        LinkStep(s, mem[..], i);
        Set(update + NEXT, Link(deepest));
        deepest := update;
        update := next;
        i := i + 1;
      }
    }

    /** The body of the live branch: the frame is rewritten, moved, and its cell made
        to point at it. */
    method MoveUp(ghost w: seq<Word>, update: nat, to: nat, down: int, sz: nat, dest: nat)
      requires |w| == mem.Length && update + UPDATE_SIZE <= |w| && update + sz <= |w| && dest + sz <= |w|
      requires mem[..] == Put(w, update + NEXT, Link(down))
      modifies this`heap, mem
      ensures mem[..] == Blit(Rewritten(w, update, to, down), dest, update, sz)
      ensures heap == old(heap)[to := EvalCell(dest)]
    {
      hide Put, Blit;
      Set(update + DEST, Cell(to));
      Memmove(dest, update, sz);
      heap := heap[to := EvalCell(dest)];
    }

    /** One update frame: move it below what is kept already, or skip it. */
    method HandleFrame(ghost s: Stack, ghost vs: seq<Verdict>, ghost i: nat, ghost heap0: Heap, ghost isLive: bool,
                       update: nat, src: nat, dest: nat, down: int)
      returns (verdict: Verdict, dest': nat, down': int)
      requires Handled(s, vs, mem[..], i + 1, heap0, from, heap)
      requires AtRound(s, vs, i + 1, src, dest, down, isLive) && update == At(s.us, i)
      modifies this`heap, mem
      ensures i < |vs| && verdict == vs[i]
      ensures !verdict.Broken? ==> FrameHandled(s, vs, mem[..], i, heap0, from, heap, dest', down')
    {
      hide Handled, FrameHandled, Judge, Kept, Down, AnyLive, IsStack, Within, InOrder, Blit, Put, Rewritten, AtRound, At, Src;
      ghost var w := mem[..];
      FrameReads(s, vs, w, i, heap0, from, heap, src, dest, down, isLive);
      dest', down' := dest, down;
      Set(update + NEXT, Link(down));
      verdict := Judge(heap, from, mem[update + DEST]);
      if verdict.Dead? {
        DeadStep(s, vs, w, i, heap0, from, heap, src, dest, down, isLive);
      } else if verdict.Live? {
        LiveStep(s, vs, w, i, heap0, from, heap, src, dest, down, isLive);
        var sz := src - update;
        dest' := dest - sz;
        MoveUp(w, update, verdict.to, down, sz, dest');
        down' := dest';
      }
    }

    /** The rest of the loop body: the frames above, up to the next update frame or
        to the top of the stack. */
    method HandleOthers(ghost s: Stack, ghost vs: seq<Verdict>, ghost i: nat, ghost heap0: Heap, ghost down: int,
                        upupdate: int, update: nat, dest: nat, isLive: bool) returns (src': nat, dest': nat)
      requires FrameHandled(s, vs, mem[..], i, heap0, from, heap, dest, down) && top == s.top
      requires update == At(s.us, i) && upupdate == At(s.us, i - 1) && isLive == AnyLive(vs, i)
      modifies mem
      ensures Handled(s, vs, mem[..], i, heap0, from, heap)
      ensures AtRound(s, vs, i, src', dest', down, isLive)
    {
      hide FrameHandled, Handled, AnyLive, AtRound, IsStack, Within, InOrder, Moved, Kept, Down, Verdicts, Blit;
      FrameRoom(s, vs, mem[..], i, heap0, from, heap, dest, down);
      src' := if upupdate != -1 then upupdate + UPDATE_SIZE else top;
      var sz := update - src';
      dest' := dest;
      if isLive {
        OthersStep(s, vs, mem[..], i, heap0, from, heap, dest, down);
        dest' := dest - sz;
        Memmove(dest', src', sz);
      } else {
        OthersDropped(s, vs, mem[..], i, heap0, from, heap, dest, down);
      }
    }

    /** One round of the second loop. */
    method HandleRound(ghost s: Stack, ghost vs: seq<Verdict>, ghost i: nat, ghost heap0: Heap,
                       update: nat, src: nat, dest: nat, down: int, isLive: bool)
      returns (ok: bool, update': int, src': nat, dest': nat, down': int, isLive': bool)
      requires Handled(s, vs, mem[..], i + 1, heap0, from, heap) && top == s.top
      requires AtRound(s, vs, i + 1, src, dest, down, isLive) && update == At(s.us, i)
      modifies this`heap, mem
      ensures i < |vs| && (ok <==> !vs[i].Broken?)
      ensures ok ==> Handled(s, vs, mem[..], i, heap0, from, heap)
      ensures ok ==> update' == At(s.us, i - 1) && AtRound(s, vs, i, src', dest', down', isLive')
    {
      hide FrameHandled, Handled, IsStack, Within, InOrder, Verdicts, AnyLive, AtRound;
      UpLinkAndRoom(s, vs, mem[..], i, heap0, from, heap);
      update' := mem[update + NEXT].next;
      var verdict, destF;
      verdict, destF, down' := HandleFrame(s, vs, i, heap0, isLive, update, src, dest, down);
      AnyLiveStep(s, vs, i, src, dest, down, isLive);
      isLive' := isLive || verdict.Live?;
      ok := !verdict.Broken?;
      src', dest' := src, destF;
      if ok {
        src', dest' := HandleOthers(s, vs, i, heap0, down', update', update, destF, isLive');
      }
    }

    /** The loops of `ace_stack_post_gc_consolidate`. */
    method MoveFrames(ghost s: Stack) returns (ok: bool, src: nat, dest: nat, down: int)
      requires IsStack(s) && s.w == mem[..] && s.top == top && s.bot == bot
      requires cureval == At(s.us, 0) && IsLinked(s, mem[..])
      modifies this`heap, mem
      ensures var vs := Verdicts(old(heap), from, s);
              && (ok <==> NoneBroken(vs, 0))
              && (ok ==>
                    && Handled(s, vs, mem[..], 0, old(heap), from, heap)
                    && src == Src(s, 0) && dest == s.bot - |Kept(s, vs, 0)| && down == Down(s, vs, 0))
    {
      hide Handled, AtRound, IsStack, Within, InOrder, Verdicts, IsLinked, LinkedUp, SameButLinks, NoneBroken, Kept, Down;
      ghost var vs, heap0 := Verdicts(heap, from, s), heap;
      var update := ReverseChain(s);
      ghost var i: nat := |s.us|;
      src, dest, down := bot, bot, -1;
      var isLive := false;
      ok := true;
      StartHandled(s, vs, mem[..], heap0, from);
      while update != -1
        invariant i <= |s.us| == |vs| && update == At(s.us, i - 1)
        invariant Handled(s, vs, mem[..], i, heap0, from, heap)
        invariant AtRound(s, vs, i, src, dest, down, isLive)
        invariant NoneBroken(vs, i)
        decreases i
      {
        i := i - 1;
        ok, update, src, dest, down, isLive := HandleRound(s, vs, i, heap0, update, src, dest, down, isLive);
        BrokenStep(vs, i);
        if !ok {
          return;
        }
      }
      AtTop(s, vs, src, dest, down, isLive);
    }

    /** The number of words just above the stack that belong to the state of the
        thread: its pending registers or the value it returns. -1 stands for a read
        through a word that is no pointer to code. */
    method CountWords(ghost s: Stack, ghost vs: seq<Verdict>, ghost heap0: Heap) returns (count: int)
      requires Handled(s, vs, mem[..], 0, heap0, from, heap) && StateFits(s, state) && top == s.top
      ensures count == WordsRead(s, state, Gap(s, vs)) && count <= top
    {
      hide Handled, IsStack, Within, InOrder, Gap;
      StateReads(s, vs, mem[..], state, heap0, from, heap);
      match state {
        case Entering(numfvs) => count := numfvs;
        case OtherState => count := 0;
        case Returning =>
          if mem[top].tag != UbanalyzeTag {
            count := 1;
          } else {
            var cont := mem[top + HEADER + mem[top - 1].number];
            count := if cont.Bco? && cont.numargs < top then 1 + cont.numargs else -1;
          }
      }
    }

    /** `ace_stack_post_gc_consolidate`. */
    method Consolidate(ghost s: Stack) returns (outcome: Outcome)
      requires IsStack(s) && s.w == mem[..] && s.top == top && s.bot == bot
      requires cureval == At(s.us, 0) && IsLinked(s, mem[..]) && StateFits(s, state)
      modifies this, mem
      ensures var vs, heap0 := Verdicts(old(heap), from, s), old(heap);
              && (outcome == GcError <==> !NoneBroken(vs, 0))
              && (outcome == WildRead <==> NoneBroken(vs, 0) && WordsRead(s, state, Gap(s, vs)) == -1)
              && (outcome == Consolidated ==>
                    && Compacted(s, vs, WordsRead(s, state, Gap(s, vs)), mem[..], top, cureval)
                    && heap == Repointed(s, vs, 0, heap0))
      ensures outcome == Consolidated && WordsRead(s, state, Gap(s, Verdicts(old(heap), from, s))) == WordsOf(s, state) ==>
                StateKept(s, state, mem[..], top)
    {
      hide IsStack, IsLinked, Verdicts, NoneBroken, Handled, Kept, Down, Repointed, Compacted, StateFits, StateKept, WordsOf;
      hide Within, InOrder, At, Src, Blit, WordsRead, Gap;
      ghost var vs, heap0 := Verdicts(heap, from, s), heap;
      var ok, src, dest, down := MoveFrames(s);
      if !ok {
        return GcError;
      }
      ghost var w := mem[..];
      var count := CountWords(s, vs, heap0);
      if count == -1 {
        return WildRead;
      }
      FinalMove(s, vs, w, state, count, heap0, from, heap);
      Memmove(dest - count, src - count, count);
      cureval, top := down, dest;
      outcome := Consolidated;
      if count == WordsOf(s, state) {
        CompactedState(s, vs, count, mem[..], top, cureval);
        StateMoved(s, state, mem[..], top);
      }
    }
  }
}
