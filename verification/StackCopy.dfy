/** `ace_thread_gccopy` of `ace.c`: the stack of a thread is copied to a new arena, its
    bottom to the bottom there, and the chain of its update frames is rebased. */
module StackCopy {
  import opened StackConsolidate

  /** Positions moved by `d`. */
  function Shifted(us: seq<nat>, d: int): (r: seq<nat>)
    requires forall i :: 0 <= i < |us| ==> 0 <= us[i] + d
    ensures |r| == |us|
  {
    seq(|us|, i requires 0 <= i < |us| => us[i] + d)
  }

  /** The copy has room for the words above the stack, and for the stack. */
  ghost predicate Fits(s: Stack, d: int, count: nat, len: nat) {
    IsStack(s) && count <= s.top && 0 <= s.top - count + d && s.bot + d <= len
  }

  lemma FrameFits(s: Stack, d: int, count: nat, len: nat, i: nat)
    requires Fits(s, d, count, len) && i < |s.us|
    ensures 0 <= s.us[i] + d && s.us[i] + UPDATE_SIZE + d <= len && s.top <= s.us[i] && s.us[i] + UPDATE_SIZE <= s.bot <= |s.w|
  {
  }

  /** The copy as a stack. */
  ghost function Copy(s: Stack, w: seq<Word>, d: int, count: nat): Stack
    requires Fits(s, d, count, |w|)
  {
    Stack(w, Shifted(s.us, d), s.top + d, s.bot + d)
  }

  /** The links of the first `i` update frames of the copy have been rebased, those of the
      others still point into the old stack. */
  ghost predicate Rebased(s: Stack, w: seq<Word>, d: int, count: nat, i: nat)
    requires Fits(s, d, count, |w|)
  {
    forall k :: 0 <= k < |s.us| ==> LinkIs(s, w, d, count, k, i)
  }

  ghost predicate LinkIs(s: Stack, w: seq<Word>, d: int, count: nat, k: nat, i: nat)
    requires Fits(s, d, count, |w|) && k < |s.us|
  {
    FrameFits(s, d, count, |w|, k);
    w[s.us[k] + NEXT + d] == Link(if k + 1 < |s.us| then s.us[k + 1] + (if k < i then d else 0) else -1)
  }

  /** All words of the stack, and the `count` words above it, but for links. */
  ghost predicate SameWords(s: Stack, w: seq<Word>, d: int, count: nat)
    requires Fits(s, d, count, |w|)
  {
    forall p :: s.top - count <= p < s.bot && !IsLink(s, p) ==> w[p + d] == s.w[p]
  }

  /** Nothing outside the copy is written. */
  ghost predicate SameOutside(w: seq<Word>, w': seq<Word>, lo: int, hi: int) {
    |w'| == |w| && forall p :: 0 <= p < |w| && !(lo <= p < hi) ==> w'[p] == w[p]
  }

  /** A copy whose links have all been rebased is a stack with the same frames. */
  lemma CopyIsStack(s: Stack, w: seq<Word>, d: int, count: nat)
    requires Fits(s, d, count, |w|) && Rebased(s, w, d, count, |s.us|)
    ensures IsStack(Copy(s, w, d, count)) && IsLinked(Copy(s, w, d, count), w)
  {
    var s' := Copy(s, w, d, count);
    CopyInOrder(s, w, d, count);
    forall i | 0 <= i < |s'.us|
      ensures PointsDown(s', w, i)
    {
      assert LinkIs(s, w, d, count, i, |s.us|);
    }
  }

  lemma CopyInOrder(s: Stack, w: seq<Word>, d: int, count: nat)
    requires Fits(s, d, count, |w|)
    ensures IsStack(Copy(s, w, d, count))
  {
  }

  /** Rebasing the link of the next frame. */
  lemma RebaseStep(s: Stack, w: seq<Word>, d: int, count: nat, i: nat, w': seq<Word>)
    requires Fits(s, d, count, |w|) && Rebased(s, w, d, count, i) && SameWords(s, w, d, count) && i < |s.us|
    requires 0 <= s.us[i] + NEXT + d < |w|
    requires w' == if i + 1 < |s.us| then w[s.us[i] + NEXT + d := Link(s.us[i + 1] + d)] else w
    ensures Rebased(s, w', d, count, i + 1) && SameWords(s, w', d, count)
    ensures SameOutside(w, w', s.top - count + d, s.bot + d)
  {
    hide IsLink;
    RebaseLinks(s, w, d, count, i, w');
    FrameFits(s, d, count, |w|, i);
    forall p | s.top - count <= p < s.bot && !IsLink(s, p)
      ensures w'[p + d] == s.w[p]
    {
      LinkPlace(s, i);
      assert w[p + d] == s.w[p];
    }
  }

  lemma LinkPlace(s: Stack, i: nat)
    requires i < |s.us|
    ensures IsLink(s, s.us[i] + NEXT)
  {
  }

  lemma RebaseLinks(s: Stack, w: seq<Word>, d: int, count: nat, i: nat, w': seq<Word>)
    requires Fits(s, d, count, |w|) && Rebased(s, w, d, count, i) && i < |s.us|
    requires 0 <= s.us[i] + NEXT + d < |w|
    requires w' == if i + 1 < |s.us| then w[s.us[i] + NEXT + d := Link(s.us[i + 1] + d)] else w
    ensures Rebased(s, w', d, count, i + 1)
  {
    var j := i + 1;
    forall k | 0 <= k < |s.us|
      ensures LinkIs(s, w', d, count, k, j)
    {
      assert LinkIs(s, w, d, count, k, i);
      FramesApart(s, i, k);
    }
  }

  /** Right after the words have been copied. */
  lemma JustCopied(s: Stack, w0: seq<Word>, w: seq<Word>, d: int, count: nat)
    requires Fits(s, d, count, |w|) && IsLinked(s, s.w) && |w0| == |w|
    requires forall p :: 0 <= p < |w| ==> w[p] == if s.top - count <= p - d < s.bot then s.w[p - d] else w0[p]
    ensures Rebased(s, w, d, count, 0) && SameWords(s, w, d, count)
    ensures SameOutside(w0, w, s.top - count + d, s.bot + d)
  {
    hide IsLink;
    forall k | 0 <= k < |s.us|
      ensures LinkIs(s, w, d, count, k, 0)
    {
      FrameFits(s, d, count, |w|, k);
      assert PointsDown(s, s.w, k);
      assert w[s.us[k] + NEXT + d] == s.w[s.us[k] + NEXT];
    }
    forall p | s.top - count <= p < s.bot
      ensures w[p + d] == s.w[p]
    {
      assert 0 <= p + d < |w|;
    }
  }

  lemma LinkRead(s: Stack, w: seq<Word>, d: int, count: nat, i: nat)
    requires Fits(s, d, count, |w|) && Rebased(s, w, d, count, i) && i < |s.us|
    ensures 0 <= s.us[i] + NEXT + d < |w|
    ensures w[s.us[i] + NEXT + d] == Link(if i + 1 < |s.us| then s.us[i + 1] else -1)
  {
    FrameFits(s, d, count, |w|, i);
    assert LinkIs(s, w, d, count, i, i);
  }

  lemma OutsideTwice(w: seq<Word>, w1: seq<Word>, w2: seq<Word>, lo: int, hi: int)
    requires SameOutside(w, w1, lo, hi) && SameOutside(w1, w2, lo, hi)
    ensures SameOutside(w, w2, lo, hi)
  {
  }

  /** The words just above the stack that belong to the state of the thread. */
  method CountWords(mem: array<Word>, ghost s: Stack, top: nat, state: State) returns (count: nat)
    requires s.w == mem[..] && s.top == top && IsStack(s) && StateFits(s, state)
    ensures count == WordsOf(s, state) && count <= top
  {
    hide IsStack;
    match state {
      case OtherState => count := 0;
      case Entering(numfvs) => count := numfvs;
      case Returning =>
        if mem[top].tag == UbanalyzeTag {
          count := 1 + mem[top + HEADER + mem[top - 1].number].numargs;
        } else {
          count := 1;
        }
    }
  }

  /** `ace_thread_gccopy`: the new arena lies between `limit` and `bot'`. */
  method CopyStack(mem: array<Word>, ghost s: Stack, top: nat, bot: nat, cureval: int, state: State,
                   mem': array<Word>, limit: nat, bot': nat)
    returns (ok: bool, top': nat, cureval': int)
    requires IsStack(s) && s.w == mem[..] && s.top == top && s.bot == bot && StateFits(s, state)
    requires s.us != [] && cureval == At(s.us, 0) && IsLinked(s, mem[..])
    requires mem != mem' && limit <= bot' <= mem'.Length
    modifies mem'
    ensures ok <==> WordsOf(s, state) + (bot - top) <= bot' - limit
    ensures ok ==>
              && var d, count := bot' - bot, WordsOf(s, state);
              && Fits(s, d, count, mem'.Length) && limit <= top' - count && top' == top + d
              && var s' := Copy(s, mem'[..], d, count);
              && IsStack(s') && IsLinked(s', mem'[..]) && cureval' == At(s'.us, 0) && |s'.us| == |s.us|
              && SameWords(s, mem'[..], d, count) && StateKept(s, state, mem'[..], top')
              && SameOutside(old(mem'[..]), mem'[..], top' - count, bot')
    ensures !ok ==> mem'[..] == old(mem'[..])
  {
    hide IsStack, IsLinked, StateFits, IsLink, WordsOf, Fits, Rebased, SameWords, SameOutside, Shifted, StateKept;
    var count := CountWords(mem, s, top, state);
    StackBounds(s);
    var size := bot - top;
    if count + size > bot' - limit {
      return false, 0, -1;
    }
    ok, top' := true, bot' - size;
    ghost var d, w0 := bot' - bot, mem'[..];
    ItFits(s, d, count, mem'.Length);
    forall i | 0 <= i < count + size {
      mem'[top' - count + i] := mem[top - count + i];
    }
    JustCopied(s, w0, mem'[..], d, count);
    cureval' := bot' - (bot - cureval);
    LinkRead(s, mem'[..], d, count, 0);
    FrameThere(s, d, count, mem'.Length);
    var update := cureval';
    ghost var i := 0;
    while update != -1
      invariant mem'.Length == |w0| && Fits(s, d, count, mem'.Length) && i <= |s.us|
      invariant i < |s.us| ==> 0 <= s.us[i] + d
      invariant update == if i < |s.us| then s.us[i] + d else -1
      invariant Rebased(s, mem'[..], d, count, i) && SameWords(s, mem'[..], d, count)
      invariant SameOutside(w0, mem'[..], top' - count, bot')
      decreases |s.us| - i
    {
      ghost var w := mem'[..];
      LinkRead(s, w, d, count, i);
      if mem'[update + NEXT].next != -1 {
        mem'[update + NEXT] := Link(bot' - (bot - mem'[update + NEXT].next));
      }
      RebaseStep(s, w, d, count, i, mem'[..]);
      OutsideTwice(w0, w, mem'[..], top' - count, bot');
      LinkNow(s, w, d, count, i, mem'[..]);
      update := mem'[update + NEXT].next;
      i := i + 1;
    }
    CopyIsStack(s, mem'[..], d, count);
    FirstFrame(s, mem'[..], d, count);
    StateCopied(s, mem'[..], d, count, top');
    StateMoved(s, state, mem'[..], top');
  }

  /** The words above the stack hold no links. */
  lemma StateCopied(s: Stack, w: seq<Word>, d: int, count: nat, top': nat)
    requires Fits(s, d, count, |w|) && SameWords(s, w, d, count) && top' == s.top + d
    ensures count <= top' <= |w| && count <= s.top <= |s.w| && w[top' - count..top'] == s.w[s.top - count..s.top]
  {
    var moved, was := w[top' - count..top'], s.w[s.top - count..s.top];
    forall i | 0 <= i < count
      ensures moved[i] == was[i]
    {
      var p := s.top - count + i;
      AboveNoLink(s, p);
      assert w[p + d] == s.w[p];
    }
  }

  lemma AboveNoLink(s: Stack, p: nat)
    requires IsStack(s) && p < s.top
    ensures !IsLink(s, p)
  {
  }

  lemma FrameThere(s: Stack, d: int, count: nat, len: nat)
    requires Fits(s, d, count, len) && s.us != []
    ensures 0 <= s.us[0] + d
  {
    FrameFits(s, d, count, len, 0);
  }

  lemma StackBounds(s: Stack)
    requires IsStack(s)
    ensures s.top <= s.bot <= |s.w|
  {
  }

  lemma ItFits(s: Stack, d: int, count: nat, len: nat)
    requires IsStack(s) && count <= s.top && 0 <= s.top - count + d && s.bot + d <= len
    ensures Fits(s, d, count, len)
  {
    hide IsStack;
  }

  lemma LinkNow(s: Stack, w: seq<Word>, d: int, count: nat, i: nat, w': seq<Word>)
    requires Fits(s, d, count, |w'|) && Rebased(s, w', d, count, i + 1) && i < |s.us|
    ensures 0 <= s.us[i] + NEXT + d < |w'|
    ensures w'[s.us[i] + NEXT + d] == Link(if i + 1 < |s.us| then s.us[i + 1] + d else -1)
    ensures i + 1 < |s.us| ==> 0 <= s.us[i + 1] + d
  {
    FrameFits(s, d, count, |w'|, i);
    if i + 1 < |s.us| {
      FrameFits(s, d, count, |w'|, i + 1);
    }
    assert LinkIs(s, w', d, count, i, i + 1);
  }

  lemma FirstFrame(s: Stack, w: seq<Word>, d: int, count: nat)
    requires Fits(s, d, count, |w|) && s.us != []
    ensures var us := Copy(s, w, d, count).us; |us| == |s.us| && At(us, 0) == s.us[0] + d
  {
  }
}
