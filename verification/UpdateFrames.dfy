/** The update-frame protocol of `ace.c` and `acestack.c`: a thread that evaluates a heap
    cell pushes an update frame for it, the cell points back at the frame, and the cell
    becomes an indirection when the thread returns, errs or fails. A cell is entered under
    its lock, and a thread that fails takes the locks of its cells one after the other. */
module UpdateFrames {

  // words of struct gsbc_cont_update, and of struct gsbc_cont_app before its arguments
  const UPDATE_SIZE := 5
  const APP_HEADER := 4

  // words a running thread must have besides an update frame to enter a cell itself; with
  // less it leaves the cell to a new thread
  const IN_PLACE := 0x40

  /** A place on the stack of a thread: words above the stack's limit. Stacks grow
      towards lower positions. */
  datatype Ref = NoRef | Ref(tid: nat, pos: nat)

  /** An unevaluated closure holds as many values as its code wants or not; an
      application has arguments. */
  datatype Cell =
    | Closure(isExpr: bool, held: nat, wanted: nat)
    | Application(numargs: nat)
    | Eval(update: Ref)
    | Indirection(dest: nat)

  datatype Frame = Frame(dest: nat, next: Ref)

  /** The frame that is run or returned to next lies at `top`. While a value is being
      returned through update frames, `stacktop` stays where it lies. */
  datatype Thread = Thread(finished: bool, cureval: Ref, stacktop: nat, top: nat, bot: nat)

  type Cells = map<nat, Cell>
  type Frames = map<Ref, Frame>

  /** `held` are the cells whose lock is taken. */
  datatype State = State(cells: Cells, frames: Frames, threads: map<nat, Thread>, held: set<nat>)

  /** A step ends, or thread `t` waits for ever for the lock of cell `a`. */
  datatype Outcome = Done(s: State) | Deadlock(s: State, t: nat, a: nat)

  // ----- Chains -----

  /** The chain from an update frame down; a link that does not lead down the stack
      ends it. */
  ghost function Chain(frames: Frames, ref: Ref, bot: nat): (c: seq<Ref>)
    ensures forall r :: r in c ==> r in frames
    decreases if ref.Ref? then bot - ref.pos else 0
  {
    if ref.NoRef? || ref !in frames then []
    else
      var next := frames[ref].next;
      [ref] + if next.Ref? && ref.pos < next.pos < bot then Chain(frames, next, bot) else []
  }

  /** The chain lies on the stack of thread `t` between `lo` and `bot`. */
  ghost predicate Linked(frames: Frames, t: nat, ref: Ref, lo: nat, bot: nat)
    decreases if lo < bot then bot - lo else 0
  {
    ref.NoRef? ||
    (ref.tid == t && lo <= ref.pos && ref.pos + UPDATE_SIZE <= bot && ref in frames
     && Linked(frames, t, frames[ref].next, ref.pos + UPDATE_SIZE, bot))
  }

  ghost predicate Unfinished(s: State, t: nat) {
    t in s.threads && !s.threads[t].finished
  }

  /** Frame `r` is on the chain of an unfinished thread. */
  ghost predicate OnChain(s: State, r: Ref) {
    r.Ref? && Unfinished(s, r.tid) && r in Chain(s.frames, s.threads[r.tid].cureval, s.threads[r.tid].bot)
  }

  ghost predicate ThreadOk(s: State, t: nat)
    requires t in s.threads
  {
    var th := s.threads[t];
    th.stacktop <= th.top <= th.bot && (!th.finished ==> Linked(s.frames, t, th.cureval, th.top, th.bot))
  }

  ghost predicate ThreadsOk(s: State) {
    forall t :: t in s.threads ==> ThreadOk(s, t)
  }

  /** The cell an update frame points at is under evaluation and points back. */
  ghost predicate PointsBack(s: State, r: Ref) {
    r in s.frames && s.frames[r].dest in s.cells && s.cells[s.frames[r].dest] == Eval(r)
  }

  ghost predicate FramesOk(s: State) {
    forall r :: OnChain(s, r) ==> PointsBack(s, r)
  }

  /** A cell under evaluation points at an update frame for it. */
  ghost predicate CellOk(s: State, a: nat)
    requires a in s.cells
  {
    s.cells[a].Eval? ==>
      OnChain(s, s.cells[a].update) && s.cells[a].update in s.frames && s.frames[s.cells[a].update].dest == a
  }

  ghost predicate CellsOk(s: State) {
    forall a :: a in s.cells ==> CellOk(s, a)
  }

  ghost predicate Inv(s: State) {
    ThreadsOk(s) && FramesOk(s) && CellsOk(s)
  }

  /** Exactly one update frame on exactly one chain points at a cell under evaluation. */
  lemma ExactlyOneFrame(s: State, a: nat)
    requires Inv(s) && a in s.cells && s.cells[a].Eval?
    ensures OnChain(s, s.cells[a].update) && s.frames[s.cells[a].update].dest == a
    ensures forall r :: OnChain(s, r) && r in s.frames && s.frames[r].dest == a ==> r == s.cells[a].update
  {
    assert CellOk(s, a);
    forall r | OnChain(s, r) && r in s.frames && s.frames[r].dest == a
      ensures r == s.cells[a].update
    {
      assert PointsBack(s, r);
    }
  }

  lemma {:induction false} ChainLinked(frames: Frames, t: nat, ref: Ref, lo: nat, bot: nat)
    requires Linked(frames, t, ref, lo, bot)
    ensures forall r :: r in Chain(frames, ref, bot) ==> r.Ref? && r.tid == t && lo <= r.pos && r in frames
    ensures ref.Ref? ==> Chain(frames, ref, bot) == [ref] + Chain(frames, frames[ref].next, bot)
    decreases if ref.Ref? then bot - ref.pos else 0
  {
    if ref.Ref? {
      ChainLinked(frames, t, frames[ref].next, ref.pos + UPDATE_SIZE, bot);
    }
  }

  /** Only frames of the thread itself, from `lo` down, matter to its chain. */
  lemma {:induction false} ChainFrame(frames: Frames, frames': Frames, t: nat, ref: Ref, lo: nat, bot: nat)
    requires Linked(frames, t, ref, lo, bot)
    requires forall r: Ref :: r in frames && r.Ref? && r.tid == t && r.pos >= lo ==> r in frames' && frames'[r] == frames[r]
    ensures Linked(frames', t, ref, lo, bot) && Chain(frames', ref, bot) == Chain(frames, ref, bot)
    decreases if ref.Ref? then bot - ref.pos else 0
  {
    if ref.Ref? {
      ChainFrame(frames, frames', t, frames[ref].next, ref.pos + UPDATE_SIZE, bot);
    }
  }

  lemma LinkedLower(frames: Frames, t: nat, ref: Ref, lo: nat, lo': nat, bot: nat)
    requires Linked(frames, t, ref, lo, bot) && lo' <= (if ref.Ref? then ref.pos else bot)
    ensures Linked(frames, t, ref, lo', bot)
  {
  }

  // ----- Steps -----

  /** `ace_error_thread` and `ace_failure_thread`: every cell on the chain becomes an
      indirection to the error, and the thread is finished. */
  ghost function ThreadFailed(s: State, t: nat, err: nat): State
    requires t in s.threads
  {
    if s.threads[t].finished then s
    else s.(cells := map a | a in s.cells :: if IsTarget(s, t, a) then Indirection(err) else s.cells[a],
            threads := s.threads[t := s.threads[t].(finished := true)])
  }

  /** Some update frame on the chain of `t` points at `a`. */
  ghost predicate IsTarget(s: State, t: nat, a: nat)
    requires t in s.threads
  {
    exists r :: r in Chain(s.frames, s.threads[t].cureval, s.threads[t].bot) && r in s.frames && s.frames[r].dest == a
  }

  ghost function Set(s: State, a: nat, cell: Cell): State {
    s.(cells := s.cells[a := cell])
  }

  ghost function SetTop(s: State, t: nat, top: nat): State
    requires t in s.threads
  {
    s.(threads := s.threads[t := s.threads[t].(stacktop := top, top := top)])
  }

  /** `ace_push_update` when there is room. */
  ghost function PushUpdate(s: State, t: nat, a: nat): State
    requires t in s.threads && s.threads[t].top >= UPDATE_SIZE
  {
    var th := s.threads[t];
    var ref := Ref(t, th.top - UPDATE_SIZE);
    s.(frames := s.frames[ref := Frame(a, th.cureval)],
       threads := s.threads[t := th.(cureval := ref, stacktop := th.top - UPDATE_SIZE, top := th.top - UPDATE_SIZE)])
  }

  ghost predicate IsThunk(cell: Cell) { cell.Closure? || cell.Application? }

  /** After the update frame has been pushed there is no room for the frame of an
      application. */
  ghost predicate NoRoom(s: State, t: nat, a: nat)
    requires t in s.threads && a in s.cells
  {
    s.cells[a].Application? && UPDATE_SIZE <= s.threads[t].top < UPDATE_SIZE + APP_HEADER + s.cells[a].numargs
  }

  /** The walk over the update frames of a thread: it takes the lock of each cell to make
      it an indirection, and waits at one that is held. */
  ghost function Walked(s: State, t: nat, refs: seq<Ref>, err: nat): (o: Outcome)
    requires forall r :: r in refs ==> r in s.frames
    ensures o.s.threads == s.threads
    decreases |refs|
  {
    if refs == [] then Done(s)
    else
      var a := s.frames[refs[0]].dest;
      if a in s.held then Deadlock(s, t, a) else Walked(Set(s, a, Indirection(err)), t, refs[1..], err)
  }

  /** `ace_error_thread` and `ace_failure_thread`, step by step */
  ghost function Failing(s: State, t: nat, err: nat): (o: Outcome)
    requires t in s.threads
    ensures t in o.s.threads
  {
    if s.threads[t].finished then Done(s)
    else
      match Walked(s, t, Chain(s.frames, s.threads[t].cureval, s.threads[t].bot), err)
      case Done(x) => Done(x.(threads := s.threads[t := s.threads[t].(finished := true)]))
      case Deadlock(x, u, a) => Deadlock(x, u, a)
  }

  ghost function Unlocked(s: State, a: nat): State { s.(held := s.held - {a}) }

  /** `ace_thread_enter_closure`; the caller has taken the lock of the cell. If there is
      no room for the update frame the stack allocator fails the thread with one error,
      the cell gets another, and the thread is failed again. If there is none for the
      frame of an application, it fails the thread before the cell is unlocked. */
  ghost function Entered(s: State, t: nat, a: nat, err: nat, err2: nat): Outcome
    requires CanEnter(s, t, a)
  {
    var l := s.(held := s.held + {a});
    if s.threads[t].top < UPDATE_SIZE then
      match Failing(l, t, err)
      case Deadlock(x, u, b) => Deadlock(x, u, b)
      case Done(x) =>
        Failing(Unlocked(Set(x, a, Indirection(err2)), a), t, err2)
    else
      var p := PushUpdate(l, t, a);
      var top := p.threads[t].top;
      var update := Eval(p.threads[t].cureval);
      match s.cells[a]
      case Closure(isExpr, held, wanted) =>
        if !isExpr || held != wanted || held > top then Failing(Unlocked(p, a), t, err) else Done(Unlocked(Set(p, a, update), a))
      case Application(numargs) =>
        if APP_HEADER + numargs > top then Failing(p, t, err)
        else Done(Unlocked(SetTop(Set(p, a, update), t, top - (APP_HEADER + numargs)), a))
      case _ => Done(s)
  }

  /** What entering a cell comes to if it ends. */
  ghost function ClosureEntered(s: State, t: nat, a: nat, err: nat, err2: nat): State
    requires Unfinished(s, t) && a in s.cells && IsThunk(s.cells[a]) && !NoRoom(s, t, a)
  {
    if s.threads[t].top < UPDATE_SIZE then Set(ThreadFailed(s, t, err), a, Indirection(err2))
    else
      var p := PushUpdate(s, t, a);
      var top := p.threads[t].top;
      var update := Eval(p.threads[t].cureval);
      match s.cells[a]
      case Closure(isExpr, held, wanted) =>
        if !isExpr || held != wanted || held > top then ThreadFailed(p, t, err) else Set(p, a, update)
      case Application(numargs) => SetTop(Set(p, a, update), t, top - (APP_HEADER + numargs))
      case _ => s
  }

  /** `ace_return_to_update`; the update frame is the next to be returned to. The value
      stays where it is for the frame after it. */
  ghost function ReturnedTo(s: State, t: nat, v: nat): State
    requires Unfinished(s, t) && s.threads[t].cureval in s.frames && s.threads[t].cureval.Ref?
  {
    var th := s.threads[t];
    var frame := s.frames[th.cureval];
    var s1 := Set(s, frame.dest, Indirection(v));
    if frame.next.Ref?
    then s1.(threads := s.threads[t := th.(cureval := frame.next, top := th.cureval.pos + UPDATE_SIZE)])
    else s1.(threads := s.threads[t := th.(finished := true)])
  }

  datatype Step =
    | Start(t: nat, size: nat, a: nat, err: nat, err2: nat) // evaluation of a cell on a new thread
    | Enter(t: nat, a: nat, err: nat, err2: nat) // evaluation of a cell on a running thread
    | Return(t: nat, v: nat)
    | Fail(t: nat, err: nat)
    | Push(t: nat, n: nat, err: nat)              // other continuations
    | Pop(t: nat, n: nat)                         // popping them
    | Poison(a: nat, err: nat)                    // a closure that holds the wrong number of values
    | New(a: nat, cell: Cell)                     // a new cell

  ghost function NewThread(s: State, t: nat, size: nat): State
    requires t !in s.threads
  {
    s.(threads := s.threads[t := Thread(false, NoRef, size, size, size)])
  }

  /** The thread is running code: it is not returning through update frames. */
  ghost predicate Running(s: State, t: nat) {
    Unfinished(s, t) && s.threads[t].stacktop == s.threads[t].top
  }

  /** The cell is unevaluated, and its lock can be taken. */
  ghost predicate CanEnter(s: State, t: nat, a: nat) {
    Running(s, t) && a in s.cells && IsThunk(s.cells[a]) && a !in s.held
  }

  ghost predicate Enabled(s: State, step: Step) {
    match step
    case Start(t, size, a, _, _) => t !in s.threads && CanEnter(NewThread(s, t, size), t, a)
    case Enter(t, a, _, _) => CanEnter(s, t, a) && s.threads[t].top >= IN_PLACE + UPDATE_SIZE
    case Return(t, _) => Unfinished(s, t) && s.threads[t].cureval in s.frames && s.threads[t].cureval == Ref(t, s.threads[t].top)
    case Fail(t, _) => t in s.threads
    case Push(t, _, _) => Running(s, t)
    case Pop(t, n) => Unfinished(s, t) && s.threads[t].cureval.Ref? && s.threads[t].top + n <= s.threads[t].cureval.pos
    case Poison(a, _) => a in s.cells && s.cells[a].Closure? && s.cells[a].isExpr && a !in s.held
    case New(a, cell) => a !in s.cells && !cell.Eval?
  }

  ghost function Apply(s: State, step: Step): Outcome
    requires Enabled(s, step)
  {
    match step
    case Start(t, size, a, err, err2) => Entered(NewThread(s, t, size), t, a, err, err2)
    case Enter(t, a, err, err2) => Entered(s, t, a, err, err2)
    case Return(t, v) => if s.frames[s.threads[t].cureval].dest in s.held then Deadlock(s, t, s.frames[s.threads[t].cureval].dest) else Done(ReturnedTo(s, t, v))
    case Fail(t, err) => Failing(s, t, err)
    case Push(t, n, err) => if n > s.threads[t].top then Failing(s, t, err) else Done(SetTop(s, t, s.threads[t].top - n))
    case Pop(t, n) => Done(SetTop(s, t, s.threads[t].top + n))
    case Poison(a, err) => Done(Set(s, a, Indirection(err)))
    case New(a, cell) => Done(Set(s, a, cell))
  }

  // ----- Every step keeps the invariant -----

  lemma ChainOf(s: State, t: nat)
    requires ThreadsOk(s) && Unfinished(s, t)
    ensures Linked(s.frames, t, s.threads[t].cureval, s.threads[t].top, s.threads[t].bot)
    ensures forall r :: r in Chain(s.frames, s.threads[t].cureval, s.threads[t].bot) ==> OnChain(s, r) && r.tid == t && r.pos >= s.threads[t].top && r in s.frames
  {
    assert ThreadOk(s, t);
    ChainLinked(s.frames, t, s.threads[t].cureval, s.threads[t].top, s.threads[t].bot);
  }

  lemma TopMoves(s: State, t: nat, top: nat)
    requires Inv(s) && Unfinished(s, t)
    requires top <= (if s.threads[t].cureval.Ref? then s.threads[t].cureval.pos else s.threads[t].bot) && top <= s.threads[t].bot
    ensures Inv(SetTop(s, t, top))
  {
    hide Linked, Chain;
    var s' := SetTop(s, t, top);
    ChainOf(s, t);
    LinkedLower(s.frames, t, s.threads[t].cureval, s.threads[t].top, top, s.threads[t].bot);
    forall u | u in s'.threads
      ensures ThreadOk(s', u)
    {
      assert ThreadOk(s, u);
    }
    SameChains(s, s');
  }

  /** If chains and cells stay, so do the facts about them. */
  lemma SameChains(s: State, s': State)
    requires FramesOk(s) && CellsOk(s) && s'.cells == s.cells && s'.frames == s.frames
    requires forall r :: OnChain(s', r) <==> OnChain(s, r)
    ensures FramesOk(s') && CellsOk(s')
  {
    forall r | OnChain(s', r)
      ensures PointsBack(s', r)
    {
      assert PointsBack(s, r);
    }
    forall a | a in s'.cells
      ensures CellOk(s', a)
    {
      assert CellOk(s, a);
    }
  }

  /** The chains after a push: the new frame joins that of its thread. */
  lemma PushChains(s: State, t: nat, a: nat)
    requires ThreadsOk(s) && Unfinished(s, t) && s.threads[t].top >= UPDATE_SIZE
    ensures var s', r' := PushUpdate(s, t, a), Ref(t, s.threads[t].top - UPDATE_SIZE);
            && ThreadsOk(s') && s'.threads[t].cureval == r' && !OnChain(s, r')
            && (forall r :: OnChain(s', r) <==> OnChain(s, r) || r == r')
            && (forall r :: OnChain(s, r) ==> r in s.frames && r in s'.frames && s'.frames[r] == s.frames[r])
  {
    hide Linked, Chain;
    var s', r' := PushUpdate(s, t, a), Ref(t, s.threads[t].top - UPDATE_SIZE);
    forall u | u in s.threads
      ensures ThreadOk(s', u)
      ensures forall r: Ref :: r.Ref? && r.tid == u ==> (OnChain(s', r) <==> OnChain(s, r) || r == r')
      ensures forall r: Ref :: r.Ref? && r.tid == u && OnChain(s, r) ==> r in s.frames && r != r'
    {
      PushChain(s, t, a, u);
    }
  }

  lemma PushChain(s: State, t: nat, a: nat, u: nat)
    requires ThreadsOk(s) && Unfinished(s, t) && s.threads[t].top >= UPDATE_SIZE && u in s.threads
    ensures var s', r' := PushUpdate(s, t, a), Ref(t, s.threads[t].top - UPDATE_SIZE);
            && ThreadOk(s', u)
            && (forall r: Ref :: r.Ref? && r.tid == u ==> (OnChain(s', r) <==> OnChain(s, r) || r == r'))
            && (forall r: Ref :: r.Ref? && r.tid == u && OnChain(s, r) ==> r in s.frames && r != r')
  {
    var s', r' := PushUpdate(s, t, a), Ref(t, s.threads[t].top - UPDATE_SIZE);
    var th := s.threads[u];
    assert ThreadOk(s, u);
    if !th.finished {
      ChainOf(s, u);
      ChainFrame(s.frames, s'.frames, u, th.cureval, th.top, th.bot);
      if u == t {
        NewHead(s'.frames, t, r', a, th.cureval, th.top, th.bot);
      }
    }
  }

  lemma NewHead(frames: Frames, t: nat, ref: Ref, a: nat, next: Ref, top: nat, bot: nat)
    requires top >= UPDATE_SIZE && ref == Ref(t, top - UPDATE_SIZE) && ref in frames && frames[ref] == Frame(a, next)
    requires Linked(frames, t, next, top, bot) && top <= bot
    ensures Linked(frames, t, ref, top - UPDATE_SIZE, bot)
    ensures Chain(frames, ref, bot) == [ref] + Chain(frames, next, bot)
  {
  }

  /** Pushing the frame of an unevaluated cell and making the cell point at it. */
  lemma EvalStarts(s: State, t: nat, a: nat)
    requires Inv(s) && Unfinished(s, t) && s.threads[t].top >= UPDATE_SIZE
    requires a in s.cells && IsThunk(s.cells[a])
    ensures var p := PushUpdate(s, t, a); Inv(Set(p, a, Eval(p.threads[t].cureval)))
  {
    hide Linked, Chain, OnChain;
    var p := PushUpdate(s, t, a);
    var r' := p.threads[t].cureval;
    var s' := Set(p, a, Eval(r'));
    PushChains(s, t, a);
    ChainsOnly(p, s');
    forall r | OnChain(s', r)
      ensures PointsBack(s', r)
    {
      if r != r' {
        assert PointsBack(s, r);
      }
    }
    forall b | b in s'.cells
      ensures CellOk(s', b)
    {
      if b != a {
        assert CellOk(s, b);
      }
    }
  }

  /** Chains and threads do not depend on cells. */
  lemma ChainsOnly(s: State, s': State)
    requires s'.frames == s.frames && s'.threads == s.threads
    ensures forall r :: OnChain(s', r) <==> OnChain(s, r)
    ensures ThreadsOk(s) ==> ThreadsOk(s')
  {
    hide Linked, Chain;
    if ThreadsOk(s) {
      forall t | t in s'.threads
        ensures ThreadOk(s', t)
      {
        assert ThreadOk(s, t);
      }
    }
  }

  /** The invariant but for the chain of `t`, whose frames may point at cells that are
      not under evaluation yet. */
  ghost predicate InvBut(s: State, t: nat) {
    && ThreadsOk(s) && CellsOk(s)
    && (forall r :: OnChain(s, r) && r.tid != t ==> PointsBack(s, r))
    && (forall r :: OnChain(s, r) && r.tid == t ==> PointsBack(s, r) || PointsAtThunk(s, r))
  }

  ghost predicate PointsAtThunk(s: State, r: Ref) {
    r in s.frames && s.frames[r].dest in s.cells && IsThunk(s.cells[s.frames[r].dest])
  }

  lemma InvIsInvBut(s: State, t: nat)
    requires Inv(s)
    ensures InvBut(s, t)
  {
    hide OnChain, ThreadsOk, CellsOk;
  }

  lemma PushedIsInvBut(s: State, t: nat, a: nat)
    requires Inv(s) && Unfinished(s, t) && s.threads[t].top >= UPDATE_SIZE
    requires a in s.cells && IsThunk(s.cells[a])
    ensures InvBut(PushUpdate(s, t, a), t)
  {
    hide Linked, Chain, OnChain;
    var p := PushUpdate(s, t, a);
    PushChains(s, t, a);
    forall r | OnChain(p, r) && r != p.threads[t].cureval
      ensures PointsBack(p, r)
    {
      assert PointsBack(s, r);
    }
    forall b | b in p.cells
      ensures CellOk(p, b)
    {
      assert CellOk(s, b);
    }
  }

  lemma FailKeepsInv(s: State, t: nat, err: nat)
    requires InvBut(s, t) && Unfinished(s, t)
    ensures Inv(ThreadFailed(s, t, err))
  {
    hide Linked, Chain, OnChain, IsTarget;
    var s' := ThreadFailed(s, t, err);
    FailedChains(s, t, err);
    forall u | u in s'.threads
      ensures ThreadOk(s', u)
    {
      assert ThreadOk(s, u);
    }
    forall r | OnChain(s', r)
      ensures PointsBack(s', r)
    {
      assert PointsBack(s, r);
      NotATarget(s, t, r);
    }
    forall a | a in s'.cells
      ensures CellOk(s', a)
    {
      assert CellOk(s, a);
      if s'.cells[a].Eval? {
        StillEval(s, t, a);
      }
    }
  }

  lemma FailedChains(s: State, t: nat, err: nat)
    requires Unfinished(s, t)
    ensures forall r :: OnChain(ThreadFailed(s, t, err), r) <==> OnChain(s, r) && r.tid != t
  {
    hide Chain, IsTarget;
  }

  lemma TargetHasFrame(s: State, t: nat, a: nat) returns (r: Ref)
    requires ThreadsOk(s) && Unfinished(s, t) && IsTarget(s, t, a)
    ensures OnChain(s, r) && r.tid == t && r in s.frames && s.frames[r].dest == a
  {
    hide Linked, Chain;
    ChainOf(s, t);
    r :| r in Chain(s.frames, s.threads[t].cureval, s.threads[t].bot) && r in s.frames && s.frames[r].dest == a;
  }

  /** The cell of another thread's frame is no target. */
  lemma NotATarget(s: State, t: nat, r: Ref)
    requires InvBut(s, t) && Unfinished(s, t) && PointsBack(s, r) && r.tid != t
    ensures !IsTarget(s, t, s.frames[r].dest)
  {
    hide Linked, Chain, OnChain, IsTarget, ThreadsOk, CellsOk;
    if IsTarget(s, t, s.frames[r].dest) {
      var q := TargetHasFrame(s, t, s.frames[r].dest);
      OwnFramePointsBack(s, t, q);
    }
  }

  lemma OwnFramePointsBack(s: State, t: nat, r: Ref)
    requires InvBut(s, t) && OnChain(s, r) && r.tid == t
    requires r in s.frames && s.frames[r].dest in s.cells && s.cells[s.frames[r].dest].Eval?
    ensures PointsBack(s, r)
  {
    hide OnChain, ThreadsOk, CellsOk;
  }

  lemma MakesTarget(s: State, t: nat, r: Ref)
    requires t in s.threads && r in s.frames && r in Chain(s.frames, s.threads[t].cureval, s.threads[t].bot)
    ensures IsTarget(s, t, s.frames[r].dest)
  {
    hide Chain;
  }

  lemma FramePointsBack(s: State, r: Ref)
    requires Inv(s) && OnChain(s, r)
    ensures PointsBack(s, r)
  {
    hide OnChain;
  }

  lemma StillEval(s: State, t: nat, a: nat)
    requires a in s.cells && CellOk(s, a) && s.cells[a].Eval? && Unfinished(s, t) && !IsTarget(s, t, a)
    ensures s.cells[a].update.tid != t
  {
    hide Chain, IsTarget;
    if s.cells[a].update.tid == t {
      MakesTarget(s, t, s.cells[a].update);
    }
  }

  /** A cell that is not under evaluation may become an indirection, and a new one may
      come up. */
  lemma SetKeepsInv(s: State, a: nat, cell: Cell)
    requires Inv(s) && (a in s.cells ==> !s.cells[a].Eval?) && !cell.Eval?
    ensures Inv(Set(s, a, cell))
  {
    hide Linked, Chain, OnChain;
    var s' := Set(s, a, cell);
    ChainsOnly(s, s');
    forall r | OnChain(s', r)
      ensures PointsBack(s', r)
    {
      assert PointsBack(s, r);
    }
    forall b | b in s'.cells
      ensures CellOk(s', b)
    {
      if b in s.cells {
        assert CellOk(s, b);
      }
    }
  }

  lemma FailLeavesThunks(s: State, t: nat, a: nat, err: nat)
    requires Inv(s) && Unfinished(s, t) && a in s.cells && !s.cells[a].Eval?
    ensures a in ThreadFailed(s, t, err).cells && ThreadFailed(s, t, err).cells[a] == s.cells[a]
  {
    hide Linked, Chain, OnChain, IsTarget, ThreadsOk, CellsOk;
    if IsTarget(s, t, a) {
      var r := TargetHasFrame(s, t, a);
      FramePointsBack(s, r);
    }
  }

  lemma EnteredKeepsInv(s: State, t: nat, a: nat, err: nat, err2: nat)
    requires Inv(s) && CanEnter(s, t, a) && !NoRoom(s, t, a)
    ensures Inv(ClosureEntered(s, t, a, err, err2))
  {
    hide Linked, Chain, OnChain, IsTarget, ThreadsOk, CellsOk, FramesOk, ThreadFailed, InvBut;
    if s.threads[t].top < UPDATE_SIZE {
      InvIsInvBut(s, t);
      FailKeepsInv(s, t, err);
      FailLeavesThunks(s, t, a, err);
      SetKeepsInv(ThreadFailed(s, t, err), a, Indirection(err2));
    } else {
      hide Inv;
      var p := PushUpdate(s, t, a);
      EvalStarts(s, t, a);
      PushedIsInvBut(s, t, a);
      FailKeepsInv(p, t, err);
      if s.cells[a].Application? {
        BotIsBelow(s, t);
        TopMoves(Set(p, a, Eval(p.threads[t].cureval)), t, p.threads[t].top - (APP_HEADER + s.cells[a].numargs));
      }
    }
  }

  lemma BotIsBelow(s: State, t: nat)
    requires Inv(s) && t in s.threads
    ensures s.threads[t].top <= s.threads[t].bot
  {
    assert ThreadOk(s, t);
  }

  lemma ReturnKeepsInv(s: State, t: nat, v: nat)
    requires Inv(s) && Enabled(s, Step.Return(t, v))
    ensures Inv(ReturnedTo(s, t, v))
  {
    hide Linked, Chain, OnChain;
    var s', r', a := ReturnedTo(s, t, v), s.threads[t].cureval, s.frames[s.threads[t].cureval].dest;
    ReturnChains(s, t, v);
    forall r | OnChain(s', r)
      ensures PointsBack(s', r)
    {
      assert PointsBack(s, r) && PointsBack(s, r');
    }
    forall b | b in s'.cells
      ensures CellOk(s', b)
    {
      if b != a {
        assert CellOk(s, b);
      }
    }
  }

  lemma ReturnChains(s: State, t: nat, v: nat)
    requires ThreadsOk(s) && Enabled(s, Step.Return(t, v))
    ensures var s' := ReturnedTo(s, t, v);
            && ThreadsOk(s') && OnChain(s, s.threads[t].cureval)
            && forall r :: OnChain(s', r) <==> OnChain(s, r) && r != s.threads[t].cureval
  {
    var s', th := ReturnedTo(s, t, v), s.threads[t];
    ChainOf(s, t);
    ChainLinked(s.frames, t, th.cureval, th.top, th.bot);
    ChainLinked(s.frames, t, s.frames[th.cureval].next, th.top + UPDATE_SIZE, th.bot);
    hide Chain;
    forall u | u in s'.threads
      ensures ThreadOk(s', u)
    {
      assert ThreadOk(s, u);
    }
    NoChain(s.frames, s.threads[t].bot);
  }

  lemma NoLink(frames: Frames, t: nat, size: nat)
    ensures Linked(frames, t, NoRef, size, size)
  {
  }

  lemma NoChain(frames: Frames, bot: nat)
    ensures Chain(frames, NoRef, bot) == []
  {
  }

  lemma StartsEmpty(s: State, t: nat, size: nat)
    requires Inv(s) && t !in s.threads
    ensures Inv(NewThread(s, t, size))
  {
    hide Linked, Chain;
    var s' := NewThread(s, t, size);
    NoChain(s.frames, size);
    NoLink(s.frames, t, size);
    forall u | u in s'.threads
      ensures ThreadOk(s', u)
    {
      if u != t {
        assert ThreadOk(s, u);
      }
    }
    SameChains(s, s');
  }

  // ----- Locks -----

  lemma OneFirst(cells: Cells, frames: Frames, refs: seq<Ref>, err: nat)
    requires refs != [] && refs[0] in frames && frames[refs[0]].dest in cells
    ensures Indirected(cells[frames[refs[0]].dest := Indirection(err)], frames, refs[1..], err) == Indirected(cells, frames, refs, err)
  {
    forall a | a in cells
      ensures AnyPointsAt(frames, refs, a) <==> AnyPointsAt(frames, refs[1..], a) || frames[refs[0]].dest == a
    {
      if AnyPointsAt(frames, refs, a) {
        var q :| q in refs && q in frames && frames[q].dest == a;
        assert q == refs[0] || q in refs[1..];
      }
    }
  }

  /** The walk goes through if no cell of it is held, and waits if one is. */
  lemma {:induction false} WalkIs(s: State, t: nat, refs: seq<Ref>, err: nat)
    requires forall r :: r in refs ==> r in s.frames && s.frames[r].dest in s.cells
    ensures (forall r :: r in refs ==> s.frames[r].dest !in s.held)
            ==> Walked(s, t, refs, err) == Done(s.(cells := Indirected(s.cells, s.frames, refs, err)))
    ensures Walked(s, t, refs, err).Deadlock? <==> exists r :: r in refs && s.frames[r].dest in s.held
    decreases |refs|
  {
    hide Indirected;
    if refs == [] {
      NoneYet(s.cells, s.frames, err);
    } else {
      var a := s.frames[refs[0]].dest;
      if a !in s.held {
        OneFirst(s.cells, s.frames, refs, err);
        WalkIs(Set(s, a, Indirection(err)), t, refs[1..], err);
        assert forall r :: r in refs <==> r == refs[0] || r in refs[1..];
      } else {
        assert refs[0] in refs;
      }
    }
  }

  /** Failing a thread waits for ever if and only if the lock of a cell it evaluates is
      held; otherwise all these cells become indirections. */
  lemma FailDeadlocksIff(s: State, t: nat, err: nat)
    requires InvBut(s, t) && t in s.threads
    ensures Failing(s, t, err).Deadlock? <==> Unfinished(s, t) && exists a :: a in s.held && IsTarget(s, t, a)
    ensures !Failing(s, t, err).Deadlock? ==> Failing(s, t, err) == Done(ThreadFailed(s, t, err))
  {
    hide Chain, Indirected, InvBut, ThreadFailed, Walked;
    if s.threads[t].finished {
      FailFinished(s, t, err);
    } else {
      var refs := Chain(s.frames, s.threads[t].cureval, s.threads[t].bot);
      ChainDests(s, t);
      FailIs(s, t, err);
      WalkIs(s, t, refs, err);
      forall a | a in s.held && IsTarget(s, t, a)
        ensures exists r :: r in refs && s.frames[r].dest in s.held
      {
      }
      forall r | r in refs && s.frames[r].dest in s.held
        ensures IsTarget(s, t, s.frames[r].dest)
      {
      }
    }
  }

  lemma LockedInvBut(s: State, t: nat, held: set<nat>)
    requires InvBut(s, t)
    ensures InvBut(s.(held := held), t)
  {
    hide Linked, Chain;
    var l := s.(held := held);
    assert forall r :: OnChain(l, r) <==> OnChain(s, r);
    assert forall u :: u in s.threads && ThreadOk(s, u) ==> ThreadOk(l, u);
    assert forall r :: PointsBack(s, r) ==> PointsBack(l, r);
    assert forall r :: PointsAtThunk(s, r) ==> PointsAtThunk(l, r);
    assert forall a :: a in s.cells && CellOk(s, a) ==> CellOk(l, a);
  }

  lemma LockedInv(s: State, held: set<nat>)
    requires Inv(s)
    ensures Inv(s.(held := held))
  {
    hide Linked, Chain;
    var l := s.(held := held);
    assert forall r :: OnChain(l, r) <==> OnChain(s, r);
    assert forall u :: u in s.threads && ThreadOk(s, u) ==> ThreadOk(l, u);
    assert forall r :: PointsBack(s, r) ==> PointsBack(l, r);
    assert forall a :: a in s.cells && CellOk(s, a) ==> CellOk(l, a);
  }

  lemma LockedFails(s: State, t: nat, err: nat, held: set<nat>)
    requires t in s.threads
    ensures ThreadFailed(s.(held := held), t, err) == ThreadFailed(s, t, err).(held := held)
  {
    hide Chain;
    assert forall a :: IsTarget(s.(held := held), t, a) <==> IsTarget(s, t, a);
  }

  lemma LockedIsNoTarget(s: State, t: nat, a: nat, held: set<nat>)
    requires Inv(s) && Unfinished(s, t) && a in s.cells && IsThunk(s.cells[a])
    ensures !IsTarget(s.(held := held), t, a)
  {
    hide Chain, Linked, OnChain, ThreadsOk, CellsOk;
    assert IsTarget(s.(held := held), t, a) <==> IsTarget(s, t, a);
    if IsTarget(s, t, a) {
      var r := TargetHasFrame(s, t, a);
      FramePointsBack(s, r);
    }
  }

  /** No room for the update frame: the cell entered is not one the thread evaluates, so
      the walk does not meet its lock. */
  lemma PushOverflows(s: State, t: nat, a: nat, err: nat, err2: nat)
    requires Inv(s) && s.held == {} && CanEnter(s, t, a) && s.threads[t].top < UPDATE_SIZE
    ensures Entered(s, t, a, err, err2) == Done(ClosureEntered(s, t, a, err, err2))
  {
    hide Inv, InvBut, ThreadFailed, Failing, IsTarget;
    var l := s.(held := s.held + {a});
    assert s.held + {a} == {a} && {a} - {a} == {};
    InvIsInvBut(s, t);
    LockedInvBut(s, t, {a});
    LockedFails(s, t, err, {a});
    LockedIsNoTarget(s, t, a, {a});
    FailDeadlocksIff(l, t, err);
    OverflowIs(s, t, a, err, err2);
    FailFinishes(l, t, err);
    FailsOnce(Unlocked(Set(ThreadFailed(l, t, err), a, Indirection(err2)), a), t, err2);
  }

  lemma OverflowIs(s: State, t: nat, a: nat, err: nat, err2: nat)
    requires s.held == {} && t in s.threads
    ensures Unlocked(Set(ThreadFailed(s.(held := s.held + {a}), t, err), a, Indirection(err2)), a) == Set(ThreadFailed(s, t, err), a, Indirection(err2))
  {
    assert s.held + {a} == {a} && {a} - {a} == {};
    LockedFails(s, t, err, {a});
    hide IsTarget;
  }

  lemma FailFinishes(s: State, t: nat, err: nat)
    requires t in s.threads
    ensures t in ThreadFailed(s, t, err).threads && ThreadFailed(s, t, err).threads[t].finished
  {
  }

  lemma FailsOnce(s: State, t: nat, err: nat)
    requires t in s.threads && s.threads[t].finished
    ensures Failing(s, t, err) == Done(s)
  {
  }

  /** The cell has been unlocked before the thread is failed. */
  lemma ClosureFails(s: State, t: nat, a: nat, err: nat)
    requires Inv(s) && s.held == {} && CanEnter(s, t, a) && s.threads[t].top >= UPDATE_SIZE
    ensures Failing(Unlocked(PushUpdate(s.(held := s.held + {a}), t, a), a), t, err) == Done(ThreadFailed(PushUpdate(s, t, a), t, err))
  {
    hide Inv, InvBut, ThreadFailed, Failing, IsTarget;
    var p := PushUpdate(s, t, a);
    assert s.held + {a} - {a} == {};
    assert Unlocked(PushUpdate(s.(held := s.held + {a}), t, a), a) == p;
    PushedIsInvBut(s, t, a);
    FailDeadlocksIff(p, t, err);
  }

  /** The cell is still locked when the thread is failed, and its update frame is the first
      the walk comes to. */
  lemma ApplicationDeadlocks(s: State, t: nat, a: nat, err: nat)
    requires Inv(s) && CanEnter(s, t, a) && s.threads[t].top >= UPDATE_SIZE
    ensures var p := PushUpdate(s.(held := s.held + {a}), t, a); Failing(p, t, err) == Deadlock(p, t, a)
  {
    hide Inv, Chain, Linked;
    var p := PushUpdate(s.(held := s.held + {a}), t, a);
    PushedChain(s, t, a);
    assert Chain(p.frames, p.threads[t].cureval, p.threads[t].bot)[0] == p.threads[t].cureval;
  }

  lemma PushedChain(s: State, t: nat, a: nat)
    requires Inv(s) && Unfinished(s, t) && s.threads[t].top >= UPDATE_SIZE
    ensures var p := PushUpdate(s, t, a);
            var chain := Chain(p.frames, p.threads[t].cureval, p.threads[t].bot);
            chain != [] && chain[0] == p.threads[t].cureval
  {
    hide Chain, Linked;
    PushChains(s, t, a);
    var p := PushUpdate(s, t, a);
    assert ThreadOk(p, t);
    ChainLinked(p.frames, t, p.threads[t].cureval, p.threads[t].top, p.threads[t].bot);
  }

  /** Entering a cell waits for ever if and only if the cell is an application whose
      frame does not fit after its update frame: then the thread has pushed the update
      frame and waits for the lock it holds itself, and no cell has changed. Otherwise it
      comes to `ClosureEntered`. */
  lemma EnterDeadlocksIff(s: State, t: nat, a: nat, err: nat, err2: nat)
    requires Inv(s) && s.held == {} && CanEnter(s, t, a)
    ensures Entered(s, t, a, err, err2).Deadlock? <==> NoRoom(s, t, a)
    ensures NoRoom(s, t, a) ==> Entered(s, t, a, err, err2) == Deadlock(PushUpdate(s.(held := {a}), t, a), t, a)
    ensures !NoRoom(s, t, a) ==> Entered(s, t, a, err, err2) == Done(ClosureEntered(s, t, a, err, err2))
  {
    hide Inv, ThreadFailed, Failing;
    assert s.held + {a} == {a} && {a} - {a} == {};
    if s.threads[t].top < UPDATE_SIZE {
      PushOverflows(s, t, a, err, err2);
    } else {
      ClosureFails(s, t, a, err);
      ApplicationDeadlocks(s, t, a, err);
    }
  }

  /** A thread that waits for ever: everything else is in order, no other lock is held,
      and the cell it waits for is an application it was entering. */
  ghost predicate Stuck(s: State, t: nat, a: nat) {
    && InvBut(s, t) && s.held == {a} && Unfinished(s, t) && IsTarget(s, t, a)
    && a in s.cells && s.cells[a].Application? && s.threads[t].top < APP_HEADER + s.cells[a].numargs
  }

  ghost predicate Quiet(s: State) { Inv(s) && s.held == {} }

  /** The protocol holds and no lock is held, or one thread is stuck. */
  ghost predicate OutcomeOk(o: Outcome) {
    match o
    case Done(s) => Quiet(s)
    case Deadlock(s, t, a) => Stuck(s, t, a)
  }

  lemma EnterKeepsInv(s: State, t: nat, a: nat, err: nat, err2: nat)
    requires Quiet(s) && CanEnter(s, t, a)
    ensures OutcomeOk(Entered(s, t, a, err, err2))
  {
    hide Inv, InvBut, Entered, ClosureEntered, IsTarget;
    EnterDeadlocksIff(s, t, a, err, err2);
    if NoRoom(s, t, a) {
      PushedIsInvBut(s, t, a);
      LockedInvBut(PushUpdate(s, t, a), t, {a});
      assert PushUpdate(s.(held := {a}), t, a) == PushUpdate(s, t, a).(held := {a});
      PushedHead(s, t, a);
      LockedTarget(PushUpdate(s, t, a), t, a, {a});
    } else {
      EnteredKeepsInv(s, t, a, err, err2);
      EnteredHolds(s, t, a, err, err2);
    }
  }

  lemma LockedTarget(s: State, t: nat, a: nat, held: set<nat>)
    requires t in s.threads && IsTarget(s, t, a)
    ensures IsTarget(s.(held := held), t, a)
  {
    hide Chain;
  }

  lemma EnteredHolds(s: State, t: nat, a: nat, err: nat, err2: nat)
    requires CanEnter(s, t, a) && !NoRoom(s, t, a)
    ensures ClosureEntered(s, t, a, err, err2).held == s.held
  {
    hide IsTarget;
  }

  /** The new thread or the running one has no room for the frame of the application it
      enters. */
  ghost predicate EntersWithoutRoom(s: State, step: Step)
    requires Enabled(s, step)
  {
    match step
    case Start(t, size, a, _, _) => NoRoom(NewThread(s, t, size), t, a)
    case Enter(t, a, _, _) => NoRoom(s, t, a)
    case _ => false
  }

  /** Every step keeps the protocol; the only one that waits for ever enters an
      application without room for its frame. */
  lemma StepKeepsInv(s: State, step: Step)
    requires Quiet(s) && Enabled(s, step)
    ensures OutcomeOk(Apply(s, step))
    ensures Apply(s, step).Deadlock? <==> EntersWithoutRoom(s, step)
  {
    hide Inv, ThreadFailed, Entered, Failing, ReturnedTo, NewThread, NoRoom, Stuck;
    match step
    case Start(t, size, a, err, err2) =>
      StartsEmpty(s, t, size);
      NewThreadCells(s, t, size);
      EnterKeepsInv(NewThread(s, t, size), t, a, err, err2);
      EnterDeadlocksIff(NewThread(s, t, size), t, a, err, err2);
    case Enter(t, a, err, err2) =>
      EnterKeepsInv(s, t, a, err, err2);
      EnterDeadlocksIff(s, t, a, err, err2);
    case Return(t, v) =>
      ReturnKeepsInv(s, t, v);
      ReturnHolds(s, t, v);
    case Fail(t, err) => FailStep(s, t, err);
    case Push(t, n, err) =>
      BotIsBelow(s, t);
      if n > s.threads[t].top {
        FailStep(s, t, err);
      } else {
        TopIsAbove(s, t);
        TopMoves(s, t, s.threads[t].top - n);
      }
    case Pop(t, n) =>
      TopIsAbove(s, t);
      TopMoves(s, t, s.threads[t].top + n);
    case Poison(a, err) => SetKeepsInv(s, a, Indirection(err));
    case New(a, cell) => SetKeepsInv(s, a, cell);
  }

  lemma ReturnHolds(s: State, t: nat, v: nat)
    requires Enabled(s, Step.Return(t, v))
    ensures ReturnedTo(s, t, v).held == s.held
  {
  }

  lemma FailStep(s: State, t: nat, err: nat)
    requires Quiet(s) && t in s.threads
    ensures Failing(s, t, err) == Done(ThreadFailed(s, t, err)) && Quiet(ThreadFailed(s, t, err))
  {
    hide Inv, InvBut, Failing, IsTarget;
    InvIsInvBut(s, t);
    FailDeadlocksIff(s, t, err);
    if !s.threads[t].finished {
      FailKeepsInv(s, t, err);
    }
  }

  lemma TopIsAbove(s: State, t: nat)
    requires Inv(s) && Unfinished(s, t)
    ensures s.threads[t].cureval.Ref? ==> s.threads[t].top <= s.threads[t].cureval.pos && s.threads[t].cureval.pos + UPDATE_SIZE <= s.threads[t].bot
  {
    assert ThreadOk(s, t);
  }

  // ----- Whole runs -----

  /** A run ends with a step that waits for ever, if not before. */
  ghost predicate IsRun(s: State, steps: seq<Step>)
    decreases |steps|
  {
    steps == [] ||
    (Enabled(s, steps[0]) &&
     match Apply(s, steps[0])
     case Done(s') => IsRun(s', steps[1..])
     case Deadlock(_, _, _) => |steps| == 1)
  }

  ghost function After(s: State, steps: seq<Step>): Outcome
    requires IsRun(s, steps)
    decreases |steps|
  {
    if steps == [] then Done(s)
    else
      match Apply(s, steps[0])
      case Done(s') => After(s', steps[1..])
      case Deadlock(x, t, a) => Deadlock(x, t, a)
  }

  /** No indirection is retargeted, and a cell under evaluation stays under evaluation
      by the same update frame until it becomes an indirection. */
  ghost predicate CellsMoveOn(s: State, s': State) {
    forall a :: a in s.cells ==> a in s'.cells && MovesOn(s.cells[a], s'.cells[a])
  }

  predicate MovesOn(cell: Cell, cell': Cell) {
    && (cell.Indirection? ==> cell' == cell)
    && (cell.Eval? ==> cell' == cell || cell'.Indirection?)
    && (!cell'.Indirection? && !cell'.Eval? ==> cell' == cell)
  }

  lemma FailMovesOn(s: State, t: nat, err: nat)
    requires InvBut(s, t) && t in s.threads
    ensures CellsMoveOn(s, ThreadFailed(s, t, err))
  {
    hide Linked, Chain, OnChain, IsTarget, ThreadsOk, CellsOk;
    forall a | a in s.cells && Unfinished(s, t) && IsTarget(s, t, a)
      ensures !s.cells[a].Indirection?
    {
      var r := TargetHasFrame(s, t, a);
    }
  }

  lemma MovesOnTwice(s: State, s1: State, s2: State)
    requires CellsMoveOn(s, s1) && CellsMoveOn(s1, s2)
    ensures CellsMoveOn(s, s2)
  {
    forall a | a in s.cells
      ensures a in s2.cells && MovesOn(s.cells[a], s2.cells[a])
    {
      assert MovesOn(s.cells[a], s1.cells[a]) && MovesOn(s1.cells[a], s2.cells[a]);
    }
  }

  lemma SetMovesOn(s: State, a: nat, cell: Cell)
    requires a in s.cells && !s.cells[a].Indirection? && (s.cells[a].Eval? ==> cell.Indirection?) && (cell.Eval? || cell.Indirection?)
    ensures CellsMoveOn(s, Set(s, a, cell))
  {
  }

  lemma EnteredMovesOn(s: State, t: nat, a: nat, err: nat, err2: nat)
    requires Inv(s) && CanEnter(s, t, a) && !NoRoom(s, t, a)
    ensures CellsMoveOn(s, ClosureEntered(s, t, a, err, err2))
  {
    hide Inv, InvBut, CellsMoveOn, ThreadFailed;
    InvIsInvBut(s, t);
    if s.threads[t].top < UPDATE_SIZE {
      FailMovesOn(s, t, err);
      FailLeavesThunks(s, t, a, err);
      SetMovesOn(ThreadFailed(s, t, err), a, Indirection(err2));
      MovesOnTwice(s, ThreadFailed(s, t, err), Set(ThreadFailed(s, t, err), a, Indirection(err2)));
    } else {
      var p := PushUpdate(s, t, a);
      PushedIsInvBut(s, t, a);
      FailMovesOn(p, t, err);
      SameCellsMoveOn(s, p);
      MovesOnTwice(s, p, ThreadFailed(p, t, err));
      var q := Set(p, a, Eval(p.threads[t].cureval));
      SetMovesOn(p, a, Eval(p.threads[t].cureval));
      MovesOnTwice(s, p, q);
      if s.cells[a].Application? {
        SameCellsMoveOn(q, ClosureEntered(s, t, a, err, err2));
        MovesOnTwice(s, q, ClosureEntered(s, t, a, err, err2));
      }
    }
  }

  lemma SameCellsMoveOn(s: State, s': State)
    requires s'.cells == s.cells
    ensures CellsMoveOn(s, s')
  {
  }

  lemma EnterMovesOn(s: State, t: nat, a: nat, err: nat, err2: nat)
    requires Quiet(s) && CanEnter(s, t, a)
    ensures CellsMoveOn(s, Entered(s, t, a, err, err2).s)
  {
    hide Inv, Entered, ClosureEntered, CellsMoveOn;
    EnterDeadlocksIff(s, t, a, err, err2);
    if NoRoom(s, t, a) {
      SameCellsMoveOn(s, PushUpdate(s.(held := {a}), t, a));
    } else {
      EnteredMovesOn(s, t, a, err, err2);
    }
  }

  lemma StepMovesOn(s: State, step: Step)
    requires Quiet(s) && Enabled(s, step)
    ensures CellsMoveOn(s, Apply(s, step).s)
  {
    hide Inv, InvBut, ThreadFailed, Entered, Failing, NewThread, NoRoom;
    match step
    case Start(t, size, a, err, err2) =>
      StartsEmpty(s, t, size);
      NewThreadCells(s, t, size);
      EnterMovesOn(NewThread(s, t, size), t, a, err, err2);
    case Enter(t, a, err, err2) => EnterMovesOn(s, t, a, err, err2);
    case Return(t, v) => ReturnMovesOn(s, t, v);
    case Fail(t, err) =>
      InvIsInvBut(s, t);
      FailStep(s, t, err);
      FailMovesOn(s, t, err);
    case Push(t, n, err) =>
      InvIsInvBut(s, t);
      FailStep(s, t, err);
      FailMovesOn(s, t, err);
    case Pop(t, n) =>
    case Poison(a, err) =>
    case New(a, cell) =>
  }

  lemma NewThreadCells(s: State, t: nat, size: nat)
    requires t !in s.threads
    ensures NewThread(s, t, size).cells == s.cells && NewThread(s, t, size).held == s.held
  {
  }

  lemma ReturnMovesOn(s: State, t: nat, v: nat)
    requires Inv(s) && Enabled(s, Step.Return(t, v))
    ensures CellsMoveOn(s, ReturnedTo(s, t, v))
  {
    hide Linked, Chain, OnChain;
    ReturnChains(s, t, v);
    FramePointsBack(s, s.threads[t].cureval);
  }

  /** Along any run the protocol holds, no indirection is retargeted, and no cell under
      evaluation changes hands; and if the run ends in a wait, all of this holds there
      too, and the thread that waits is entering an application without room for it. */
  lemma {:induction false} RunKeepsProtocol(s: State, steps: seq<Step>)
    requires Quiet(s) && IsRun(s, steps)
    ensures OutcomeOk(After(s, steps)) && CellsMoveOn(s, After(s, steps).s)
    decreases |steps|
  {
    hide Quiet, Stuck, Apply, Enabled, CellsMoveOn;
    if steps == [] {
      SameCellsMoveOn(s, s);
    } else {
      StepKeepsInv(s, steps[0]);
      StepMovesOn(s, steps[0]);
      match Apply(s, steps[0])
      case Done(s') =>
        RunKeepsProtocol(s', steps[1..]);
        MovesOnTwice(s, s', After(s, steps).s);
      case Deadlock(_, _, _) =>
    }
  }

  lemma OutcomeCellsOk(o: Outcome)
    requires OutcomeOk(o)
    ensures CellsOk(o.s)
  {
    hide CellsOk, ThreadsOk, FramesOk, OnChain, IsTarget;
  }

  /** A cell that some thread was evaluating is an indirection once that thread has
      finished, by return, error or failure. */
  lemma FinishedCellsAreIndirections(s: State, steps: seq<Step>, a: nat)
    requires Quiet(s) && IsRun(s, steps) && a in s.cells && s.cells[a].Eval?
    ensures s.cells[a].update.Ref? && Unfinished(s, s.cells[a].update.tid)
    ensures var s' := After(s, steps).s;
            a in s'.cells && (!Unfinished(s', s.cells[a].update.tid) ==> s'.cells[a].Indirection?)
  {
    hide IsRun, After, Linked, Chain, OutcomeOk;
    RunKeepsProtocol(s, steps);
    OutcomeCellsOk(After(s, steps));
    var s' := After(s, steps).s;
    assert CellOk(s, a) && MovesOn(s.cells[a], s'.cells[a]);
    assert CellOk(s', a);
  }

  /** Where entering a cell ends, the cell is an indirection or under evaluation by this
      thread. */
  lemma EnterEnds(s: State, t: nat, a: nat, err: nat, err2: nat)
    requires Quiet(s) && CanEnter(s, t, a)
    ensures var o := Entered(s, t, a, err, err2);
            && a in o.s.cells
            && (o.Done? ==> o.s.cells[a].Indirection? || (o.s.cells[a].Eval? && o.s.cells[a].update.Ref? && o.s.cells[a].update.tid == t))
            && (o.Deadlock? ==> o.s.cells == s.cells)
  {
    hide Linked, Chain, OnChain, Inv, IsTarget, Entered;
    EnterDeadlocksIff(s, t, a, err, err2);
    if s.threads[t].top >= UPDATE_SIZE {
      PushedHead(s, t, a);
    }
  }

  lemma PushedHead(s: State, t: nat, a: nat)
    requires Inv(s) && Unfinished(s, t) && s.threads[t].top >= UPDATE_SIZE
    ensures IsTarget(PushUpdate(s, t, a), t, a)
  {
    hide Linked, Chain;
    var p := PushUpdate(s, t, a);
    PushChains(s, t, a);
    assert OnChain(p, p.threads[t].cureval);
    assert p.frames[p.threads[t].cureval].dest == a;
  }

  // ----- What cells come to -----

  /** A closure that cannot be entered: it is no expression, does not hold what its code
      wants, or holds more than there is room for. */
  predicate Unenterable(cell: Cell, room: int) {
    cell.Closure? && (!cell.isExpr || cell.held != cell.wanted || cell.held > room)
  }

  /** What the cells come to when `t` enters cell `b`. */
  ghost function CellEntered(s: State, t: nat, b: nat, err: nat, err2: nat, a: nat): Cell
    requires t in s.threads && a in s.cells && b in s.cells
  {
    var top := s.threads[t].top;
    if NoRoom(s, t, b) then s.cells[a]
    else if top < UPDATE_SIZE then
      if a == b then Indirection(err2) else if IsTarget(s, t, a) then Indirection(err) else s.cells[a]
    else if Unenterable(s.cells[b], top - UPDATE_SIZE) then
      if a == b || IsTarget(s, t, a) then Indirection(err) else s.cells[a]
    else
      if a == b then Eval(Ref(t, top - UPDATE_SIZE)) else s.cells[a]
  }

  /** What a step makes of a cell: the cell of the update frame returned into takes the
      value, the cells of a thread that fails take the error. */
  ghost function CellAfter(s: State, step: Step, a: nat): Cell
    requires Enabled(s, step) && a in s.cells
  {
    match step
    case Start(t, size, b, err, err2) => CellEntered(NewThread(s, t, size), t, b, err, err2, a)
    case Enter(t, b, err, err2) => CellEntered(s, t, b, err, err2, a)
    case Return(t, v) => if s.frames[s.threads[t].cureval].dest == a then Indirection(v) else s.cells[a]
    case Fail(t, err) => if Unfinished(s, t) && IsTarget(s, t, a) then Indirection(err) else s.cells[a]
    case Push(t, n, err) => if n > s.threads[t].top && IsTarget(s, t, a) then Indirection(err) else s.cells[a]
    case Pop(_, _) => s.cells[a]
    case Poison(b, err) => if a == b then Indirection(err) else s.cells[a]
    case New(_, _) => s.cells[a]
  }

  lemma PushedTargets(s: State, t: nat, a: nat, b: nat)
    requires Inv(s) && Unfinished(s, t) && s.threads[t].top >= UPDATE_SIZE
    ensures IsTarget(PushUpdate(s, t, b), t, a) <==> a == b || IsTarget(s, t, a)
  {
    hide Linked, Chain;
    var p, r, th := PushUpdate(s, t, b), Ref(t, s.threads[t].top - UPDATE_SIZE), s.threads[t];
    assert ThreadOk(s, t);
    ChainOf(s, t);
    ChainFrame(s.frames, p.frames, t, th.cureval, th.top, th.bot);
    NewHead(p.frames, t, r, b, th.cureval, th.top, th.bot);
    var refs := Chain(s.frames, th.cureval, th.bot);
    assert Chain(p.frames, r, th.bot) == [r] + refs;
    forall q | q in refs
      ensures q in s.frames && q in p.frames && p.frames[q] == s.frames[q]
    {
      assert q != r;
    }
    if IsTarget(s, t, a) {
      var q :| q in refs && q in s.frames && s.frames[q].dest == a;
      assert q in [r] + refs;
    }
  }

  lemma EnterSets(s: State, t: nat, b: nat, err: nat, err2: nat, a: nat)
    requires Quiet(s) && CanEnter(s, t, b) && a in s.cells
    ensures var o := Entered(s, t, b, err, err2); a in o.s.cells && o.s.cells[a] == CellEntered(s, t, b, err, err2, a)
  {
    hide Inv, Entered, IsTarget;
    EnterDeadlocksIff(s, t, b, err, err2);
    if s.threads[t].top >= UPDATE_SIZE {
      PushedTargets(s, t, a, b);
    }
  }

  /** Every step makes of every cell just that. */
  lemma StepSets(s: State, step: Step, a: nat)
    requires Quiet(s) && Enabled(s, step) && a in s.cells
    ensures a in Apply(s, step).s.cells && Apply(s, step).s.cells[a] == CellAfter(s, step, a)
  {
    hide Inv, Entered, CellEntered, Failing, IsTarget, NewThread;
    match step
    case Start(t, size, b, err, err2) =>
      StartsEmpty(s, t, size);
      NewThreadCells(s, t, size);
      EnterSets(NewThread(s, t, size), t, b, err, err2, a);
    case Enter(t, b, err, err2) => EnterSets(s, t, b, err, err2, a);
    case Fail(t, err) => FailStep(s, t, err);
    case Push(t, n, err) => FailStep(s, t, err);
    case _ =>
  }

  /** The step returns `v` into update frame `r`, or fails its thread with error `v`. */
  ghost predicate Gives(s: State, step: Step, r: Ref, v: nat)
    requires Enabled(s, step) && r.Ref?
  {
    match step
    case Return(t, w) => s.threads[t].cureval == r && v == w
    case Fail(t, err) => t == r.tid && v == err
    case Push(t, n, err) => t == r.tid && n > s.threads[t].top && v == err
    case Enter(t, b, err, _) =>
      && t == r.tid && v == err
      && (s.threads[t].top < UPDATE_SIZE || Unenterable(s.cells[b], s.threads[t].top - UPDATE_SIZE))
    case _ => false
  }

  /** A thread has the cells of its update frames as targets, and no others. */
  lemma TargetIff(s: State, t: nat, a: nat)
    requires Inv(s) && Unfinished(s, t) && a in s.cells && s.cells[a].Eval?
    ensures s.cells[a].update.Ref? && (IsTarget(s, t, a) <==> t == s.cells[a].update.tid)
  {
    hide Linked, Chain, OnChain, IsTarget;
    assert CellOk(s, a);
    ExactlyOneFrame(s, a);
    UpdateIsRef(s, a);
    if IsTarget(s, t, a) {
      var r := TargetHasFrame(s, t, a);
    } else {
      InvIsInvBut(s, t);
      StillEval(s, t, a);
    }
  }

  lemma UpdateIsRef(s: State, a: nat)
    requires a in s.cells && CellOk(s, a) && s.cells[a].Eval?
    ensures s.cells[a].update.Ref? && Unfinished(s, s.cells[a].update.tid)
  {
  }

  /** A cell under evaluation becomes an indirection to `v` exactly if the step gives `v`
      to its update frame, and stays as it is otherwise. */
  lemma EvalBecomes(s: State, step: Step, a: nat, v: nat)
    requires Quiet(s) && Enabled(s, step) && a in s.cells && s.cells[a].Eval?
    ensures s.cells[a].update.Ref? && a in Apply(s, step).s.cells
    ensures Apply(s, step).s.cells[a] == Indirection(v) <==> Gives(s, step, s.cells[a].update, v)
    ensures Apply(s, step).s.cells[a] == s.cells[a] || Apply(s, step).s.cells[a].Indirection?
  {
    hide Inv, Apply, IsTarget;
    StepSets(s, step, a);
    assert CellOk(s, a) by { CellsOkOf(s); }
    UpdateIsRef(s, a);
    match step
    case Start(t, size, b, err, err2) =>
      StartsEmpty(s, t, size);
      TargetIff(NewThread(s, t, size), t, a);
      NotThisThread(s, t, a);
    case Enter(t, b, err, err2) => TargetIff(s, t, a);
    case Return(t, w) => ReturnsInto(s, t, w, a);
    case Fail(t, err) => if Unfinished(s, t) { TargetIff(s, t, a); }
    case Push(t, n, err) => TargetIff(s, t, a);
    case _ =>
  }

  lemma CellsOkOf(s: State)
    requires Inv(s)
    ensures CellsOk(s)
  {
  }

  lemma NotThisThread(s: State, t: nat, a: nat)
    requires t !in s.threads && a in s.cells && CellOk(s, a) && s.cells[a].Eval?
    ensures s.cells[a].update.Ref? && s.cells[a].update.tid != t
  {
  }

  lemma ReturnsInto(s: State, t: nat, v: nat, a: nat)
    requires Inv(s) && Enabled(s, Step.Return(t, v)) && a in s.cells && s.cells[a].Eval?
    ensures s.frames[s.threads[t].cureval].dest == a <==> s.cells[a].update == s.threads[t].cureval
  {
    hide Linked, Chain;
    ReturnChains(s, t, v);
    hide OnChain;
    FramePointsBack(s, s.threads[t].cureval);
    ExactlyOneFrame(s, a);
  }

  /** Over a run: a cell that was under evaluation and is an indirection at the end points
      at the value that was returned into its own update frame, or at the error with which
      its own thread was failed; up to that step it stayed as it was. */
  lemma {:induction false} ResolvedBy(s: State, steps: seq<Step>, a: nat) returns (i: nat)
    requires Quiet(s) && IsRun(s, steps) && a in s.cells && s.cells[a].Eval?
    requires var s' := After(s, steps).s; a in s'.cells && s'.cells[a].Indirection?
    ensures i < |steps| && IsRun(s, steps[..i]) && After(s, steps[..i]).Done?
    ensures var x := After(s, steps[..i]).s;
            && Enabled(x, steps[i]) && a in x.cells && x.cells[a] == s.cells[a] && s.cells[a].update.Ref?
            && Gives(x, steps[i], s.cells[a].update, After(s, steps).s.cells[a].dest)
    decreases |steps|
  {
    hide Quiet, Apply, Enabled, Gives, CellsMoveOn, OutcomeOk;
    var o := Apply(s, steps[0]);
    StepKeepsInv(s, steps[0]);
    EvalBecomes(s, steps[0], a, After(s, steps).s.cells[a].dest);
    assert steps[..0] == [];
    if o.s.cells[a].Indirection? {
      i := 0;
      if o.Done? {
        OutcomeQuiet(o);
        RunKeepsProtocol(o.s, steps[1..]);
        IndirectionStays(o.s, After(o.s, steps[1..]).s, a);
      }
    } else {
      OutcomeQuiet(o);
      var j := ResolvedBy(o.s, steps[1..], a);
      i := j + 1;
      assert steps[..i][1..] == steps[1..][..j] && steps[..i][0] == steps[0];
    }
  }

  lemma OutcomeQuiet(o: Outcome)
    requires OutcomeOk(o)
    ensures o.Done? ==> Quiet(o.s)
  {
  }

  lemma IndirectionStays(s: State, s': State, a: nat)
    requires CellsMoveOn(s, s') && a in s.cells && s.cells[a].Indirection?
    ensures a in s'.cells && s'.cells[a] == s.cells[a]
  {
  }

  // ----- A run that ends in a wait -----

  const IDLE := State(map[], map[], map[], {})

  /** A thread of any size starts with cell 0, pushes other continuations until it has no
      more than the words it needs to enter a cell itself, and enters cell 1. */
  function Descent(size: nat, n: nat): seq<Step>
    requires size >= IN_PLACE + 2 * UPDATE_SIZE
  {
    [New(0, Closure(true, 0, 0)), New(1, Application(n)), Start(0, size, 0, 2, 3),
     Push(0, size - IN_PLACE - 2 * UPDATE_SIZE, 2), Enter(0, 1, 2, 3)]
  }

  /** Reachable from nothing: entering an application with 61 arguments or more makes the
      thread wait for ever, with fewer it does not. */
  lemma DescentDeadlocksIff(size: nat, n: nat)
    requires size >= IN_PLACE + 2 * UPDATE_SIZE
    ensures IsRun(IDLE, Descent(size, n))
    ensures var o := After(IDLE, Descent(size, n));
            && (o.Deadlock? <==> n >= IN_PLACE - APP_HEADER + 1)
            && (o.Deadlock? ==> o.t == 0 && o.a == 1 && Stuck(o.s, 0, 1) && o.s.cells[1] == Application(n))
  {
    hide Quiet, Apply, IsRun, After;
    IdleIsQuiet();
    var s2 := TwoCells(n);
    var s3 := ZeroStarted(s2, size, n);
    var step := Push(0, size - IN_PLACE - 2 * UPDATE_SIZE, 2);
    var s4 := SetTop(s3, 0, IN_PLACE + UPDATE_SIZE);
    ApplyPush(s3, step);
    StepKeepsInv(s3, step);
    OneEntered(s4, n);
    var s1 := Set(IDLE, 0, Closure(true, 0, 0));
    var r4 := [Enter(0, 1, 2, 3)];
    var r3 := [step] + r4;
    var r2 := [Start(0, size, 0, 2, 3)] + r3;
    var r1 := [New(1, Application(n))] + r2;
    RunOn(s3, step, s4, r4);
    RunOn(s2, Start(0, size, 0, 2, 3), s3, r3);
    RunOn(s1, New(1, Application(n)), s2, r2);
    RunOn(IDLE, New(0, Closure(true, 0, 0)), s1, r1);
    assert Descent(size, n) == [New(0, Closure(true, 0, 0))] + r1;
  }

  lemma IdleIsQuiet()
    ensures Quiet(IDLE)
  {
  }

  lemma RunOn(s: State, step: Step, s': State, steps: seq<Step>)
    requires Enabled(s, step) && Apply(s, step) == Done(s') && IsRun(s', steps)
    ensures IsRun(s, [step] + steps) && After(s, [step] + steps) == After(s', steps)
  {
    hide Apply, Enabled;
    assert ([step] + steps)[1..] == steps;
  }

  lemma TwoCells(n: nat) returns (s2: State)
    ensures s2.cells == map[0 := Closure(true, 0, 0), 1 := Application(n)] && s2.threads == map[] && Quiet(s2)
    ensures var s1 := Set(IDLE, 0, Closure(true, 0, 0));
            && Enabled(IDLE, New(0, Closure(true, 0, 0))) && Apply(IDLE, New(0, Closure(true, 0, 0))) == Done(s1)
            && Enabled(s1, New(1, Application(n))) && Apply(s1, New(1, Application(n))) == Done(s2)
  {
    hide Quiet;
    IdleIsQuiet();
    var s1 := Set(IDLE, 0, Closure(true, 0, 0));
    s2 := Set(s1, 1, Application(n));
    StepKeepsInv(IDLE, New(0, Closure(true, 0, 0)));
    StepKeepsInv(s1, New(1, Application(n)));
  }

  lemma ZeroStarted(s: State, size: nat, n: nat) returns (s': State)
    requires s.cells == map[0 := Closure(true, 0, 0), 1 := Application(n)] && s.threads == map[] && Quiet(s) && size >= UPDATE_SIZE
    ensures var step := Start(0, size, 0, 2, 3);
            Enabled(s, step) && Apply(s, step) == Done(s') && Quiet(s')
    ensures Running(s', 0) && s'.threads[0].top == size - UPDATE_SIZE
    ensures 1 in s'.cells && s'.cells[1] == Application(n) && s'.held == {}
  {
    hide Inv, Entered;
    var s0 := NewThread(s, 0, size);
    StartsEmpty(s, 0, size);
    EnterDeadlocksIff(s0, 0, 0, 2, 3);
    s' := ClosureEntered(s0, 0, 0, 2, 3);
    StepKeepsInv(s, Start(0, size, 0, 2, 3));
  }

  lemma ApplyPush(s: State, step: Step)
    requires step.Push? && Running(s, step.t) && step.n <= s.threads[step.t].top
    ensures Enabled(s, step) && Apply(s, step) == Done(SetTop(s, step.t, s.threads[step.t].top - step.n))
  {
  }

  lemma OneEntered(s: State, n: nat)
    requires Quiet(s) && Running(s, 0) && s.threads[0].top == IN_PLACE + UPDATE_SIZE && 1 in s.cells && s.cells[1] == Application(n)
    ensures var steps := [Enter(0, 1, 2, 3)];
            IsRun(s, steps)
            && var o := After(s, steps);
               && (o.Deadlock? <==> n >= IN_PLACE - APP_HEADER + 1)
               && (o.Deadlock? ==> o.t == 0 && o.a == 1 && Stuck(o.s, 0, 1) && o.s.cells[1] == Application(n))
  {
    hide Inv, InvBut, Entered, ClosureEntered, IsTarget;
    EnterDeadlocksIff(s, 0, 1, 2, 3);
    EnterKeepsInv(s, 0, 1, 2, 3);
    assert Enabled(s, Enter(0, 1, 2, 3)) && Apply(s, Enter(0, 1, 2, 3)) == Entered(s, 0, 1, 2, 3);
  }

  // ----- The operations -----

  /** Some frame of `refs` points at `a`. */
  ghost predicate AnyPointsAt(frames: Frames, refs: seq<Ref>, a: nat) {
    exists r :: r in refs && r in frames && frames[r].dest == a
  }

  ghost function Indirected(cells: Cells, frames: Frames, refs: seq<Ref>, err: nat): Cells {
    map a | a in cells :: if AnyPointsAt(frames, refs, a) then Indirection(err) else cells[a]
  }

  lemma NoneYet(cells: Cells, frames: Frames, err: nat)
    ensures Indirected(cells, frames, [], err) == cells
  {
  }

  lemma FailIs(s: State, t: nat, err: nat)
    requires Unfinished(s, t)
    ensures ThreadFailed(s, t, err) == s.(cells := Indirected(s.cells, s.frames, Chain(s.frames, s.threads[t].cureval, s.threads[t].bot), err),
                                  threads := s.threads[t := s.threads[t].(finished := true)])
  {
    hide Chain;
    forall a | a in s.cells
      ensures IsTarget(s, t, a) <==> AnyPointsAt(s.frames, Chain(s.frames, s.threads[t].cureval, s.threads[t].bot), a)
    {
    }
  }

  lemma ChainDests(s: State, t: nat)
    requires InvBut(s, t) && Unfinished(s, t)
    ensures forall r :: r in Chain(s.frames, s.threads[t].cureval, s.threads[t].bot) ==> r in s.frames && s.frames[r].dest in s.cells
  {
    hide Linked, Chain, OnChain, CellsOk, ThreadsOk;
    ChainOf(s, t);
  }

  /** The heap cells and the threads with their update frames. A method that comes to a
      lock that is never released returns `false` and the cell it waits for. */
  class Machine {
    var cells: Cells
    var frames: Frames
    var threads: map<nat, Thread>
    var held: set<nat>

    ghost function Abs(): State
      reads this
    {
      State(cells, frames, threads, held)
    }

    constructor ()
      ensures Quiet(Abs()) && cells == map[] && threads == map[]
    {
      cells, frames, threads, held := map[], map[], map[], {};
    }

    /** `ace_error_thread` and `ace_failure_thread` */
    method FailThread(t: nat, err: nat) returns (ok: bool, waits: nat)
      requires InvBut(Abs(), t) && t in threads
      modifies this
      ensures Failing(old(Abs()), t, err) == if ok then Done(Abs()) else Deadlock(Abs(), t, waits)
      ensures ok ==> threads[t].finished && frames == old(frames)
      ensures ok ==> forall a :: a in old(cells) ==>
                       a in cells && cells[a] == if Unfinished(old(Abs()), t) && IsTarget(old(Abs()), t, a) then Indirection(err) else old(cells)[a]
    {
      hide Linked, Chain, InvBut, ThreadOk;
      ghost var s := Abs();
      ok, waits := true, 0;
      FailDeadlocksIff(s, t, err);
      FailFinishes(s, t, err);
      FailedCells(s, t, err);
      if threads[t].finished {
        return;
      }
      ChainAt(s, t);
      ghost var lo: nat, bot := s.threads[t].top, s.threads[t].bot;
      ghost var all := Chain(s.frames, s.threads[t].cureval, bot);
      var update := threads[t].cureval;
      while update != NoRef
        invariant frames == s.frames && threads == s.threads && held == s.held
        invariant Linked(frames, t, update, lo, bot)
        invariant Walked(s, t, all, err) == Walked(Abs(), t, Chain(frames, update, bot), err)
        decreases if update.Ref? then bot - update.pos else 0
      {
        ChainLinked(frames, t, update, lo, bot);
        LinkedHead(frames, t, update, lo, bot);
        var a := frames[update].dest;
        if a in held {
          return false, a;
        }
        ghost var was, rest := Abs(), Chain(frames, frames[update].next, bot);
        assert ([update] + rest)[1..] == rest;
        cells := cells[a := Indirection(err)];
        assert Abs() == Set(was, a, Indirection(err));
        lo := update.pos + UPDATE_SIZE;
        update := frames[update].next;
      }
      NoChain(frames, bot);
      threads := threads[t := threads[t].(finished := true)];
    }

    /** `ace_push_update`; `false` means that the thread has been shut down. */
    method PushFrame(t: nat, a: nat, err: nat, err2: nat) returns (pushed: bool)
      requires Inv(Abs()) && Running(Abs(), t) && a in cells && IsThunk(cells[a]) && held == {a}
      modifies this
      ensures pushed == (old(threads[t].top) >= UPDATE_SIZE)
      ensures Abs() == if pushed then PushUpdate(old(Abs()), t, a)
                       else Unlocked(Set(ThreadFailed(old(Abs()), t, err), a, Indirection(err2)), a)
    {
      hide Inv, InvBut, ThreadFailed, Failing, IsTarget;
      if threads[t].stacktop < UPDATE_SIZE {
        ghost var s := Abs();
        InvIsInvBut(s, t);
        LockedIsNoTarget(s, t, a, s.held);
        FailDeadlocksIff(s, t, err);
        FailFinishes(s, t, err);
        FailKeepsInv(s, t, err);
        FailLeavesThunks(s, t, a, err);
        var _, _ := FailThread(t, err);
        SetKeepsInv(Abs(), a, Indirection(err2));
        cells := cells[a := Indirection(err2)];
        InvIsInvBut(Abs(), t);
        LockedInvBut(Abs(), t, held - {a});
        held := held - {a};
        FailsOnce(Abs(), t, err2);
        var _, _ := FailThread(t, err2);
        return false;
      }
      var update := Ref(t, threads[t].stacktop - UPDATE_SIZE);
      frames := frames[update := Frame(a, threads[t].cureval)];
      threads := threads[t := threads[t].(cureval := update, stacktop := update.pos, top := update.pos)];
      pushed := true;
    }

    /** `ace_thread_enter_closure`, from where its caller locks the cell */
    method EnterClosure(t: nat, a: nat, err: nat, err2: nat) returns (ok: bool, waits: nat)
      requires Quiet(Abs()) && CanEnter(Abs(), t, a)
      modifies this
      ensures Entered(old(Abs()), t, a, err, err2) == if ok then Done(Abs()) else Deadlock(Abs(), t, waits)
      ensures ok <==> !NoRoom(old(Abs()), t, a)
      ensures forall b :: b in old(cells) ==> b in cells && cells[b] == CellEntered(old(Abs()), t, a, err, err2, b)
      ensures ok && cells[a].Eval? ==>
                var top := old(threads[t].top) - UPDATE_SIZE;
                && 0 <= top && frames == old(frames)[Ref(t, top) := Frame(a, old(threads[t].cureval))]
                && threads[t].cureval == Ref(t, top)
                && threads[t].top == threads[t].stacktop == top - if old(cells)[a].Application? then APP_HEADER + old(cells)[a].numargs else 0
      ensures if ok then Quiet(Abs()) else waits == a && Stuck(Abs(), t, a)
    {
      hide Inv, InvBut, ThreadFailed, Failing, IsTarget;
      ghost var s := Abs();
      EnterDeadlocksIff(s, t, a, err, err2);
      EnterKeepsInv(s, t, a, err, err2);
      forall b | b in s.cells
        ensures var o := Entered(s, t, a, err, err2); b in o.s.cells && o.s.cells[b] == CellEntered(s, t, a, err, err2, b)
      {
        EnterSets(s, t, a, err, err2, b);
      }
      LockedInv(s, {a});
      held := held + {a};
      assert held == {a};
      ok, waits := true, 0;
      var pushed := PushFrame(t, a, err, err2);
      if !pushed {
        PushOverflows(s, t, a, err, err2);
        OverflowIs(s, t, a, err, err2);
        return;
      }
      ghost var p := Abs();
      PushedIsInvBut(s.(held := {a}), t, a);
      match cells[a] {
        case Closure(isExpr, num, wanted) =>
          LockedInvBut(p, t, held - {a});
          held := held - {a};
          if !isExpr || num != wanted || num > threads[t].stacktop {
            ok, waits := FailThread(t, err);
          } else {
            cells := cells[a := Eval(threads[t].cureval)];
          }
        case Application(numargs) =>
          if APP_HEADER + numargs > threads[t].stacktop {
            ok, waits := FailThread(t, err);
            return;
          }
          var newtop := threads[t].stacktop - (APP_HEADER + numargs);
          threads := threads[t := threads[t].(stacktop := newtop, top := newtop)];
          cells := cells[a := Eval(threads[t].cureval)];
          held := held - {a};
      }
    }

    /** `ace_return_to_update`; the top of the stack is not moved. */
    method ReturnToUpdate(t: nat, v: nat)
      requires Quiet(Abs()) && Enabled(Abs(), Step.Return(t, v))
      modifies this
      ensures Quiet(Abs()) && Abs() == ReturnedTo(old(Abs()), t, v)
      ensures threads[t].stacktop == old(threads[t].stacktop) && frames == old(frames)
      ensures cells == old(cells)[old(frames[threads[t].cureval].dest) := Indirection(v)]
      ensures var next := old(frames[threads[t].cureval].next);
              if next.Ref? then !threads[t].finished && threads[t].cureval == next && threads[t].top == old(threads[t].top) + UPDATE_SIZE
              else threads[t].finished
    {
      hide Inv;
      ReturnKeepsInv(Abs(), t, v);
      var update := threads[t].cureval;
      cells := cells[frames[update].dest := Indirection(v)];
      if frames[update].next.Ref? {
        threads := threads[t := threads[t].(cureval := frames[update].next, top := update.pos + UPDATE_SIZE)];
      } else {
        threads := threads[t := threads[t].(finished := true)];
      }
    }
  }

  lemma FailedCells(s: State, t: nat, err: nat)
    requires t in s.threads
    ensures ThreadFailed(s, t, err).frames == s.frames
    ensures forall a :: a in s.cells ==>
              && a in ThreadFailed(s, t, err).cells
              && ThreadFailed(s, t, err).cells[a] == if Unfinished(s, t) && IsTarget(s, t, a) then Indirection(err) else s.cells[a]
  {
    hide IsTarget;
  }

  lemma FailFinished(s: State, t: nat, err: nat)
    requires t in s.threads && s.threads[t].finished
    ensures ThreadFailed(s, t, err) == s
  {
  }

  lemma ChainAt(s: State, t: nat)
    requires InvBut(s, t) && Unfinished(s, t)
    ensures Linked(s.frames, t, s.threads[t].cureval, s.threads[t].top, s.threads[t].bot)
  {
    assert ThreadOk(s, t);
  }

  lemma LinkedHead(frames: Frames, t: nat, ref: Ref, lo: nat, bot: nat)
    requires Linked(frames, t, ref, lo, bot) && ref.Ref?
    ensures ref in frames && ref.pos + UPDATE_SIZE <= bot && Linked(frames, t, frames[ref].next, ref.pos + UPDATE_SIZE, bot)
    ensures frames[ref].next.Ref? ==> ref.pos < frames[ref].next.pos < bot
  {
  }

}
