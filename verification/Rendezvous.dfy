/** The stop-the-world rendezvous of `alloc.c` and the process counts of
    `gssysthreads.c`. One process, the main process, collects; any number of others
    register, poll, park, leave and exit. Every section under `gs_allocator_lock` is
    one atomic step; between two sections any other process may take steps. */
module Rendezvous {

  datatype Option<T> = None | Some(value: T)

  /** The error message a collection ends with, or none. */
  type Outcome = Option<string>

  /** Where the main process is. */
  datatype MainPc =
    | MainRunning
    | MainCreating                 // has counted a process it is about to clone
    | Waiting                      // in `gs_sys_wait_for_gc`, counted
    | Collecting                   // past the barrier, not yet finished or failed
    | Draining                     // has published the outcome, no longer counted
    | MainGone

  /** Where another process is. A parked process remembers the number of the
      collection it parked for. */
  datatype Pc =
    | Running
    | Creating                     // has counted a process it is about to clone
    | Wanting                      // has seen that a collection is wanted, not yet counted
    | Parked(epoch: nat)           // counted, waiting for the collection to finish
    | Woken(epoch: nat)            // has seen that the collection is over
    | Told(epoch: nat, outcome: Outcome) // has read its outcome, still counted
    | Exiting                      // its function has returned, still registered

  /** The shared variables, the place of every registered process, and the outcomes of
      the collections so far. */
  datatype State = State(running: bool, inGc: int, procs: int, error: Outcome,
                         main: MainPc, at: map<nat, Pc>, epoch: nat, outcomes: seq<Outcome>)

  datatype Step =
    | StartWait
    | PassBarrier
    | Publish(outcome: Outcome)
    | PassDrain
    | MainRegister
    | MainSpawn(child: nat)
    | MainSpawnFails
    | MainExit
    | SeeWanted(p: nat)
    | Park(p: nat)
    | SeeFinished(p: nat)
    | ReadOutcome(p: nat)
    | Leave(p: nat)
    | Register(p: nat)
    | Spawn(p: nat, child: nat)
    | SpawnFails(p: nat)
    | Return(p: nat)
    | Unregister(p: nat)

  ghost predicate IsAt(s: State, p: nat, pc: Pc) {
    p in s.at && s.at[p] == pc
  }

  /** What must hold for a step to be taken: the place of the process that takes it and
      the test of the lock section. A failed test changes nothing and is no step. */
  ghost predicate Enabled(s: State, step: Step) {
    match step
    case StartWait => s.main == MainRunning
    case PassBarrier => s.main == Waiting && !(s.inGc < s.procs)
    case Publish(_) => s.main == Collecting
    case PassDrain => s.main == Draining && s.inGc == 0
    case MainRegister => s.main == MainRunning
    case MainSpawn(child) => s.main == MainCreating && child !in s.at
    case MainSpawnFails => s.main == MainCreating
    case MainExit => s.main == MainRunning
    case SeeWanted(p) => IsAt(s, p, Running) && s.running
    case Park(p) => IsAt(s, p, Wanting)
    case SeeFinished(p) => p in s.at && s.at[p].Parked? && !s.running
    case ReadOutcome(p) => p in s.at && s.at[p].Woken?
    case Leave(p) => p in s.at && s.at[p].Told?
    case Register(p) => IsAt(s, p, Running)
    case Spawn(p, child) => IsAt(s, p, Creating) && child !in s.at
    case SpawnFails(p) => IsAt(s, p, Creating)
    case Return(p) => IsAt(s, p, Running)
    case Unregister(p) => IsAt(s, p, Exiting)
  }

  ghost function Apply(s: State, step: Step): State
    requires Enabled(s, step)
  {
    match step
    case StartWait => s.(running := true, inGc := s.inGc + 1, main := Waiting, epoch := |s.outcomes|)
    case PassBarrier => s.(main := Collecting)
    case Publish(o) => s.(inGc := s.inGc - 1, running := false, error := o, main := Draining, outcomes := s.outcomes + [o])
    case PassDrain => s.(main := MainRunning)
    case MainRegister => s.(procs := s.procs + 1, main := MainCreating)
    case MainSpawn(child) => s.(main := MainRunning, at := s.at[child := Running])
    case MainSpawnFails => s.(procs := s.procs - 1, main := MainRunning)
    case MainExit => s.(procs := s.procs - 1, main := MainGone)
    case SeeWanted(p) => s.(at := s.at[p := Wanting])
    case Park(p) => s.(inGc := s.inGc + 1, at := s.at[p := Parked(s.epoch)])
    case SeeFinished(p) => s.(at := s.at[p := Woken(s.at[p].epoch)])
    case ReadOutcome(p) => s.(at := s.at[p := Told(s.at[p].epoch, s.error)])
    case Leave(p) => s.(inGc := s.inGc - 1, at := s.at[p := Running])
    case Register(p) => s.(procs := s.procs + 1, at := s.at[p := Creating])
    case Spawn(p, child) => s.(at := s.at[p := Running][child := Running])
    case SpawnFails(p) => s.(procs := s.procs - 1, at := s.at[p := Running])
    case Return(p) => s.(at := s.at[p := Exiting])
    case Unregister(p) => s.(procs := s.procs - 1, at := s.at - {p})
  }

  const START := State(false, 0, 1, None, MainRunning, map[], 0, [])

  // ----- The invariant -----

  predicate Counted(pc: Pc) { pc.Parked? || pc.Woken? || pc.Told? }

  ghost function InGc(s: State): set<nat> { set p | p in s.at && Counted(s.at[p]) }

  ghost function Creators(s: State): set<nat> { set p | p in s.at && s.at[p] == Creating }

  function MainInGc(s: State): nat { if s.main == Waiting || s.main == Collecting then 1 else 0 }

  function MainProcs(s: State): nat { if s.main == MainGone then 0 else if s.main == MainCreating then 2 else 1 }

  /** The counters count. */
  ghost predicate CountsOk(s: State) {
    && s.inGc == |InGc(s)| + MainInGc(s)
    && s.procs == |s.at| + |Creators(s)| + MainProcs(s)
  }

  /** The flag says that the main process waits or collects. */
  ghost predicate FlagOk(s: State) {
    && (s.running <==> s.main == Waiting || s.main == Collecting)
    && (s.running || s.main == Draining ==> s.epoch + (if s.running then 0 else 1) == |s.outcomes|)
    && (!s.running && s.outcomes != [] ==> s.error == s.outcomes[|s.outcomes| - 1])
  }

  /** The place of a process agrees with that of the main process. */
  ghost predicate PlaceOk(s: State, pc: Pc) {
    match pc
    case Wanting => s.main == Waiting
    case Parked(e) => e == s.epoch && (s.main == Waiting || s.main == Collecting || s.main == Draining)
    case Woken(e) => e == s.epoch && s.main == Draining
    case Told(e, o) => e == s.epoch && s.main == Draining && e < |s.outcomes| && o == s.outcomes[e]
    case _ => s.main != Collecting
  }

  ghost predicate PlacesOk(s: State) {
    forall p :: p in s.at ==> PlaceOk(s, s.at[p])
  }

  ghost predicate Inv(s: State) {
    CountsOk(s) && FlagOk(s) && PlacesOk(s)
  }

  // ----- Every step keeps the invariant -----

  lemma PlaceSet(s: State, s': State, p: nat, pc: Pc)
    requires PlacesOk(s) && s'.at == s.at[p := pc] && PlaceOk(s', pc)
    requires s'.main == s.main && s'.epoch == s.epoch && s'.outcomes == s.outcomes
    ensures PlacesOk(s')
  {
    forall q | q in s'.at
      ensures PlaceOk(s', s'.at[q])
    {
      if q != p {
        assert PlaceOk(s, s.at[q]);
      }
    }
  }

  /** The sets behind the counters when one process moves. */
  lemma SetsWhenMoved(s: State, s': State, p: nat, pc: Pc)
    requires p in s.at && s'.at == s.at[p := pc]
    ensures |s'.at| == |s.at|
    ensures |InGc(s')| == |InGc(s)| + (if Counted(pc) then 1 else 0) - (if Counted(s.at[p]) then 1 else 0)
    ensures |Creators(s')| == |Creators(s)| + (if pc == Creating then 1 else 0) - (if s.at[p] == Creating then 1 else 0)
  {
    assert s'.at.Keys == s.at.Keys;
    SizeOfSwitch(InGc(s), InGc(s'), p);
    SizeOfSwitch(Creators(s), Creators(s'), p);
  }

  lemma SizeOfSwitch(a: set<nat>, b: set<nat>, p: nat)
    requires a - {p} == b - {p}
    ensures |b| == |a| + (if p in b then 1 else 0) - (if p in a then 1 else 0)
  {
    assert a == (a - {p}) + (if p in a then {p} else {});
    assert b == (b - {p}) + (if p in b then {p} else {});
  }

  lemma SetsWhenSpawned(s: State, s': State, child: nat)
    requires child !in s.at && s'.at == s.at[child := Running]
    ensures |s'.at| == |s.at| + 1 && |InGc(s')| == |InGc(s)| && |Creators(s')| == |Creators(s)|
  {
    assert s'.at.Keys == s.at.Keys + {child};
    assert InGc(s') == InGc(s) && Creators(s') == Creators(s);
  }

  lemma SetsWhenGone(s: State, s': State, p: nat)
    requires IsAt(s, p, Exiting) && s'.at == s.at - {p}
    ensures |s'.at| == |s.at| - 1 && |InGc(s')| == |InGc(s)| && |Creators(s')| == |Creators(s)|
  {
    assert s'.at.Keys == s.at.Keys - {p};
    assert InGc(s') == InGc(s) && Creators(s') == Creators(s);
  }

  lemma SetsWhenStill(s: State, s': State)
    requires s'.at == s.at
    ensures InGc(s') == InGc(s) && Creators(s') == Creators(s)
  {
  }

  /** The barrier passes exactly when every other process has parked and nobody is
      about to clone one. */
  lemma BarrierIff(s: State)
    requires Inv(s) && s.main == Waiting
    ensures Enabled(s, PassBarrier) <==> forall p :: p in s.at ==> s.at[p] == Parked(s.epoch)
  {
    hide PlacesOk;
    AllCounted(s);
    forall p | p in s.at
      ensures Counted(s.at[p]) <==> s.at[p] == Parked(s.epoch)
    {
      PlaceOf(s, p);
    }
  }

  lemma PlaceOf(s: State, p: nat)
    requires PlacesOk(s) && p in s.at
    ensures PlaceOk(s, s.at[p])
  {
  }

  lemma AllCounted(s: State)
    ensures |InGc(s)| <= |s.at|
    ensures |InGc(s)| >= |s.at| + |Creators(s)| <==> forall p :: p in s.at ==> Counted(s.at[p])
  {
    assert InGc(s) <= s.at.Keys;
    SubsetSize(InGc(s), s.at.Keys);
    if forall p :: p in s.at ==> Counted(s.at[p]) {
      assert InGc(s) == s.at.Keys && Creators(s) == {};
    } else {
      var p :| p in s.at && !Counted(s.at[p]);
      assert p !in InGc(s) && p in s.at.Keys;
    }
  }

  lemma SubsetSize<T>(a: set<T>, b: set<T>)
    requires a <= b
    ensures |a| <= |b| && (|a| == |b| <==> a == b)
  {
    assert b == a + (b - a);
  }

  /** The drain ends exactly when every process has left the collection. */
  lemma DrainIff(s: State)
    requires Inv(s) && s.main == Draining
    ensures Enabled(s, PassDrain) <==> forall p :: p in s.at ==> !Counted(s.at[p])
  {
    if |InGc(s)| == 0 {
      forall p | p in s.at
        ensures !Counted(s.at[p])
      {
        assert p !in InGc(s);
      }
    } else {
      var p :| p in InGc(s);
      assert p in s.at && Counted(s.at[p]);
    }
  }

  lemma MainStepKeepsInv(s: State, step: Step)
    requires Inv(s) && Enabled(s, step)
    requires step.StartWait? || step.PassBarrier? || step.PassDrain? || step.Publish? || step.MainRegister? || step.MainSpawnFails? || step.MainExit?
    ensures Inv(Apply(s, step))
  {
    var s' := Apply(s, step);
    SetsWhenStill(s, s');
    MainStepKeepsPlaces(s, step);
  }

  lemma MainStepKeepsPlaces(s: State, step: Step)
    requires Inv(s) && Enabled(s, step)
    requires step.StartWait? || step.PassBarrier? || step.PassDrain? || step.Publish? || step.MainRegister? || step.MainSpawnFails? || step.MainExit?
    ensures PlacesOk(Apply(s, step))
  {
    var s' := Apply(s, step);
    if step.PassBarrier? {
      BarrierIff(s);
    } else if step.PassDrain? {
      DrainIff(s);
    }
    hide CountsOk;
    forall p | p in s'.at
      ensures PlaceOk(s', s'.at[p])
    {
      PlaceOf(s, p);
    }
  }

  lemma MainSpawnKeepsInv(s: State, child: nat)
    requires Inv(s) && Enabled(s, MainSpawn(child))
    ensures Inv(Apply(s, MainSpawn(child)))
  {
    var s' := Apply(s, MainSpawn(child));
    SetsWhenSpawned(s, s', child);
    forall p | p in s'.at
      ensures PlaceOk(s', s'.at[p])
    {
      if p != child {
        PlaceOf(s, p);
      }
    }
  }

  lemma SpawnKeepsInv(s: State, p: nat, child: nat)
    requires Inv(s) && Enabled(s, Spawn(p, child))
    ensures Inv(Apply(s, Spawn(p, child)))
  {
    hide InGc, Creators, PlacesOk;
    var s1 := s.(at := s.at[p := Running]);
    var s' := Apply(s, Spawn(p, child));
    SetsWhenMoved(s, s1, p, Running);
    PlaceOf(s, p);
    PlaceSet(s, s1, p, Running);
    SetsWhenSpawned(s1, s', child);
    PlaceSet(s1, s', child, Running);
  }

  lemma UnregisterKeepsInv(s: State, p: nat)
    requires Inv(s) && Enabled(s, Unregister(p))
    ensures Inv(Apply(s, Unregister(p)))
  {
    hide InGc, Creators, PlacesOk;
    var s' := Apply(s, Unregister(p));
    SetsWhenGone(s, s', p);
    PlacesWhenGone(s, s', p);
  }

  lemma PlacesWhenGone(s: State, s': State, p: nat)
    requires PlacesOk(s) && s'.at == s.at - {p} && s'.main == s.main && s'.epoch == s.epoch && s'.outcomes == s.outcomes
    ensures PlacesOk(s')
  {
    forall q | q in s'.at
      ensures PlaceOk(s', s'.at[q])
    {
      PlaceOf(s, q);
    }
  }

  predicate MovesOne(step: Step) {
    step.SeeWanted? || step.Park? || step.SeeFinished? || step.ReadOutcome? || step.Leave?
    || step.Register? || step.SpawnFails? || step.Return?
  }

  lemma MoveKeepsInv(s: State, step: Step)
    requires Inv(s) && Enabled(s, step) && MovesOne(step)
    ensures Inv(Apply(s, step))
  {
    hide InGc, Creators, PlacesOk;
    var s' := Apply(s, step);
    var p := step.p;
    PlaceOf(s, p);
    SetsWhenMoved(s, s', p, s'.at[p]);
    PlaceSet(s, s', p, s'.at[p]);
  }

  lemma StepKeepsInv(s: State, step: Step)
    requires Inv(s) && Enabled(s, step)
    ensures Inv(Apply(s, step))
  {
    hide Inv, Enabled, Apply;
    match step
    case MainSpawn(child) => MainSpawnKeepsInv(s, child);
    case Spawn(p, child) => SpawnKeepsInv(s, p, child);
    case Unregister(p) => UnregisterKeepsInv(s, p);
    case _ =>
      if MovesOne(step) {
        MoveKeepsInv(s, step);
      } else {
        MainStepKeepsInv(s, step);
      }
  }

  // ----- Runs -----

  ghost predicate IsRun(s: State, steps: seq<Step>)
    decreases |steps|
  {
    steps == [] || (Enabled(s, steps[0]) && IsRun(Apply(s, steps[0]), steps[1..]))
  }

  ghost function After(s: State, steps: seq<Step>): State
    requires IsRun(s, steps)
    decreases |steps|
  {
    if steps == [] then s else After(Apply(s, steps[0]), steps[1..])
  }

  lemma {:induction false} RunKeepsInv(s: State, steps: seq<Step>)
    requires Inv(s) && IsRun(s, steps)
    ensures Inv(After(s, steps))
    decreases |steps|
  {
    hide Inv, Enabled, Apply;
    if steps != [] {
      StepKeepsInv(s, steps[0]);
      RunKeepsInv(Apply(s, steps[0]), steps[1..]);
    }
  }

  lemma StartInv()
    ensures Inv(START)
  {
    assert InGc(START) == {} && Creators(START) == {};
  }

  /** While the main process collects, every other registered process is parked for
      this collection, and nobody is about to clone one. */
  lemma OthersAreParked(steps: seq<Step>)
    requires IsRun(START, steps) && After(START, steps).main == Collecting
    ensures var s := After(START, steps);
            && (forall p :: p in s.at ==> s.at[p] == Parked(s.epoch))
            && s.epoch == |s.outcomes| && s.procs == |s.at| + 1
  {
    StartInv();
    RunKeepsInv(START, steps);
    var s := After(START, steps);
    hide IsRun, After, CountsOk;
    forall p | p in s.at
      ensures s.at[p] == Parked(s.epoch)
    {
      PlaceOf(s, p);
    }
    NoCreators(s);
  }

  lemma NoCreators(s: State)
    requires CountsOk(s) && s.main == Collecting && forall p :: p in s.at ==> s.at[p] == Parked(s.epoch)
    ensures s.procs == |s.at| + 1
  {
    assert Creators(s) == {};
  }

  /** A process joins a collection only while the main process waits for it, and then
      no process is still in an earlier one. */
  lemma NoneJoinsEarly(steps: seq<Step>, p: nat)
    requires IsRun(START, steps) && Enabled(After(START, steps), Park(p))
    ensures var s := After(START, steps);
            && s.main == Waiting && s.epoch == |s.outcomes|
            && (forall q :: q in s.at && Counted(s.at[q]) ==> s.at[q] == Parked(s.epoch))
            && Apply(s, Park(p)).at[p] == Parked(|s.outcomes|)
  {
    StartInv();
    RunKeepsInv(START, steps);
    var s := After(START, steps);
    hide IsRun, After, CountsOk;
    PlaceOf(s, p);
    forall q | q in s.at && Counted(s.at[q])
      ensures s.at[q] == Parked(s.epoch)
    {
      PlaceOf(s, q);
    }
  }

  lemma JoinsTheNext(s: State, p: nat)
    requires Inv(s) && Enabled(s, Park(p))
    ensures s.epoch == |s.outcomes|
  {
    PlaceOf(s, p);
  }

  /** A new collection starts only when every process has left the one before. */
  lemma NoneLeftBehind(steps: seq<Step>)
    requires IsRun(START, steps) && Enabled(After(START, steps), StartWait)
    ensures var s := After(START, steps);
            forall p :: p in s.at ==> !Counted(s.at[p]) && s.at[p] != Wanting
  {
    StartInv();
    RunKeepsInv(START, steps);
    var s := After(START, steps);
    hide IsRun, After, CountsOk;
    forall p | p in s.at
      ensures !Counted(s.at[p]) && s.at[p] != Wanting
    {
      PlaceOf(s, p);
    }
  }

  lemma ToldIsOwn(s: State, p: nat)
    requires Inv(s) && p in s.at && s.at[p].Told?
    ensures s.at[p].epoch < |s.outcomes| && s.at[p].outcome == s.outcomes[s.at[p].epoch]
  {
    PlaceOf(s, p);
  }

  // ----- Outcomes -----

  /** The outcomes with which the collections of a run are ended, in order. */
  ghost function Published(steps: seq<Step>): seq<Outcome> {
    if steps == [] then [] else (if steps[0].Publish? then [steps[0].outcome] else []) + Published(steps[1..])
  }

  /** Every collection of a run ends with what it was ended with, and no step changes the
      outcome of an earlier one. */
  lemma {:induction false} OutcomesArePublished(s: State, steps: seq<Step>)
    requires IsRun(s, steps)
    ensures After(s, steps).outcomes == s.outcomes + Published(steps)
    decreases |steps|
  {
    if steps != [] {
      OutcomesArePublished(Apply(s, steps[0]), steps[1..]);
      assert Apply(s, steps[0]).outcomes == s.outcomes + if steps[0].Publish? then [steps[0].outcome] else [];
    }
  }

  lemma {:induction false} RunSplits(s: State, a: seq<Step>, b: seq<Step>)
    requires IsRun(s, a + b)
    ensures IsRun(s, a) && IsRun(After(s, a), b) && After(s, a + b) == After(After(s, a), b)
    decreases |a|
  {
    hide Enabled, Apply;
    if a == [] {
      assert a + b == b;
    } else {
      assert (a + b)[1..] == a[1..] + b && (a + b)[0] == a[0];
      RunSplits(Apply(s, a[0]), a[1..], b);
    }
  }

  lemma RunLast(s: State, steps: seq<Step>)
    requires IsRun(s, steps) && steps != []
    ensures var n := |steps| - 1;
            && IsRun(s, steps[..n]) && Enabled(After(s, steps[..n]), steps[n])
            && After(s, steps) == Apply(After(s, steps[..n]), steps[n])
  {
    hide Enabled, Apply;
    var n := |steps| - 1;
    assert steps == steps[..n] + [steps[n]];
    RunSplits(s, steps[..n], [steps[n]]);
    var t := After(s, steps[..n]);
    assert [steps[n]][1..] == [];
    assert IsRun(t, [steps[n]]);
    assert After(t, [steps[n]]) == Apply(t, steps[n]);
  }

  /** Step `i` is where `p` parked last, for the collection it is in. */
  ghost predicate ParkedIn(steps: seq<Step>, p: nat, i: nat, epoch: nat) {
    && i < |steps| && steps[i] == Park(p) && |Published(steps[..i])| == epoch
    && forall j :: i < j < |steps| ==> steps[j] != Park(p)
  }

  function EpochOf(pc: Pc): nat
    requires Counted(pc)
  {
    match pc case Parked(e) => e case Woken(e) => e case Told(e, _) => e
  }

  /** A process in a collection has parked, and while it does as many collections had
      ended as its number says. */
  lemma {:induction false} CountedHasParked(steps: seq<Step>, p: nat) returns (i: nat)
    requires IsRun(START, steps)
    requires var s := After(START, steps); p in s.at && Counted(s.at[p])
    ensures ParkedIn(steps, p, i, EpochOf(After(START, steps).at[p]))
    decreases |steps|
  {
    hide IsRun, Inv, Published;
    if steps == [] {
      assert false;
    } else {
      var n := |steps| - 1;
      RunLast(START, steps);
      var s := After(START, steps[..n]);
      hide After;
      if steps[n] == Park(p) {
        i := n;
        NoneJoinsEarly(steps[..n], p);
        OutcomesArePublished(START, steps[..n]);
      } else {
        WasCounted(s, steps[n], p);
        i := CountedHasParked(steps[..n], p);
        assert steps[..n][..i] == steps[..i];
      }
    }
  }

  /** Only parking brings a process into a collection. */
  lemma WasCounted(s: State, step: Step, p: nat)
    requires Enabled(s, step) && step != Park(p)
    requires var s' := Apply(s, step); p in s'.at && Counted(s'.at[p])
    ensures p in s.at && Counted(s.at[p]) && EpochOf(s.at[p]) == EpochOf(Apply(s, step).at[p])
  {
  }

  /** What a process is told is what the collection it parked for was ended with: the first
      that was ended after it parked. */
  lemma ToldItsOwnOutcome(steps: seq<Step>, p: nat) returns (i: nat)
    requires IsRun(START, steps)
    requires var s := After(START, steps); p in s.at && s.at[p].Told?
    ensures i < |steps| && steps[i] == Park(p) && forall j :: i < j < |steps| ==> steps[j] != Park(p)
    ensures var n := |Published(steps[..i])|;
            n < |Published(steps)| && After(START, steps).at[p].outcome == Published(steps)[n]
  {
    StartInv();
    RunKeepsInv(START, steps);
    i := CountedHasParked(steps, p);
    OutcomesArePublished(START, steps);
    hide IsRun, After, Published;
    ToldIsOwn(After(START, steps), p);
  }

  /** The step a process takes next on its way into or out of a collection. */
  ghost predicate CanMove(s: State, p: nat) {
    p in s.at &&
    match s.at[p]
    case Running => Enabled(s, SeeWanted(p))
    case Creating => Enabled(s, SpawnFails(p))
    case Wanting => Enabled(s, Park(p))
    case Parked(_) => Enabled(s, SeeFinished(p))
    case Woken(_) => Enabled(s, ReadOutcome(p))
    case Told(_, _) => Enabled(s, Leave(p))
    case Exiting => Enabled(s, Unregister(p))
  }

  lemma WaitingMoves(s: State)
    requires Inv(s) && s.main == Waiting && !Enabled(s, PassBarrier)
    ensures exists p :: CanMove(s, p)
  {
    hide CountsOk, PlacesOk, Enabled;
    BarrierIff(s);
    var p :| p in s.at && s.at[p] != Parked(s.epoch);
    PlaceOf(s, p);
    NotParkedMoves(s, p);
  }

  lemma NotParkedMoves(s: State, p: nat)
    requires FlagOk(s) && s.main == Waiting && p in s.at && PlaceOk(s, s.at[p]) && s.at[p] != Parked(s.epoch)
    ensures CanMove(s, p)
  {
  }

  lemma DrainingMoves(s: State)
    requires Inv(s) && s.main == Draining && !Enabled(s, PassDrain)
    ensures exists p :: CanMove(s, p)
  {
    hide CountsOk, PlacesOk, Enabled;
    DrainIff(s);
    var p :| p in s.at && Counted(s.at[p]);
    CountedMoves(s, p);
  }

  lemma CountedMoves(s: State, p: nat)
    requires FlagOk(s) && s.main == Draining && p in s.at && Counted(s.at[p])
    ensures CanMove(s, p)
  {
  }

  /** No state of a run is stuck in a collection: the main process can go on, or some
      process that has yet to park or to leave can. */
  lemma NeverStuck(steps: seq<Step>)
    requires IsRun(START, steps)
    ensures var s := After(START, steps);
            && (s.main == Waiting ==> Enabled(s, PassBarrier) || exists p :: CanMove(s, p))
            && (s.main == Draining ==> Enabled(s, PassDrain) || exists p :: CanMove(s, p))
  {
    hide IsRun, After, Inv, Enabled, CanMove;
    StartInv();
    RunKeepsInv(START, steps);
    var s := After(START, steps);
    if s.main == Waiting && !Enabled(s, PassBarrier) {
      WaitingMoves(s);
    } else if s.main == Draining && !Enabled(s, PassDrain) {
      DrainingMoves(s);
    }
  }

  // ----- The lock sections -----

  /** The variables under `gs_allocator_lock`. A method is one lock section; the place
      of every process is kept beside them. */
  class Allocator {
    var gcRunning: bool
    var numProcsInGc: int
    var gcError: Outcome
    var numProcs: int

    ghost var main: MainPc
    ghost var at: map<nat, Pc>
    ghost var epoch: nat
    ghost var outcomes: seq<Outcome>

    ghost function Abs(): State
      reads this
    {
      State(gcRunning, numProcsInGc, numProcs, gcError, main, at, epoch, outcomes)
    }

    constructor ()
      ensures Abs() == START && Inv(Abs())
    {
      gcRunning, numProcsInGc, gcError, numProcs := false, 0, None, 1;
      main, at, epoch, outcomes := MainRunning, map[], 0, [];
      new;
      StartInv();
    }

    /** The first section of `gs_sys_wait_for_gc`. */
    method StartToWait()
      requires Inv(Abs()) && Enabled(Abs(), StartWait)
      modifies this
      ensures Inv(Abs()) && Abs() == Apply(old(Abs()), StartWait)
      ensures gcRunning && main == Waiting && numProcsInGc == old(numProcsInGc) + 1
      ensures unchanged(`numProcs, `at, `outcomes)
    {
      hide Inv;
      StepKeepsInv(Abs(), StartWait);
      gcRunning := true;
      numProcsInGc := numProcsInGc + 1;
      main, epoch := Waiting, |outcomes|;
    }

    /** One round of the loop of `gs_sys_wait_for_gc`; `true` ends it. */
    method AllHere() returns (r: bool)
      requires Inv(Abs()) && main == Waiting
      modifies this
      ensures Inv(Abs())
      ensures r <==> forall p :: p in old(at) ==> old(at)[p] == Parked(old(epoch))
      ensures Abs() == if r then old(Abs()).(main := Collecting) else old(Abs())
    {
      BarrierIff(Abs());
      r := !(numProcsInGc < numProcs);
      if r {
        StepKeepsInv(Abs(), PassBarrier);
        main := Collecting;
      }
    }

    /** The section of `gs_sys_finish_gc` and of `gs_sys_gc_failed` that ends the
        collection, with no error or with one. */
    method EndCollection(err: Outcome)
      requires Inv(Abs()) && Enabled(Abs(), Publish(err))
      modifies this
      ensures Inv(Abs()) && Abs() == Apply(old(Abs()), Publish(err))
      ensures gcError == err && outcomes == old(outcomes) + [err] && !gcRunning
      ensures main == Draining && numProcsInGc == old(numProcsInGc) - 1
      ensures unchanged(`numProcs, `at)
    {
      hide Inv;
      StepKeepsInv(Abs(), Publish(err));
      numProcsInGc := numProcsInGc - 1;
      gcRunning := false;
      gcError := err;
      main, outcomes := Draining, outcomes + [err];
    }

    /** One round of the loop both functions end with; `true` ends it. */
    method AllGone() returns (r: bool)
      requires Inv(Abs()) && main == Draining
      modifies this
      ensures Inv(Abs())
      ensures r <==> forall p :: p in old(at) ==> !Counted(old(at)[p])
      ensures Abs() == if r then old(Abs()).(main := MainRunning) else old(Abs())
    {
      DrainIff(Abs());
      r := numProcsInGc == 0;
      if r {
        StepKeepsInv(Abs(), PassDrain);
        main := MainRunning;
      }
    }

    /** `gs_sys_gc_want_collection`. */
    method WantCollection(p: nat) returns (r: bool)
      requires Inv(Abs()) && IsAt(Abs(), p, Running)
      modifies this
      ensures Inv(Abs()) && r == old(gcRunning)
      ensures Abs() == if r then Apply(old(Abs()), SeeWanted(p)) else old(Abs())
      ensures at == if r then old(at)[p := Wanting] else old(at)
    {
      r := gcRunning;
      if r {
        StepKeepsInv(Abs(), SeeWanted(p));
        at := at[p := Wanting];
      }
    }

    /** The first section of `gs_sys_wait_for_collection_to_finish`. */
    method JoinCollection(p: nat)
      requires Inv(Abs()) && Enabled(Abs(), Park(p))
      modifies this
      ensures Inv(Abs()) && Abs() == Apply(old(Abs()), Park(p))
      ensures numProcsInGc == old(numProcsInGc) + 1 && at == old(at)[p := Parked(|outcomes|)]
      ensures unchanged(`gcRunning, `numProcs, `outcomes, `main)
    {
      hide Inv;
      StepKeepsInv(Abs(), Park(p));
      JoinsTheNext(Abs(), p);
      numProcsInGc := numProcsInGc + 1;
      at := at[p := Parked(epoch)];
    }

    /** One round of its loop; `true` ends it. */
    method CollectionFinished(p: nat) returns (r: bool)
      requires Inv(Abs()) && p in at && at[p].Parked?
      modifies this
      ensures Inv(Abs()) && r == !old(gcRunning)
      ensures Abs() == if r then Apply(old(Abs()), SeeFinished(p)) else old(Abs())
      ensures at == if r then old(at)[p := Woken(old(at)[p].epoch)] else old(at)
    {
      r := !gcRunning;
      if r {
        StepKeepsInv(Abs(), SeeFinished(p));
        at := at[p := Woken(at[p].epoch)];
      }
    }

    /** Its last section: the outcome is that of the collection the process parked for. */
    method CollectionOutcome(p: nat) returns (r: Outcome)
      requires Inv(Abs()) && p in at && at[p].Woken?
      modifies this
      ensures Inv(Abs()) && Abs() == Apply(old(Abs()), ReadOutcome(p))
      ensures old(at)[p].epoch < |outcomes| && r == outcomes[old(at)[p].epoch]
      ensures at == old(at)[p := Told(old(at)[p].epoch, r)] && unchanged(`numProcsInGc, `numProcs, `main)
    {
      hide Inv;
      StepKeepsInv(Abs(), ReadOutcome(p));
      r := gcError;
      at := at[p := Told(at[p].epoch, gcError)];
      ToldIsOwn(Abs(), p);
    }

    /** `gs_sys_gc_done_with_collection`. */
    method DoneWithCollection(p: nat)
      requires Inv(Abs()) && Enabled(Abs(), Leave(p))
      modifies this
      ensures Inv(Abs()) && Abs() == Apply(old(Abs()), Leave(p))
      ensures numProcsInGc == old(numProcsInGc) - 1 && at == old(at)[p := Running]
      ensures unchanged(`gcRunning, `numProcs, `outcomes, `main)
    {
      hide Inv;
      StepKeepsInv(Abs(), Leave(p));
      numProcsInGc := numProcsInGc - 1;
      at := at[p := Running];
    }

    /** `gscreate_thread_pool` counts the process before it clones it. */
    method CountNew(p: nat)
      requires Inv(Abs()) && Enabled(Abs(), Register(p))
      modifies this
      ensures Inv(Abs()) && Abs() == Apply(old(Abs()), Register(p))
      ensures numProcs == old(numProcs) + 1 && at == old(at)[p := Creating]
    {
      hide Inv;
      StepKeepsInv(Abs(), Register(p));
      numProcs := numProcs + 1;
      at := at[p := Creating];
    }

    /** It takes the count back if the clone fails. */
    method CloneFailed(p: nat)
      requires Inv(Abs()) && Enabled(Abs(), SpawnFails(p))
      modifies this
      ensures Inv(Abs()) && Abs() == Apply(old(Abs()), SpawnFails(p))
      ensures numProcs == old(numProcs) - 1 && at == old(at)[p := Running]
    {
      hide Inv;
      StepKeepsInv(Abs(), SpawnFails(p));
      numProcs := numProcs - 1;
      at := at[p := Running];
    }

    /** The end of `gsthread_pool_main`. */
    method Uncount(p: nat)
      requires Inv(Abs()) && Enabled(Abs(), Unregister(p))
      modifies this
      ensures Inv(Abs()) && Abs() == Apply(old(Abs()), Unregister(p))
      ensures numProcs == old(numProcs) - 1 && at == old(at) - {p}
    {
      hide Inv;
      StepKeepsInv(Abs(), Unregister(p));
      numProcs := numProcs - 1;
      at := at - {p};
    }
  }
}
