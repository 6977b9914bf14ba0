/** The copying tracer of `eval.c`: an object reached for the first time is copied to
    to-space and overwritten by a forwarding pointer, indirections are short-cut, and
    a field selection on a record that is already built is replaced by the field. */
module HeapTrace {

  datatype Option<T> = None | Some(value: T)

  /** `gsvalue`: no value, a word with the pointer bit clear, or an address. */
  datatype Value = Null | Unboxed(word: nat) | Ptr(addr: nat)

  /** The block class and the unmoved part of an object. */
  datatype Kind =
    | Closure(pos: nat)
    | Application(pos: nat)
    | Eval(update: nat)
    | ErrorMessage(text: nat)
    | Failure(text: nat)
    | Code(instrs: nat)
    | Record(pos: nat)
    | Constr(number: nat)
    | ApiPrim(index: nat)
    | Promise
    | Lfield(fieldno: nat)

  /** A selection thunk is a node of kind `Lfield` with the record as its one field. */
  datatype Obj =
    | Node(kind: Kind, fields: seq<Value>)
    | Indirection(dest: Value)
    | Evaluating
    | Forward(was: Kind, to: nat)

  type Heap = map<nat, Obj>

  // ----- The heap before the collection -----

  predicate IsRecord(o: Obj) {
    || (o.Node? && o.kind.Record?)
    || (o.Forward? && o.was.Record?)
  }

  /** The object at `a` is a selection on a record that is already built. */
  predicate Selects(h: Heap, a: nat) {
    && a in h && h[a].Node? && h[a].kind.Lfield? && |h[a].fields| == 1
    && h[a].fields[0].Ptr? && h[a].fields[0].addr in h && IsRecord(h[h[a].fields[0].addr])
  }

  ghost predicate ValueOk(h: Heap, v: Value) {
    v.Ptr? ==> v.addr in h
  }

  ghost predicate ObjOk(h: Heap, a: nat)
    requires a in h
  {
    match h[a]
    case Node(kind, fields) =>
      && (forall i :: 0 <= i < |fields| ==> ValueOk(h, fields[i]))
      && (kind.Lfield? ==> |fields| == 1)
      && (Selects(h, a) ==> var r := h[fields[0].addr]; r.Node? && kind.fieldno < |r.fields|)
    case Indirection(dest) => ValueOk(h, dest)
    case Evaluating => true
    case Forward(_, _) => false
  }

  /** No dangling pointer, no forwarding pointer, and selected fields exist. */
  ghost predicate HeapOk(h: Heap) {
    forall a :: a in h ==> ObjOk(h, a)
  }

  function Selected(h: Heap, a: nat): Value
    requires Selects(h, a)
  {
    var r := h[h[a].fields[0].addr];
    if r.Node? && h[a].kind.fieldno < |r.fields| then r.fields[h[a].kind.fieldno] else Null
  }

  /** What an object stands for: chains of indirections and of selections that can be
      evaluated lead to a value, any other object stands for itself. */
  type Canon = map<nat, Value>

  function CanonOf(c: Canon, v: Value): Value {
    if v.Ptr? && v.addr in c then c[v.addr] else v
  }

  ghost predicate IsCanon(h: Heap, c: Canon) {
    && c.Keys == h.Keys
    && forall a {:trigger c[a]} :: a in h ==> c[a] == CanonStep(h, c, a)
  }

  function CanonStep(h: Heap, c: Canon, a: nat): Value
    requires a in h
  {
    if h[a].Indirection? then CanonOf(c, h[a].dest)
    else if Selects(h, a) then CanonOf(c, Selected(h, a))
    else Ptr(a)
  }

  /** Chains of indirections and evaluable selections end: the rank falls along them. */
  type Rank = map<nat, nat>

  function RankOf(r: Rank, v: Value): nat {
    if v.Ptr? && v.addr in r then r[v.addr] else 0
  }

  ghost predicate IsRank(h: Heap, r: Rank) {
    && r.Keys == h.Keys
    && (forall a :: a in h && h[a].Indirection? ==> RankOf(r, h[a].dest) < r[a])
    && (forall a :: a in h && Selects(h, a) ==> RankOf(r, Selected(h, a)) < r[a])
  }

  function CanonBy(h: Heap, r: Rank, v: Value): Value
    requires IsRank(h, r)
    decreases RankOf(r, v), if v.Ptr? && v.addr in h then 1 else 0
  {
    if v.Ptr? && v.addr in h then
      if h[v.addr].Indirection? then CanonBy(h, r, h[v.addr].dest)
      else if Selects(h, v.addr) then CanonBy(h, r, Selected(h, v.addr))
      else v
    else v
  }

  /** With a rank, what every object stands for is well defined. */
  lemma CanonExists(h: Heap, r: Rank) returns (c: Canon)
    requires IsRank(h, r)
    ensures IsCanon(h, c)
  {
    c := map a | a in h :: CanonBy(h, r, Ptr(a));
    forall v: Value
      ensures CanonOf(c, v) == CanonBy(h, r, v)
    {
    }
  }

  /** What an object stands for, field by field: an indirection for what its destination
      does, a selection on a record that is built for what the field of its number does,
      anything else for itself. */
  lemma StandsFor(h: Heap, c: Canon, a: nat)
    requires HeapOk(h) && IsCanon(h, c) && a in h
    ensures match h[a]
            case Indirection(dest) => c[a] == CanonOf(c, dest)
            case Node(Lfield(fieldno), fields) =>
              && |fields| == 1
              && (var built := fields[0].Ptr? && h[fields[0].addr].Node? && h[fields[0].addr].kind.Record?;
                  if built
                  then fieldno < |h[fields[0].addr].fields| && c[a] == CanonOf(c, h[fields[0].addr].fields[fieldno])
                  else c[a] == Ptr(a))
            case _ => c[a] == Ptr(a)
  {
    assert c[a] == CanonStep(h, c, a);
    assert ObjOk(h, a);
    if h[a].Node? && h[a].kind.Lfield? && h[a].fields[0].Ptr? {
      assert ObjOk(h, h[a].fields[0].addr);
    }
  }

  // ----- The heap during the collection -----

  /** `fwd` maps each object copied so far to its copy. */
  datatype State = State(mem: Heap, next: nat, fwd: map<nat, nat>)

  /** `v` is the to-space rendering of the from-space value `w`: a pointer does not come
      to nothing. */
  ghost predicate Done(c: Canon, fwd: map<nat, nat>, w: Value, v: Value) {
    var d := CanonOf(c, w);
    if d.Ptr? then d.addr in fwd && v == Ptr(fwd[d.addr]) else v == d && !LeadsNowhere(c, w)
  }

  /** A pointer to indirections and selections that end in no value. */
  ghost predicate LeadsNowhere(c: Canon, w: Value) {
    w.Ptr? && CanonOf(c, w) == Null
  }

  ghost predicate CopyOk(h: Heap, c: Canon, s: State, a: nat, open: set<nat>)
    requires a in h && a in s.fwd
  {
    && h[a].Node? && !Selects(h, a)
    && s.fwd[a] in s.mem
    && var o := s.mem[s.fwd[a]];
       o.Node? && o.kind == h[a].kind && |o.fields| == |h[a].fields|
       && forall i :: 0 <= i < |o.fields| ==>
                        || Done(c, s.fwd, h[a].fields[i], o.fields[i])
                        || (a in open && o.fields[i] == h[a].fields[i])
  }

  ghost predicate FwdOk(h: Heap, s: State) {
    && (forall a :: a in h ==> a < s.next)
    && (forall a :: a in s.fwd ==> a in h && s.fwd[a] !in h && s.fwd[a] < s.next)
    && (forall a, b :: a in s.fwd && b in s.fwd && s.fwd[a] == s.fwd[b] ==> a == b)
  }

  /** A from-space object is unchanged or a forwarding pointer to its copy, and
      to-space holds nothing but copies. */
  ghost predicate MemOk(h: Heap, s: State) {
    && (forall a :: a in h ==> a in s.mem)
    && (forall a :: a in h && a !in s.fwd ==> s.mem[a] == h[a])
    && (forall a :: a in h && a in s.fwd && h[a].Node? ==> s.mem[a] == Forward(h[a].kind, s.fwd[a]))
    && OnlyCopies(h, s)
  }

  ghost predicate OnlyCopies(h: Heap, s: State) {
    forall b :: b in s.mem && b !in h ==> exists a :: a in s.fwd && s.fwd[a] == b
  }

  /** `open` holds the objects whose copies are still being filled. */
  ghost predicate Inv(h: Heap, c: Canon, s: State, open: set<nat>) {
    && FwdOk(h, s)
    && MemOk(h, s)
    && (forall a :: a in s.fwd && a in h ==> CopyOk(h, c, s, a, open))
  }

  /** A call copies more objects; it touches no copy that exists already. */
  ghost predicate Extends(s: State, t: State) {
    && (forall a :: a in s.fwd ==> a in t.fwd && t.fwd[a] == s.fwd[a])
    && (forall a :: a in s.fwd && s.fwd[a] in s.mem ==> s.fwd[a] in t.mem && t.mem[s.fwd[a]] == s.mem[s.fwd[a]])
    && s.next <= t.next
  }

  /** A set of objects that with an object holds all that its fields stand for. */
  ghost predicate IsLiveClosed(h: Heap, c: Canon, live: set<nat>) {
    forall a, i :: a in live && a in h && h[a].Node? && 0 <= i < |h[a].fields| && CanonOf(c, h[a].fields[i]).Ptr? ==>
                     CanonOf(c, h[a].fields[i]).addr in live
  }

  ghost predicate Lives(c: Canon, live: set<nat>, v: Value) {
    CanonOf(c, v).Ptr? ==> CanonOf(c, v).addr in live
  }

  /** What can make the tracer give up: a selection thunk under evaluation, an
      implementation failure, which cannot be reached twice, or a field that leads to no
      value, which the tracer takes for an error. */
  ghost predicate Blocks(c: Canon, o: Obj) {
    || o.Evaluating?
    || (o.Node? && (o.kind.Failure? || exists i :: 0 <= i < |o.fields| && LeadsNowhere(c, o.fields[i])))
  }

  ghost predicate HasBlocker(h: Heap, c: Canon, live: set<nat>) {
    exists a :: a in live && a in h && Blocks(c, h[a])
  }

  // ----- Steps -----

  /** Reserve a copy and leave the forwarding pointer. */
  function Copied(s: State, a: nat): State
    requires a in s.mem && s.mem[a].Node?
  {
    State(s.mem[s.next := s.mem[a]][a := Forward(s.mem[a].kind, s.next)], s.next + 1, s.fwd[a := s.next])
  }

  lemma CopiedAddsOnlyCopies(h: Heap, s: State, a: nat)
    requires OnlyCopies(h, s) && a in s.mem && a in h && a !in s.fwd && s.mem[a].Node?
    ensures OnlyCopies(h, Copied(s, a))
  {
    var t := Copied(s, a);
    forall b | b in t.mem && b !in h
      ensures exists x :: x in t.fwd && t.fwd[x] == b
    {
      if b == s.next {
        assert t.fwd[a] == b;
      } else {
        var x :| x in s.fwd && s.fwd[x] == b;
        assert t.fwd[x] == b;
      }
    }
  }

  lemma CopiedKeepsFwd(h: Heap, s: State, a: nat)
    requires FwdOk(h, s) && a in h && a !in s.fwd && a in s.mem && s.mem[a].Node?
    ensures FwdOk(h, Copied(s, a))
  {
    assert s.next !in h;
  }

  lemma CopiedKeepsMem(h: Heap, s: State, a: nat)
    requires FwdOk(h, s) && MemOk(h, s) && a in h && a !in s.fwd && h[a].Node?
    ensures MemOk(h, Copied(s, a))
  {
    CopiedAddsOnlyCopies(h, s, a);
    hide OnlyCopies;
    assert s.next !in h;
  }

  lemma CopiedExtends(h: Heap, s: State, a: nat)
    requires FwdOk(h, s) && a in h && a !in s.fwd && a in s.mem && s.mem[a].Node?
    ensures Extends(s, Copied(s, a))
  {
    assert forall x :: x in s.fwd ==> s.fwd[x] != s.next && s.fwd[x] != a;
  }

  lemma CopyOkIsKept(h: Heap, c: Canon, s: State, t: State, a: nat, open: set<nat>)
    requires a in h && a in s.fwd && CopyOk(h, c, s, a, open) && Extends(s, t)
    ensures a in t.fwd && CopyOk(h, c, t, a, open)
  {
  }

  lemma CopiedKeepsInv(h: Heap, c: Canon, s: State, open: set<nat>, a: nat)
    requires Inv(h, c, s, open) && a in h && a !in s.fwd && h[a].Node? && !Selects(h, a)
    ensures Inv(h, c, Copied(s, a), open + {a})
    ensures Extends(s, Copied(s, a))
  {
    var t := Copied(s, a);
    CopiedKeepsFwd(h, s, a);
    CopiedKeepsMem(h, s, a);
    CopiedExtends(h, s, a);
    forall x | x in t.fwd && x in h
      ensures CopyOk(h, c, t, x, open + {a})
    {
      if x != a {
        CopyOkIsKept(h, c, s, t, x, open);
      }
    }
  }

  /** Store a traced field in the copy of `a`. */
  function Filled(s: State, b: nat, i: nat, v: Value): State
    requires b in s.mem && s.mem[b].Node? && i < |s.mem[b].fields|
  {
    s.(mem := s.mem[b := s.mem[b].(fields := s.mem[b].fields[i := v])])
  }

  lemma FilledKeepsMem(h: Heap, s: State, b: nat, i: nat, v: Value)
    requires FwdOk(h, s) && MemOk(h, s) && b !in h
    requires b in s.mem && s.mem[b].Node? && i < |s.mem[b].fields|
    ensures FwdOk(h, Filled(s, b, i, v)) && MemOk(h, Filled(s, b, i, v))
  {
  }

  lemma FilledKeepsCopy(h: Heap, c: Canon, s: State, open: set<nat>, a: nat, i: nat, v: Value, x: nat)
    requires FwdOk(h, s) && a in open && a in h && a in s.fwd && x in h && x in s.fwd
    requires CopyOk(h, c, s, a, open) && CopyOk(h, c, s, x, open)
    requires i < |h[a].fields| && Done(c, s.fwd, h[a].fields[i], v)
    ensures CopyOk(h, c, Filled(s, s.fwd[a], i, v), x, open)
  {
  }

  lemma FilledKeepsInv(h: Heap, c: Canon, s: State, open: set<nat>, a: nat, i: nat, v: Value)
    requires Inv(h, c, s, open) && a in open && a in h && a in s.fwd
    requires h[a].Node? && i < |h[a].fields| && Done(c, s.fwd, h[a].fields[i], v)
    ensures s.fwd[a] in s.mem && s.mem[s.fwd[a]].Node? && i < |s.mem[s.fwd[a]].fields|
    ensures Inv(h, c, Filled(s, s.fwd[a], i, v), open)
  {
    assert CopyOk(h, c, s, a, open);
    FilledKeepsMem(h, s, s.fwd[a], i, v);
    forall x | x in s.fwd && x in h
      ensures CopyOk(h, c, Filled(s, s.fwd[a], i, v), x, open)
    {
      FilledKeepsCopy(h, c, s, open, a, i, v, x);
    }
  }

  lemma DoneIsKept(c: Canon, s: State, t: State, w: Value, v: Value)
    requires Done(c, s.fwd, w, v) && Extends(s, t)
    ensures Done(c, t.fwd, w, v)
  {
  }

  lemma ExtendsOn(s: State, t: State, u: State)
    requires Extends(s, t) && Extends(t, u)
    ensures Extends(s, u)
  {
  }

  /** The copy of `a` while its fields are traced; the first `i` are done. */
  ghost predicate Filling(h: Heap, c: Canon, s: State, open: set<nat>, a: nat, i: nat) {
    && Inv(h, c, s, open + {a})
    && a in h && a in s.fwd && CopyOk(h, c, s, a, open + {a})
    && i <= |h[a].fields|
    && forall j :: 0 <= j < i ==> Done(c, s.fwd, h[a].fields[j], s.mem[s.fwd[a]].fields[j])
  }

  lemma StartFilling(h: Heap, c: Canon, s: State, open: set<nat>, a: nat)
    requires Inv(h, c, s, open) && a in h && a !in s.fwd && h[a].Node? && !Selects(h, a)
    ensures Filling(h, c, Copied(s, a), open, a, 0)
    ensures Extends(s, Copied(s, a))
  {
    CopiedKeepsInv(h, c, s, open, a);
  }

  lemma FillingIsKept(h: Heap, c: Canon, s: State, t: State, open: set<nat>, a: nat, i: nat)
    requires Filling(h, c, s, open, a, i) && Extends(s, t) && Inv(h, c, t, open + {a})
    ensures Filling(h, c, t, open, a, i)
  {
    CopyOkIsKept(h, c, s, t, a, open + {a});
  }

  lemma FillOne(h: Heap, c: Canon, s: State, open: set<nat>, a: nat, i: nat, v: Value)
    requires Filling(h, c, s, open, a, i) && i < |h[a].fields| && Done(c, s.fwd, h[a].fields[i], v)
    ensures Filling(h, c, Filled(s, s.fwd[a], i, v), open, a, i + 1)
  {
    FilledKeepsInv(h, c, s, open + {a}, a, i, v);
    assert CopyOk(h, c, Filled(s, s.fwd[a], i, v), a, open + {a});
  }

  lemma FillExtends(h: Heap, c: Canon, s: State, t: State, open: set<nat>, a: nat, i: nat, v: Value)
    requires Filling(h, c, t, open, a, i) && Extends(s, t) && a !in s.fwd && i < |h[a].fields|
    ensures t.fwd[a] in t.mem && t.mem[t.fwd[a]].Node? && i < |t.mem[t.fwd[a]].fields|
    ensures Extends(s, Filled(t, t.fwd[a], i, v))
  {
    assert forall x :: x in s.fwd ==> t.fwd[x] != t.fwd[a];
  }

  lemma EndFilling(h: Heap, c: Canon, s: State, open: set<nat>, a: nat)
    requires a in h && h[a].Node? && Filling(h, c, s, open, a, |h[a].fields|)
    ensures Inv(h, c, s, open)
    ensures Done(c, s.fwd, Ptr(a), Ptr(s.fwd[a])) || !IsCanon(h, c)
  {
    forall x | x in s.fwd && x in h
      ensures CopyOk(h, c, s, x, open)
    {
      assert CopyOk(h, c, s, x, open + {a});
    }
  }

  /** A slot of an object in progress holds the old value or the finished one. */
  ghost predicate Slot(h: Heap, c: Canon, s: State, w: Value, v: Value) {
    ValueOk(h, w) && (v == w || Done(c, s.fwd, w, v))
  }

  lemma FillingSlot(h: Heap, c: Canon, s: State, open: set<nat>, live: set<nat>, a: nat, i: nat)
    requires Filling(h, c, s, open, a, i) && i < |h[a].fields|
    requires HeapOk(h) && IsLiveClosed(h, c, live) && a in live
    ensures s.fwd[a] in s.mem && s.mem[s.fwd[a]].Node? && i < |s.mem[s.fwd[a]].fields|
    ensures Slot(h, c, s, h[a].fields[i], s.mem[s.fwd[a]].fields[i])
    ensures Inv(h, c, s, open + {a})
    ensures Lives(c, live, h[a].fields[i])
  {
    assert ObjOk(h, a);
  }

  lemma StaysUnmoved(h: Heap, c: Canon, s: State, open: set<nat>, a: nat)
    requires Inv(h, c, s, open) && a in h && HeapOk(h)
    ensures a in s.mem
    ensures !s.mem[a].Forward? ==> a !in s.fwd && s.mem[a] == h[a]
    ensures s.mem[a].Forward? ==>
              && a in s.fwd && s.mem[a].to == s.fwd[a] && h[a].Node? && h[a].kind == s.mem[a].was
              && CopyOk(h, c, s, a, open)
  {
    assert ObjOk(h, a);
    if a in s.fwd {
      assert CopyOk(h, c, s, a, open);
    }
  }

  lemma NoSelection(h: Heap, a: nat)
    requires a in h && h[a].Node? && !h[a].kind.Lfield?
    ensures !Selects(h, a)
  {
  }

  lemma ExtendsItself(s: State)
    ensures Extends(s, s)
  {
  }

  lemma StandsForItself(h: Heap, c: Canon, a: nat)
    requires IsCanon(h, c) && a in h && h[a].Node? && !Selects(h, a)
    ensures CanonOf(c, Ptr(a)) == Ptr(a)
  {
    assert c[a] == CanonStep(h, c, a);
  }

  lemma EvaluatingBlocks(h: Heap, c: Canon, a: nat, live: set<nat>)
    requires a in h && h[a].Evaluating? && IsCanon(h, c) && Lives(c, live, Ptr(a))
    ensures HasBlocker(h, c, live)
  {
    assert c[a] == CanonStep(h, c, a);
  }

  lemma FieldBlocks(h: Heap, c: Canon, a: nat, i: nat, live: set<nat>)
    requires a in h && a in live && h[a].Node? && i < |h[a].fields| && LeadsNowhere(c, h[a].fields[i])
    ensures HasBlocker(h, c, live)
  {
    assert Blocks(c, h[a]);
  }

  lemma ForwardIsDone(h: Heap, c: Canon, s: State, open: set<nat>, a: nat)
    requires Inv(h, c, s, open) && a in h && HeapOk(h) && IsCanon(h, c)
    requires a in s.mem && s.mem[a].Forward?
    ensures Done(c, s.fwd, Ptr(a), Ptr(s.mem[a].to))
  {
    StaysUnmoved(h, c, s, open, a);
    assert c[a] == Ptr(a);
  }

  lemma IndirectionStep(h: Heap, c: Canon, r: Rank, s: State, open: set<nat>, a: nat)
    requires Inv(h, c, s, open) && a in h && HeapOk(h) && IsCanon(h, c) && IsRank(h, r)
    requires a in s.mem && s.mem[a].Indirection?
    ensures var dest := s.mem[a].dest;
            && ValueOk(h, dest)
            && CanonOf(c, Ptr(a)) == CanonOf(c, dest)
            && RankOf(r, dest) < RankOf(r, Ptr(a))
  {
    StaysUnmoved(h, c, s, open, a);
    assert ObjOk(h, a);
    assert c[a] == CanonStep(h, c, a);
  }

  /** The record of a selection that can be evaluated: where it lies now. */
  function Built(mem: Heap, a: nat): Obj
    requires a in mem
  {
    if mem[a].Forward? && mem[a].to in mem then mem[mem[a].to] else mem[a]
  }

  lemma SelectionStep(h: Heap, c: Canon, r: Rank, s: State, open: set<nat>, a: nat)
    requires Inv(h, c, s, open) && a in h && HeapOk(h) && IsCanon(h, c) && IsRank(h, r)
    requires a in s.mem && s.mem[a].Node? && s.mem[a].kind.Lfield?
    ensures |s.mem[a].fields| == 1
    ensures s.mem[a].fields[0].Ptr? ==> s.mem[a].fields[0].addr in s.mem
    ensures Selects(h, a) <==> s.mem[a].fields[0].Ptr? && IsRecord(s.mem[s.mem[a].fields[0].addr])
    ensures Selects(h, a) ==>
              var built := Built(s.mem, s.mem[a].fields[0].addr);
              && built.Node? && s.mem[a].kind.fieldno < |built.fields|
              && Slot(h, c, s, Selected(h, a), built.fields[s.mem[a].kind.fieldno])
              && CanonOf(c, Ptr(a)) == CanonOf(c, Selected(h, a))
              && RankOf(r, Selected(h, a)) < RankOf(r, Ptr(a))
  {
    StaysUnmoved(h, c, s, open, a);
    assert ObjOk(h, a);
    if s.mem[a].fields[0].Ptr? {
      var rec := s.mem[a].fields[0].addr;
      StaysUnmoved(h, c, s, open, rec);
      assert ObjOk(h, rec);
      if Selects(h, a) {
        assert c[a] == CanonStep(h, c, a);
      }
    }
  }

  // ----- What a successful collection means -----

  /** Field `i` of what `v` stands for. */
  ghost function Step(h: Heap, c: Canon, v: Value, i: nat): Option<Value> {
    var d := CanonOf(c, v);
    if d.Ptr? && d.addr in h && h[d.addr].Node? && i < |h[d.addr].fields| then Some(h[d.addr].fields[i]) else None
  }

  /** Follow a path of fields before the collection, seeing through indirections and
      selections. */
  ghost function Walk(h: Heap, c: Canon, v: Value, path: seq<nat>): Option<Value>
    decreases |path|
  {
    if path == [] then Some(v) else
    var u := Walk(h, c, v, path[..|path| - 1]);
    if u.None? then None else Step(h, c, u.value, path[|path| - 1])
  }

  /** The same in the new heap, where a pointer is followed as it is. */
  ghost function NewStep(mem: Heap, v: Value, i: nat): Option<Value> {
    if v.Ptr? && v.addr in mem && mem[v.addr].Node? && i < |mem[v.addr].fields| then Some(mem[v.addr].fields[i])
    else None
  }

  ghost function NewWalk(mem: Heap, v: Value, path: seq<nat>): Option<Value>
    decreases |path|
  {
    if path == [] then Some(v) else
    var u := NewWalk(mem, v, path[..|path| - 1]);
    if u.None? then None else NewStep(mem, u.value, path[|path| - 1])
  }

  /** The object at `a` can be seen from a root. */
  ghost predicate IsLive(h: Heap, c: Canon, roots: seq<Value>, a: nat) {
    exists i, path :: 0 <= i < |roots| && IsSeen(h, c, roots[i], path, a)
  }

  ghost predicate IsSeen(h: Heap, c: Canon, v: Value, path: seq<nat>, a: nat) {
    var u := Walk(h, c, v, path);
    u.Some? && CanonOf(c, u.value) == Ptr(a)
  }

  ghost function LiveSet(h: Heap, c: Canon, roots: seq<Value>): set<nat> {
    set a | a in h && IsLive(h, c, roots, a)
  }

  lemma CanonStaysInHeap(h: Heap, c: Canon, r: Rank, v: Value)
    requires HeapOk(h) && IsRank(h, r) && IsCanon(h, c) && ValueOk(h, v)
    ensures ValueOk(h, CanonOf(c, v))
    decreases RankOf(r, v)
  {
    if v.Ptr? {
      var a := v.addr;
      assert ObjOk(h, a);
      assert c[a] == CanonStep(h, c, a);
      if h[a].Indirection? {
        CanonStaysInHeap(h, c, r, h[a].dest);
      } else if Selects(h, a) {
        var rec := h[a].fields[0].addr;
        assert ObjOk(h, rec);
        CanonStaysInHeap(h, c, r, Selected(h, a));
      }
    }
  }

  lemma LiveSetIsClosed(h: Heap, c: Canon, r: Rank, roots: seq<Value>)
    requires HeapOk(h) && IsRank(h, r) && IsCanon(h, c)
    ensures IsLiveClosed(h, c, LiveSet(h, c, roots))
  {
    var live := LiveSet(h, c, roots);
    forall a, i | a in live && a in h && h[a].Node? && 0 <= i < |h[a].fields| && CanonOf(c, h[a].fields[i]).Ptr?
      ensures CanonOf(c, h[a].fields[i]).addr in live
    {
      var k, path: seq<nat> :| 0 <= k < |roots| && IsSeen(h, c, roots[k], path, a);
      var b := CanonOf(c, h[a].fields[i]).addr;
      assert ObjOk(h, a);
      CanonStaysInHeap(h, c, r, h[a].fields[i]);
      SeenThroughField(h, c, roots[k], path, a, i);
      assert IsSeen(h, c, roots[k], path + [i], b);
    }
  }

  lemma SeenThroughField(h: Heap, c: Canon, v: Value, path: seq<nat>, a: nat, i: nat)
    requires IsSeen(h, c, v, path, a) && a in h && h[a].Node? && i < |h[a].fields|
    ensures Walk(h, c, v, path + [i]) == Some(h[a].fields[i])
  {
    assert (path + [i])[..|path|] == path;
  }

  lemma RootLives(h: Heap, c: Canon, r: Rank, roots: seq<Value>, i: nat)
    requires HeapOk(h) && IsRank(h, r) && IsCanon(h, c)
    requires i < |roots| && ValueOk(h, roots[i])
    ensures Lives(c, LiveSet(h, c, roots), roots[i])
  {
    CanonStaysInHeap(h, c, r, roots[i]);
    if CanonOf(c, roots[i]).Ptr? {
      assert IsSeen(h, c, roots[i], [], CanonOf(c, roots[i]).addr);
    }
  }

  /** To-space holds one finished copy of each live object and nothing else, and the
      roots are redirected to the copies. */
  ghost predicate Rebuilt(h: Heap, c: Canon, s: State, roots: seq<Value>, res: seq<Value>) {
    && Inv(h, c, s, {})
    && |res| == |roots|
    && (forall i :: 0 <= i < |roots| ==> Done(c, s.fwd, roots[i], res[i]))
    && s.fwd.Keys == LiveSet(h, c, roots)
  }

  /** Whatever can be seen from a value before the collection is seen, along the same
      path, from its to-space rendering, and the other way round. */
  lemma {:induction false} WalksAgree(h: Heap, c: Canon, s: State, w: Value, v: Value, path: seq<nat>)
    requires Inv(h, c, s, {}) && Done(c, s.fwd, w, v)
    ensures Walk(h, c, w, path).Some? <==> NewWalk(s.mem, v, path).Some?
    ensures Walk(h, c, w, path).Some? ==>
              && Done(c, s.fwd, Walk(h, c, w, path).value, NewWalk(s.mem, v, path).value)
    decreases |path|
  {
    if path != [] {
      var before := path[..|path| - 1];
      WalksAgree(h, c, s, w, v, before);
      var u := Walk(h, c, w, before);
      if u.Some? {
        StepsAgree(h, c, s, u.value, NewWalk(s.mem, v, before).value, path[|path| - 1]);
      }
    }
  }

  lemma StepsAgree(h: Heap, c: Canon, s: State, w: Value, v: Value, i: nat)
    requires Inv(h, c, s, {}) && Done(c, s.fwd, w, v)
    ensures Step(h, c, w, i).Some? <==> NewStep(s.mem, v, i).Some?
    ensures Step(h, c, w, i).Some? ==> Done(c, s.fwd, Step(h, c, w, i).value, NewStep(s.mem, v, i).value)
  {
    var d := CanonOf(c, w);
    if d.Ptr? {
      assert d.addr in h;
      assert CopyOk(h, c, s, d.addr, {});
    }
  }

  lemma AllLiveCopied(h: Heap, c: Canon, s: State, roots: seq<Value>, res: seq<Value>)
    requires Inv(h, c, s, {}) && s.fwd.Keys <= LiveSet(h, c, roots)
    requires |res| == |roots| && forall i :: 0 <= i < |roots| ==> Done(c, s.fwd, roots[i], res[i])
    ensures Rebuilt(h, c, s, roots, res)
  {
    forall a | a in LiveSet(h, c, roots)
      ensures a in s.fwd
    {
      var i, path: seq<nat> :| 0 <= i < |roots| && IsSeen(h, c, roots[i], path, a);
      WalksAgree(h, c, s, roots[i], res[i], path);
    }
  }

  /** No from-space address can be read in to-space or in a root. */
  lemma NoOldPointers(h: Heap, c: Canon, s: State, roots: seq<Value>, res: seq<Value>, b: nat, i: nat)
    requires Rebuilt(h, c, s, roots, res)
    requires b in s.mem && b !in h
    ensures s.mem[b].Node?
    ensures i < |s.mem[b].fields| && s.mem[b].fields[i].Ptr? ==>
              s.mem[b].fields[i].addr in s.mem && s.mem[b].fields[i].addr !in h
    ensures i < |res| && res[i].Ptr? ==> res[i].addr in s.mem && res[i].addr !in h
  {
    var a :| a in s.fwd && s.fwd[a] == b;
    assert CopyOk(h, c, s, a, {});
    if i < |s.mem[b].fields| {
      DonePointsToCopy(h, c, s, h[a].fields[i], s.mem[b].fields[i]);
    }
    if i < |res| {
      DonePointsToCopy(h, c, s, roots[i], res[i]);
    }
  }

  lemma DonePointsToCopy(h: Heap, c: Canon, s: State, w: Value, v: Value)
    requires Inv(h, c, s, {}) && Done(c, s.fwd, w, v)
    ensures v.Ptr? ==> v.addr in s.mem && v.addr !in h
  {
    var d := CanonOf(c, w);
    if d.Ptr? {
      assert d.addr in h;
      assert CopyOk(h, c, s, d.addr, {});
    }
  }

  /** A seen object is seen as its one copy, of the same kind; so two paths met before
      exactly if they meet now. */
  lemma SharingIsKept(h: Heap, c: Canon, s: State, roots: seq<Value>, res: seq<Value>,
                      i: nat, path: seq<nat>, a: nat, j: nat, path': seq<nat>, a': nat)
    requires Rebuilt(h, c, s, roots, res) && i < |roots| && j < |roots|
    requires a in h && a' in h && IsSeen(h, c, roots[i], path, a) && IsSeen(h, c, roots[j], path', a')
    ensures NewWalk(s.mem, res[i], path).Some? && NewWalk(s.mem, res[j], path').Some?
    ensures var b, b' := NewWalk(s.mem, res[i], path).value, NewWalk(s.mem, res[j], path').value;
            && (a == a' <==> b == b')
            && b.Ptr? && b.addr in s.mem && s.mem[b.addr].Node? && h[a].Node?
            && s.mem[b.addr].kind == h[a].kind && |s.mem[b.addr].fields| == |h[a].fields|
  {
    SeenAsCopy(h, c, s, roots, res, i, path, a);
    SeenAsCopy(h, c, s, roots, res, j, path', a');
  }

  lemma SeenAsCopy(h: Heap, c: Canon, s: State, roots: seq<Value>, res: seq<Value>, i: nat, path: seq<nat>, a: nat)
    requires Rebuilt(h, c, s, roots, res) && i < |roots|
    requires a in h && IsSeen(h, c, roots[i], path, a)
    ensures a in s.fwd && NewWalk(s.mem, res[i], path) == Some(Ptr(s.fwd[a]))
    ensures s.fwd[a] in s.mem && s.mem[s.fwd[a]].Node? && h[a].Node?
    ensures s.mem[s.fwd[a]].kind == h[a].kind && |s.mem[s.fwd[a]].fields| == |h[a].fields|
  {
    WalksAgree(h, c, s, roots[i], res[i], path);
    assert CopyOk(h, c, s, a, {});
  }

  // ----- The tracer -----

  /** A tracer that returns no value has failed. */
  function NotNull(r: Option<Value>): Option<Value> {
    if r == Some(Null) then None else r
  }

  class Collector {
    /** The addresses in blocks marked as from-space. */
    const from: set<nat>
    var mem: Heap
    var next: nat

    /** The heap as it was, what its objects stand for, and the copies made. */
    ghost const h: Heap
    ghost const canon: Canon
    ghost const rank: Rank
    ghost var fwd: map<nat, nat>

    ghost function St(): State
      reads this
    {
      State(mem, next, fwd)
    }

    ghost predicate Setup(live: set<nat>) {
      from == h.Keys && HeapOk(h) && IsCanon(h, canon) && IsRank(h, rank) && IsLiveClosed(h, canon, live)
    }

    ghost predicate Valid(open: set<nat>, live: set<nat>)
      reads this
    {
      Setup(live) && Inv(h, canon, St(), open) && fwd.Keys <= live
    }

    /** `GS_GC_TRACE` on a slot that held `w` before the collection. */
    method GcTrace(v: Value, ghost w: Value, ghost open: set<nat>, ghost live: set<nat>) returns (r: Option<Value>)
      requires Valid(open, live)
      requires ValueOk(h, w) && Lives(canon, live, w)
      requires v == w || Done(canon, fwd, w, v)
      modifies this
      ensures r.Some? ==>
                && Valid(open, live)
                && Extends(old(St()), St())
                && Done(canon, fwd, w, r.value)
      ensures r.None? ==> HasBlocker(h, canon, live) || LeadsNowhere(canon, w)
      decreases from - fwd.Keys, RankOf(rank, w), 2
    {
      if v.Ptr? && v.addr in from {
        r := TraceObject(v.addr, open, live);
      } else {
        r := Some(v);
      }
    }

    /** No result stands for a tracer that returns null.
        The block-class tracers: `gsheapgc`, `gserrorsgc`, `gsimplerrorsgc`,
        `gs_gc_trace_bco`, `gsrecordsgc`, `gs_lfield_trace`, `gsconstrsgc`,
        `gsapiprimgc` and `api_promise_trace`. */
    method TraceObject(a: nat, ghost open: set<nat>, ghost live: set<nat>) returns (r: Option<Value>)
      requires Valid(open, live)
      requires a in h && Lives(canon, live, Ptr(a))
      modifies this
      ensures r.Some? ==>
                && Valid(open, live)
                && Extends(old(St()), St())
                && Done(canon, fwd, Ptr(a), r.value)
      ensures r.None? ==> HasBlocker(h, canon, live) || LeadsNowhere(canon, Ptr(a))
      ensures a in old(mem) && old(mem)[a].Forward? ==> r == (if old(mem)[a].was.Failure? then None else Some(Ptr(old(mem)[a].to))) && mem == old(mem)
      ensures a in old(mem) && old(mem)[a].Evaluating? ==> r == None
      decreases from - fwd.Keys, RankOf(rank, Ptr(a)), 1
    {
      hide HeapOk, ObjOk, Inv, IsCanon, IsRank, CopyOk, Selects, CanonStep, Extends;
      StaysUnmoved(h, canon, St(), open, a);
      match mem[a] {
        case Node(kind, fields) =>
          if kind.Lfield? {
            SelectionStep(h, canon, rank, St(), open, a);
          } else {
            NoSelection(h, a);
          }
          if kind.Lfield? && fields[0].Ptr? && IsRecord(mem[fields[0].addr]) {
            var built := Built(mem, fields[0].addr);
            r := GcTrace(built.fields[kind.fieldno], Selected(h, a), open, live);
            r := NotNull(r);
          } else {
            r := CopyNode(a, open, live);
          }
        case Indirection(dest) =>
          IndirectionStep(h, canon, rank, St(), open, a);
          r := GcTrace(dest, dest, open, live);
          r := NotNull(r);
        case Evaluating =>
          EvaluatingBlocks(h, canon, a, live);
          r := None;
        case Forward(was, to) =>
          ForwardIsDone(h, canon, St(), open, a);
          ExtendsItself(St());
          r := if was.Failure? then None else Some(Ptr(to));
      }
    }

    method CopyNode(a: nat, ghost open: set<nat>, ghost live: set<nat>) returns (r: Option<Value>)
      requires Valid(open, live)
      requires a in h && a !in fwd && h[a].Node? && !Selects(h, a) && Lives(canon, live, Ptr(a))
      modifies this
      ensures r.Some? ==>
                && Valid(open, live)
                && Extends(old(St()), St())
                && Done(canon, fwd, Ptr(a), r.value)
      ensures r.None? ==> HasBlocker(h, canon, live)
      decreases from - fwd.Keys, RankOf(rank, Ptr(a)), 0
    {
      hide HeapOk, ObjOk, IsCanon, IsRank, CopyOk, Selects, CanonStep, Inv, Filling, IsLiveClosed, Done;
      ghost var s := St();
      StaysUnmoved(h, canon, s, open, a);
      StandsForItself(h, canon, a);
      StartFilling(h, canon, s, open, a);
      var b, o := next, mem[a];
      mem := mem[b := o][a := Forward(o.kind, b)];
      next := next + 1;
      fwd := fwd[a := b];
      for i := 0 to |o.fields|
        invariant Setup(live) && fwd.Keys <= live
        invariant a in fwd && fwd[a] == b && Filling(h, canon, St(), open, a, i)
        invariant Extends(s, St())
      {
        ghost var t := St();
        FillingSlot(h, canon, t, open, live, a, i);
        var field := GcTrace(mem[b].fields[i], h[a].fields[i], open + {a}, live);
        if field.None? {
          if LeadsNowhere(canon, h[a].fields[i]) {
            FieldBlocks(h, canon, a, i, live);
          }
          return None;
        }
        FillingIsKept(h, canon, t, St(), open, a, i);
        FillOne(h, canon, St(), open, a, i, field.value);
        ExtendsOn(s, t, St());
        FillExtends(h, canon, s, St(), open, a, i, field.value);
        mem := mem[b := mem[b].(fields := mem[b].fields[i := field.value])];
      }
      EndFilling(h, canon, St(), open, a);
      r := Some(Ptr(b));
    }

    /** A collection about to start: all blocks in use become from-space. */
    constructor (heap: Heap, limit: nat, ghost rank: Rank)
      requires HeapOk(heap) && IsRank(heap, rank)
      requires forall a :: a in heap ==> a < limit
      ensures h == heap && mem == heap && fwd == map[]
      ensures from == heap.Keys && this.rank == rank && IsCanon(h, canon)
      ensures forall a :: a in heap ==> a < next
    {
      ghost var c := CanonExists(heap, rank);
      from := heap.Keys;
      mem, next := heap, limit;
      h, canon, this.rank, fwd := heap, c, rank, map[];
    }

    /** The root callbacks trace their roots in turn; success means that the live
        part of the heap was rebuilt in to-space. */
    method Collect(roots: seq<Value>) returns (r: Option<seq<Value>>)
      requires HeapOk(h) && IsRank(h, rank) && IsCanon(h, canon) && from == h.Keys
      requires mem == h && fwd == map[] && forall a :: a in h ==> a < next
      requires forall i :: 0 <= i < |roots| ==> ValueOk(h, roots[i])
      modifies this
      ensures r.Some? ==> Rebuilt(h, canon, St(), roots, r.value)
      ensures r.None? ==>
                || HasBlocker(h, canon, LiveSet(h, canon, roots))
                || exists i :: 0 <= i < |roots| && LeadsNowhere(canon, roots[i])
    {
      ghost var live := LiveSet(h, canon, roots);
      LiveSetIsClosed(h, canon, rank, roots);
      var res: seq<Value> := [];
      for i := 0 to |roots|
        invariant Valid({}, live) && |res| == i
        invariant forall j :: 0 <= j < i ==> Done(canon, fwd, roots[j], res[j])
      {
        RootLives(h, canon, rank, roots, i);
        ghost var s := St();
        var v := GcTrace(roots[i], roots[i], {}, live);
        if v.None? {
          return None;
        }
        forall j | 0 <= j < i
          ensures Done(canon, fwd, roots[j], res[j])
        {
          DoneIsKept(canon, s, St(), roots[j], res[j]);
        }
        res := res + [v.value];
      }
      AllLiveCopied(h, canon, St(), roots, res);
      r := Some(res);
    }
  }
}
