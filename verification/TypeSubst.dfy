/** Substitution of a type for a type variable, as in `typealloc.c`: types carry their
    bound variables by name, and a binder whose variable is free in the argument is
    renamed. Only one candidate is ever tried for the new name, and it is not compared
    with the variable that is replaced. Both make the code fail on some types; this
    module says on which, and that it is right on all others. */
module TypeSubst {
  import opened DeBruijn

  datatype Option<T> = None | Some(value: T)

  /** A node has one part (lift), two (application, function), or one for each labelled
      constructor or field. */
  datatype Type =
    | Leaf(prim: Prim)
    | Var(name: string, kind: Kind)
    | Bind(binder: Binder, v: string, vkind: Kind, body: Type)
    | Node(form: Form, parts: Parts)

  datatype Parts = NoParts | Part(key: string, head: Type, rest: Parts)

  function Size(t: Type): (r: nat)
    ensures r > 0
  {
    match t
    case Leaf(_) => 1
    case Var(_, _) => 1
    case Bind(_, _, _, body) => 1 + Size(body)
    case Node(_, parts) => 1 + PartsSize(parts)
  }

  function PartsSize(ps: Parts): (r: nat)
    ensures r > 0
  {
    match ps
    case NoParts => 1
    case Part(_, head, rest) => Size(head) + PartsSize(rest)
  }

  // ----- The code -----

  /** `gstypes_is_ftyvar` */
  predicate IsFree(y: string, t: Type) {
    match t
    case Leaf(_) => false
    case Var(name, _) => name == y
    case Bind(_, v, _, body) => v != y && IsFree(y, body)
    case Node(_, parts) => IsFreeInParts(y, parts)
  }

  predicate IsFreeInParts(y: string, ps: Parts) {
    match ps
    case NoParts => false
    case Part(_, head, rest) => IsFree(y, head) || IsFreeInParts(y, rest)
  }

  /** The test of the renaming loop. */
  predicate Clashes(name: string, t: Type, u: Type) {
    IsFree(name, u) || IsFree(name, t)
  }

  /** The only candidate: the counter printed into it never advances. */
  function Candidate(binder: Binder, v: string): (r: string)
    ensures |r| > |v|
  {
    if binder == Lambda then v + ":0" else v + "0"
  }

  /** `gstypes_subst`. No result means that the renaming loop never ends. */
  function Subst(t: Type, x: string, u: Type): (r: Option<Type>)
    ensures r.Some? && u.Var? ==> Size(r.value) == Size(t)
    decreases Size(t)
  {
    match t
    case Leaf(_) => Some(t)
    case Var(name, _) => Some(if name == x then u else t)
    case Bind(binder, v, kind, body) =>
      if v == x then Some(t)
      else if !Clashes(v, t, u) then Rebind(binder, v, kind, Subst(body, x, u))
      else
        var c := Candidate(binder, v);
        if Clashes(c, t, u) then None
        else
          var body' := Subst(body, v, Var(c, kind));
          if body'.None? then None else Rebind(binder, c, kind, Subst(body'.value, x, u))
    case Node(form, parts) =>
      var parts' := SubstParts(parts, x, u);
      if parts'.None? then None else Some(Node(form, parts'.value))
  }

  function Rebind(binder: Binder, v: string, kind: Kind, body: Option<Type>): Option<Type> {
    if body.None? then None else Some(Bind(binder, v, kind, body.value))
  }

  function SubstParts(ps: Parts, x: string, u: Type): (r: Option<Parts>)
    ensures r.Some? && u.Var? ==> PartsSize(r.value) == PartsSize(ps)
    decreases PartsSize(ps)
  {
    match ps
    case NoParts => Some(NoParts)
    case Part(key, head, rest) =>
      var head', rest' := Subst(head, x, u), SubstParts(rest, x, u);
      if head'.None? || rest'.None? then None else Some(Part(key, head'.value, rest'.value))
  }

  datatype Applied = Done(res: Type) | Fatal | Hangs

  function FromSubst(r: Option<Type>): Applied {
    if r.None? then Hangs else Done(r.value)
  }

  /** `gstype_apply`, given whether the kind of the argument passes the check. */
  function Apply(fun: Type, arg: Type, kindFits: bool): Applied {
    match fun
    case Leaf(_) => Done(Node(AppForm, Part("", fun, Part("", arg, NoParts))))
    case Node(AppForm, _) => Done(Node(AppForm, Part("", fun, Part("", arg, NoParts))))
    case Bind(Lambda, v, _, body) => if kindFits then FromSubst(Subst(body, v, arg)) else Fatal
    case _ => Fatal
  }

  /** `gstype_instantiate` */
  function Instantiate(fun: Type, arg: Type, kindFits: bool): Applied {
    match fun
    case Bind(Forall, v, _, body) => if kindFits then FromSubst(Subst(body, v, arg)) else Fatal
    case _ => Fatal
  }

  // ----- Types without bound names -----

  /** Two types that differ only in the names of bound variables have the same
      translation. */
  function ToDb(t: Type): Db {
    match t
    case Leaf(prim) => DbLeaf(prim)
    case Var(name, _) => Free(name)
    case Bind(b, v, kind, body) => DbBind(b, kind, Close(ToDb(body), v, 0))
    case Node(form, parts) => DbNode(form, PartsToDb(parts))
  }

  function PartsToDb(ps: Parts): DbParts {
    match ps
    case NoParts => NoDbParts
    case Part(key, head, rest) => DbPart(key, ToDb(head), PartsToDb(rest))
  }

  // ----- The translation -----

  lemma {:induction false} ToDbClosed(t: Type)
    ensures Closed(ToDb(t), 0)
    decreases t
  {
    match t
    case Bind(_, v, _, body) =>
      ToDbClosed(body);
      CloseClosed(ToDb(body), v, 0);
    case Node(_, parts) => PartsToDbClosed(parts);
    case _ =>
  }

  lemma {:induction false} PartsToDbClosed(ps: Parts)
    ensures ClosedParts(PartsToDb(ps), 0)
    decreases ps
  {
    if ps.Part? {
      ToDbClosed(ps.head);
      PartsToDbClosed(ps.rest);
    }
  }

  /** The test for free variables agrees with the translation. */
  lemma {:induction false} IsFreeIff(y: string, t: Type)
    ensures IsFree(y, t) <==> DbFree(y, ToDb(t))
    decreases t
  {
    match t
    case Bind(_, v, _, body) =>
      IsFreeIff(y, body);
      CloseFree(y, ToDb(body), v, 0);
    case Node(_, parts) => IsFreeInPartsIff(y, parts);
    case _ =>
  }

  lemma {:induction false} IsFreeInPartsIff(y: string, ps: Parts)
    ensures IsFreeInParts(y, ps) <==> DbFreeInParts(y, PartsToDb(ps))
    decreases ps
  {
    if ps.Part? {
      IsFreeIff(y, ps.head);
      IsFreeInPartsIff(y, ps.rest);
    }
  }

  // ----- When the code is right -----

  /** The result is the type the capture-free substitution gives. */
  ghost predicate IsRight(t: Type, x: string, u: Type) {
    var r := Subst(t, x, u);
    r.Some? && ToDb(r.value) == DbSubst(ToDb(t), x, ToDb(u))
  }

  ghost predicate ArePartsRight(ps: Parts, x: string, u: Type) {
    var r := SubstParts(ps, x, u);
    r.Some? && PartsToDb(r.value) == DbSubstParts(PartsToDb(ps), x, ToDb(u))
  }

  /** The candidate for the new name of a binder that must be renamed is taken neither
      by a free variable nor, if the bound variable is used, by `x`. */
  ghost predicate NameFits(t: Type, x: string, u: Type)
    requires t.Bind?
  {
    var c := Candidate(t.binder, t.v);
    !Clashes(c, t, u) && (c != x || !IsFree(t.v, t.body))
  }

  /** The candidate of every binder the code comes to rename fits. */
  ghost predicate NamesFit(t: Type, x: string, u: Type)
    decreases Size(t)
  {
    match t
    case Leaf(_) => true
    case Var(_, _) => true
    case Bind(binder, v, kind, body) =>
      v == x ||
      if !Clashes(v, t, u) then NamesFit(body, x, u)
      else
        var renamed := Subst(body, v, Var(Candidate(binder, v), kind));
        && NameFits(t, x, u)
        && NamesFit(body, v, Var(Candidate(binder, v), kind))
        && (renamed.Some? ==> NamesFit(renamed.value, x, u))
    case Node(_, parts) => PartNamesFit(parts, x, u)
  }

  ghost predicate PartNamesFit(ps: Parts, x: string, u: Type)
    decreases PartsSize(ps)
  {
    match ps
    case NoParts => true
    case Part(_, head, rest) => NamesFit(head, x, u) && PartNamesFit(rest, x, u)
  }

  // ----- One binder -----

  lemma {:induction false} Shadowed(t: Type, x: string, u: Type)
    requires t.Bind? && t.v == x
    ensures IsRight(t, x, u)
  {
    IsFreeIff(x, t);
    SubstAbsent(ToDb(t), x, ToDb(u));
  }

  lemma {:induction false} CloseIff(a: Type, b: Db, v: string)
    requires Closed(b, 0)
    ensures Close(ToDb(a), v, 0) == Close(b, v, 0) <==> ToDb(a) == b
  {
    ToDbClosed(a);
    if Close(ToDb(a), v, 0) == Close(b, v, 0) {
      CloseInjective(ToDb(a), b, v);
    }
  }

  lemma {:induction false} ExpectedClosed(t: Type, x: string, u: Type)
    ensures Closed(DbSubst(ToDb(t), x, ToDb(u)), 0)
  {
    ToDbClosed(t);
    ToDbClosed(u);
    SubstClosed(ToDb(t), x, ToDb(u), 0);
  }

  lemma {:induction false} KeptName(t: Type, x: string, u: Type)
    requires t.Bind? && t.v != x && !Clashes(t.v, t, u)
    ensures IsRight(t, x, u) <==> IsRight(t.body, x, u)
  {
    hide DbSubst, Close, IsFree, DbFree, Closed;
    var r := Subst(t.body, x, u);
    IsFreeIff(t.v, u);
    CloseSubst(ToDb(t.body), t.v, 0, x, ToDb(u));
    ExpectedClosed(t.body, x, u);
    if r.Some? {
      CloseIff(r.value, DbSubst(ToDb(t.body), x, ToDb(u)), t.v);
    }
    BindDb(t, x, ToDb(u));
  }

  lemma {:induction false} BindDb(t: Type, x: string, e: Db)
    requires t.Bind?
    ensures DbSubst(ToDb(t), x, e) == DbBind(t.binder, t.vkind, DbSubst(Close(ToDb(t.body), t.v, 0), x, e))
  {
  }

  /** The body in which the bound variable has its new name. */
  ghost predicate IsRenamed(t: Type, c: string, body': Type)
    requires t.Bind?
  {
    && ToDb(body') == DbSubst(ToDb(t.body), t.v, Free(c))
    && c != t.v && !IsFree(c, t)
  }

  lemma {:induction false} RenamedCloses(t: Type, c: string, body': Type)
    requires t.Bind? && IsRenamed(t, c, body')
    ensures Close(ToDb(body'), c, 0) == Close(ToDb(t.body), t.v, 0)
    ensures !IsFree(c, t.body)
  {
    IsFreeIff(c, t.body);
    CloseRenamed(ToDb(t.body), t.v, c, 0);
  }

  /** A new name other than `x`. */
  lemma {:induction false} NewName(t: Type, x: string, u: Type, c: string, body': Type, r: Option<Type>)
    requires t.Bind? && IsRenamed(t, c, body') && !IsFree(c, u) && c != x
    requires r == Subst(body', x, u)
    ensures IsRight(body', x, u) <==> r.Some? && ToDb(Bind(t.binder, c, t.vkind, r.value)) == DbSubst(ToDb(t), x, ToDb(u))
  {
    RenamedCloses(t, c, body');
    hide DbSubst, Close, IsFree, DbFree, Closed, IsRenamed;
    IsFreeIff(c, u);
    CloseSubst(ToDb(body'), c, 0, x, ToDb(u));
    ExpectedClosed(body', x, u);
    if r.Some? {
      CloseIff(r.value, DbSubst(ToDb(body'), x, ToDb(u)), c);
    }
    BindDb(t, x, ToDb(u));
  }

  /** The new name is `x`, but the bound variable is not used. */
  lemma {:induction false} UnusedName(t: Type, x: string, u: Type, body': Type, r: Option<Type>)
    requires t.Bind? && IsRenamed(t, x, body') && !IsFree(t.v, t.body)
    requires r == Subst(body', x, u)
    ensures IsRight(body', x, u) <==> r.Some? && ToDb(Bind(t.binder, x, t.vkind, r.value)) == DbSubst(ToDb(t), x, ToDb(u))
  {
    RenamedCloses(t, x, body');
    var d, e := ToDb(t.body), ToDb(u);
    IsFreeIff(t.v, t.body);
    IsFreeIff(x, t.body);
    hide DbSubst, Close, IsFree, DbFree, Closed;
    SubstAbsent(d, t.v, Free(x));
    SubstAbsent(d, x, e);
    CloseAbsent(d, t.v, 0);
    CloseAbsent(d, x, 0);
    ToDbClosed(t.body);
    if r.Some? {
      CloseIff(r.value, d, x);
    }
    BindDb(t, x, e);
  }

  /** The new name is `x` and the bound variable is used: the argument replaces it. */
  lemma {:induction false} CapturedName(t: Type, x: string, u: Type, r: Type)
    requires t.Bind? && x != t.v && !IsFree(x, t) && IsFree(t.v, r)
    ensures ToDb(Bind(t.binder, x, t.vkind, r)) != DbSubst(ToDb(t), x, ToDb(u))
  {
    IsFreeIff(x, t);
    SubstAbsent(ToDb(t), x, ToDb(u));
    IsFreeIff(t.v, t);
    IsFreeIff(t.v, Bind(t.binder, x, t.vkind, r));
  }

  // ----- The main result -----

  /** Giving a bound variable its new name never goes wrong, if it ends. */
  lemma {:induction false} RenamingFits(t: Type, x: string, u: Type)
    requires u.Var? && |u.name| > |x| && Subst(t, x, u).Some?
    ensures NamesFit(t, x, u)
    decreases Size(t)
  {
    match t
    case Bind(binder, v, kind, body) =>
      if v != x {
        if Clashes(v, t, u) {
          var w := Var(Candidate(binder, v), kind);
          RenamingFits(body, v, w);
          RenamingFits(Subst(body, v, w).value, x, u);
        } else {
          RenamingFits(body, x, u);
        }
      }
    case Node(_, parts) => RenamingFitsParts(parts, x, u);
    case _ =>
  }

  lemma {:induction false} RenamingFitsParts(ps: Parts, x: string, u: Type)
    requires u.Var? && |u.name| > |x| && SubstParts(ps, x, u).Some?
    ensures PartNamesFit(ps, x, u)
    decreases PartsSize(ps)
  {
    if ps.Part? {
      RenamingFits(ps.head, x, u);
      RenamingFitsParts(ps.rest, x, u);
    }
  }

  /** The code is right exactly if the candidates fit. */
  lemma {:induction false} RightIff(t: Type, x: string, u: Type)
    ensures IsRight(t, x, u) <==> NamesFit(t, x, u)
    decreases Size(t), 2
  {
    match t
    case Bind(binder, v, kind, body) =>
      if v == x {
        Shadowed(t, x, u);
      } else if !Clashes(v, t, u) {
        KeptName(t, x, u);
        RightIff(body, x, u);
      } else {
        RightIffRenamed(t, x, u);
      }
    case Node(_, parts) => PartsRightIff(parts, x, u);
    case _ =>
  }

  lemma {:induction false} PartsRightIff(ps: Parts, x: string, u: Type)
    ensures ArePartsRight(ps, x, u) <==> PartNamesFit(ps, x, u)
    decreases PartsSize(ps), 2
  {
    if ps.Part? {
      RightIff(ps.head, x, u);
      PartsRightIff(ps.rest, x, u);
    }
  }

  /** The name a renamed binder gets, and its renamed body. */
  lemma {:induction false} RenamedBody(t: Type, u: Type) returns (c: string, r: Option<Type>)
    requires t.Bind? && Clashes(t.v, t, u) && !Clashes(Candidate(t.binder, t.v), t, u)
    ensures c == Candidate(t.binder, t.v) && r == Subst(t.body, t.v, Var(c, t.vkind))
    ensures r.Some? ==> NamesFit(t.body, t.v, Var(c, t.vkind)) && IsRenamed(t, c, r.value) && Size(r.value) < Size(t)
    ensures r.None? ==> !NamesFit(t.body, t.v, Var(c, t.vkind))
    decreases Size(t), 0
  {
    c := Candidate(t.binder, t.v);
    r := Subst(t.body, t.v, Var(c, t.vkind));
    RightIff(t.body, t.v, Var(c, t.vkind));
    if r.Some? {
      RenamingFits(t.body, t.v, Var(c, t.vkind));
    }
  }

  lemma {:induction false} RightIffRenamed(t: Type, x: string, u: Type)
    requires t.Bind? && t.v != x && Clashes(t.v, t, u)
    ensures IsRight(t, x, u) <==> NamesFit(t, x, u)
    decreases Size(t), 1
  {
    hide ToDb, DbSubst, Close, IsFree, DbFree, Closed, Clashes, IsRenamed, Candidate, Size;
    if !Clashes(Candidate(t.binder, t.v), t, u) {
      var c, body' := RenamedBody(t, u);
      if body'.Some? {
        var r := Subst(body'.value, x, u);
        RightIff(body'.value, x, u);
        NotFreeInBoth(c, t, u);
        if c != x {
          NewName(t, x, u, c, body'.value, r);
        } else if !IsFree(t.v, t.body) {
          UnusedName(t, x, u, body'.value, r);
        } else if r.Some? {
          FreeInRenamed(t, c, body'.value);
          BinderIsNotFree(t, u);
          ArgumentStaysFree(body'.value, x, u, t.v);
          CapturedName(t, x, u, r.value);
        }
      }
    }
  }

  lemma {:induction false} NotFreeInBoth(c: string, t: Type, u: Type)
    requires !Clashes(c, t, u)
    ensures !IsFree(c, t) && !IsFree(c, u)
  {
  }

  lemma {:induction false} BinderIsNotFree(t: Type, u: Type)
    requires t.Bind? && Clashes(t.v, t, u)
    ensures IsFree(t.v, u)
  {
  }

  lemma {:induction false} FreeInRenamed(t: Type, c: string, body': Type)
    requires t.Bind? && IsRenamed(t, c, body') && IsFree(t.v, t.body)
    ensures IsFree(c, body') && c != t.v
  {
    IsFreeIff(t.v, t.body);
    IsFreeIff(c, body');
    SubstFree(c, ToDb(t.body), t.v, Free(c));
  }

  lemma StillFree(y: string, t: Type, c: string, body': Type)
    requires t.Bind? && IsRenamed(t, c, body') && IsFree(y, t)
    ensures IsFree(y, body')
  {
    IsFreeIff(y, t.body);
    IsFreeIff(y, body');
    SubstFree(y, ToDb(t.body), t.v, Free(c));
  }

  /** A free variable of the argument is never captured by a binder the code leaves
      behind. */
  lemma {:induction false} ArgumentStaysFree(t: Type, x: string, u: Type, y: string)
    requires Subst(t, x, u).Some? && IsFree(x, t) && IsFree(y, u)
    ensures IsFree(y, Subst(t, x, u).value)
    decreases Size(t), 2
  {
    match t
    case Bind(binder, v, kind, body) =>
      if !Clashes(v, t, u) {
        ArgumentStaysFree(body, x, u, y);
      } else {
        var c, body' := RenamedBody(t, u);
        StillFree(x, t, c, body'.value);
        ArgumentStaysFree(body'.value, x, u, y);
      }
    case Node(_, parts) => ArgumentStaysFreeInParts(parts, x, u, y);
    case _ =>
  }

  lemma {:induction false} ArgumentStaysFreeInParts(ps: Parts, x: string, u: Type, y: string)
    requires SubstParts(ps, x, u).Some? && IsFreeInParts(x, ps) && IsFree(y, u)
    ensures IsFreeInParts(y, SubstParts(ps, x, u).value)
    decreases PartsSize(ps), 2
  {
    if ps.Part? {
      if IsFree(x, ps.head) {
        ArgumentStaysFree(ps.head, x, u, y);
      } else {
        ArgumentStaysFreeInParts(ps.rest, x, u, y);
      }
    }
  }

  // ----- What follows -----

  /** The free variables of the result: those of the type without `x`, and those of the
      argument if `x` occurred. */
  lemma {:induction false} FreeVariables(t: Type, x: string, u: Type, y: string)
    requires NamesFit(t, x, u)
    ensures Subst(t, x, u).Some?
    ensures IsFree(y, Subst(t, x, u).value) <==> (y != x && IsFree(y, t)) || (IsFree(x, t) && IsFree(y, u))
  {
    RightIff(t, x, u);
    IsFreeIff(y, Subst(t, x, u).value);
    IsFreeIff(y, t);
    IsFreeIff(x, t);
    IsFreeIff(y, u);
    SubstFree(y, ToDb(t), x, ToDb(u));
  }

  /** Types that differ only in bound names give results that differ only in bound
      names. */
  lemma {:induction false} BoundNamesDoNotMatter(t1: Type, u1: Type, t2: Type, u2: Type, x: string)
    requires ToDb(t1) == ToDb(t2) && ToDb(u1) == ToDb(u2)
    requires NamesFit(t1, x, u1) && NamesFit(t2, x, u2)
    ensures Subst(t1, x, u1).Some? && Subst(t2, x, u2).Some?
    ensures ToDb(Subst(t1, x, u1).value) == ToDb(Subst(t2, x, u2).value)
  {
    RightIff(t1, x, u1);
    RightIff(t2, x, u2);
  }

  /** A substitution that the code gets right. */
  ghost predicate Yields(t: Type, x: string, u: Type, r: Type) {
    NamesFit(t, x, u) && Subst(t, x, u) == Some(r)
  }

  /** Substituting `u` and then `w`, or `w` in both and then the result, gives the same
      type but for bound names. */
  lemma {:induction false} SubstTwice(t: Type, x: string, u: Type, y: string, w: Type, r1: Type, r2: Type, tw: Type, uw: Type, r3: Type)
    requires x != y && !IsFree(x, w)
    requires Yields(t, x, u, r1) && Yields(r1, y, w, r2)
    requires Yields(t, y, w, tw) && Yields(u, y, w, uw) && Yields(tw, x, uw, r3)
    ensures ToDb(r2) == ToDb(r3)
  {
    RightIff(t, x, u);
    RightIff(r1, y, w);
    RightIff(t, y, w);
    RightIff(u, y, w);
    RightIff(tw, x, uw);
    IsFreeIff(x, w);
    hide ToDb, DbSubst, DbFree, IsFree, Subst, NamesFit;
    DbSubstTwice(ToDb(t), x, ToDb(u), y, ToDb(w));
  }

  /** Applying a type function puts the argument in place of what the function binds,
      exactly if the candidates fit. */
  lemma {:induction false} ApplyIsBeta(fun: Type, arg: Type)
    requires fun.Bind? && fun.binder == Lambda
    ensures NamesFit(fun.body, fun.v, arg) <==>
            var r := Apply(fun, arg, true); r.Done? && ToDb(r.res) == Open(ToDb(fun).body, 0, ToDb(arg))
  {
    RightIff(fun.body, fun.v, arg);
    ToDbClosed(fun.body);
    OpenClose(ToDb(fun.body), fun.v, 0, ToDb(arg));
  }

  /** The same for instantiating a polymorphic type. */
  lemma {:induction false} InstantiateIsBeta(fun: Type, arg: Type)
    requires fun.Bind? && fun.binder == Forall
    ensures NamesFit(fun.body, fun.v, arg) <==>
            var r := Instantiate(fun, arg, true); r.Done? && ToDb(r.res) == Open(ToDb(fun).body, 0, ToDb(arg))
  {
    RightIff(fun.body, fun.v, arg);
    ToDbClosed(fun.body);
    OpenClose(ToDb(fun.body), fun.v, 0, ToDb(arg));
  }

  /** No binder of `t` is named like a free variable of `u`. */
  predicate Apart(t: Type, u: Type) {
    match t
    case Leaf(_) => true
    case Var(_, _) => true
    case Bind(_, v, _, body) => !IsFree(v, u) && Apart(body, u)
    case Node(_, parts) => PartsApart(parts, u)
  }

  predicate PartsApart(ps: Parts, u: Type) {
    match ps
    case NoParts => true
    case Part(_, head, rest) => Apart(head, u) && PartsApart(rest, u)
  }

  /** Then nothing is renamed and the code is right. */
  lemma {:induction false} ApartFits(t: Type, x: string, u: Type)
    requires Apart(t, u)
    ensures NamesFit(t, x, u)
    decreases t
  {
    match t
    case Bind(_, _, _, body) => ApartFits(body, x, u);
    case Node(_, parts) => ApartPartsFit(parts, x, u);
    case _ =>
  }

  lemma {:induction false} ApartPartsFit(ps: Parts, x: string, u: Type)
    requires PartsApart(ps, u)
    ensures PartNamesFit(ps, x, u)
    decreases ps
  {
    if ps.Part? {
      ApartFits(ps.head, x, u);
      ApartPartsFit(ps.rest, x, u);
    }
  }

  /** A type that is applied to some arguments. */
  function Applications(fun: Type, args: seq<Type>): Type {
    if args == [] then fun
    else Node(AppForm, Part("", Applications(fun, args[..|args| - 1]), Part("", args[|args| - 1], NoParts)))
  }

  /** Applying what is no function adds the argument after those there are. */
  lemma ApplyAddsArgument(fun: Type, args: seq<Type>, arg: Type, kindFits: bool)
    requires fun.Leaf?
    ensures Apply(Applications(fun, args), arg, kindFits) == Done(Applications(fun, args + [arg]))
  {
    assert (args + [arg])[..|args|] == args;
  }

  /** A variable, and anything else that is no function and no application, cannot be
      applied; nor can a function whose argument is of another kind. */
  lemma ApplyFailsIff(fun: Type, arg: Type, kindFits: bool)
    ensures Apply(fun, arg, kindFits) == Fatal <==>
            || fun.Var? || (fun.Node? && fun.form != AppForm)
            || (fun.Bind? && (fun.binder != Lambda || !kindFits))
    ensures Instantiate(fun, arg, kindFits) == Fatal <==> !fun.Bind? || fun.binder != Forall || !kindFits
  {
  }

  // ----- Where the code fails -----

  /** The one candidate is taken: the renaming loop never ends. */
  lemma LoopsForever()
    ensures Subst(Bind(Lambda, "a", Star, Var("a:0", Star)), "x", Var("a", Star)) == None
    ensures Subst(Bind(Forall, "a", Star, Var("a0", Star)), "x", Var("a", Star)) == None
  {
    assert Candidate(Lambda, "a") == "a:0" && Candidate(Forall, "a") == "a0";
  }

  /** The candidate is the variable that is replaced: the bound variable is replaced by
      the argument, although the variable does not occur. */
  lemma ReplacesABoundVariable()
    ensures var t, u := Bind(Lambda, "a", Star, Var("a", Star)), Var("a", Star);
            && !IsFree("a:0", t)
            && Subst(t, "a:0", u) == Some(Bind(Lambda, "a:0", Star, Var("a", Star)))
            && ToDb(t) == DbBind(Lambda, Star, Bound(0))
            && ToDb(Subst(t, "a:0", u).value) == DbBind(Lambda, Star, Free("a"))
  {
    assert Candidate(Lambda, "a") == "a:0";
    assert "a:0" != "a";
  }
}
