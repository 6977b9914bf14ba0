/** Substitution as `typealloc.c` means it: the counter printed into the new name of a
    binder advances until the name is taken by nothing, the replaced variable included.
    It ends on all types, and is right on all of them. */
module TypeRename {
  import opened DeBruijn
  import opened TypeSubst

  // ----- Numbered names -----

  function Digit(d: nat): char
    requires d < 10
  {
    "0123456789"[d]
  }

  /** A number in decimal digits. */
  function Decimal(n: nat): (s: string)
    ensures s != []
  {
    if n < 10 then [Digit(n)] else Decimal(n / 10) + [Digit(n % 10)]
  }

  lemma DigitInjective(d: nat, d': nat)
    requires d < 10 && d' < 10 && Digit(d) == Digit(d')
    ensures d == d'
  {
  }

  lemma {:induction false} DecimalInjective(m: nat, n: nat)
    requires Decimal(m) == Decimal(n)
    ensures m == n
  {
    hide Digit;
    var s := Decimal(m);
    assert s[|s| - 1] == Digit(m % 10) && s[|s| - 1] == Digit(n % 10);
    DigitInjective(m % 10, n % 10);
    if m >= 10 && n >= 10 {
      assert Decimal(m / 10) == s[..|s| - 1] && Decimal(n / 10) == s[..|s| - 1];
      DecimalInjective(m / 10, n / 10);
    }
  }

  /** The `n`th name offered to a binder. */
  function Numbered(binder: Binder, v: string, n: nat): string {
    (if binder == Lambda then v + ":" else v) + Decimal(n)
  }

  lemma NumberedInjective(binder: Binder, v: string, m: nat, n: nat)
    requires Numbered(binder, v, m) == Numbered(binder, v, n)
    ensures m == n
  {
    hide Decimal;
    var stem := if binder == Lambda then v + ":" else v;
    assert Numbered(binder, v, m)[|stem|..] == Decimal(m) && Numbered(binder, v, n)[|stem|..] == Decimal(n);
    DecimalInjective(m, n);
  }

  // ----- The renaming loop -----

  function FreeNames(t: Type): (r: set<string>)
    ensures forall y :: IsFree(y, t) ==> y in r
  {
    match t
    case Leaf(_) => {}
    case Var(name, _) => {name}
    case Bind(_, _, _, body) => FreeNames(body)
    case Node(_, parts) => FreeNamesInParts(parts)
  }

  function FreeNamesInParts(ps: Parts): (r: set<string>)
    ensures forall y :: IsFreeInParts(y, ps) ==> y in r
  {
    match ps
    case NoParts => {}
    case Part(_, head, rest) => FreeNames(head) + FreeNamesInParts(rest)
  }

  predicate Taken(name: string, t: Type, x: string, u: Type) {
    Clashes(name, t, u) || name == x
  }

  /** `names` holds every name from the `n`th on that is taken. */
  ghost predicate HoldsTaken(names: set<string>, binder: Binder, v: string, n: nat, t: Type, x: string, u: Type) {
    forall k :: k >= n && Taken(Numbered(binder, v, k), t, x, u) ==> Numbered(binder, v, k) in names
  }

  lemma AllTakenHeld(binder: Binder, v: string, t: Type, x: string, u: Type)
    ensures HoldsTaken(FreeNames(t) + FreeNames(u) + {x}, binder, v, 0, t, x, u)
  {
    hide Numbered, IsFree;
  }

  lemma FewerTaken(names: set<string>, binder: Binder, v: string, n: nat, t: Type, x: string, u: Type)
    requires HoldsTaken(names, binder, v, n, t, x, u)
    ensures HoldsTaken(names - {Numbered(binder, v, n)}, binder, v, n + 1, t, x, u)
  {
    hide Numbered, Taken;
    forall k | k >= n + 1 && Taken(Numbered(binder, v, k), t, x, u)
      ensures Numbered(binder, v, k) in names - {Numbered(binder, v, n)}
    {
      if Numbered(binder, v, k) == Numbered(binder, v, n) {
        NumberedInjective(binder, v, k, n);
      }
    }
  }

  /** The loop: it ends, as only finitely many names are taken, with the first that is
      not. */
  function NewNumber(names: set<string>, binder: Binder, v: string, n: nat, t: Type, x: string, u: Type): (r: nat)
    requires HoldsTaken(names, binder, v, n, t, x, u)
    ensures r >= n && !Taken(Numbered(binder, v, r), t, x, u)
    ensures forall k :: n <= k < r ==> Taken(Numbered(binder, v, k), t, x, u)
    decreases names
  {
    hide Numbered, Taken, HoldsTaken;
    if !Taken(Numbered(binder, v, n), t, x, u) then n
    else
      TakenIsHeld(names, binder, v, n, t, x, u);
      FewerTaken(names, binder, v, n, t, x, u);
      NewNumber(names - {Numbered(binder, v, n)}, binder, v, n + 1, t, x, u)
  }

  lemma TakenIsHeld(names: set<string>, binder: Binder, v: string, n: nat, t: Type, x: string, u: Type)
    requires HoldsTaken(names, binder, v, n, t, x, u) && Taken(Numbered(binder, v, n), t, x, u)
    ensures Numbered(binder, v, n) in names
  {
  }

  /** The new name of a binder. */
  function NewNameOf(binder: Binder, v: string, t: Type, x: string, u: Type): (r: string)
    ensures !Taken(r, t, x, u)
  {
    AllTakenHeld(binder, v, t, x, u);
    Numbered(binder, v, NewNumber(FreeNames(t) + FreeNames(u) + {x}, binder, v, 0, t, x, u))
  }

  /** The code offers the first name and no other; where that name is not taken, it is the
      new name. */
  lemma FirstIsCandidate(binder: Binder, v: string, t: Type, x: string, u: Type)
    ensures Numbered(binder, v, 0) == Candidate(binder, v)
    ensures NewNameOf(binder, v, t, x, u) == Candidate(binder, v) <==> !Taken(Candidate(binder, v), t, x, u)
  {
    assert v + ":" + "0" == v + ":0";
    hide Taken;
  }

  // ----- Substitution with that loop -----

  function Intended(t: Type, x: string, u: Type): (r: Type)
    ensures u.Var? ==> Size(r) == Size(t)
    decreases Size(t)
  {
    match t
    case Leaf(_) => t
    case Var(name, _) => if name == x then u else t
    case Bind(binder, v, kind, body) =>
      if v == x then t
      else if !Clashes(v, t, u) then Bind(binder, v, kind, Intended(body, x, u))
      else
        var c := NewNameOf(binder, v, t, x, u);
        Bind(binder, c, kind, Intended(Intended(body, v, Var(c, kind)), x, u))
    case Node(form, parts) => Node(form, IntendedParts(parts, x, u))
  }

  function IntendedParts(ps: Parts, x: string, u: Type): (r: Parts)
    ensures u.Var? ==> PartsSize(r) == PartsSize(ps)
    decreases PartsSize(ps)
  {
    match ps
    case NoParts => NoParts
    case Part(key, head, rest) => Part(key, Intended(head, x, u), IntendedParts(rest, x, u))
  }

  ghost predicate Means(t: Type, x: string, u: Type, r: Type) {
    ToDb(r) == DbSubst(ToDb(t), x, ToDb(u))
  }

  lemma {:induction false} KeptBinder(t: Type, x: string, u: Type, r: Type)
    requires t.Bind? && t.v != x && !IsFree(t.v, u) && Means(t.body, x, u, r)
    ensures Means(t, x, u, Bind(t.binder, t.v, t.vkind, r))
  {
    hide DbSubst, Close, IsFree, DbFree, Closed;
    IsFreeIff(t.v, u);
    CloseSubst(ToDb(t.body), t.v, 0, x, ToDb(u));
    BindDb(t, x, ToDb(u));
  }

  /** A binder with a new name. */
  lemma {:induction false} RenamedBinder(t: Type, x: string, u: Type, c: string, body': Type, r: Type)
    requires t.Bind? && IsRenamed(t, c, body') && !IsFree(c, u) && c != x && Means(body', x, u, r)
    ensures Means(t, x, u, Bind(t.binder, c, t.vkind, r))
  {
    RenamedCloses(t, c, body');
    hide DbSubst, Close, IsFree, DbFree, Closed, IsRenamed;
    IsFreeIff(c, u);
    CloseSubst(ToDb(body'), c, 0, x, ToDb(u));
    BindDb(t, x, ToDb(u));
  }

  lemma {:induction false} ShadowedMeans(t: Type, x: string, u: Type)
    requires t.Bind? && t.v == x
    ensures Means(t, x, u, t)
  {
    IsFreeIff(x, t);
    SubstAbsent(ToDb(t), x, ToDb(u));
  }

  /** On every type the result is the one that capture-free substitution gives. */
  lemma {:induction false} IntendedIsRight(t: Type, x: string, u: Type)
    ensures ToDb(Intended(t, x, u)) == DbSubst(ToDb(t), x, ToDb(u))
    decreases Size(t), 1
  {
    match t
    case Bind(binder, v, kind, body) =>
      if v == x {
        ShadowedMeans(t, x, u);
      } else if !Clashes(v, t, u) {
        IntendedIsRight(body, x, u);
        KeptBinder(t, x, u, Intended(body, x, u));
      } else {
        IntendedIsRightRenamed(t, x, u);
      }
    case Node(_, parts) => IntendedPartsAreRight(parts, x, u);
    case _ =>
  }

  lemma {:induction false} IntendedIsRightRenamed(t: Type, x: string, u: Type)
    requires t.Bind? && t.v != x && Clashes(t.v, t, u)
    ensures ToDb(Intended(t, x, u)) == DbSubst(ToDb(t), x, ToDb(u))
    decreases Size(t), 0
  {
    hide ToDb, DbSubst, IsRenamed, NewNameOf;
    var c := NewNameOf(t.binder, t.v, t, x, u);
    var body' := Intended(t.body, t.v, Var(c, t.vkind));
    IntendedIsRight(t.body, t.v, Var(c, t.vkind));
    NewIsApart(t, x, u, c, body');
    IntendedIsRight(body', x, u);
    RenamedBinder(t, x, u, c, body', Intended(body', x, u));
  }

  lemma NewIsApart(t: Type, x: string, u: Type, c: string, body': Type)
    requires t.Bind? && Clashes(t.v, t, u) && !Taken(c, t, x, u)
    requires ToDb(body') == DbSubst(ToDb(t.body), t.v, ToDb(Var(c, t.vkind)))
    ensures IsRenamed(t, c, body') && !IsFree(c, u) && c != x
  {
  }

  lemma {:induction false} IntendedPartsAreRight(ps: Parts, x: string, u: Type)
    ensures PartsToDb(IntendedParts(ps, x, u)) == DbSubstParts(PartsToDb(ps), x, ToDb(u))
    decreases PartsSize(ps), 1
  {
    if ps.Part? {
      IntendedIsRight(ps.head, x, u);
      IntendedPartsAreRight(ps.rest, x, u);
    }
  }

  /** The code gives what it means to, but for bound names, exactly where its candidates
      fit. */
  lemma {:induction false} MeetsIntention(t: Type, x: string, u: Type)
    ensures NamesFit(t, x, u) <==> Subst(t, x, u).Some? && ToDb(Subst(t, x, u).value) == ToDb(Intended(t, x, u))
  {
    hide NamesFit, ToDb, DbSubst;
    RightIff(t, x, u);
    IntendedIsRight(t, x, u);
  }

  /** Applying a type function, or instantiating a polymorphic type, by this substitution
      always puts the argument in place of what is bound. */
  lemma {:induction false} IntendedIsBeta(fun: Type, arg: Type)
    requires fun.Bind?
    ensures ToDb(Intended(fun.body, fun.v, arg)) == Open(ToDb(fun).body, 0, ToDb(arg))
  {
    IntendedIsRight(fun.body, fun.v, arg);
    ToDbClosed(fun.body);
    OpenClose(ToDb(fun.body), fun.v, 0, ToDb(arg));
  }
}
