/** Types with de Bruijn indices for bound variables, the reference for substitution by
    name: what it means to bind a variable, to replace what is bound, and to substitute
    where no capture is possible. */
module DeBruijn {

  datatype Kind = Star | Unboxed | UnknownKind | Exponential(base: Kind, arg: Kind)

  datatype Binder = Lambda | Forall | Exists

  datatype Form = LiftForm | AppForm | FunForm | SumForm | UbsumForm | ProductForm | UbproductForm

  datatype Prim = Abstract(name: string) | KnPrim(primset: string, name: string) | UnPrim(primset: string, name: string)

  /** Bound variables are indices: the number of binders between use and binder. */
  datatype Db =
    | DbLeaf(prim: Prim)
    | Free(name: string)
    | Bound(index: nat)
    | DbBind(binder: Binder, kind: Kind, body: Db)
    | DbNode(form: Form, parts: DbParts)

  datatype DbParts = NoDbParts | DbPart(key: string, head: Db, rest: DbParts)

  /** Binds a free variable at depth `k`. */
  function Close(d: Db, v: string, k: nat): Db {
    match d
    case DbLeaf(_) => d
    case Free(name) => if name == v then Bound(k) else d
    case Bound(_) => d
    case DbBind(b, kind, body) => DbBind(b, kind, Close(body, v, k + 1))
    case DbNode(form, parts) => DbNode(form, CloseParts(parts, v, k))
  }

  function CloseParts(ps: DbParts, v: string, k: nat): DbParts {
    match ps
    case NoDbParts => ps
    case DbPart(key, head, rest) => DbPart(key, Close(head, v, k), CloseParts(rest, v, k))
  }

  /** Replaces what is bound at depth `k`. */
  function Open(d: Db, k: nat, e: Db): Db {
    match d
    case DbLeaf(_) => d
    case Free(_) => d
    case Bound(i) => if i == k then e else d
    case DbBind(b, kind, body) => DbBind(b, kind, Open(body, k + 1, e))
    case DbNode(form, parts) => DbNode(form, OpenParts(parts, k, e))
  }

  function OpenParts(ps: DbParts, k: nat, e: Db): DbParts {
    match ps
    case NoDbParts => ps
    case DbPart(key, head, rest) => DbPart(key, Open(head, k, e), OpenParts(rest, k, e))
  }

  /** Substitution where no capture is possible. */
  function DbSubst(d: Db, x: string, e: Db): Db {
    match d
    case DbLeaf(_) => d
    case Free(name) => if name == x then e else d
    case Bound(_) => d
    case DbBind(b, kind, body) => DbBind(b, kind, DbSubst(body, x, e))
    case DbNode(form, parts) => DbNode(form, DbSubstParts(parts, x, e))
  }

  function DbSubstParts(ps: DbParts, x: string, e: Db): DbParts {
    match ps
    case NoDbParts => ps
    case DbPart(key, head, rest) => DbPart(key, DbSubst(head, x, e), DbSubstParts(rest, x, e))
  }

  predicate DbFree(y: string, d: Db) {
    match d
    case DbLeaf(_) => false
    case Free(name) => name == y
    case Bound(_) => false
    case DbBind(_, _, body) => DbFree(y, body)
    case DbNode(_, parts) => DbFreeInParts(y, parts)
  }

  predicate DbFreeInParts(y: string, ps: DbParts) {
    match ps
    case NoDbParts => false
    case DbPart(_, head, rest) => DbFree(y, head) || DbFreeInParts(y, rest)
  }

  /** Every index is bound within the term, or is below `k`. */
  predicate Closed(d: Db, k: nat) {
    match d
    case DbLeaf(_) => true
    case Free(_) => true
    case Bound(i) => i < k
    case DbBind(_, _, body) => Closed(body, k + 1)
    case DbNode(_, parts) => ClosedParts(parts, k)
  }

  predicate ClosedParts(ps: DbParts, k: nat) {
    match ps
    case NoDbParts => true
    case DbPart(_, head, rest) => Closed(head, k) && ClosedParts(rest, k)
  }

  lemma {:induction false} CloseFree(y: string, d: Db, v: string, k: nat)
    ensures DbFree(y, Close(d, v, k)) <==> y != v && DbFree(y, d)
    decreases d
  {
    match d
    case DbBind(_, _, body) => CloseFree(y, body, v, k + 1);
    case DbNode(_, parts) => CloseFreeParts(y, parts, v, k);
    case _ =>
  }

  lemma {:induction false} CloseFreeParts(y: string, ps: DbParts, v: string, k: nat)
    ensures DbFreeInParts(y, CloseParts(ps, v, k)) <==> y != v && DbFreeInParts(y, ps)
    decreases ps
  {
    if ps.DbPart? {
      CloseFree(y, ps.head, v, k);
      CloseFreeParts(y, ps.rest, v, k);
    }
  }

  lemma {:induction false} CloseClosed(d: Db, v: string, k: nat)
    requires Closed(d, k)
    ensures Closed(Close(d, v, k), k + 1)
    decreases d
  {
    match d
    case DbBind(_, _, body) => CloseClosed(body, v, k + 1);
    case DbNode(_, parts) => CloseClosedParts(parts, v, k);
    case _ =>
  }

  lemma {:induction false} CloseClosedParts(ps: DbParts, v: string, k: nat)
    requires ClosedParts(ps, k)
    ensures ClosedParts(CloseParts(ps, v, k), k + 1)
    decreases ps
  {
    if ps.DbPart? {
      CloseClosed(ps.head, v, k);
      CloseClosedParts(ps.rest, v, k);
    }
  }

  lemma {:induction false} CloseAbsent(d: Db, v: string, k: nat)
    requires !DbFree(v, d)
    ensures Close(d, v, k) == d
    decreases d
  {
    match d
    case DbBind(_, _, body) => CloseAbsent(body, v, k + 1);
    case DbNode(_, parts) => CloseAbsentParts(parts, v, k);
    case _ =>
  }

  lemma {:induction false} CloseAbsentParts(ps: DbParts, v: string, k: nat)
    requires !DbFreeInParts(v, ps)
    ensures CloseParts(ps, v, k) == ps
    decreases ps
  {
    if ps.DbPart? {
      CloseAbsent(ps.head, v, k);
      CloseAbsentParts(ps.rest, v, k);
    }
  }

  lemma {:induction false} SubstAbsent(d: Db, x: string, e: Db)
    requires !DbFree(x, d)
    ensures DbSubst(d, x, e) == d
    decreases d
  {
    match d
    case DbBind(_, _, body) => SubstAbsent(body, x, e);
    case DbNode(_, parts) => SubstAbsentParts(parts, x, e);
    case _ =>
  }

  lemma {:induction false} SubstAbsentParts(ps: DbParts, x: string, e: Db)
    requires !DbFreeInParts(x, ps)
    ensures DbSubstParts(ps, x, e) == ps
    decreases ps
  {
    if ps.DbPart? {
      SubstAbsent(ps.head, x, e);
      SubstAbsentParts(ps.rest, x, e);
    }
  }

  /** The free variables after a substitution. */
  lemma {:induction false} SubstFree(y: string, d: Db, x: string, e: Db)
    ensures DbFree(y, DbSubst(d, x, e)) <==> (y != x && DbFree(y, d)) || (DbFree(x, d) && DbFree(y, e))
    decreases d
  {
    match d
    case DbBind(_, _, body) => SubstFree(y, body, x, e);
    case DbNode(_, parts) => SubstFreeParts(y, parts, x, e);
    case _ =>
  }

  lemma {:induction false} SubstFreeParts(y: string, ps: DbParts, x: string, e: Db)
    ensures DbFreeInParts(y, DbSubstParts(ps, x, e)) <==> (y != x && DbFreeInParts(y, ps)) || (DbFreeInParts(x, ps) && DbFree(y, e))
    decreases ps
  {
    if ps.DbPart? {
      SubstFree(y, ps.head, x, e);
      SubstFreeParts(y, ps.rest, x, e);
    }
  }

  /** Binding a variable commutes with a substitution that does not mention it. */
  lemma {:induction false} CloseSubst(d: Db, v: string, k: nat, x: string, e: Db)
    requires v != x && !DbFree(v, e)
    ensures Close(DbSubst(d, x, e), v, k) == DbSubst(Close(d, v, k), x, e)
    decreases d
  {
    match d
    case Free(name) => if name == x { CloseAbsent(e, v, k); }
    case DbBind(_, _, body) => CloseSubst(body, v, k + 1, x, e);
    case DbNode(_, parts) => CloseSubstParts(parts, v, k, x, e);
    case _ =>
  }

  lemma {:induction false} CloseSubstParts(ps: DbParts, v: string, k: nat, x: string, e: Db)
    requires v != x && !DbFree(v, e)
    ensures CloseParts(DbSubstParts(ps, x, e), v, k) == DbSubstParts(CloseParts(ps, v, k), x, e)
    decreases ps
  {
    if ps.DbPart? {
      CloseSubst(ps.head, v, k, x, e);
      CloseSubstParts(ps.rest, v, k, x, e);
    }
  }

  /** A bound variable may be renamed to one that is not free. */
  lemma {:induction false} CloseRenamed(d: Db, v: string, c: string, k: nat)
    requires !DbFree(c, d)
    ensures Close(DbSubst(d, v, Free(c)), c, k) == Close(d, v, k)
    decreases d
  {
    match d
    case DbBind(_, _, body) => CloseRenamed(body, v, c, k + 1);
    case DbNode(_, parts) => CloseRenamedParts(parts, v, c, k);
    case _ =>
  }

  lemma {:induction false} CloseRenamedParts(ps: DbParts, v: string, c: string, k: nat)
    requires !DbFreeInParts(c, ps)
    ensures CloseParts(DbSubstParts(ps, v, Free(c)), c, k) == CloseParts(ps, v, k)
    decreases ps
  {
    if ps.DbPart? {
      CloseRenamed(ps.head, v, c, k);
      CloseRenamedParts(ps.rest, v, c, k);
    }
  }

  /** Binding a variable and replacing it is substituting for it. */
  lemma {:induction false} OpenClose(d: Db, v: string, k: nat, e: Db)
    requires Closed(d, k)
    ensures Open(Close(d, v, k), k, e) == DbSubst(d, v, e)
    decreases d
  {
    match d
    case DbBind(_, _, body) => OpenClose(body, v, k + 1, e);
    case DbNode(_, parts) => OpenCloseParts(parts, v, k, e);
    case _ =>
  }

  lemma {:induction false} OpenCloseParts(ps: DbParts, v: string, k: nat, e: Db)
    requires ClosedParts(ps, k)
    ensures OpenParts(CloseParts(ps, v, k), k, e) == DbSubstParts(ps, v, e)
    decreases ps
  {
    if ps.DbPart? {
      OpenClose(ps.head, v, k, e);
      OpenCloseParts(ps.rest, v, k, e);
    }
  }

  lemma {:induction false} SubstSelf(d: Db, v: string)
    ensures DbSubst(d, v, Free(v)) == d
    decreases d
  {
    match d
    case DbBind(_, _, body) => SubstSelf(body, v);
    case DbNode(_, parts) => SubstSelfParts(parts, v);
    case _ =>
  }

  lemma {:induction false} SubstSelfParts(ps: DbParts, v: string)
    ensures DbSubstParts(ps, v, Free(v)) == ps
    decreases ps
  {
    if ps.DbPart? {
      SubstSelf(ps.head, v);
      SubstSelfParts(ps.rest, v);
    }
  }

  lemma CloseInjective(a: Db, b: Db, v: string)
    requires Closed(a, 0) && Closed(b, 0) && Close(a, v, 0) == Close(b, v, 0)
    ensures a == b
  {
    OpenClose(a, v, 0, Free(v));
    OpenClose(b, v, 0, Free(v));
    SubstSelf(a, v);
    SubstSelf(b, v);
  }

  lemma {:induction false} ClosedMore(d: Db, k: nat, k': nat)
    requires Closed(d, k) && k <= k'
    ensures Closed(d, k')
    decreases d
  {
    match d
    case DbBind(_, _, body) => ClosedMore(body, k + 1, k' + 1);
    case DbNode(_, parts) => ClosedMoreParts(parts, k, k');
    case _ =>
  }

  lemma {:induction false} ClosedMoreParts(ps: DbParts, k: nat, k': nat)
    requires ClosedParts(ps, k) && k <= k'
    ensures ClosedParts(ps, k')
    decreases ps
  {
    if ps.DbPart? {
      ClosedMore(ps.head, k, k');
      ClosedMoreParts(ps.rest, k, k');
    }
  }

  lemma {:induction false} SubstClosed(d: Db, x: string, e: Db, k: nat)
    requires Closed(d, k) && Closed(e, 0)
    ensures Closed(DbSubst(d, x, e), k)
    decreases d
  {
    match d
    case Free(_) => ClosedMore(e, 0, k);
    case DbBind(_, _, body) => SubstClosed(body, x, e, k + 1);
    case DbNode(_, parts) => SubstClosedParts(parts, x, e, k);
    case _ =>
  }

  lemma {:induction false} SubstClosedParts(ps: DbParts, x: string, e: Db, k: nat)
    requires ClosedParts(ps, k) && Closed(e, 0)
    ensures ClosedParts(DbSubstParts(ps, x, e), k)
    decreases ps
  {
    if ps.DbPart? {
      SubstClosed(ps.head, x, e, k);
      SubstClosedParts(ps.rest, x, e, k);
    }
  }

  /** Substituting twice, in either order. */
  lemma {:induction false} DbSubstTwice(d: Db, x: string, e: Db, y: string, f: Db)
    requires x != y && !DbFree(x, f)
    ensures DbSubst(DbSubst(d, x, e), y, f) == DbSubst(DbSubst(d, y, f), x, DbSubst(e, y, f))
    decreases d
  {
    match d
    case Free(name) => if name == y { SubstAbsent(f, x, DbSubst(e, y, f)); }
    case DbBind(_, _, body) => DbSubstTwice(body, x, e, y, f);
    case DbNode(_, parts) => DbSubstPartsTwice(parts, x, e, y, f);
    case _ =>
  }

  lemma {:induction false} DbSubstPartsTwice(ps: DbParts, x: string, e: Db, y: string, f: Db)
    requires x != y && !DbFree(x, f)
    ensures DbSubstParts(DbSubstParts(ps, x, e), y, f) == DbSubstParts(DbSubstParts(ps, y, f), x, DbSubst(e, y, f))
    decreases ps
  {
    if ps.DbPart? {
      DbSubstTwice(ps.head, x, e, y, f);
      DbSubstPartsTwice(ps.rest, x, e, y, f);
    }
  }
}
