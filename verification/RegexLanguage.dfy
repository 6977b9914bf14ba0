/** What a regex literal means, told from its syntax: the runes it is written with, and the
    words it matches. The literals the byte compiler accepts are those that can be written
    so, and the constructors it builds for one match just these words. */
module RegexLanguage {
  import opened Regex

  // ----- Syntax -----

  datatype Item = Single(t: Token) | Range(first: Token, last: Token)

  datatype Atom = Plain(t: Token) | Class(negated: bool, items: seq<Item>) | Interpolated

  datatype Factor = Factor(atom: Atom, starred: bool)

  /** The alternatives, each a list of factors. */
  type Literal = seq<seq<Factor>>

  // ----- How it is written -----

  function ItemTokens(item: Item): (r: seq<Token>)
    ensures r != []
  {
    match item
    case Single(t) => [t]
    case Range(first, last) => [first, Dash, last]
  }

  function ItemsTokens(items: seq<Item>): seq<Token> {
    if items == [] then [] else ItemTokens(items[0]) + ItemsTokens(items[1..])
  }

  function AtomTokens(atom: Atom): (r: seq<Token>)
    ensures r != []
  {
    match atom
    case Plain(t) => [t]
    case Class(negated, items) => [LBrack] + (if negated then [Caret] else []) + ItemsTokens(items) + [RBrack]
    case Interpolated => [Interp]
  }

  function FactorTokens(f: Factor): (r: seq<Token>)
    ensures r != []
  {
    AtomTokens(f.atom) + if f.starred then [Asterisk] else []
  }

  function FactorsTokens(fs: seq<Factor>): seq<Token> {
    if fs == [] then [] else FactorTokens(fs[0]) + FactorsTokens(fs[1..])
  }

  /** The alternatives with bars between them. */
  function LiteralTokens(lit: Literal): seq<Token>
    requires lit != []
  {
    if |lit| == 1 then FactorsTokens(lit[0]) else FactorsTokens(lit[0]) + [Bar] + LiteralTokens(lit[1..])
  }

  /** A single rune is not followed by a dash, and no item starts or ends with a bracket
      that would end the class. */
  predicate ItemsOk(items: seq<Item>) {
    items != [] ==>
      && ItemTokens(items[0])[0] != RBrack
      && (items[0].Range? ==> items[0].last != RBrack)
      && (items[0].Single? && |items| > 1 ==> ItemTokens(items[1])[0] != Dash)
      && ItemsOk(items[1..])
  }

  predicate AtomOk(atom: Atom) {
    match atom
    case Plain(t) => t != Bar && t != LBrack && t != Interp
    case Class(negated, items) => ItemsOk(items) && (!negated && items != [] ==> ItemTokens(items[0])[0] != Caret)
    case Interpolated => true
  }

  /** An asterisk after a factor without a star would be its star. */
  predicate FactorsOk(fs: seq<Factor>) {
    fs != [] ==>
      && AtomOk(fs[0].atom) && FactorsOk(fs[1..])
      && (!fs[0].starred && |fs| > 1 ==> fs[1].atom != Plain(Asterisk))
  }

  predicate LiteralOk(lit: Literal) {
    lit != [] && forall k :: 0 <= k < |lit| ==> FactorsOk(lit[k])
  }

  // ----- What it matches -----

  predicate InItem(item: Item, c: nat) {
    match item
    case Single(t) => c == RuneOf(t)
    case Range(first, last) => RuneOf(first) <= c <= RuneOf(last)
  }

  predicate InItems(items: seq<Item>, c: nat) {
    exists k :: 0 <= k < |items| && InItem(items[k], c)
  }

  function Interps(fs: seq<Factor>): nat {
    if fs == [] then 0 else Interps(fs[1..]) + if fs[0].atom.Interpolated? then 1 else 0
  }

  type Ext = (nat, seq<nat>) -> bool

  /** A rune matches itself, a class one rune that is in it, or, negated, one that is not,
      and an interpolation what its value matches. Values are numbered from `q`. */
  ghost predicate InAtom(ext: Ext, atom: Atom, q: nat, w: seq<nat>) {
    match atom
    case Plain(t) => w == [RuneOf(t)]
    case Class(negated, items) => |w| == 1 && (InItems(items, w[0]) <==> !negated)
    case Interpolated => ext(q, w)
  }

  function Joined(ws: seq<seq<nat>>): seq<nat> {
    if ws == [] then [] else ws[0] + Joined(ws[1..])
  }

  ghost predicate AllInAtom(ext: Ext, atom: Atom, q: nat, ws: seq<seq<nat>>) {
    forall k :: 0 <= k < |ws| ==> InAtom(ext, atom, q, ws[k])
  }

  /** A star repeats its atom any number of times. */
  ghost predicate InFactor(ext: Ext, f: Factor, q: nat, w: seq<nat>) {
    if f.starred then exists ws: seq<seq<nat>> :: AllInAtom(ext, f.atom, q, ws) && w == Joined(ws)
    else InAtom(ext, f.atom, q, w)
  }

  /** The factors one after the other. */
  ghost predicate InFactors(ext: Ext, fs: seq<Factor>, q: nat, w: seq<nat>) {
    if fs == [] then w == []
    else exists i :: 0 <= i <= |w| && InFactor(ext, fs[0], q, w[..i]) && InFactors(ext, fs[1..], q + Interps(fs[..1]), w[i..])
  }

  /** One of the alternatives; values are numbered through all of them. */
  ghost predicate InLiteral(ext: Ext, lit: Literal, q: nat, w: seq<nat>) {
    lit != [] && (InFactors(ext, lit[0], q, w) || InLiteral(ext, lit[1..], q + Interps(lit[0]), w))
  }

  // ----- The trees for it -----

  function ItemTree(item: Item): Tree {
    match item
    case Single(t) => One(ClassSymbol, Lit(RuneOf(t)))
    case Range(first, last) => Two(ClassRange, Lit(RuneOf(first)), Lit(RuneOf(last)))
  }

  function ItemsTree(items: seq<Item>): Tree {
    if items == [] then Leaf(ClassEmpty)
    else if |items| == 1 then ItemTree(items[0])
    else Two(ClassSum, ItemTree(items[0]), ItemsTree(items[1..]))
  }

  function AtomTree(atom: Atom, q: nat): Tree {
    match atom
    case Plain(t) => One(Symbol, Lit(RuneOf(t)))
    case Class(negated, items) => One(if negated then NegClass else Kind.Class, ItemsTree(items))
    case Interpolated => Ext(q)
  }

  function FactorTree(f: Factor, q: nat): Tree {
    if f.starred then One(Star, AtomTree(f.atom, q)) else AtomTree(f.atom, q)
  }

  function FactorTrees(fs: seq<Factor>, q: nat): seq<Tree> {
    if fs == [] then [] else [FactorTree(fs[0], q)] + FactorTrees(fs[1..], q + Interps(fs[..1]))
  }

  function LiteralTrees(lit: Literal, q: nat): (r: seq<seq<Tree>>)
    ensures |r| == |lit|
  {
    if lit == [] then [] else [FactorTrees(lit[0], q)] + LiteralTrees(lit[1..], q + Interps(lit[0]))
  }

  function AllInterps(lit: Literal): nat {
    if lit == [] then 0 else Interps(lit[0]) + AllInterps(lit[1..])
  }

  // ----- The trees match the same words -----

  lemma {:induction false} ItemsMatch(items: seq<Item>, c: nat)
    ensures InClass(ItemsTree(items), c) <==> InItems(items, c)
    decreases |items|
  {
    if |items| > 1 {
      ItemsMatch(items[1..], c);
      if InItems(items[1..], c) {
        var k :| 0 <= k < |items[1..]| && InItem(items[1..][k], c);
        assert InItem(items[k + 1], c);
      }
      if InItems(items, c) {
        var k :| 0 <= k < |items| && InItem(items[k], c);
        if k > 0 {
          assert InItem(items[1..][k - 1], c);
        }
      }
    } else if |items| == 1 {
      assert InItem(items[0], c) <==> InItems(items, c);
    }
  }

  lemma AtomMatches(ext: Ext, atom: Atom, q: nat, w: seq<nat>)
    ensures Matches(ext, AtomTree(atom, q), w) <==> InAtom(ext, atom, q, w)
  {
    if atom.Class? && |w| == 1 {
      ItemsMatch(atom.items, w[0]);
    }
  }

  lemma {:induction false} StarSplits(ext: Ext, atom: Atom, q: nat, w: seq<nat>) returns (ws: seq<seq<nat>>)
    requires Matches(ext, One(Star, AtomTree(atom, q)), w)
    ensures AllInAtom(ext, atom, q, ws) && w == Joined(ws)
    decreases |w|
  {
    hide InAtom;
    if w == [] {
      ws := [];
    } else {
      var t := AtomTree(atom, q);
      var i :| 0 < i <= |w| && Matches(ext, t, w[..i]) && Matches(ext, One(Star, t), w[i..]);
      AtomMatches(ext, atom, q, w[..i]);
      var rest := StarSplits(ext, atom, q, w[i..]);
      ws := [w[..i]] + rest;
      assert ws[1..] == rest;
    }
  }

  lemma {:induction false} StarJoins(ext: Ext, atom: Atom, q: nat, ws: seq<seq<nat>>)
    requires AllInAtom(ext, atom, q, ws)
    ensures Matches(ext, One(Star, AtomTree(atom, q)), Joined(ws))
    decreases |ws|
  {
    hide InAtom;
    if ws != [] {
      var t, w, n := AtomTree(atom, q), Joined(ws), |ws[0]|;
      StarJoins(ext, atom, q, ws[1..]);
      AtomMatches(ext, atom, q, ws[0]);
      assert w[..n] == ws[0] && w[n..] == Joined(ws[1..]);
    }
  }

  lemma FactorMatches(ext: Ext, f: Factor, q: nat, w: seq<nat>)
    ensures Matches(ext, FactorTree(f, q), w) <==> InFactor(ext, f, q, w)
  {
    hide Matches, InAtom, AllInAtom;
    AtomMatches(ext, f.atom, q, w);
    if f.starred {
      if Matches(ext, FactorTree(f, q), w) {
        var ws := StarSplits(ext, f.atom, q, w);
      }
      if ws: seq<seq<nat>> :| AllInAtom(ext, f.atom, q, ws) && w == Joined(ws) {
        StarJoins(ext, f.atom, q, ws);
      }
    }
  }

  lemma {:induction false} FactorsMatch(ext: Ext, fs: seq<Factor>, q: nat, w: seq<nat>)
    ensures MatchesAll(ext, FactorTrees(fs, q), w) <==> InFactors(ext, fs, q, w)
    decreases |fs|
  {
    hide Matches, InFactor, FactorTree;
    if fs != [] {
      var q', rest := q + Interps(fs[..1]), FactorTrees(fs[1..], q + Interps(fs[..1]));
      assert FactorTrees(fs, q)[1..] == rest;
      forall i | 0 <= i <= |w|
        ensures Matches(ext, FactorTree(fs[0], q), w[..i]) <==> InFactor(ext, fs[0], q, w[..i])
        ensures MatchesAll(ext, rest, w[i..]) <==> InFactors(ext, fs[1..], q', w[i..])
      {
        FactorMatches(ext, fs[0], q, w[..i]);
        FactorsMatch(ext, fs[1..], q', w[i..]);
      }
    }
  }

  lemma {:induction false} TreesMatch(ext: Ext, lit: Literal, q: nat, w: seq<nat>)
    ensures (exists k :: 0 <= k < |lit| && MatchesAll(ext, LiteralTrees(lit, q)[k], w)) <==> InLiteral(ext, lit, q, w)
    decreases |lit|
  {
    hide MatchesAll, InFactors, FactorTrees;
    if lit != [] {
      var rest, q' := lit[1..], q + Interps(lit[0]);
      FactorsMatch(ext, lit[0], q, w);
      TreesMatch(ext, rest, q', w);
      assert LiteralTrees(lit, q)[0] == FactorTrees(lit[0], q);
      forall k | 0 <= k < |rest|
        ensures LiteralTrees(lit, q)[k + 1] == LiteralTrees(rest, q')[k]
      {
      }
      if k :| 0 <= k < |lit| && MatchesAll(ext, LiteralTrees(lit, q)[k], w) {
        if k > 0 {
          assert MatchesAll(ext, LiteralTrees(rest, q')[k - 1], w);
        }
      }
      if k :| 0 <= k < |rest| && MatchesAll(ext, LiteralTrees(rest, q')[k], w) {
        assert MatchesAll(ext, LiteralTrees(lit, q)[k + 1], w);
      }
    }
  }

  // ----- What is written is parsed -----

  /** `s` lies at `i`. */
  predicate LiesAt(ts: seq<Token>, i: nat, s: seq<Token>) {
    i + |s| <= |ts| && ts[i..i + |s|] == s
  }

  lemma LiesParts(ts: seq<Token>, i: nat, a: seq<Token>, b: seq<Token>)
    requires LiesAt(ts, i, a + b)
    ensures LiesAt(ts, i, a) && LiesAt(ts, i + |a|, b)
  {
    assert (a + b)[..|a|] == a && (a + b)[|a|..] == b;
    assert ts[i..i + |a + b|][..|a|] == ts[i..i + |a|];
    assert ts[i..i + |a + b|][|a|..] == ts[i + |a|..i + |a + b|];
  }

  lemma LiesHere(ts: seq<Token>, i: nat, s: seq<Token>, k: nat)
    requires LiesAt(ts, i, s) && k < |s|
    ensures i + k < |ts| && ts[i + k] == s[k]
  {
    assert ts[i..i + |s|][k] == ts[i + k];
  }

  lemma ItemParsed(ts: seq<Token>, i: nat, item: Item)
    requires LiesAt(ts, i, ItemTokens(item)) && i + |ItemTokens(item)| < |ts|
    requires item.Range? ==> item.last != RBrack
    requires item.Single? ==> ts[i + 1] != Dash
    ensures ParseItem(ts, i) == Some((ItemTree(item), i + |ItemTokens(item)|))
  {
    LiesHere(ts, i, ItemTokens(item), 0);
    if item.Range? {
      LiesHere(ts, i, ItemTokens(item), 1);
      LiesHere(ts, i, ItemTokens(item), 2);
    }
  }

  /** The first item lies at `i`, the others and the bracket after it. */
  lemma ItemsLie(ts: seq<Token>, i: nat, items: seq<Item>)
    requires items != [] && ItemsOk(items) && LiesAt(ts, i, ItemsTokens(items) + [RBrack])
    ensures ParseItem(ts, i) == Some((ItemTree(items[0]), i + |ItemTokens(items[0])|))
    ensures i + |ItemTokens(items[0])| < |ts| && (ts[i + |ItemTokens(items[0])|] == RBrack <==> |items| == 1)
    ensures LiesAt(ts, i + |ItemTokens(items[0])|, ItemsTokens(items[1..]) + [RBrack])
    ensures |ItemsTokens(items)| == |ItemTokens(items[0])| + |ItemsTokens(items[1..])|
  {
    hide LiesAt, ParseItem, ItemTree, ItemTokens, ItemsTokens, ItemsOk;
    var item, rest := ItemTokens(items[0]), ItemsTokens(items[1..]) + [RBrack];
    ItemsUnrolled(items);
    LiesParts(ts, i, item, rest);
    LiesHere(ts, i + |item|, rest, 0);
    NextItem(items);
    SingleLength(items[0]);
    ItemParsed(ts, i, items[0]);
  }

  lemma ItemsUnrolled(items: seq<Item>)
    requires items != []
    ensures ItemsTokens(items) + [RBrack] == ItemTokens(items[0]) + (ItemsTokens(items[1..]) + [RBrack])
    ensures |ItemsTokens(items)| == |ItemTokens(items[0])| + |ItemsTokens(items[1..])|
    ensures ItemsOk(items) ==> items[0].Range? ==> items[0].last != RBrack
  {
    hide ItemTokens;
  }

  lemma SingleLength(item: Item)
    ensures item.Single? ==> |ItemTokens(item)| == 1
  {
  }

  lemma ParseItemsStep(ts: seq<Token>, i: nat)
    requires ParseItem(ts, i).Some? && ParseItem(ts, i).value.1 < |ts|
    ensures var item := ParseItem(ts, i).value;
            if ts[item.1] == RBrack then ParseItems(ts, i) == Some((item.0, item.1 + 1))
            else ParseItems(ts, item.1).Some? ==>
                   ParseItems(ts, i) == Some((Two(ClassSum, item.0, ParseItems(ts, item.1).value.0), ParseItems(ts, item.1).value.1))
  {
    hide ParseItem;
  }

  /** The items and the bracket after them. */
  lemma {:induction false} ItemsParsed(ts: seq<Token>, i: nat, items: seq<Item>)
    requires items != [] && ItemsOk(items) && LiesAt(ts, i, ItemsTokens(items) + [RBrack])
    ensures ParseItems(ts, i) == Some((ItemsTree(items), i + |ItemsTokens(items)| + 1))
    decreases |items|
  {
    hide LiesAt, ParseItem, ParseItems, ItemTree, ItemTokens, ItemsTokens;
    ItemsLie(ts, i, items);
    ParseItemsStep(ts, i);
    if |items| > 1 {
      ItemsParsed(ts, i + |ItemTokens(items[0])|, items[1..]);
    } else {
      assert items[1..] == [];
      NoItemsOk();
    }
  }

  /** What comes after the first item. */
  lemma NextItem(items: seq<Item>)
    requires items != [] && ItemsOk(items)
    ensures var rest := ItemsTokens(items[1..]) + [RBrack];
            && (items[0].Single? ==> rest[0] != Dash)
            && (rest[0] == RBrack <==> |items| == 1)
  {
    if |items| > 1 {
      assert ItemsTokens(items[1..])[0] == ItemTokens(items[1])[0];
    }
  }

  lemma AtomParsed(ts: seq<Token>, i: nat, atom: Atom, q: nat)
    requires AtomOk(atom) && LiesAt(ts, i, AtomTokens(atom)) && i < |ts|
    ensures ParseAtom(ts, i, q) == Some((AtomTree(atom, q), i + |AtomTokens(atom)|, q + if atom.Interpolated? then 1 else 0))
  {
    hide ParseItems, ItemsTree, ItemsOk, ItemsTokens, LiesAt, ParseClass;
    LiesHere(ts, i, AtomTokens(atom), 0);
    if atom.Class? {
      var front := [LBrack] + if atom.negated then [Caret] else [];
      var back := ItemsTokens(atom.items) + [RBrack];
      assert AtomTokens(atom) == front + back;
      LiesParts(ts, i, front, back);
      LiesHere(ts, i + |front|, back, 0);
      if atom.negated {
        LiesHere(ts, i, front, 1);
      }
      ClassParsed(ts, i + |front|, atom.items);
      FirstOfClass(atom.items);
    }
  }

  lemma FirstOfClass(items: seq<Item>)
    ensures (ItemsTokens(items) + [RBrack])[0] == if items == [] then RBrack else ItemTokens(items[0])[0]
  {
  }

  lemma ClassParsed(ts: seq<Token>, i: nat, items: seq<Item>)
    requires ItemsOk(items) && LiesAt(ts, i, ItemsTokens(items) + [RBrack])
    ensures ParseClass(ts, i) == Some((ItemsTree(items), i + |ItemsTokens(items)| + 1))
  {
    hide ParseItems;
    LiesHere(ts, i, ItemsTokens(items) + [RBrack], 0);
    FirstOfClass(items);
    if items != [] {
      ItemsParsed(ts, i, items);
    }
  }

  lemma FactorParsed(ts: seq<Token>, i: nat, f: Factor, q: nat)
    requires AtomOk(f.atom) && LiesAt(ts, i, FactorTokens(f)) && i < |ts|
    requires !f.starred && i + |FactorTokens(f)| < |ts| ==> ts[i + |FactorTokens(f)|] != Asterisk
    ensures ParseFactor(ts, i, q) == Some((FactorTree(f, q), i + |FactorTokens(f)|, q + if f.atom.Interpolated? then 1 else 0))
    ensures ts[i] != Bar
  {
    hide ParseAtom, AtomTree;
    var star := if f.starred then [Asterisk] else [];
    LiesParts(ts, i, AtomTokens(f.atom), star);
    AtomParsed(ts, i, f.atom, q);
    LiesHere(ts, i, AtomTokens(f.atom), 0);
    if f.starred {
      LiesHere(ts, i + |AtomTokens(f.atom)|, star, 0);
    }
  }

  /** How the literal goes on after the factors `fs` of its first alternative. */
  function TailTokens(fs: seq<Factor>, later: Literal): seq<Token> {
    FactorsTokens(fs) + if later == [] then [] else [Bar] + LiteralTokens(later)
  }

  lemma LiteralIsTail(lit: Literal)
    requires lit != []
    ensures LiteralTokens(lit) == TailTokens(lit[0], lit[1..])
  {
    var first := FactorsTokens(lit[0]);
    hide FactorsTokens;
    if |lit| > 1 {
      var rest := LiteralTokens(lit[1..]);
      assert first + [Bar] + rest == first + ([Bar] + rest);
    } else {
      assert first + [] == first;
    }
  }

  /** What comes after a factor is no star of it. */
  lemma AfterFactor(fs: seq<Factor>, later: Literal)
    requires fs != [] && FactorsOk(fs) && !fs[0].starred
    ensures TailTokens(fs[1..], later) != [] ==> TailTokens(fs[1..], later)[0] != Asterisk
  {
    if |fs| > 1 {
      var f := fs[1];
      assert FactorsTokens(fs[1..])[0] == FactorTokens(f)[0] == AtomTokens(f.atom)[0];
      assert AtomOk(fs[1..][0].atom);
    }
  }

  /** The next factor and what comes after it. */
  lemma FactorHere(ts: seq<Token>, i: nat, fs: seq<Factor>, later: Literal, q: nat)
    requires i <= |ts| && fs != [] && ts[i..] == TailTokens(fs, later) && FactorsOk(fs)
    ensures i < |ts| && ts[i] != Bar && i + |FactorTokens(fs[0])| <= |ts|
    ensures ParseFactor(ts, i, q) == Some((FactorTree(fs[0], q), i + |FactorTokens(fs[0])|, q + Interps(fs[..1])))
    ensures ts[i + |FactorTokens(fs[0])|..] == TailTokens(fs[1..], later)
  {
    hide ParseFactor, FactorTree, LiteralTokens, FactorsTokens, TailTokens, FactorTokens, AtomOk, Interps, LiesAt;
    var f, rest := FactorTokens(fs[0]), TailTokens(fs[1..], later);
    TailFirst(fs, later);
    FrontLies(ts, i, f, rest);
    if !fs[0].starred {
      AfterFactor(fs, later);
    }
    if rest != [] {
      assert ts[i + |f|] == rest[0];
    }
    FactorParsed(ts, i, fs[0], q);
    InterpsFirst(fs);
  }

  lemma TailFirst(fs: seq<Factor>, later: Literal)
    requires fs != []
    ensures TailTokens(fs, later) == FactorTokens(fs[0]) + TailTokens(fs[1..], later)
  {
    hide FactorTokens, LiteralTokens;
  }

  lemma TailOfNone(later: Literal)
    ensures TailTokens([], later) == if later == [] then [] else [Bar] + LiteralTokens(later)
  {
    hide LiteralTokens;
  }

  lemma FrontLies(ts: seq<Token>, i: nat, a: seq<Token>, b: seq<Token>)
    requires i <= |ts| && ts[i..] == a + b
    ensures LiesAt(ts, i, a) && ts[i + |a|..] == b
  {
    assert ts[i..][..|a|] == a && ts[i..][|a|..] == b;
  }

  /** What the parse of the factors `fs` and the alternatives after them comes to. */
  function ParseOf(fs: seq<Factor>, later: Literal, q: nat): Parsed {
    Parsed([FactorTrees(fs, q)] + LiteralTrees(later, q + Interps(fs)), q + Interps(fs) + AllInterps(later))
  }

  lemma ParseOfFactor(fs: seq<Factor>, later: Literal, q: nat)
    requires fs != []
    ensures var rest := ParseOf(fs[1..], later, q + Interps(fs[..1]));
            && rest.alts != []
            && ParseOf(fs, later, q) == Parsed([[FactorTree(fs[0], q)] + rest.alts[0]] + rest.alts[1..], rest.interps)
  {
    hide FactorTree, LiteralTrees, AllInterps, Interps, FactorTrees;
    InterpsFirst(fs);
    FactorTreesFirst(fs, q);
  }

  lemma ParseOfBar(later: Literal, q: nat)
    requires later != []
    ensures var rest := ParseOf(later[0], later[1..], q); ParseOf([], later, q) == Parsed([[]] + rest.alts, rest.interps)
  {
    hide LiteralTrees, AllInterps, Interps, FactorTrees;
    LiteralTreesFirst(later, q);
    NoFactors(q);
  }

  lemma ParseOfNone(q: nat)
    ensures ParseOf([], [], q) == Parsed([[]], q)
  {
  }

  lemma {:induction false} TailParsed(ts: seq<Token>, i: nat, fs: seq<Factor>, later: Literal, q: nat)
    requires i <= |ts| && ts[i..] == TailTokens(fs, later)
    requires FactorsOk(fs) && forall k :: 0 <= k < |later| ==> FactorsOk(later[k])
    ensures ParseFrom(ts, i, q) == Some(ParseOf(fs, later, q))
    decreases |later|, |fs|
  {
    hide ParseFrom, ParseFactor, FactorTree, LiteralTokens, FactorsTokens, FactorTokens, AtomOk, LiteralTrees, FactorTrees, AllInterps, Interps, TailTokens, ParseOf;
    if fs != [] {
      FactorHere(ts, i, fs, later, q);
      TailParsed(ts, i + |FactorTokens(fs[0])|, fs[1..], later, q + Interps(fs[..1]));
      ParseFactorStep(ts, i, q);
      ParseOfFactor(fs, later, q);
    } else {
      TailOfNone(later);
      if later == [] {
        ParseEnd(ts, i, q);
        ParseOfNone(q);
      } else {
        assert ts[i] == ts[i..][0] == Bar;
        assert ts[i + 1..] == ts[i..][1..] == LiteralTokens(later);
        LiteralIsTail(later);
        TailParsed(ts, i + 1, later[0], later[1..], q);
        ParseBarStep(ts, i, q);
        ParseOfBar(later, q);
      }
    }
  }

  lemma ParseFactorStep(ts: seq<Token>, i: nat, q: nat)
    requires i < |ts| && ts[i] != Bar && ParseFactor(ts, i, q).Some?
    requires var f := ParseFactor(ts, i, q).value; ParseFrom(ts, f.1, f.2).Some?
    ensures var f := ParseFactor(ts, i, q).value;
            var rest := ParseFrom(ts, f.1, f.2).value;
            ParseFrom(ts, i, q) == Some(Parsed([[f.0] + rest.alts[0]] + rest.alts[1..], rest.interps))
  {
    hide ParseFactor;
  }

  lemma ParseBarStep(ts: seq<Token>, i: nat, q: nat)
    requires i < |ts| && ts[i] == Bar && ParseFrom(ts, i + 1, q).Some?
    ensures var rest := ParseFrom(ts, i + 1, q).value; ParseFrom(ts, i, q) == Some(Parsed([[]] + rest.alts, rest.interps))
  {
    hide ParseFactor;
  }

  lemma ParseEnd(ts: seq<Token>, i: nat, q: nat)
    requires i == |ts|
    ensures ParseFrom(ts, i, q) == Some(Parsed([[]], q))
  {
  }

  lemma FactorTreesFirst(fs: seq<Factor>, q: nat)
    requires fs != []
    ensures FactorTrees(fs, q) == [FactorTree(fs[0], q)] + FactorTrees(fs[1..], q + Interps(fs[..1]))
  {
  }

  lemma LiteralTreesFirst(lit: Literal, q: nat)
    requires lit != []
    ensures LiteralTrees(lit, q) == [FactorTrees(lit[0], q)] + LiteralTrees(lit[1..], q + Interps(lit[0]))
    ensures AllInterps(lit) == Interps(lit[0]) + AllInterps(lit[1..])
  {
  }

  lemma NoFactors(q: nat)
    ensures FactorTrees([], q) == [] && Interps([]) == 0
  {
  }

  lemma InterpsFirst(fs: seq<Factor>)
    requires fs != []
    ensures Interps(fs[..1]) == (if fs[0].atom.Interpolated? then 1 else 0)
    ensures Interps(fs) == Interps(fs[..1]) + Interps(fs[1..])
  {
    assert fs[..1][1..] == [];
  }

  /** The parse of a literal as it is written. */
  lemma WrittenIsParsed(lit: Literal)
    requires LiteralOk(lit)
    ensures ParseFrom(LiteralTokens(lit), 0, 1) == Some(Parsed(LiteralTrees(lit, 1), 1 + AllInterps(lit)))
  {
    hide ParseFrom, LiteralTokens, FactorsOk, LiteralTrees, AllInterps, FactorTrees, TailTokens;
    LiteralIsTail(lit);
    assert LiteralTokens(lit)[0..] == LiteralTokens(lit);
    TailParsed(LiteralTokens(lit), 0, lit[0], lit[1..], 1);
    LiteralTreesFirst(lit, 1);
  }

  // ----- What is parsed has been written -----

  lemma {:induction false} ItemsWritten(ts: seq<Token>, i: nat) returns (items: seq<Item>)
    requires ParseItems(ts, i).Some? && i < |ts| && ts[i] != RBrack
    ensures items != [] && ItemsOk(items) && ItemTokens(items[0])[0] == ts[i]
    ensures ts[i..ParseItems(ts, i).value.1] == ItemsTokens(items) + [RBrack]
    decreases |ts| - i
  {
    hide ParseItems, ParseItem, ItemsOk, ItemsTokens, ItemTokens, Words;
    ItemsUnfold(ts, i);
    var next := ParseItem(ts, i).value.1;
    var item := ItemWritten(ts, i);
    if ts[next] == RBrack {
      items := [item];
      OneItem(item);
      assert ts[i..next + 1] == ts[i..next] + [RBrack];
    } else {
      var rest := ItemsWritten(ts, next);
      items := [item] + rest;
      ItemFirst(item, rest);
      var end := ParseItems(ts, i).value.1;
      assert ts[i..end] == ts[i..next] + ts[next..end];
      assert ItemTokens(item) + (ItemsTokens(rest) + [RBrack]) == ItemTokens(item) + ItemsTokens(rest) + [RBrack];
    }
  }

  lemma ItemWritten(ts: seq<Token>, i: nat) returns (item: Item)
    requires ParseItem(ts, i).Some? && i < |ts| && ts[i] != RBrack
    ensures ts[i..ParseItem(ts, i).value.1] == ItemTokens(item) && ItemTokens(item)[0] == ts[i]
    ensures item.Range? ==> item.last != RBrack
    ensures item.Single? && ParseItem(ts, i).value.1 < |ts| ==> ts[ParseItem(ts, i).value.1] != Dash
  {
    if ts[i + 1] == Dash {
      item := Range(ts[i], ts[i + 2]);
      assert ts[i..i + 3] == [ts[i], Dash, ts[i + 2]];
    } else {
      item := Single(ts[i]);
      assert ts[i..i + 1] == [ts[i]];
    }
  }

  lemma OneItem(item: Item)
    requires ItemTokens(item)[0] != RBrack && (item.Range? ==> item.last != RBrack)
    ensures ItemsOk([item]) && ItemsTokens([item]) == ItemTokens(item) && [item] != []
  {
    assert [item][1..] == [];
  }

  lemma ItemFirst(item: Item, rest: seq<Item>)
    requires rest != [] && ItemsOk(rest) && ItemTokens(item)[0] != RBrack && (item.Range? ==> item.last != RBrack)
    requires item.Single? ==> ItemTokens(rest[0])[0] != Dash
    ensures ItemsOk([item] + rest) && ItemsTokens([item] + rest) == ItemTokens(item) + ItemsTokens(rest)
  {
    assert ([item] + rest)[1..] == rest;
  }

  lemma AtomWritten(ts: seq<Token>, i: nat, q: nat) returns (atom: Atom)
    requires i < |ts| && ts[i] != Bar && ParseAtom(ts, i, q).Some?
    ensures AtomOk(atom) && ts[i..ParseAtom(ts, i, q).value.1] == AtomTokens(atom)
  {
    if ts[i] == LBrack {
      atom := ClassWritten(ts, i, q);
    } else {
      atom := if ts[i] == Interp then Interpolated else Plain(ts[i]);
    }
  }

  lemma ClassWritten(ts: seq<Token>, i: nat, q: nat) returns (atom: Atom)
    requires i < |ts| && ts[i] == LBrack && ParseAtom(ts, i, q).Some?
    ensures AtomOk(atom) && ts[i..ParseAtom(ts, i, q).value.1] == AtomTokens(atom)
  {
    hide ParseItems, ItemsOk, ItemsTokens;
    var negated := i + 1 < |ts| && ts[i + 1] == Caret;
    var k := if negated then i + 2 else i + 1;
    var items: seq<Item> := [];
    NoItemsOk();
    if ts[k] != RBrack {
      items := ItemsWritten(ts, k);
    }
    atom := Atom.Class(negated, items);
    var end := ParseAtom(ts, i, q).value.1;
    assert ts[k..end] == ItemsTokens(items) + [RBrack];
    var front := [LBrack] + if negated then [Caret] else [];
    ClassFront(ts, i);
    assert ts[i..end] == ts[i..k] + ts[k..end];
    assert front + (ItemsTokens(items) + [RBrack]) == AtomTokens(atom);
  }

  lemma ClassFront(ts: seq<Token>, i: nat)
    requires i < |ts| && ts[i] == LBrack
    ensures i + 1 < |ts| && ts[i + 1] == Caret ==> ts[i..i + 2] == [LBrack] + [Caret]
    ensures ts[i..i + 1] == [LBrack] + []
  {
  }

  lemma NoItemsOk()
    ensures ItemsOk([]) && ItemsTokens([]) == []
  {
  }

  lemma FactorWritten(ts: seq<Token>, i: nat, q: nat) returns (f: Factor)
    requires i < |ts| && ts[i] != Bar && ParseFactor(ts, i, q).Some?
    ensures AtomOk(f.atom) && ts[i..ParseFactor(ts, i, q).value.1] == FactorTokens(f)
    ensures !f.starred && ParseFactor(ts, i, q).value.1 < |ts| ==> ts[ParseFactor(ts, i, q).value.1] != Asterisk
  {
    hide ParseAtom, AtomTokens;
    var atom := AtomWritten(ts, i, q);
    var end := ParseAtom(ts, i, q).value.1;
    f := Factor(atom, end < |ts| && ts[end] == Asterisk);
    if f.starred {
      assert ts[i..end + 1] == ts[i..end] + [Asterisk];
    }
  }

  lemma {:induction false} TailWritten(ts: seq<Token>, i: nat, q: nat) returns (fs: seq<Factor>, later: Literal)
    requires i <= |ts| && ParseFrom(ts, i, q).Some?
    ensures ts[i..] == TailTokens(fs, later)
    ensures FactorsOk(fs) && forall k :: 0 <= k < |later| ==> FactorsOk(later[k])
    decreases |ts| - i
  {
    hide ParseFactor, LiteralTokens, FactorTokens, AtomOk;
    if i == |ts| {
      fs, later := [], [];
    } else if ts[i] == Bar {
      var fs', later' := TailWritten(ts, i + 1, q);
      fs, later := [], [fs'] + later';
      LiteralIsTail(later);
      assert later[1..] == later';
      assert ts[i..] == [Bar] + ts[i + 1..];
    } else {
      var p := ParseFactor(ts, i, q).value;
      var f := FactorWritten(ts, i, q);
      var fs' ;
      fs', later := TailWritten(ts, p.1, p.2);
      fs := [f] + fs';
      assert fs[1..] == fs';
      assert ts[i..] == ts[i..p.1] + ts[p.1..];
      assert TailTokens(fs, later) == FactorTokens(f) + TailTokens(fs', later);
      if fs' != [] {
        FirstToken(fs', later);
        assert ts[p.1..][0] == ts[p.1];
      }
    }
  }

  lemma FirstToken(fs: seq<Factor>, later: Literal)
    requires fs != []
    ensures TailTokens(fs, later) != [] && (fs[0].atom == Plain(Asterisk) ==> TailTokens(fs, later)[0] == Asterisk)
  {
  }

  /** The literals that are accepted are those that can be written. */
  lemma AcceptedIff(ts: seq<Token>)
    ensures ParseFrom(ts, 0, 1).Some? <==> exists lit: Literal :: LiteralOk(lit) && LiteralTokens(lit) == ts
  {
    hide LiteralTokens, ParseFrom, FactorsOk;
    if ParseFrom(ts, 0, 1).Some? {
      var fs, later := TailWritten(ts, 0, 1);
      var lit := [fs] + later;
      LiteralIsTail(lit);
      assert lit[1..] == later && ts[0..] == ts;
      assert LiteralOk(lit) && LiteralTokens(lit) == ts;
    }
    if lit: Literal :| LiteralOk(lit) && LiteralTokens(lit) == ts {
      WrittenIsParsed(lit);
    }
  }

  /** The runes with a meaning stand for themselves where it does not apply. */
  lemma RunesOfSigns()
    ensures RuneOf(Bar) == '|' as int && RuneOf(Asterisk) == '*' as int && RuneOf(Caret) == '^' as int
    ensures RuneOf(LBrack) == '[' as int && RuneOf(RBrack) == ']' as int && RuneOf(Dash) == '-' as int
    ensures forall c :: RuneOf(Rune(c)) == c
  {
  }

  /** The tree of a literal matches just the words that the literal means. */
  lemma TreeMeansLiteral(ext: Ext, lit: Literal, w: seq<nat>)
    requires LiteralOk(lit)
    ensures ParseFrom(LiteralTokens(lit), 0, 1).Some?
    ensures Matches(ext, LiteralTree(ParseFrom(LiteralTokens(lit), 0, 1).value.alts), w) <==> InLiteral(ext, lit, 1, w)
  {
    hide Matches, MatchesAll, LiteralTree, ParseFrom, InLiteral, LiteralTrees;
    WrittenIsParsed(lit);
    LiteralMatches(ext, LiteralTrees(lit, 1), w);
    TreesMatch(ext, lit, 1, w);
  }

  ghost predicate MeansLiteral(t: Tree, lit: Literal) {
    forall ext: Ext, w :: Matches(ext, t, w) <==> InLiteral(ext, lit, 1, w)
  }

  /** Both passes over a literal: the memory that the first one asks for is filled by the
      second with constructors that match just the words that the literal means. */
  method Compile(ts: seq<Token>, ghost lit: Literal) returns (mem: array<Word>, v: Value)
    requires LiteralOk(lit) && ts == LiteralTokens(lit) && ts != []
    ensures exists t :: TreeAt(mem[..], v, t) && mem.Length == Words(t) && MeansLiteral(t, lit)
  {
    hide LiteralTokens, ParseFrom, Matches, InLiteral, TreeAt, LiteralTree;
    WrittenIsParsed(lit);
    var size := SizeLiteral(ts);
    mem := new Word[size](_ => Unset);
    var b := new Builder(mem, 0);
    v := b.EmitLiteral(ts);
    ghost var t := LiteralTree(ParseFrom(ts, 0, 1).value.alts);
    forall ext: Ext, w
      ensures Matches(ext, t, w) <==> InLiteral(ext, lit, 1, w)
    {
      TreeMeansLiteral(ext, lit, w);
    }
    assert TreeAt(mem[..], v, t) && mem.Length == Words(t) && MeansLiteral(t, lit);
  }
}
