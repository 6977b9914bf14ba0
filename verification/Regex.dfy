/** Regex literals (`bytecompile.c`): one pass counts the words of the constructors a
    literal stands for, the other builds them in place, filling holes left for the next
    factor, the next alternative and the next item of a character class. */
module Regex {

  datatype Option<T> = None | Some(value: T)

  // words of struct gsconstr before its arguments
  const HEAD := 4

  // ----- Literals -----

  /** A literal, split into rune literals: a character with a meaning stands for itself
      where the meaning does not apply; `Rune` is any other rune, or an escaped one. */
  datatype Token = Bar | Asterisk | LBrack | RBrack | Caret | Dash | Interp | Rune(c: nat)

  /** `gsbc_parse_rune_literal`: the octets of a rune, packed */
  function RuneOf(t: Token): nat {
    match t
    case Bar => 0x7C
    case Asterisk => 0x2A
    case LBrack => 0x5B
    case RBrack => 0x5D
    case Caret => 0x5E
    case Dash => 0x2D
    case Interp => 0xC2A7
    case Rune(c) => c
  }

  // ----- Constructor trees -----

  datatype Kind = Sum | Product | Star | Symbol | Class | NegClass | Null | Empty
                | ClassEmpty | ClassSymbol | ClassRange | ClassSum

  /** `Ext(k)` is the value of the `k`th interpolation. */
  datatype Tree = Lit(c: nat) | Ext(k: nat) | Leaf(kind: Kind) | One(kind: Kind, a: Tree) | Two(kind: Kind, a: Tree, b: Tree)

  function Words(t: Tree): nat {
    match t
    case Lit(_) => 0
    case Ext(_) => 0
    case Leaf(_) => HEAD
    case One(_, a) => HEAD + 1 + Words(a)
    case Two(_, a, b) => HEAD + 2 + Words(a) + Words(b)
  }

  // ----- The reference parse -----

  /** The items of a class and what comes after its bracket. */
  function ParseItems(ts: seq<Token>, i: nat): (r: Option<(Tree, nat)>)
    ensures r.Some? ==> i < r.value.1 <= |ts|
    decreases |ts| - i
  {
    var item := ParseItem(ts, i);
    if item.None? || item.value.1 >= |ts| then None
    else if ts[item.value.1] == RBrack then Some((item.value.0, item.value.1 + 1))
    else
      var rest := ParseItems(ts, item.value.1);
      if rest.None? then None else Some((Two(ClassSum, item.value.0, rest.value.0), rest.value.1))
  }

  /** A rune or a range; the class must not end after it without a bracket. */
  function ParseItem(ts: seq<Token>, i: nat): (r: Option<(Tree, nat)>)
    ensures r.Some? ==> i < r.value.1 <= |ts|
  {
    if i + 1 >= |ts| then None
    else if ts[i + 1] != Dash then Some((One(ClassSymbol, Lit(RuneOf(ts[i]))), i + 1))
    else if i + 2 >= |ts| || ts[i + 2] == RBrack then None
    else Some((Two(ClassRange, Lit(RuneOf(ts[i])), Lit(RuneOf(ts[i + 2]))), i + 3))
  }

  function ParseClass(ts: seq<Token>, i: nat): (r: Option<(Tree, nat)>)
    ensures r.Some? ==> i < r.value.1 <= |ts|
  {
    if i >= |ts| then None
    else if ts[i] == RBrack then Some((Leaf(ClassEmpty), i + 1))
    else ParseItems(ts, i)
  }

  /** An atom, without its star. Interpolations are numbered from `q`. */
  function ParseAtom(ts: seq<Token>, i: nat, q: nat): (r: Option<(Tree, nat, nat)>)
    requires i < |ts|
    ensures r.Some? ==> i < r.value.1 <= |ts|
  {
    match ts[i]
    case LBrack =>
      var negated := i + 1 < |ts| && ts[i + 1] == Caret;
      var cl := ParseClass(ts, if negated then i + 2 else i + 1);
      if cl.None? then None else Some((One(if negated then NegClass else Class, cl.value.0), cl.value.1, q))
    case Interp => Some((Ext(q), i + 1, q + 1))
    case _ => Some((One(Symbol, Lit(RuneOf(ts[i]))), i + 1, q))
  }

  function ParseFactor(ts: seq<Token>, i: nat, q: nat): (r: Option<(Tree, nat, nat)>)
    requires i < |ts|
    ensures r.Some? ==> i < r.value.1 <= |ts|
  {
    var atom := ParseAtom(ts, i, q);
    if atom.Some? && atom.value.1 < |ts| && ts[atom.value.1] == Asterisk
    then Some((One(Star, atom.value.0), atom.value.1 + 1, atom.value.2))
    else atom
  }

  /** The factors of each alternative, and the number of interpolations. */
  datatype Parsed = Parsed(alts: seq<seq<Tree>>, interps: nat)

  function ParseFrom(ts: seq<Token>, i: nat, q: nat): (r: Option<Parsed>)
    requires i <= |ts|
    ensures r.Some? ==> r.value.alts != []
    decreases |ts| - i
  {
    if i == |ts| then Some(Parsed([[]], q))
    else if ts[i] == Bar then
      var rest := ParseFrom(ts, i + 1, q);
      if rest.None? then None else Some(Parsed([[]] + rest.value.alts, rest.value.interps))
    else
      var f := ParseFactor(ts, i, q);
      if f.None? then None
      else
        var rest := ParseFrom(ts, f.value.1, f.value.2);
        if rest.None? then None
        else Some(Parsed([[f.value.0] + rest.value.alts[0]] + rest.value.alts[1..], rest.value.interps))
  }

  /** Right-nested. */
  function Nest(kind: Kind, ts: seq<Tree>, last: Tree): Tree {
    if ts == [] then last else Two(kind, ts[0], Nest(kind, ts[1..], last))
  }

  function AltTree(fs: seq<Tree>): Tree {
    if fs == [] then Leaf(Empty) else Nest(Product, fs[..|fs| - 1], fs[|fs| - 1])
  }

  function AltTrees(alts: seq<seq<Tree>>): (r: seq<Tree>)
    ensures |r| == |alts|
  {
    if alts == [] then [] else [AltTree(alts[0])] + AltTrees(alts[1..])
  }

  function SumTree(alts: seq<seq<Tree>>): Tree
    requires alts != []
  {
    Nest(Sum, AltTrees(alts[..|alts| - 1]), AltTree(alts[|alts| - 1]))
  }

  function LiteralTree(alts: seq<seq<Tree>>): Tree
    requires alts != []
  {
    Two(Sum, Leaf(Null), SumTree(alts))
  }

  // ----- What a tree matches -----

  ghost predicate InClass(cl: Tree, c: nat) {
    match cl
    case Leaf(ClassEmpty) => false
    case One(ClassSymbol, Lit(x)) => c == x
    case Two(ClassRange, Lit(x), Lit(y)) => x <= c <= y
    case Two(ClassSum, a, b) => InClass(a, c) || InClass(b, c)
    case _ => false
  }

  /** The language of a tree, given that of the interpolated values. */
  ghost predicate Matches(ext: (nat, seq<nat>) -> bool, t: Tree, w: seq<nat>)
    decreases t, |w|
  {
    match t
    case Ext(k) => ext(k, w)
    case Leaf(Empty) => w == []
    case Leaf(_) => false
    case One(Symbol, Lit(c)) => w == [c]
    case One(Class, cl) => |w| == 1 && InClass(cl, w[0])
    case One(NegClass, cl) => |w| == 1 && !InClass(cl, w[0])
    case One(Star, a) =>
      w == [] || exists i :: 0 < i <= |w| && Matches(ext, a, w[..i]) && Matches(ext, t, w[i..])
    case Two(Sum, a, b) => Matches(ext, a, w) || Matches(ext, b, w)
    case Two(Product, a, b) => exists i :: 0 <= i <= |w| && Matches(ext, a, w[..i]) && Matches(ext, b, w[i..])
    case _ => false
  }

  /** A word matches a list of factors one after the other. */
  ghost predicate MatchesAll(ext: (nat, seq<nat>) -> bool, fs: seq<Tree>, w: seq<nat>)
    decreases |fs|
  {
    if fs == [] then w == []
    else exists i :: 0 <= i <= |w| && Matches(ext, fs[0], w[..i]) && MatchesAll(ext, fs[1..], w[i..])
  }

  lemma {:induction false} AltMatches(ext: (nat, seq<nat>) -> bool, fs: seq<Tree>, w: seq<nat>)
    ensures Matches(ext, AltTree(fs), w) <==> MatchesAll(ext, fs, w)
    decreases |fs|
  {
    if |fs| == 1 {
      OneFactor(ext, fs[0], w);
      assert fs[1..] == [];
    } else if |fs| > 1 {
      assert AltTree(fs) == Two(Product, fs[0], AltTree(fs[1..])) by {
        assert fs[..|fs| - 1][1..] == fs[1..][..|fs[1..]| - 1];
      }
      forall i | 0 <= i <= |w|
        ensures Matches(ext, AltTree(fs[1..]), w[i..]) <==> MatchesAll(ext, fs[1..], w[i..])
      {
        AltMatches(ext, fs[1..], w[i..]);
      }
    }
  }

  lemma OneFactor(ext: (nat, seq<nat>) -> bool, f: Tree, w: seq<nat>)
    ensures MatchesAll(ext, [f], w) <==> Matches(ext, f, w)
  {
    assert w[..|w|] == w && w[|w|..] == [];
    forall i | 0 <= i <= |w| && MatchesAll(ext, [], w[i..])
      ensures i == |w|
    {
    }
    assert [f][1..] == [];
    if Matches(ext, f, w) {
      assert Matches(ext, [f][0], w[..|w|]) && MatchesAll(ext, [f][1..], w[|w|..]);
    }
  }

  lemma {:induction false} SumMatches(ext: (nat, seq<nat>) -> bool, alts: seq<seq<Tree>>, w: seq<nat>)
    requires alts != []
    ensures Matches(ext, SumTree(alts), w) <==> exists k :: 0 <= k < |alts| && MatchesAll(ext, alts[k], w)
    decreases |alts|
  {
    AltMatches(ext, alts[0], w);
    if |alts| > 1 {
      var rest := alts[1..];
      assert AltTrees(alts[..|alts| - 1])[1..] == AltTrees(rest[..|rest| - 1]) by {
        assert alts[..|alts| - 1][1..] == rest[..|rest| - 1];
      }
      SumMatches(ext, rest, w);
      forall k | 0 <= k < |rest|
        ensures rest[k] == alts[k + 1]
      {
      }
      if k :| 0 <= k < |alts| && MatchesAll(ext, alts[k], w) {
        if k > 0 {
          assert MatchesAll(ext, rest[k - 1], w);
        }
      }
    }
  }

  /** The tree of a literal matches exactly the words that match all factors of one of
      its alternatives in order. */
  lemma LiteralMatches(ext: (nat, seq<nat>) -> bool, alts: seq<seq<Tree>>, w: seq<nat>)
    requires alts != []
    ensures Matches(ext, LiteralTree(alts), w) <==> exists k :: 0 <= k < |alts| && MatchesAll(ext, alts[k], w)
  {
    SumMatches(ext, alts, w);
  }

  // ----- The sizing pass -----

  /** Words of the alternatives after the first, with the sums that link them. */
  function Later(alts: seq<seq<Tree>>): nat {
    if alts == [] then 0 else HEAD + 2 + Words(AltTree(alts[0])) + Later(alts[1..])
  }

  /** Words still to be counted when an alternative is under way: an alternative that
      turns out to be empty has been counted when its predecessor ended. */
  function Rest(alts: seq<seq<Tree>>): nat
    requires alts != []
  {
    (if alts[0] == [] then 0 else Words(AltTree(alts[0]))) + Later(alts[1..])
  }

  lemma {:induction false} SumWords(alts: seq<seq<Tree>>)
    requires alts != []
    ensures Words(SumTree(alts)) == Words(AltTree(alts[0])) + Later(alts[1..])
    decreases |alts|
  {
    hide AltTree, Words;
    SumUnfold(alts);
    if |alts| > 1 {
      SumWords(alts[1..]);
      WordsTwo(Sum, AltTree(alts[0]), SumTree(alts[1..]));
    }
  }

  lemma ItemWords(ts: seq<Token>, i: nat)
    requires ParseItem(ts, i).Some?
    ensures Words(ParseItem(ts, i).value.0) == if ts[i + 1] == Dash then HEAD + 2 else HEAD + 1
  {
  }

  lemma WordsOne(kind: Kind, a: Tree)
    ensures Words(One(kind, a)) == HEAD + 1 + Words(a)
  {
  }

  lemma WordsTwo(kind: Kind, a: Tree, b: Tree)
    ensures Words(Two(kind, a, b)) == HEAD + 2 + Words(a) + Words(b)
  {
  }

  lemma SumUnfold(alts: seq<seq<Tree>>)
    requires alts != []
    ensures |alts| == 1 ==> SumTree(alts) == AltTree(alts[0])
    ensures |alts| > 1 ==> SumTree(alts) == Two(Sum, AltTree(alts[0]), SumTree(alts[1..]))
  {
    if |alts| > 1 {
      assert alts[..|alts| - 1][1..] == alts[1..][..|alts[1..]| - 1];
    }
  }

  lemma AltUnfold(f: Tree, fs: seq<Tree>)
    ensures AltTree([f] + fs) == if fs == [] then f else Two(Product, f, AltTree(fs))
  {
    var all := [f] + fs;
    if fs != [] {
      assert all[..|all| - 1][1..] == fs[..|fs| - 1];
    }
  }

  /** The words a literal takes: an empty one is given those of a sum and a null. */
  function LiteralWords(ts: seq<Token>, alts: seq<seq<Tree>>): nat
    requires alts != []
  {
    if ts == [] then HEAD + 2 + HEAD else Words(LiteralTree(alts))
  }

  method SizeClass(ts: seq<Token>, i: nat) returns (size: nat, eos: nat)
    requires ParseClass(ts, i).Some?
    ensures size == Words(ParseClass(ts, i).value.0) && eos == ParseClass(ts, i).value.1
  {
    eos, size := i, 0;
    if ts[eos] == RBrack {
      return HEAD, eos + 1;
    }
    ghost var total, end := Words(ParseClass(ts, i).value.0), ParseClass(ts, i).value.1;
    while ts[eos] != RBrack
      invariant eos < |ts| && ts[eos] != RBrack ==> ParseItems(ts, eos).Some? && ParseItems(ts, eos).value.1 == end
                                                     && size + Words(ParseItems(ts, eos).value.0) == total
      invariant eos < |ts| && (ts[eos] == RBrack ==> size == total && eos + 1 == end)
      decreases |ts| - eos
    {
      var item := ParseItem(ts, eos);
      ItemWords(ts, eos);
      if ts[eos + 1] == Dash {
        size := size + HEAD + 2;
      } else {
        size := size + HEAD + 1;
      }
      eos := item.value.1;
      if ts[eos] != RBrack {
        WordsTwo(ClassSum, item.value.0, ParseItems(ts, eos).value.0);
        size := size + HEAD + 2;
      }
    }
    eos := eos + 1;
  }

  /** The sizing loop. */
  method SizeLiteral(ts: seq<Token>) returns (size: nat)
    requires ParseFrom(ts, 0, 1).Some?
    ensures size == LiteralWords(ts, ParseFrom(ts, 0, 1).value.alts)
  {
    hide AltTree, ParseClass, ParseFactor, Rest;
    ghost var all := ParseFrom(ts, 0, 1).value.alts;
    ghost var total, q := LiteralWords(ts, all), 1;
    var eos := 0;
    size := HEAD + 2 + HEAD;
    if ts != [] && ts[0] == Bar {
      size := size + HEAD;
    }
    SizeStarts(ts, all);
    while eos < |ts|
      invariant eos <= |ts| && ParseFrom(ts, eos, q).Some?
      invariant size + Rest(ParseFrom(ts, eos, q).value.alts) == total
    {
      ghost var alts := ParseFrom(ts, eos, q).value.alts;
      if ts[eos] == Bar {
        BarRest(ts, eos, q);
        size := size + HEAD + 2;
        eos := eos + 1;
        if eos == |ts| || ts[eos] == Bar {
          size := size + HEAD;
        }
      } else {
        FactorRest(ts, eos, q);
        ghost var f := ParseFactor(ts, eos, q).value;
        var sz, next := SizeFactor(ts, eos, q);
        size := size + sz;
        eos, q := next, f.2;
        if eos < |ts| && ts[eos] != Bar {
          size := size + HEAD + 2;
        }
      }
    }
    RestNone();
  }

  method SizeFactor(ts: seq<Token>, i: nat, ghost q: nat) returns (size: nat, eos: nat)
    requires i < |ts| && ParseFactor(ts, i, q).Some?
    ensures size == Words(ParseFactor(ts, i, q).value.0) && eos == ParseFactor(ts, i, q).value.1
  {
    hide ParseClass, Words;
    ghost var atom := ParseAtom(ts, i, q).value.0;
    eos := i;
    if ts[eos] == LBrack {
      eos := eos + 1;
      size := HEAD + 1;
      if eos < |ts| && ts[eos] == Caret {
        eos := eos + 1;
      }
      var sz;
      sz, eos := SizeClass(ts, eos);
      size := size + sz;
      WordsOne(atom.kind, atom.a);
    } else if ts[eos] == Interp {
      eos, size := eos + 1, 0;
      NoWords(atom);
    } else {
      eos, size := eos + 1, HEAD + 1;
      NoWords(atom.a);
      WordsOne(atom.kind, atom.a);
    }
    if eos < |ts| && ts[eos] == Asterisk {
      size := size + HEAD + 1;
      eos := eos + 1;
      WordsOne(Star, atom);
    }
  }

  lemma NoWords(t: Tree)
    ensures t.Lit? || t.Ext? ==> Words(t) == 0
  {
  }

  lemma SizeStarts(ts: seq<Token>, alts: seq<seq<Tree>>)
    requires ParseFrom(ts, 0, 1).Some? && alts == ParseFrom(ts, 0, 1).value.alts
    ensures HEAD + 2 + HEAD + (if ts != [] && ts[0] == Bar then HEAD else 0) + Rest(alts) == LiteralWords(ts, alts)
  {
    SumWords(alts);
    FirstEmpty(ts, 0, 1);
    hide AltTree, Nest;
    WordsTwo(Sum, Leaf(Null), SumTree(alts));
    EmptyWords();
  }

  lemma EmptyWords()
    ensures AltTree([]) == Leaf(Empty) && Words(Leaf(Empty)) == HEAD
  {
  }

  /** An alternative has no factors from here on exactly if a bar or the end comes. */
  lemma FirstEmpty(ts: seq<Token>, i: nat, q: nat)
    requires i <= |ts| && ParseFrom(ts, i, q).Some?
    ensures ParseFrom(ts, i, q).value.alts[0] == [] <==> i == |ts| || ts[i] == Bar
  {
  }

  lemma BarRest(ts: seq<Token>, i: nat, q: nat)
    requires i < |ts| && ts[i] == Bar && ParseFrom(ts, i, q).Some?
    ensures ParseFrom(ts, i + 1, q).Some?
    ensures ParseFrom(ts, i, q).value.alts == [[]] + ParseFrom(ts, i + 1, q).value.alts
    ensures ParseFrom(ts, i, q).value.interps == ParseFrom(ts, i + 1, q).value.interps
    ensures Rest(ParseFrom(ts, i, q).value.alts)
            == HEAD + 2 + (if i + 1 == |ts| || ts[i + 1] == Bar then HEAD else 0) + Rest(ParseFrom(ts, i + 1, q).value.alts)
  {
    var alts := ParseFrom(ts, i + 1, q).value.alts;
    FirstEmpty(ts, i + 1, q);
    hide AltTree, ParseFactor;
    EmptyWords();
    assert ([[]] + alts)[1..] == alts;
  }

  lemma FactorRest(ts: seq<Token>, i: nat, q: nat)
    requires i < |ts| && ts[i] != Bar && ParseFrom(ts, i, q).Some?
    ensures ParseFactor(ts, i, q).Some?
    ensures var f := ParseFactor(ts, i, q).value;
            && ParseFrom(ts, f.1, f.2).Some?
            && var rest := ParseFrom(ts, f.1, f.2).value;
               && ParseFrom(ts, i, q).value.alts == [[f.0] + rest.alts[0]] + rest.alts[1..]
               && ParseFrom(ts, i, q).value.interps == rest.interps
               && Rest(ParseFrom(ts, i, q).value.alts)
                  == Words(f.0) + (if f.1 < |ts| && ts[f.1] != Bar then HEAD + 2 else 0) + Rest(rest.alts)
  {
    var f := ParseFactor(ts, i, q).value;
    var rest := ParseFrom(ts, f.1, f.2).value;
    FirstEmpty(ts, f.1, f.2);
    AltUnfold(f.0, rest.alts[0]);
    hide AltTree, ParseFactor;
    assert ([[f.0] + rest.alts[0]] + rest.alts[1..])[1..] == rest.alts[1..];
  }

  lemma RestNone()
    ensures Rest([[]]) == 0
  {
  }

  // ----- Memory -----

  datatype Value = Ptr(p: nat) | RuneVal(c: nat) | ExtVal(k: nat)

  /** A word of the memory for constructors. One that has not been written is `Unset`;
      a hole is a word to be written later. */
  datatype Word = Unset | Con(kind: Kind, numargs: nat) | Val(v: Value)

  /** The value stands for the tree. */
  ghost predicate TreeAt(m: seq<Word>, v: Value, t: Tree)
    decreases t, 0
  {
    match t
    case Lit(c) => v == RuneVal(c)
    case Ext(k) => v == ExtVal(k)
    case Leaf(kind) => v.Ptr? && v.p < |m| && m[v.p] == Con(kind, 0)
    case One(kind, a) => v.Ptr? && v.p + HEAD < |m| && m[v.p] == Con(kind, 1) && WordAt(m, v.p + HEAD, a)
    case Two(kind, a, b) =>
      v.Ptr? && v.p + HEAD + 1 < |m| && m[v.p] == Con(kind, 2) && WordAt(m, v.p + HEAD, a) && WordAt(m, v.p + HEAD + 1, b)
  }

  ghost predicate WordAt(m: seq<Word>, p: nat, t: Tree)
    decreases t, 1
  {
    p < |m| && m[p].Val? && TreeAt(m, m[p].v, t)
  }

  /** Words that have been written stay. */
  ghost predicate Extends(m: seq<Word>, m': seq<Word>) {
    |m| == |m'| && forall k :: 0 <= k < |m| && m[k] != Unset ==> m'[k] == m[k]
  }

  ghost predicate Clean(m: seq<Word>, p: nat) {
    forall k :: p <= k < |m| ==> m[k] == Unset
  }

  /** Nothing before `p` has changed. */
  ghost predicate Grown(m: seq<Word>, m': seq<Word>, p: nat) {
    |m| == |m'| && forall k :: 0 <= k < p && k < |m| ==> m'[k] == m[k]
  }

  lemma GrownExtends(m: seq<Word>, m': seq<Word>, p: nat)
    requires Grown(m, m', p) && Clean(m, p)
    ensures Extends(m, m')
  {
  }

  lemma ExtendsTwice(m: seq<Word>, m1: seq<Word>, m2: seq<Word>)
    requires Extends(m, m1) && Extends(m1, m2)
    ensures Extends(m, m2)
  {
  }

  lemma {:induction false} TreeStays(m: seq<Word>, m': seq<Word>, v: Value, t: Tree)
    requires TreeAt(m, v, t) && Extends(m, m')
    ensures TreeAt(m', v, t)
    decreases t
  {
    match t
    case One(_, a) => TreeStays(m, m', m[v.p + HEAD].v, a);
    case Two(_, a, b) =>
      TreeStays(m, m', m[v.p + HEAD].v, a);
      TreeStays(m, m', m[v.p + HEAD + 1].v, b);
    case _ =>
  }

  lemma WordStays(m: seq<Word>, m': seq<Word>, p: nat, t: Tree)
    requires WordAt(m, p, t) && Extends(m, m')
    ensures WordAt(m', p, t)
  {
    TreeStays(m, m', m[p].v, t);
  }

  /** From the word at `h`, linked nodes of one kind hold the trees in order; the last
      link is the word at `e`. */
  ghost predicate Chain(m: seq<Word>, kind: Kind, h: nat, e: nat, ts: seq<Tree>)
    decreases |ts|
  {
    if ts == [] then h == e
    else
      && h < |m| && m[h].Val? && m[h].v.Ptr? && NodeAt(m, kind, m[h].v.p, ts[0])
      && Chain(m, kind, m[h].v.p + HEAD + 1, e, ts[1..])
  }

  /** A node whose first argument is the tree. */
  ghost predicate NodeAt(m: seq<Word>, kind: Kind, p: nat, t: Tree) {
    p + HEAD + 1 < |m| && m[p] == Con(kind, 2) && WordAt(m, p + HEAD, t)
  }

  lemma {:induction false} ChainStays(m: seq<Word>, m': seq<Word>, kind: Kind, h: nat, e: nat, ts: seq<Tree>)
    requires Chain(m, kind, h, e, ts) && Extends(m, m')
    ensures Chain(m', kind, h, e, ts)
    decreases |ts|
  {
    hide WordAt;
    if ts != [] {
      WordStays(m, m', m[h].v.p + HEAD, ts[0]);
      ChainStays(m, m', kind, m[h].v.p + HEAD + 1, e, ts[1..]);
    }
  }

  /** Filling the last link with a further node. */
  lemma {:induction false} ChainSnoc(m: seq<Word>, kind: Kind, h: nat, e: nat, ts: seq<Tree>, p: nat, t: Tree)
    requires Chain(m, kind, h, e, ts) && e < |m| && m[e] == Val(Ptr(p)) && NodeAt(m, kind, p, t)
    ensures Chain(m, kind, h, p + HEAD + 1, ts + [t])
    decreases |ts|
  {
    hide NodeAt;
    if ts == [] {
      assert (ts + [t])[1..] == [];
    } else {
      assert (ts + [t])[1..] == ts[1..] + [t];
      ChainSnoc(m, kind, m[h].v.p + HEAD + 1, e, ts[1..], p, t);
    }
  }

  /** Filling the last link with the last tree. */
  lemma {:induction false} ChainClose(m: seq<Word>, kind: Kind, h: nat, e: nat, ts: seq<Tree>, t: Tree)
    requires Chain(m, kind, h, e, ts) && WordAt(m, e, t)
    ensures WordAt(m, h, Nest(kind, ts, t))
    decreases |ts|
  {
    if ts != [] {
      ChainClose(m, kind, m[h].v.p + HEAD + 1, e, ts[1..], t);
    }
  }

  // ----- The emitting pass -----

  /** From `p` to `p'` the tree has been built; nothing else has changed. */
  ghost predicate Built(m: seq<Word>, m': seq<Word>, p: nat, p': nat, v: Value, t: Tree) {
    Grown(m, m', p) && Clean(m', p') && p' == p + Words(t) && TreeAt(m', v, t)
  }

  /** From `p` to `p'` a node has been built whose first argument is the tree, which was
      there before; its second argument is a hole. */
  ghost predicate Linked(m: seq<Word>, m': seq<Word>, kind: Kind, p: nat, p': nat, t: Tree) {
    && Grown(m, m', p) && Clean(m', p') && p + HEAD + 2 <= p' <= |m'|
    && NodeAt(m', kind, p, t) && m'[p + HEAD + 1] == Unset
  }

  ghost function Filled(m: seq<Word>, p: nat, v: Value): seq<Word>
    requires p < |m|
  {
    m[p := Val(v)]
  }

  lemma FilledExtends(m: seq<Word>, p: nat, v: Value)
    requires p < |m| && m[p] == Unset
    ensures Extends(m, Filled(m, p, v)) && Filled(m, p, v)[p] == Val(v)
    ensures forall q :: p < q && Clean(m, q) ==> Clean(Filled(m, p, v), q)
    ensures forall q: nat :: q <= p ==> Grown(m, Filled(m, p, v), q)
  {
  }

  lemma GrownTwice(m: seq<Word>, m1: seq<Word>, m2: seq<Word>, p: nat, q: nat)
    requires Grown(m, m1, p) && Grown(m1, m2, q) && p <= q
    ensures Grown(m, m2, p)
  {
  }

  lemma CleanUp(m: seq<Word>, p: nat, q: nat)
    requires Clean(m, p) && p <= q
    ensures Clean(m, q)
  {
  }

  class Builder {
    const mem: array<Word>
    var pout: nat

    constructor (mem: array<Word>, pout: nat)
      ensures this.mem == mem && this.pout == pout
    {
      this.mem, this.pout := mem, pout;
    }

    /** Takes the words of a constructor and writes its head. */
    method Alloc(kind: Kind, n: nat) returns (p: nat)
      requires pout + HEAD + n <= mem.Length && Clean(mem[..], pout)
      modifies this, mem
      ensures p == old(pout) && pout == p + HEAD + n
      ensures mem[..][p] == Con(kind, n) && Grown(old(mem[..]), mem[..], p) && Clean(mem[..], p + 1)
    {
      p := pout;
      mem[p] := Con(kind, n);
      pout := p + HEAD + n;
    }

    method Fill(p: nat, v: Value)
      requires p < mem.Length
      modifies mem
      ensures mem[..] == Filled(old(mem[..]), p, v)
    {
      mem[p] := Val(v);
    }

    method NewLeaf(kind: Kind) returns (v: Value)
      requires pout + HEAD <= mem.Length && Clean(mem[..], pout)
      modifies this, mem
      ensures Built(old(mem[..]), mem[..], old(pout), pout, v, Leaf(kind))
    {
      var p := Alloc(kind, 0);
      v := Ptr(p);
    }

    method NewOne(kind: Kind, a: Value, ghost t: Tree) returns (v: Value)
      requires pout + HEAD + 1 <= mem.Length && Clean(mem[..], pout) && TreeAt(mem[..], a, t)
      modifies this, mem
      ensures Grown(old(mem[..]), mem[..], old(pout)) && Clean(mem[..], pout) && pout == old(pout) + HEAD + 1
      ensures TreeAt(mem[..], v, One(kind, t))
    {
      hide Grown, Clean, TreeAt, Extends;
      ghost var m0 := mem[..];
      var p := Alloc(kind, 1);
      ghost var m1 := mem[..];
      CleanAt(m1, p + 1, p + HEAD);
      Fill(p + HEAD, a);
      OneFilled(m0, m1, mem[..], p, kind, a, t);
      v := Ptr(p);
    }

    method NewLink(kind: Kind, a: Value, ghost t: Tree) returns (p: nat)
      requires pout + HEAD + 2 <= mem.Length && Clean(mem[..], pout) && TreeAt(mem[..], a, t)
      modifies this, mem
      ensures p == old(pout) && pout == p + HEAD + 2
      ensures Linked(old(mem[..]), mem[..], kind, p, pout, t)
    {
      hide Grown, Clean, TreeAt, Extends, Linked;
      ghost var m0 := mem[..];
      p := Alloc(kind, 2);
      ghost var m1 := mem[..];
      CleanAt(m1, p + 1, p + HEAD);
      Fill(p + HEAD, a);
      LinkFilled(m0, m1, mem[..], p, kind, a, t);
    }

    /** A rune or a range of a class. */
    method EmitItem(ts: seq<Token>, i: nat) returns (v: Value)
      requires ParseItem(ts, i).Some? && Clean(mem[..], pout) && pout + Words(ParseItem(ts, i).value.0) <= mem.Length
      modifies this, mem
      ensures Built(old(mem[..]), mem[..], old(pout), pout, v, ParseItem(ts, i).value.0)
    {
      hide Grown, Clean, Extends, Words;
      ghost var m0 := mem[..];
      ItemWords(ts, i);
      if ts[i + 1] == Dash {
        var p := NewLink(ClassRange, RuneVal(RuneOf(ts[i])), Lit(RuneOf(ts[i])));
        ghost var m1 := mem[..];
        Fill(p + HEAD + 1, RuneVal(RuneOf(ts[i + 2])));
        RangeFilled(m0, m1, mem[..], p, pout, Lit(RuneOf(ts[i])), RuneOf(ts[i + 2]));
        v := Ptr(p);
      } else {
        v := NewOne(ClassSymbol, RuneVal(RuneOf(ts[i])), Lit(RuneOf(ts[i])));
      }
    }

    /** The loop over the items of a class. The hole is filled with the last item, or with
        the sum of an item and a new hole. */
    method EmitItems(ts: seq<Token>, i: nat, pclass0: nat) returns (eos: nat)
      requires ParseItems(ts, i).Some? && Hole(mem[..], pclass0, pout)
      requires pout + Words(ParseItems(ts, i).value.0) <= mem.Length
      modifies this, mem
      ensures eos == ParseItems(ts, i).value.1
      ensures FilledIn(old(mem[..]), mem[..], old(pout), pout, pclass0, ParseItems(ts, i).value.0)
    {
      hide TreeAt, WordAt, Extends, Chain, Words, ParseItem, ParseItems, Hole, Built, Linked, FilledIn, Nest, Open;
      ghost var m0, p0, all, last := mem[..], pout, ParseItems(ts, i).value.0, ParseItems(ts, i).value.1;
      ghost var items: seq<Tree> := [];
      var pclass: nat := pclass0;
      var done := false;
      eos := i;
      OpenStarts(m0, ClassSum, pclass0, p0);
      NestNone(ClassSum, all);
      while !done
        invariant !done ==> ParseItems(ts, eos).Some? && ParseItems(ts, eos).value.1 == last
                            && Open(m0, mem[..], ClassSum, pclass0, pclass, items, p0, pout)
                            && Nest(ClassSum, items, ParseItems(ts, eos).value.0) == all
                            && pout + Words(ParseItems(ts, eos).value.0) == p0 + Words(all)
        invariant done ==> eos == last && FilledIn(m0, mem[..], p0, pout, pclass0, all)
        decreases !done, |ts| - eos
      {
        ghost var m1, p1, rest := mem[..], pout, ParseItems(ts, eos).value.0;
        ItemsUnfold(ts, eos);
        ghost var item := ParseItem(ts, eos).value.0;
        OpenHole(m0, m1, ClassSum, pclass0, pclass, items, p0, p1);
        var cl := EmitItem(ts, eos);
        ghost var m2, p2 := mem[..], pout;
        BuiltParts(m1, m2, p1, p2, cl, item);
        eos := ParseItem(ts, eos).value.1;
        if ts[eos] != RBrack {
          var sum := NewLink(ClassSum, cl, item);
          ghost var m3 := mem[..];
          Fill(pclass, Ptr(sum));
          OpenLink(m0, m1, m2, m3, mem[..], ClassSum, pclass0, pclass, items, p0, p1, p2, pout, item);
          NestSnoc(ClassSum, items, item, ParseItems(ts, eos).value.0);
          items := items + [item];
          pclass := sum + HEAD + 1;
        } else {
          Fill(pclass, cl);
          OpenClose(m0, m1, m2, mem[..], ClassSum, pclass0, pclass, items, p0, p1, p2, cl, item, all);
          eos := eos + 1;
          done := true;
        }
      }
    }

    method EmitClass(ts: seq<Token>, i: nat, kind: Kind) returns (v: Value, eos: nat)
      requires ParseClass(ts, i).Some? && Clean(mem[..], pout)
      requires pout + HEAD + 1 + Words(ParseClass(ts, i).value.0) <= mem.Length
      modifies this, mem
      ensures eos == ParseClass(ts, i).value.1
      ensures Built(old(mem[..]), mem[..], old(pout), pout, v, One(kind, ParseClass(ts, i).value.0))
    {
      hide Grown, Clean, TreeAt, WordAt, Extends, Words, ParseItems, Hole, Built, FilledIn;
      ghost var cl, m0, p0 := ParseClass(ts, i).value.0, mem[..], pout;
      var reco := Alloc(kind, 1);
      var pclass := reco + HEAD;
      ghost var m1, p1 := mem[..], pout;
      AllocHole(m0, m1, p0);
      if ts[i] == RBrack {
        LeafWords(ClassEmpty);
        HoleClean(m1, pclass, p1);
        var e := NewLeaf(ClassEmpty);
        ghost var m2 := mem[..];
        BuiltParts(m1, m2, p1, pout, e, cl);
        Fill(pclass, e);
        TreeFilled(m1, m2, mem[..], p1, pout, pclass, e, cl);
        eos := i + 1;
      } else {
        eos := EmitItems(ts, i, pclass);
      }
      v := Ptr(reco);
      OneBuilt(m0, m1, mem[..], p0, pout, kind, cl);
    }

    method EmitFactor(ts: seq<Token>, i: nat, interp: nat) returns (re: Value, eos: nat, interp': nat)
      requires i < |ts| && ParseFactor(ts, i, interp).Some? && Clean(mem[..], pout)
      requires pout + Words(ParseFactor(ts, i, interp).value.0) <= mem.Length
      modifies this, mem
      ensures eos == ParseFactor(ts, i, interp).value.1 && interp' == ParseFactor(ts, i, interp).value.2
      ensures Built(old(mem[..]), mem[..], old(pout), pout, re, ParseFactor(ts, i, interp).value.0)
    {
      hide Built, Words, TreeAt, Clean, Grown, ParseAtom;
      ghost var atom, m0, p0 := ParseAtom(ts, i, interp).value, mem[..], pout;
      WordsOne(Star, atom.0);
      re, eos, interp' := EmitAtom(ts, i, interp);
      ghost var m1 := mem[..];
      BuiltParts(m0, m1, p0, pout, re, atom.0);
      if eos < |ts| && ts[eos] == Asterisk {
        re := NewOne(Star, re, atom.0);
        StarBuilt(m0, m1, mem[..], p0, pout - HEAD - 1, re, atom.0);
        eos := eos + 1;
      }
    }

    method EmitAtom(ts: seq<Token>, i: nat, interp: nat) returns (re: Value, eos: nat, interp': nat)
      requires i < |ts| && ParseAtom(ts, i, interp).Some? && Clean(mem[..], pout)
      requires pout + Words(ParseAtom(ts, i, interp).value.0) <= mem.Length
      modifies this, mem
      ensures eos == ParseAtom(ts, i, interp).value.1 && interp' == ParseAtom(ts, i, interp).value.2
      ensures Built(old(mem[..]), mem[..], old(pout), pout, re, ParseAtom(ts, i, interp).value.0)
    {
      hide Words, Clean, Grown, ParseClass;
      ghost var m0, p0, atom := mem[..], pout, ParseAtom(ts, i, interp).value.0;
      eos, interp' := i, interp;
      if ts[eos] == LBrack {
        eos := eos + 1;
        var negated := eos < |ts| && ts[eos] == Caret;
        if negated {
          eos := eos + 1;
        }
        WordsOne(atom.kind, atom.a);
        re, eos := EmitClass(ts, eos, if negated then NegClass else Class);
      } else if ts[eos] == Interp {
        re, eos, interp' := ExtVal(interp), eos + 1, interp + 1;
        NoWords(atom);
        NothingGrown(m0, p0);
      } else {
        NoWords(atom.a);
        WordsOne(Symbol, atom.a);
        re := NewOne(Symbol, RuneVal(RuneOf(ts[eos])), atom.a);
        eos := eos + 1;
      }
    }

    /** A sum whose first argument is the finished alternative. */
    method NewSum(term: Option<Value>, ghost t: Tree) returns (resum: nat)
      requires Clean(mem[..], pout) && (if term.Some? then TreeAt(mem[..], term.value, t) else t == Leaf(Empty))
      requires pout + HEAD + 2 + (if term.Some? then 0 else HEAD) <= mem.Length
      modifies this, mem
      ensures resum == old(pout) && pout == resum + HEAD + 2 + (if term.Some? then 0 else HEAD)
      ensures Linked(old(mem[..]), mem[..], Sum, resum, pout, t)
    {
      hide Linked, TreeAt, Clean, Grown, Built;
      if term.Some? {
        resum := NewLink(Sum, term.value, t);
      } else {
        resum := NewSumOf(Empty);
      }
    }

    /** The factor ends its alternative or is linked to the next one. */
    method AddFactor(re: Value, ghost t: Tree, more: bool, term: Option<Value>, pfactor: Option<nat>, ghost a: Ctx)
      returns (term': Option<Value>, pfactor': Option<nat>)
      requires Before(a, mem[..], pout) && TermOpen(a, term, pfactor) && TreeAt(mem[..], re, t)
      requires more ==> pout + HEAD + 2 <= mem.Length
      modifies this, mem
      ensures pout == old(pout) + if more then HEAD + 2 else 0
      ensures var b := a.(m := mem[..], p := pout, fs := a.fs + [t]);
              AltsOpen(b) && if more then TermOpen(b, term', pfactor') else TermClosed(b, term')
    {
      hide TreeAt, AltsOpen, Before, TermOpen, TermClosed, Linked, Clean;
      ghost var m2, p2 := mem[..], pout;
      BeforeParts(a, m2, p2, term, pfactor);
      term', pfactor' := term, pfactor;
      if more {
        var pr := NewLink(Product, re, t);
        ghost var m3 := mem[..];
        if pfactor.Some? {
          Fill(pfactor.value, Ptr(pr));
          FactorLinked(a, m2, m3, mem[..], p2, t, term, pfactor.value);
        } else {
          term' := Some(Ptr(pr));
          FirstLinked(a, m2, m3, p2, t, term, pfactor);
        }
        pfactor' := Some(pr + HEAD + 1);
      } else {
        if pfactor.Some? {
          Fill(pfactor.value, re);
          FactorClosed(a, m2, mem[..], p2, re, t, term, pfactor.value);
        } else {
          term' := Some(re);
          FirstClosed(a, m2, p2, re, t, term, pfactor);
        }
      }
    }

    /** A bar: the finished alternative goes into a sum, which fills the hole; after the
        last bar an empty alternative fills the hole of that sum. */
    method EndAlternative(term: Option<Value>, paddend: nat, more: bool, ghost a: Ctx, ghost all: seq<seq<Tree>>) returns (paddend': nat, ghost b: Ctx)
      requires AltsOpen(a) && TermClosed(a, term) && a.m == mem[..] && a.p == pout && a.e == paddend
      requires pout + HEAD + 2 + (if a.fs == [] then HEAD else 0) + (if more then 0 else HEAD) <= mem.Length
      requires !more ==> all == a.done + [a.fs] + [[]]
      modifies this, mem
      ensures pout == old(pout) + HEAD + 2 + (if a.fs == [] then HEAD else 0) + (if more then 0 else HEAD)
      ensures b == a.(m := mem[..], p := pout, done := a.done + [a.fs], fs := [], e := b.e)
      ensures if more then AltsOpen(b) && b.e == paddend' else Finished(b, all)
    {
      hide TreeAt, AltsOpen, TermClosed, Linked, Clean, Finished, AltTree, Grown, SumTree;
      ClosedParts(a, term);
      var resum := NewSum(term, AltTree(a.fs));
      ghost var m3 := mem[..];
      Fill(paddend, Ptr(resum));
      BarLinked(a, m3, mem[..], pout);
      b := a.(m := mem[..], p := pout, done := a.done + [a.fs], fs := [], e := resum + HEAD + 1);
      paddend' := resum + HEAD + 1;
      if !more {
        OpenParts(b);
        var reco := NewLeaf(Empty);
        ghost var m4 := mem[..];
        Fill(resum + HEAD + 1, reco);
        LastEmpty(b, m4, mem[..], pout, reco, all);
        b := b.(m := mem[..], p := pout);
      }
    }

    /** The emitting loop. */
    method EmitLiteral(ts: seq<Token>) returns (v: Value)
      requires ParseFrom(ts, 0, 1).Some? && Clean(mem[..], pout)
      requires pout + LiteralWords(ts, ParseFrom(ts, 0, 1).value.alts) <= mem.Length
      modifies this, mem
      ensures pout == old(pout) + LiteralWords(ts, ParseFrom(ts, 0, 1).value.alts)
      ensures v == Ptr(old(pout)) && Grown(old(mem[..]), mem[..], old(pout))
      ensures TreeAt(mem[..], v, LiteralTree(ParseFrom(ts, 0, 1).value.alts)) <==> ts != []
    {
      hide TreeAt, AltsOpen, TermOpen, TermClosed, Linked, Clean, Grown, Rest, LiteralWords, LiteralTree, ParseFactor, ParseFrom, AltTree, TermAt, Finished, Before, Built, Owed, Prefix, SumTree;
      ghost var all, q := ParseFrom(ts, 0, 1).value.alts, 1;
      ghost var end, m0 := pout + LiteralWords(ts, all), mem[..];
      SizeStarts(ts, all);
      OwedAtStart(ts);
      var resum := NewSumOf(Null);
      ghost var first := mem[..];
      ghost var a := Ctx(first, pout, resum + HEAD + 1, resum + HEAD + 1, [], [], first, pout);
      Starts(a, m0, resum, ts, all);
      v := Ptr(resum);
      var term: Option<Value>, pfactor: Option<nat>, paddend: nat := None, None, resum + HEAD + 1;
      var eos, interp := 0, 1;
      ghost var done := false;
      while eos < |ts|
        invariant eos <= |ts| && interp == q && ParseFrom(ts, eos, q).Some?
        invariant a.m == mem[..] && a.p == pout && a.first == first && a.h == resum + HEAD + 1 && a.p0 == resum + HEAD + 2 + HEAD
        invariant done ==> eos == |ts| && term.None? && Finished(a, all) && ts != []
        invariant ts == [] ==> a.m == first && a.fs == []
        invariant !done ==> a.e == paddend && AltsOpen(a) && TermAt(a, ts, eos, term, pfactor) && Prefix(a, ts, eos, q, all)
        invariant pout + Rest(ParseFrom(ts, eos, q).value.alts) + Owed(a, ts, eos) == end
        decreases |ts| - eos
      {
        if ts[eos] == Bar {
          BarRest(ts, eos, q);
          BarPrefix(a, ts, eos, q, all, term, pfactor);
          OwedAtBar(a, ts, eos);
          ghost var b;
          paddend, b := EndAlternative(term, paddend, eos + 1 < |ts|, a, all);
          a := b;
          term, pfactor := None, None;
          eos := eos + 1;
          done := eos == |ts|;
          OwedAfterBar(a, ts, eos);
          NoTerm(a, ts, eos);
        } else {
          FactorRest(ts, eos, q);
          OwedAtFactor(a, ts, eos);
          OpenAtFactor(a, ts, eos, term, pfactor);
          ghost var f := ParseFactor(ts, eos, q).value;
          FactorPrefix(a, ts, eos, q, all);
          OpenParts(a);
          var re, next;
          re, next, interp := EmitFactor(ts, eos, interp);
          BuiltParts(a.m, mem[..], a.p, pout, re, f.0);
          BuiltBefore(a, mem[..], pout, re, f.0);
          var more := next < |ts| && ts[next] != Bar;
          term, pfactor := AddFactor(re, f.0, more, term, pfactor, a);
          a := a.(m := mem[..], p := pout, fs := a.fs + [f.0]);
          eos, q := next, f.2;
          OwedAfterFactor(a, ts, eos);
          TermNow(a, ts, eos, term, pfactor);
        }
      }
      RestAtEnd(ts, q);
      OwedAtEnd(a, ts, eos);
      if !done {
        ClosedAtEnd(a, ts, q, all, term, pfactor);
      }
      if term.Some? {
        OpenParts(a);
        Fill(paddend, term.value);
        LastFilled(a, mem[..], term, all);
        a := a.(m := mem[..]);
      }
      Literal(m0, first, a, resum, ts, all);
    }

    /** A sum whose first argument is a constructor without arguments. */
    method NewSumOf(kind: Kind) returns (resum: nat)
      requires Clean(mem[..], pout) && pout + HEAD + 2 + HEAD <= mem.Length
      modifies this, mem
      ensures resum == old(pout) && pout == resum + HEAD + 2 + HEAD
      ensures Linked(old(mem[..]), mem[..], Sum, resum, pout, Leaf(kind))
    {
      hide Linked, TreeAt, Clean, Grown, Built;
      ghost var m0 := mem[..];
      resum := Alloc(Sum, 2);
      ghost var m1 := mem[..];
      CleanUp(m1, resum + 1, pout);
      var reco := NewLeaf(kind);
      ghost var m2 := mem[..];
      LeafWords(kind);
      BuiltParts(m1, m2, resum + HEAD + 2, pout, reco, Leaf(kind));
      Fill(resum + HEAD, reco);
      LeafLinked(m0, m1, m2, mem[..], resum, reco, kind);
    }
  }

  // ----- The state of the loop -----

  /** Memory `first` when the loop started and `m` now; the hole `h` the alternatives
      are linked into and the last hole `e`; the finished alternatives and the factors
      of the current one. */
  datatype Ctx = Ctx(first: seq<Word>, p0: nat, h: nat, e: nat, done: seq<seq<Tree>>, fs: seq<Tree>, m: seq<Word>, p: nat)

  ghost predicate AltsOpen(a: Ctx) {
    Open(a.first, a.m, Sum, a.h, a.e, AltTrees(a.done), a.p0, a.p)
  }

  /** The factors so far are linked and wait for the next one. */
  ghost predicate TermOpen(a: Ctx, term: Option<Value>, pfactor: Option<nat>) {
    if a.fs == [] then term.None? && pfactor.None? else
      && term.Some? && term.value.Ptr? && pfactor.Some?
      && a.p0 <= pfactor.value && a.e < pfactor.value && Hole(a.m, pfactor.value, a.p)
      && NodeAt(a.m, Product, term.value.p, a.fs[0])
      && Chain(a.m, Product, term.value.p + HEAD + 1, pfactor.value, a.fs[1..])
  }

  /** The current alternative is complete. */
  ghost predicate TermClosed(a: Ctx, term: Option<Value>) {
    if a.fs == [] then term.None? else term.Some? && TreeAt(a.m, term.value, AltTree(a.fs))
  }

  predicate AtEnd(ts: seq<Token>, i: nat) { i >= |ts| || ts[i] == Bar }

  ghost predicate TermAt(a: Ctx, ts: seq<Token>, i: nat, term: Option<Value>, pfactor: Option<nat>) {
    if AtEnd(ts, i) then TermClosed(a, term) else TermOpen(a, term, pfactor)
  }

  /** A factor has been built since. */
  ghost predicate Before(a: Ctx, m: seq<Word>, p: nat) {
    AltsOpen(a) && Grown(a.m, m, a.p) && Clean(m, p) && a.p <= p <= |m|
  }

  ghost predicate Finished(a: Ctx, all: seq<seq<Tree>>) {
    && all != [] && Extends(a.first, a.m) && WordAt(a.m, a.h, SumTree(all)) && a.h < a.p0
    && forall k :: 0 <= k < a.p0 && k < |a.first| && k != a.h ==> a.m[k] == a.first[k]
  }

  /** The words of an empty alternative before a bar have been counted but not taken. */
  ghost function Owed(a: Ctx, ts: seq<Token>, i: nat): nat {
    if i < |ts| && ts[i] == Bar && a.fs == [] then HEAD else 0
  }

  /** What has been built and what is still to come make up the literal. */
  ghost predicate Prefix(a: Ctx, ts: seq<Token>, i: nat, q: nat, all: seq<seq<Tree>>) {
    && i <= |ts| && ParseFrom(ts, i, q).Some?
    && (var rest := ParseFrom(ts, i, q).value.alts; a.done + [a.fs + rest[0]] + rest[1..] == all)
    && (i == |ts| && a.fs == [] ==> ts == [])
  }

  /** A word to be filled later, and nothing written from `p` on. */
  ghost predicate Hole(m: seq<Word>, h: nat, p: nat) {
    h < p <= |m| && m[h] == Unset && Clean(m, p)
  }

  /** From `p` to `p'` the tree has been built and the hole filled with it. */
  ghost predicate FilledIn(m: seq<Word>, m': seq<Word>, p: nat, p': nat, hole: nat, t: Tree) {
    && Extends(m, m') && Clean(m', p') && p' == p + Words(t) <= |m'| && WordAt(m', hole, t)
    && forall k :: 0 <= k < p && k < |m| && k != hole ==> m'[k] == m[k]
  }

  /** Since `m0`, where `p0` words were in use, nodes have been linked into the hole `h`;
      the last link is the hole `e`. */
  ghost predicate Open(m0: seq<Word>, m: seq<Word>, kind: Kind, h: nat, e: nat, ts: seq<Tree>, p0: nat, p: nat) {
    && Extends(m0, m) && Hole(m, e, p) && Chain(m, kind, h, e, ts) && h < p0 <= p && (e == h || p0 <= e)
    && forall k :: 0 <= k < p0 && k < |m0| && k != h ==> m[k] == m0[k]
  }

  lemma OpenStarts(m: seq<Word>, kind: Kind, h: nat, p: nat)
    requires Hole(m, h, p)
    ensures Open(m, m, kind, h, h, [], p, p)
  {
  }

  lemma OpenHole(m0: seq<Word>, m: seq<Word>, kind: Kind, h: nat, e: nat, ts: seq<Tree>, p0: nat, p: nat)
    requires Open(m0, m, kind, h, e, ts, p0, p)
    ensures Hole(m, e, p) && Clean(m, p) && e < |m|
  {
  }

  lemma HoleClean(m: seq<Word>, h: nat, p: nat)
    requires Hole(m, h, p)
    ensures Clean(m, p) && h < |m|
  {
  }

  lemma BuiltParts(m: seq<Word>, m': seq<Word>, p: nat, p': nat, v: Value, t: Tree)
    requires Built(m, m', p, p', v, t)
    ensures p' == p + Words(t) && TreeAt(m', v, t) && Clean(m', p') && |m'| == |m| && Grown(m, m', p)
  {
  }

  lemma NestNone(kind: Kind, t: Tree)
    ensures Nest(kind, [], t) == t
  {
  }

  lemma {:induction false} NestSnoc(kind: Kind, ts: seq<Tree>, x: Tree, last: Tree)
    ensures Nest(kind, ts + [x], last) == Nest(kind, ts, Two(kind, x, last))
    decreases |ts|
  {
    if ts != [] {
      assert (ts + [x])[1..] == ts[1..] + [x];
      NestSnoc(kind, ts[1..], x, last);
    }
  }

  lemma ItemsUnfold(ts: seq<Token>, i: nat)
    requires ParseItems(ts, i).Some?
    ensures ParseItem(ts, i).Some? && i < ParseItem(ts, i).value.1 < |ts|
    ensures var item := ParseItem(ts, i).value;
            if ts[item.1] == RBrack then ParseItems(ts, i) == Some((item.0, item.1 + 1))
            else
              && ParseItems(ts, item.1).Some?
              && ParseItems(ts, i) == Some((Two(ClassSum, item.0, ParseItems(ts, item.1).value.0), ParseItems(ts, item.1).value.1))
              && Words(ParseItems(ts, i).value.0) == HEAD + 2 + Words(item.0) + Words(ParseItems(ts, item.1).value.0)
  {
  }

  lemma RangeFilled(m0: seq<Word>, m1: seq<Word>, m2: seq<Word>, p: nat, p': nat, a: Tree, c: nat)
    requires Linked(m0, m1, ClassRange, p, p', a) && Clean(m0, p) && m2 == Filled(m1, p + HEAD + 1, RuneVal(c))
    ensures Grown(m0, m2, p) && Clean(m2, p') && TreeAt(m2, Ptr(p), Two(ClassRange, a, Lit(c)))
  {
    hide Clean, Grown, Extends;
    FilledExtends(m1, p + HEAD + 1, RuneVal(c));
    WordStays(m1, m2, p + HEAD, a);
    GrownTwice(m0, m1, m2, p, p + HEAD + 1);
    assert WordAt(m2, p + HEAD + 1, Lit(c));
  }

  lemma AllocHole(m0: seq<Word>, m1: seq<Word>, p: nat)
    requires Clean(m0, p) && Grown(m0, m1, p) && Clean(m1, p + 1) && p + HEAD + 1 <= |m1|
    ensures Hole(m1, p + HEAD, p + HEAD + 1)
  {
  }

  lemma TreeFilled(m1: seq<Word>, m2: seq<Word>, m3: seq<Word>, p: nat, p': nat, hole: nat, v: Value, t: Tree)
    requires Hole(m1, hole, p) && Built(m1, m2, p, p', v, t) && p' <= |m2| && hole < |m2| && m3 == Filled(m2, hole, v)
    ensures FilledIn(m1, m3, p, p', hole, t)
  {
    hide TreeAt, Extends, Clean;
    GrownExtends(m1, m2, p);
    FilledExtends(m2, hole, v);
    ExtendsTwice(m1, m2, m3);
    TreeStays(m2, m3, v, t);
  }

  /** A constructor whose one argument was left as a hole. */
  lemma OneBuilt(m0: seq<Word>, m1: seq<Word>, m2: seq<Word>, p: nat, p': nat, kind: Kind, t: Tree)
    requires Clean(m0, p) && Grown(m0, m1, p) && p + HEAD + 1 <= |m1| && m1[p] == Con(kind, 1)
    requires FilledIn(m1, m2, p + HEAD + 1, p', p + HEAD, t)
    ensures Built(m0, m2, p, p', Ptr(p), One(kind, t))
  {
    hide WordAt;
  }

  lemma OpenLink(m0: seq<Word>, m1: seq<Word>, m2: seq<Word>, m3: seq<Word>, m4: seq<Word>, kind: Kind, h: nat, e: nat, ts: seq<Tree>,
                 p0: nat, p1: nat, p2: nat, p3: nat, t: Tree)
    requires Open(m0, m1, kind, h, e, ts, p0, p1) && Grown(m1, m2, p1) && p1 <= p2
    requires Linked(m2, m3, kind, p2, p3, t) && Clean(m2, p2) && e < |m3| && m4 == Filled(m3, e, Ptr(p2))
    ensures Open(m0, m4, kind, h, p2 + HEAD + 1, ts + [t], p0, p3)
  {
    hide TreeAt, WordAt, Extends, Chain, NodeAt;
    GrownExtends(m1, m2, p1);
    GrownExtends(m2, m3, p2);
    FilledExtends(m3, e, Ptr(p2));
    ExtendsTwice(m1, m2, m3);
    ExtendsTwice(m1, m3, m4);
    ExtendsTwice(m0, m1, m4);
    ChainStays(m1, m4, kind, h, e, ts);
    NodeStays(m3, m4, kind, p2, t);
    ChainSnoc(m4, kind, h, e, ts, p2, t);
  }

  lemma NodeStays(m: seq<Word>, m': seq<Word>, kind: Kind, p: nat, t: Tree)
    requires NodeAt(m, kind, p, t) && Extends(m, m')
    ensures NodeAt(m', kind, p, t)
  {
    hide WordAt;
    WordStays(m, m', p + HEAD, t);
  }

  lemma OpenClose(m0: seq<Word>, m1: seq<Word>, m2: seq<Word>, m3: seq<Word>, kind: Kind, h: nat, e: nat, ts: seq<Tree>,
                  p0: nat, p1: nat, p2: nat, v: Value, t: Tree, all: Tree)
    requires Open(m0, m1, kind, h, e, ts, p0, p1) && Built(m1, m2, p1, p2, v, t)
    requires e < |m2| && m3 == Filled(m2, e, v) && all == Nest(kind, ts, t) && p2 == p0 + Words(all) <= |m2|
    ensures FilledIn(m0, m3, p0, p2, h, all)
  {
    hide TreeAt, Extends, Chain, Nest;
    GrownExtends(m1, m2, p1);
    FilledExtends(m2, e, v);
    ExtendsTwice(m1, m2, m3);
    ExtendsTwice(m0, m1, m3);
    ChainStays(m1, m3, kind, h, e, ts);
    TreeStays(m2, m3, v, t);
    ChainClose(m3, kind, h, e, ts, t);
  }

  lemma CleanAt(m: seq<Word>, p: nat, q: nat)
    requires Clean(m, p) && p <= q < |m|
    ensures m[q] == Unset
  {
  }

  lemma LeafWords(kind: Kind)
    ensures Words(Leaf(kind)) == HEAD
  {
  }

  lemma OneFilled(m0: seq<Word>, m1: seq<Word>, m2: seq<Word>, p: nat, kind: Kind, a: Value, t: Tree)
    requires TreeAt(m0, a, t) && Clean(m0, p) && Grown(m0, m1, p) && Clean(m1, p + 1)
    requires p + HEAD < |m1| && m1[p] == Con(kind, 1) && m2 == Filled(m1, p + HEAD, a)
    ensures Grown(m0, m2, p) && Clean(m2, p + HEAD + 1) && TreeAt(m2, Ptr(p), One(kind, t))
  {
    hide Clean, Grown, Extends;
    GrownExtends(m0, m1, p);
    CleanAt(m1, p + 1, p + HEAD);
    CleanUp(m1, p + 1, p + HEAD + 1);
    FilledExtends(m1, p + HEAD, a);
    ExtendsTwice(m0, m1, m2);
    TreeStays(m0, m2, a, t);
    GrownTwice(m0, m1, m2, p, p + HEAD);
  }

  lemma LinkFilled(m0: seq<Word>, m1: seq<Word>, m2: seq<Word>, p: nat, kind: Kind, a: Value, t: Tree)
    requires TreeAt(m0, a, t) && Clean(m0, p) && Grown(m0, m1, p) && Clean(m1, p + 1)
    requires p + HEAD + 1 < |m1| && m1[p] == Con(kind, 2) && m2 == Filled(m1, p + HEAD, a)
    ensures Linked(m0, m2, kind, p, p + HEAD + 2, t)
  {
    hide Clean, Grown, Extends, TreeAt;
    GrownExtends(m0, m1, p);
    CleanAt(m1, p + 1, p + HEAD);
    CleanAt(m1, p + 1, p + HEAD + 1);
    CleanUp(m1, p + 1, p + HEAD + 2);
    FilledExtends(m1, p + HEAD, a);
    ExtendsTwice(m0, m1, m2);
    TreeStays(m0, m2, a, t);
    GrownTwice(m0, m1, m2, p, p + HEAD);
  }

  // ----- Steps of the loop -----

  lemma NothingGrown(m: seq<Word>, p: nat)
    ensures Grown(m, m, p)
  {
  }

  lemma StarBuilt(m0: seq<Word>, m1: seq<Word>, m2: seq<Word>, p: nat, p': nat, v: Value, t: Tree)
    requires Grown(m0, m1, p) && p' == p + Words(t)
    requires Grown(m1, m2, p') && Clean(m2, p' + HEAD + 1) && TreeAt(m2, v, One(Star, t))
    ensures Built(m0, m2, p, p' + HEAD + 1, v, One(Star, t))
  {
    hide TreeAt, Clean;
    GrownTwice(m0, m1, m2, p, p');
    WordsOne(Star, t);
  }

  lemma LeafLinked(m0: seq<Word>, m1: seq<Word>, m2: seq<Word>, m3: seq<Word>, p: nat, v: Value, kind: Kind)
    requires Clean(m0, p) && Grown(m0, m1, p) && p + HEAD + 2 + HEAD <= |m1| && m1[p] == Con(Sum, 2) && Clean(m1, p + 1)
    requires Grown(m1, m2, p + HEAD + 2) && Clean(m2, p + HEAD + 2 + HEAD)
    requires TreeAt(m2, v, Leaf(kind)) && m3 == Filled(m2, p + HEAD, v)
    ensures Linked(m0, m3, Sum, p, p + HEAD + 2 + HEAD, Leaf(kind))
  {
    hide TreeAt;
    FilledExtends(m2, p + HEAD, v);
    TreeStays(m2, m3, v, Leaf(kind));
    GrownTwice(m0, m1, m2, p, p + HEAD + 2);
    GrownTwice(m0, m2, m3, p, p + HEAD);
  }

  lemma OpenParts(a: Ctx)
    requires AltsOpen(a)
    ensures Clean(a.m, a.p) && a.e < a.p <= |a.m| && a.m[a.e] == Unset
  {
  }

  lemma BeforeParts(a: Ctx, m: seq<Word>, p: nat, term: Option<Value>, pfactor: Option<nat>)
    requires Before(a, m, p) && TermOpen(a, term, pfactor)
    ensures Clean(m, p) && (pfactor.Some? ==> pfactor.value < |m|) && (pfactor.Some? <==> a.fs != [])
  {
  }

  /** The alternatives stay linked when only words from `a.p` on and one hole after
      `a.e` are written. */
  lemma AltsKept(a: Ctx, b: Ctx, hole: nat)
    requires AltsOpen(a) && b == a.(m := b.m, p := b.p, fs := b.fs)
    requires Extends(a.m, b.m) && Clean(b.m, b.p) && a.p <= b.p <= |b.m| && a.p0 <= hole && hole != a.e
    requires forall k :: 0 <= k < a.p && k < |a.m| && k != hole ==> b.m[k] == a.m[k]
    ensures AltsOpen(b)
  {
    hide Chain, Extends, Clean;
    ExtendsTwice(a.first, a.m, b.m);
    ChainStays(a.m, b.m, Sum, a.h, a.e, AltTrees(a.done));
  }

  lemma FirstLinked(a: Ctx, m2: seq<Word>, m3: seq<Word>, p: nat, t: Tree, term: Option<Value>, pfactor: Option<nat>)
    requires Before(a, m2, p) && TermOpen(a, term, pfactor) && pfactor.None? && Linked(m2, m3, Product, p, p + HEAD + 2, t)
    ensures var b := a.(m := m3, p := p + HEAD + 2, fs := a.fs + [t]); AltsOpen(b) && TermOpen(b, Some(Ptr(p)), Some(p + HEAD + 1))
  {
    hide AltTrees, NodeAt, Chain;
    var b := a.(m := m3, p := p + HEAD + 2, fs := a.fs + [t]);
    GrownExtends(a.m, m2, a.p);
    GrownExtends(m2, m3, p);
    ExtendsTwice(a.m, m2, m3);
    AltsKept(a, b, p);
    assert b.fs[1..] == [];
    NoChain(m3, Product, p + HEAD + 1);
  }

  lemma NoChain(m: seq<Word>, kind: Kind, h: nat)
    ensures Chain(m, kind, h, h, [])
  {
  }

  lemma FactorLinked(a: Ctx, m2: seq<Word>, m3: seq<Word>, m4: seq<Word>, p: nat, t: Tree, term: Option<Value>, pf: nat)
    requires Before(a, m2, p) && TermOpen(a, term, Some(pf)) && Linked(m2, m3, Product, p, p + HEAD + 2, t)
    requires pf < |m3| && m4 == Filled(m3, pf, Ptr(p))
    ensures var b := a.(m := m4, p := p + HEAD + 2, fs := a.fs + [t]); AltsOpen(b) && TermOpen(b, term, Some(p + HEAD + 1))
  {
    hide AltTrees, NodeAt, Chain, AltsOpen;
    var b := a.(m := m4, p := p + HEAD + 2, fs := a.fs + [t]);
    OpenParts(a);
    FactorExtends(a, m2, m3, m4, p, pf, p + HEAD + 2, Ptr(p));
    AltsKept(a, b, pf);
    NodeStays(a.m, m4, Product, term.value.p, a.fs[0]);
    ChainStays(a.m, m4, Product, term.value.p + HEAD + 1, pf, a.fs[1..]);
    NodeStays(m3, m4, Product, p, t);
    ChainSnoc(m4, Product, term.value.p + HEAD + 1, pf, a.fs[1..], p, t);
    assert b.fs[1..] == a.fs[1..] + [t];
  }

  lemma FactorExtends(a: Ctx, m2: seq<Word>, m3: seq<Word>, m4: seq<Word>, p: nat, pf: nat, p': nat, v: Value)
    requires Clean(a.m, a.p) && Grown(a.m, m2, a.p) && a.p <= p && Clean(m2, p) && Grown(m2, m3, p) && Clean(m3, p')
    requires pf < a.p <= p <= p' && pf < |a.m| && a.m[pf] == Unset && m4 == Filled(m3, pf, v)
    ensures Extends(a.m, m4) && Extends(m2, m4) && Extends(m3, m4) && Clean(m4, p') && m4[pf] == Val(v)
    ensures forall k :: 0 <= k < a.p && k < |a.m| && k != pf ==> m4[k] == a.m[k]
    ensures forall k :: pf < k < |m3| ==> m4[k] == m3[k]
  {
    GrownExtends(a.m, m2, a.p);
    GrownExtends(m2, m3, p);
    FilledExtends(m3, pf, v);
    hide Extends, Clean;
    ExtendsTwice(a.m, m2, m3);
    ExtendsTwice(a.m, m3, m4);
    ExtendsTwice(m2, m3, m4);
  }

  lemma FirstClosed(a: Ctx, m2: seq<Word>, p: nat, v: Value, t: Tree, term: Option<Value>, pfactor: Option<nat>)
    requires Before(a, m2, p) && TermOpen(a, term, pfactor) && pfactor.None? && TreeAt(m2, v, t)
    ensures var b := a.(m := m2, p := p, fs := a.fs + [t]); AltsOpen(b) && TermClosed(b, Some(v))
  {
    hide AltTrees, TreeAt, Chain;
    var b := a.(m := m2, p := p, fs := a.fs + [t]);
    GrownExtends(a.m, m2, a.p);
    AltsKept(a, b, a.p);
    assert b.fs == [t];
    OneFactorTree(t);
  }

  lemma OneFactorTree(t: Tree)
    ensures AltTree([t]) == t
  {
  }

  lemma FactorClosed(a: Ctx, m2: seq<Word>, m3: seq<Word>, p: nat, v: Value, t: Tree, term: Option<Value>, pf: nat)
    requires Before(a, m2, p) && TermOpen(a, term, Some(pf)) && TreeAt(m2, v, t)
    requires pf < |m2| && m3 == Filled(m2, pf, v)
    ensures var b := a.(m := m3, p := p, fs := a.fs + [t]); AltsOpen(b) && TermClosed(b, term)
  {
    hide AltTrees, TreeAt, Chain, AltsOpen, NodeAt, AltTree, Nest;
    var b := a.(m := m3, p := p, fs := a.fs + [t]);
    OpenParts(a);
    NothingGrown(m2, p);
    FactorExtends(a, m2, m2, m3, p, pf, p, v);
    AltsKept(a, b, pf);
    NodeStays(a.m, m3, Product, term.value.p, a.fs[0]);
    ChainStays(a.m, m3, Product, term.value.p + HEAD + 1, pf, a.fs[1..]);
    TreeStays(m2, m3, v, t);
    ChainClose(m3, Product, term.value.p + HEAD + 1, pf, a.fs[1..], t);
    ProductClosed(m3, term.value.p, a.fs, t);
  }

  lemma ProductClosed(m: seq<Word>, p: nat, fs: seq<Tree>, t: Tree)
    requires fs != [] && NodeAt(m, Product, p, fs[0]) && WordAt(m, p + HEAD + 1, Nest(Product, fs[1..], t))
    ensures TreeAt(m, Ptr(p), AltTree(fs + [t]))
  {
    var all := fs + [t];
    assert all[..|all| - 1] == fs;
  }

  lemma ClosedParts(a: Ctx, term: Option<Value>)
    requires AltsOpen(a) && TermClosed(a, term)
    ensures Clean(a.m, a.p) && a.e < |a.m| && (term.Some? <==> a.fs != [])
    ensures if term.Some? then TreeAt(a.m, term.value, AltTree(a.fs)) else AltTree(a.fs) == Leaf(Empty)
  {
    hide TreeAt, AltTrees;
  }

  lemma {:induction false} AltTreesSnoc(alts: seq<seq<Tree>>, fs: seq<Tree>)
    ensures AltTrees(alts + [fs]) == AltTrees(alts) + [AltTree(fs)]
    decreases |alts|
  {
    hide AltTree;
    if alts == [] {
      assert (alts + [fs])[1..] == [];
    } else {
      assert (alts + [fs])[1..] == alts[1..] + [fs];
      AltTreesSnoc(alts[1..], fs);
    }
  }

  lemma BarLinked(a: Ctx, m3: seq<Word>, m4: seq<Word>, p: nat)
    requires AltsOpen(a) && Linked(a.m, m3, Sum, a.p, p, AltTree(a.fs)) && a.e < |m3| && m4 == Filled(m3, a.e, Ptr(a.p))
    ensures AltsOpen(a.(m := m4, p := p, done := a.done + [a.fs], fs := [], e := a.p + HEAD + 1))
  {
    hide Open, Linked, AltTree, AltTrees, Clean;
    OpenHole(a.first, a.m, Sum, a.h, a.e, AltTrees(a.done), a.p0, a.p);
    NothingGrown(a.m, a.p);
    OpenLink(a.first, a.m, a.m, m3, m4, Sum, a.h, a.e, AltTrees(a.done), a.p0, a.p, a.p, p, AltTree(a.fs));
    AltTreesSnoc(a.done, a.fs);
  }

  /** Filling the last hole finishes the literal. */
  lemma LastFill(a: Ctx, m: seq<Word>, v: Value, t: Tree)
    requires AltsOpen(a) && TreeAt(m, v, t) && Extends(a.m, m) && a.e < |m| && m[a.e] == Val(v)
    ensures WordAt(m, a.h, Nest(Sum, AltTrees(a.done), t)) && Extends(a.first, m)
  {
    hide Chain, Extends, TreeAt, AltTrees, Nest;
    ExtendsTwice(a.first, a.m, m);
    ChainStays(a.m, m, Sum, a.h, a.e, AltTrees(a.done));
    ChainClose(m, Sum, a.h, a.e, AltTrees(a.done), t);
  }

  lemma LastEmpty(b: Ctx, m4: seq<Word>, m5: seq<Word>, p: nat, v: Value, all: seq<seq<Tree>>)
    requires AltsOpen(b) && Built(b.m, m4, b.p, p, v, Leaf(Empty)) && b.e < |m4| && m5 == Filled(m4, b.e, v)
    requires all == b.done + [[]]
    ensures Finished(b.(m := m5, p := p), all)
  {
    hide TreeAt, Chain, AltTrees, Nest, Extends, WordAt;
    GrownExtends(b.m, m4, b.p);
    FilledExtends(m4, b.e, v);
    ExtendsTwice(b.m, m4, m5);
    TreeStays(m4, m5, v, Leaf(Empty));
    LastFill(b, m5, v, Leaf(Empty));
    assert all[..|all| - 1] == b.done;
  }

  lemma LastFilled(a: Ctx, m: seq<Word>, term: Option<Value>, all: seq<seq<Tree>>)
    requires AltsOpen(a) && TermClosed(a, term) && a.fs != [] && all == a.done + [a.fs]
    requires a.e < |a.m| && m == Filled(a.m, a.e, term.value)
    ensures Finished(a.(m := m), all)
  {
    hide TreeAt, Chain, AltTrees, Nest, Extends, WordAt, AltTree;
    FilledExtends(a.m, a.e, term.value);
    TreeStays(a.m, m, term.value, AltTree(a.fs));
    LastFill(a, m, term.value, AltTree(a.fs));
    assert all[..|all| - 1] == a.done;
  }

  lemma BuiltBefore(a: Ctx, m: seq<Word>, p: nat, v: Value, t: Tree)
    requires AltsOpen(a) && Built(a.m, m, a.p, p, v, t) && p <= |m|
    ensures Before(a, m, p) && TreeAt(m, v, t)
  {
    hide AltsOpen, TreeAt;
  }

  lemma Starts(a: Ctx, m0: seq<Word>, p: nat, ts: seq<Token>, all: seq<seq<Tree>>)
    requires Linked(m0, a.first, Sum, p, a.p, Leaf(Null)) && a == Ctx(a.first, a.p, p + HEAD + 1, p + HEAD + 1, [], [], a.first, a.p)
    requires ParseFrom(ts, 0, 1).Some? && all == ParseFrom(ts, 0, 1).value.alts
    ensures AltsOpen(a) && TermAt(a, ts, 0, None, None) && Prefix(a, ts, 0, 1, all)
  {
    hide NodeAt, ParseFrom;
    assert a.fs + all[0] == all[0];
    assert a.done + [all[0]] + all[1..] == all;
  }

  lemma OwedAtStart(ts: seq<Token>)
    ensures forall a: Ctx {:trigger Owed(a, ts, 0)} :: a.fs == [] ==> Owed(a, ts, 0) == if ts != [] && ts[0] == Bar then HEAD else 0
  {
  }

  lemma OwedAtBar(a: Ctx, ts: seq<Token>, i: nat)
    requires i < |ts| && ts[i] == Bar
    ensures Owed(a, ts, i) == if a.fs == [] then HEAD else 0
  {
  }

  lemma OwedAfterBar(a: Ctx, ts: seq<Token>, i: nat)
    requires a.fs == []
    ensures Owed(a, ts, i) == if i < |ts| && ts[i] == Bar then HEAD else 0
  {
  }

  lemma OwedAtFactor(a: Ctx, ts: seq<Token>, i: nat)
    requires i < |ts| && ts[i] != Bar
    ensures Owed(a, ts, i) == 0
  {
  }

  lemma OwedAfterFactor(a: Ctx, ts: seq<Token>, i: nat)
    requires a.fs != []
    ensures Owed(a, ts, i) == 0
  {
  }

  lemma OwedAtEnd(a: Ctx, ts: seq<Token>, i: nat)
    requires i >= |ts|
    ensures Owed(a, ts, i) == 0
  {
  }

  lemma RestAtEnd(ts: seq<Token>, q: nat)
    ensures ParseFrom(ts, |ts|, q).Some? && Rest(ParseFrom(ts, |ts|, q).value.alts) == 0
  {
  }

  lemma BarPrefix(a: Ctx, ts: seq<Token>, i: nat, q: nat, all: seq<seq<Tree>>, term: Option<Value>, pfactor: Option<nat>)
    requires Prefix(a, ts, i, q, all) && i < |ts| && ts[i] == Bar && TermAt(a, ts, i, term, pfactor)
    requires ParseFrom(ts, i + 1, q).Some? && ParseFrom(ts, i, q).value.alts == [[]] + ParseFrom(ts, i + 1, q).value.alts
    ensures TermClosed(a, term)
    ensures forall b: Ctx {:trigger Prefix(b, ts, i + 1, q, all)} :: b.done == a.done + [a.fs] && b.fs == [] && i + 1 < |ts| ==> Prefix(b, ts, i + 1, q, all)
    ensures i + 1 == |ts| ==> all == a.done + [a.fs] + [[]]
  {
    hide ParseFactor;
    var rest := ParseFrom(ts, i + 1, q).value.alts;
    assert a.fs + [] == a.fs;
    assert ([[]] + rest)[1..] == rest;
    var none: seq<Tree> := [];
    assert none + rest[0] == rest[0];
    assert [rest[0]] + rest[1..] == rest;
    assert a.done + [a.fs] + ([rest[0]] + rest[1..]) == a.done + [a.fs] + [rest[0]] + rest[1..];
  }

  lemma FactorPrefix(a: Ctx, ts: seq<Token>, i: nat, q: nat, all: seq<seq<Tree>>)
    requires Prefix(a, ts, i, q, all) && i < |ts| && ts[i] != Bar && ParseFactor(ts, i, q).Some?
    requires var f := ParseFactor(ts, i, q).value;
             && ParseFrom(ts, f.1, f.2).Some?
             && var rest := ParseFrom(ts, f.1, f.2).value;
                ParseFrom(ts, i, q).value.alts == [[f.0] + rest.alts[0]] + rest.alts[1..]
    ensures var f := ParseFactor(ts, i, q).value;
            forall b: Ctx {:trigger Prefix(b, ts, f.1, f.2, all)} :: b.done == a.done && b.fs == a.fs + [f.0] ==> Prefix(b, ts, f.1, f.2, all)
  {
    hide ParseFactor, ParseFrom;
    var f := ParseFactor(ts, i, q).value;
    var rest := ParseFrom(ts, f.1, f.2).value.alts;
    assert a.fs + ([f.0] + rest[0]) == a.fs + [f.0] + rest[0];
    assert ([[f.0] + rest[0]] + rest[1..])[1..] == rest[1..];
  }

  lemma OpenAtFactor(a: Ctx, ts: seq<Token>, i: nat, term: Option<Value>, pfactor: Option<nat>)
    requires TermAt(a, ts, i, term, pfactor) && i < |ts| && ts[i] != Bar
    ensures TermOpen(a, term, pfactor)
  {
  }

  lemma NoTerm(a: Ctx, ts: seq<Token>, i: nat)
    requires a.fs == []
    ensures TermAt(a, ts, i, None, None)
  {
  }

  lemma TermNow(a: Ctx, ts: seq<Token>, i: nat, term: Option<Value>, pfactor: Option<nat>)
    requires if i < |ts| && ts[i] != Bar then TermOpen(a, term, pfactor) else TermClosed(a, term)
    ensures TermAt(a, ts, i, term, pfactor)
  {
  }

  lemma ClosedAtEnd(a: Ctx, ts: seq<Token>, q: nat, all: seq<seq<Tree>>, term: Option<Value>, pfactor: Option<nat>)
    requires Prefix(a, ts, |ts|, q, all) && TermAt(a, ts, |ts|, term, pfactor)
    ensures TermClosed(a, term) && all == a.done + [a.fs] && (term.None? ==> ts == []) && (term.Some? ==> a.fs != [])
    ensures ts == [] && a.fs == [] ==> term.None?
  {
    assert a.fs + [] == a.fs;
    assert a.done + [a.fs] + [] == a.done + [a.fs];
  }

  /** The whole literal; an empty one leaves its hole unfilled. */
  lemma Literal(m0: seq<Word>, first: seq<Word>, a: Ctx, p: nat, ts: seq<Token>, all: seq<seq<Tree>>)
    requires Clean(m0, p) && Linked(m0, first, Sum, p, p + HEAD + 2 + HEAD, Leaf(Null)) && a.first == first
    requires a.h == p + HEAD + 1 && a.p0 == p + HEAD + 2 + HEAD && all != []
    requires if ts == [] then a.m == first else Finished(a, all)
    ensures TreeAt(a.m, Ptr(p), LiteralTree(all)) <==> ts != []
    ensures Grown(m0, a.m, p)
  {
    hide SumTree;
    if ts != [] {
      WordStays(first, a.m, p + HEAD, Leaf(Null));
    }
  }
}
