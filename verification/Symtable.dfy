/** The table of interned strings (`symtable.c`): a hash table that doubles as it fills,
    and that is thrown away and built again by every collection. */
module Symtable {

  // ----- Strings -----

  /** A string in memory: its hash, symbol type and text, which has no NUL. */
  datatype Str = Str(hash: nat, ty: nat, name: seq<nat>)

  type Memory = map<nat, Str>

  const WORD_RANGE := 0x1_0000_0000_0000_0000

  /** Characters are signed: one from 0x80 up counts as negative. */
  function Char(c: nat): int { if c < 0x80 then c else c - 0x100 }

  function HashFrom(hash: nat, name: seq<nat>): nat
    decreases |name|
  {
    if name == [] then hash else HashFrom((hash * 33 + Char(name[0])) % WORD_RANGE, name[1..])
  }

  /** `gshash_string`, in 64-bit arithmetic */
  function Hash(ty: nat, name: seq<nat>): nat {
    HashFrom((5381 * 33 + ty) % WORD_RANGE, name)
  }

  predicate SameSymbol(a: Str, b: Str) { a.ty == b.ty && a.name == b.name }

  // ----- Buckets -----

  datatype Links = End | Link(str: nat, next: Links)

  function Addrs(l: Links): set<nat> {
    match l
    case End => {}
    case Link(a, rest) => {a} + Addrs(rest)
  }

  /** The strings in the table. */
  function Members(bs: seq<Links>): set<nat> {
    if bs == [] then {} else Addrs(bs[0]) + Members(bs[1..])
  }

  /** Every string is in the bucket its hash selects. */
  ghost predicate Placed(bs: seq<Links>, mem: Memory, size: nat)
    requires size > 0
  {
    forall n, a :: 0 <= n < |bs| && a in Addrs(bs[n]) ==> a in mem && mem[a].hash % size == n
  }

  /** No symbol is in the table twice. */
  ghost predicate Unique(s: set<nat>, mem: Memory) {
    forall a, b :: a in s && b in s && a in mem && b in mem && SameSymbol(mem[a], mem[b]) ==> a == b
  }

  ghost predicate Hashed(mem: Memory) {
    forall a :: a in mem ==> mem[a].hash == Hash(mem[a].ty, mem[a].name)
  }

  function Put(bs: seq<Links>, n: nat, a: nat): (r: seq<Links>)
    requires n < |bs|
    ensures |r| == |bs|
  {
    bs[n := Link(a, bs[n])]
  }

  lemma {:induction false} MemberIn(bs: seq<Links>, n: nat)
    requires n < |bs|
    ensures Addrs(bs[n]) <= Members(bs)
    decreases n
  {
    if n > 0 {
      MemberIn(bs[1..], n - 1);
    }
  }

  lemma {:induction false} MemberAt(bs: seq<Links>, a: nat) returns (n: nat)
    requires a in Members(bs)
    ensures n < |bs| && a in Addrs(bs[n])
    decreases |bs|
  {
    if a in Addrs(bs[0]) {
      n := 0;
    } else {
      n := MemberAt(bs[1..], a);
      n := n + 1;
    }
  }

  lemma {:induction false} PutMembers(bs: seq<Links>, n: nat, a: nat)
    requires n < |bs|
    ensures Members(Put(bs, n, a)) == Members(bs) + {a}
    decreases n
  {
    if n > 0 {
      assert Put(bs, n, a)[1..] == Put(bs[1..], n - 1, a);
      PutMembers(bs[1..], n - 1, a);
    } else {
      assert Put(bs, n, a)[1..] == bs[1..];
    }
  }

  lemma PutPlaced(bs: seq<Links>, mem: Memory, size: nat, n: nat, a: nat)
    requires size > 0 && Placed(bs, mem, size) && n < |bs| && a in mem && mem[a].hash % size == n
    ensures Placed(Put(bs, n, a), mem, size)
  {
  }

  /** A symbol that is in the table is in the bucket where it is looked for. */
  lemma SymbolPlaced(bs: seq<Links>, mem: Memory, a: nat)
    requires bs != [] && Placed(bs, mem, |bs|) && a in Members(bs)
    ensures a in mem && a in Addrs(bs[mem[a].hash % |bs|])
  {
    var n := MemberAt(bs, a);
  }

  lemma {:induction false} NoMembers(bs: seq<Links>)
    requires forall n :: 0 <= n < |bs| ==> bs[n] == End
    ensures Members(bs) == {}
    decreases |bs|
  {
    if bs != [] {
      forall n | 0 <= n < |bs[1..]|
        ensures bs[1..][n] == End
      {
        assert bs[1..][n] == bs[n + 1];
      }
      NoMembers(bs[1..]);
    }
  }

  lemma {:induction false} MembersSnoc(bs: seq<Links>, i: nat)
    requires i < |bs|
    ensures Members(bs[..i + 1]) == Members(bs[..i]) + Addrs(bs[i])
    decreases i
  {
    if i > 0 {
      assert bs[..i + 1][1..] == bs[1..][..i] && bs[..i][1..] == bs[1..][..i - 1];
      MembersSnoc(bs[1..], i - 1);
    } else {
      assert bs[..1][1..] == [] && bs[..0] == [];
    }
  }

  // ----- The table -----

  const FIRST_BUCKETS := 0x40
  // what fits in a block of 2 MB after its one-word header
  const MAX_BUCKETS := 0x3FFFF

  class Strings {
    var mem: Memory
    var next: nat
    var buckets: array<Links>
    var numBuckets: nat
    var hashSize: nat

    ghost function Table(): seq<Links>
      reads this, buckets
    {
      if numBuckets == buckets.Length then buckets[..] else []
    }

    /** The interned strings. */
    ghost function Interned(): set<nat>
      reads this, buckets
    {
      Members(Table())
    }

    ghost predicate Valid()
      reads this, buckets
    {
      && (numBuckets == 0 || numBuckets == buckets.Length) && buckets.Length > 0
      && (numBuckets > 0 ==> Placed(buckets[..], mem, numBuckets))
      && Interned() <= mem.Keys && Unique(Interned(), mem) && Hashed(mem)
      && forall a :: a in mem ==> a < next
    }

    constructor ()
      ensures Valid() && Interned() == {} && mem == map[] && fresh(buckets)
    {
      mem, next, numBuckets, hashSize := map[], 0, 0, 0;
      buckets := new Links[1](i => End);
    }

    /** `gsstring_initialize_intern_hash` */
    method Initialize()
      requires Valid() && numBuckets == 0
      modifies this`buckets, this`numBuckets
      ensures Valid() && fresh(buckets) && numBuckets > 0 && Interned() == {}
    {
      hide Hashed, Unique;
      numBuckets := FIRST_BUCKETS;
      buckets := new Links[FIRST_BUCKETS](i => End);
      NoMembers(buckets[..]);
      NothingUnique(mem);
    }

    /** `gsget_string`: 0 or the string of that symbol type and text. */
    method Get(hash: nat, ty: nat, name: seq<nat>) returns (found: bool, a: nat)
      requires Valid() && hash == Hash(ty, name)
      modifies this`buckets, this`numBuckets
      ensures Valid() && numBuckets > 0 && Interned() == old(Interned()) && (fresh(buckets) || buckets == old(buckets))
      ensures found ==> a in Interned() && mem[a].ty == ty && mem[a].name == name
      ensures !found ==> forall b :: b in Interned() ==> !(mem[b].ty == ty && mem[b].name == name)
    {
      hide Members, Placed, Unique, Hash;
      if numBuckets == 0 {
        TableGone(this);
        Initialize();
      }
      var n := hash % numBuckets;
      var p := buckets[n];
      MemberIn(buckets[..], n);
      while p.Link?
        invariant Addrs(p) <= Addrs(buckets[n])
        invariant forall b :: b in Addrs(buckets[n]) && b !in Addrs(p) ==> !(mem[b].ty == ty && mem[b].name == name)
        decreases p
      {
        if mem[p.str].ty == ty && mem[p.str].name == name {
          return true, p.str;
        }
        p := p.next;
      }
      forall b | b in Interned()
        ensures !(mem[b].ty == ty && mem[b].name == name)
      {
        SymbolPlaced(buckets[..], mem, b);
      }
      return false, 0;
    }

    /** `gsstring_expand_hash_table`: the links of every bucket go to a table twice the
        size, as long as that fits in a block. */
    method Expand()
      requires Valid() && numBuckets > 0
      modifies this`buckets, this`numBuckets
      ensures Valid() && numBuckets > 0 && Interned() == old(Interned()) && (fresh(buckets) || buckets == old(buckets))
      ensures numBuckets == if 2 * old(numBuckets) > MAX_BUCKETS then MAX_BUCKETS else 2 * old(numBuckets)
    {
      hide Members, Placed, Unique, Hash, Addrs, Put;
      var newNumBuckets := 2 * numBuckets;
      if newNumBuckets > MAX_BUCKETS {
        newNumBuckets := MAX_BUCKETS;
      }
      if newNumBuckets == numBuckets {
        return;
      }
      var newHash := new Links[newNumBuckets](i => End);
      NoMembers(newHash[..]);
      NothingPlaced(newHash[..], mem, newNumBuckets);
      NoneYet(buckets[..]);
      var i := 0;
      while i < numBuckets
        invariant numBuckets == old(numBuckets) && buckets == old(buckets) && buckets[..] == old(buckets[..])
        invariant i <= numBuckets && fresh(newHash) && newHash.Length == newNumBuckets
        invariant Placed(newHash[..], mem, newNumBuckets)
        invariant Members(newHash[..]) == Members(buckets[..][..i])
      {
        MembersSnoc(buckets[..], i);
        MemberIn(buckets[..], i);
        ghost var before := Members(newHash[..]);
        var p := buckets[i];
        MoveLinks(newHash, newNumBuckets, p);
        i := i + 1;
      }
      assert buckets[..][..numBuckets] == buckets[..];
      buckets, numBuckets := newHash, newNumBuckets;
    }

    /** One bucket of the old table. */
    method MoveLinks(newHash: array<Links>, size: nat, l: Links)
      requires newHash.Length == size > 0 && Addrs(l) <= mem.Keys && Hashed(mem) && Placed(newHash[..], mem, size)
      modifies newHash
      ensures Placed(newHash[..], mem, size) && Members(newHash[..]) == old(Members(newHash[..])) + Addrs(l)
    {
      hide Members, Placed, Hash, Put;
      var p := l;
      while p.Link?
        invariant Addrs(p) <= Addrs(l) && Placed(newHash[..], mem, size)
        invariant Members(newHash[..]) + Addrs(p) == old(Members(newHash[..])) + Addrs(l)
        decreases p
      {
        var hash := Hash(mem[p.str].ty, mem[p.str].name);
        var n := hash % size;
        PutPlaced(newHash[..], mem, size, n, p.str);
        PutMembers(newHash[..], n, p.str);
        PutIs(newHash[..], n, p.str);
        newHash[n] := Link(p.str, newHash[n]);
        p := p.next;
      }
    }

    /** `gsstore_string` */
    method Store(addr: nat)
      requires Valid() && addr in mem && addr !in Interned()
      requires forall b :: b in Interned() ==> !SameSymbol(mem[b], mem[addr])
      modifies this`buckets, this`numBuckets, this`hashSize, buckets
      ensures Valid() && Interned() == old(Interned()) + {addr} && (fresh(buckets) || buckets == old(buckets))
    {
      hide Members, Placed, Unique, Hash, Addrs, Put;
      if numBuckets == 0 {
        TableGone(this);
        Initialize();
      }
      hashSize := hashSize + 1;
      if hashSize > numBuckets / 2 {
        Expand();
      }
      var n := mem[addr].hash % numBuckets;
      PutPlaced(buckets[..], mem, numBuckets, n, addr);
      PutMembers(buckets[..], n, addr);
      PutIs(buckets[..], n, addr);
      OneMoreUnique(Interned(), mem, addr);
      buckets[n] := Link(addr, buckets[n]);
    }

    /** `gsalloc_string` */
    method Alloc(hash: nat, ty: nat, name: seq<nat>) returns (a: nat)
      requires Valid() && hash == Hash(ty, name)
      modifies this`mem, this`next
      ensures Valid() && a !in old(mem) && mem == old(mem)[a := Str(hash, ty, name)] && Interned() == old(Interned())
    {
      hide Members, Hash, Addrs;
      a := next;
      ghost var mem0 := mem;
      mem := mem[a := Str(hash, ty, name)];
      next := next + 1;
      StillPlaced(Table(), mem0, mem, if numBuckets > 0 then numBuckets else 1);
      StillUnique(Interned(), mem0, mem);
    }

    /** `gsintern_string`. An interned pointer of that symbol type and text is returned if
        there is one, and a new one is made only if there is none. */
    method Intern(ty: nat, name: seq<nat>) returns (res: nat)
      requires Valid()
      modifies this, buckets
      ensures Valid() && (fresh(buckets) || buckets == old(buckets))
      ensures res in mem && mem[res].ty == ty && mem[res].name == name && Interned() == old(Interned()) + {res}
      ensures mem == old(mem) || (res !in old(mem) && mem == old(mem)[res := mem[res]])
      ensures forall p :: p in old(mem) && old(mem)[p].ty == ty && old(mem)[p].name == name ==> (res == p <==> p in old(Interned()))
    {
      hide Members, Placed, Unique, Hash, Addrs;
      var hash := Hash(ty, name);
      var found;
      found, res := Get(hash, ty, name);
      if found {
        OnlyOne(Interned(), mem, res);
        return;
      }
      res := Alloc(hash, ty, name);
      Store(res);
    }

    /** The callback before a collection: the table is forgotten. */
    method PreCallback()
      requires Valid()
      modifies this`numBuckets
      ensures Valid() && Interned() == {}
    {
      hide Placed, Hashed, Unique;
      numBuckets := 0;
      TableGone(this);
      NothingUnique(mem);
    }

    /** `gs_gc_trace_interned_string` for a string in from-space: its symbol is interned
        again, under the hash it carries. */
    method TraceString(sym: nat) returns (newsym: nat)
      requires Valid() && sym in mem
      modifies this, buckets
      ensures Valid() && (fresh(buckets) || buckets == old(buckets))
      ensures newsym in Interned() && newsym in mem && SameSymbol(mem[newsym], old(mem)[sym])
      ensures Interned() == old(Interned()) + {newsym} && (newsym in old(Interned()) || newsym !in old(mem))
      ensures forall a :: a in old(mem) ==> a in mem && mem[a] == old(mem)[a]
    {
      hide Members, Placed, Unique, Hash, Addrs;
      var s := mem[sym];
      var found;
      found, newsym := Get(s.hash, s.ty, s.name);
      if !found {
        newsym := Alloc(s.hash, s.ty, s.name);
        Store(newsym);
      }
    }

    /** A collection forgets the table, traces the first `k` of the slots that point at
        interned strings, in any order and as often as they occur, and stops. Two slots
        agree afterwards exactly if they agreed before and both or neither were traced;
        no pointer from before is in the table. */
    method TraceSome(syms: seq<nat>, k: nat) returns (newsyms: seq<nat>)
      requires Valid() && k <= |syms| && forall i :: 0 <= i < |syms| ==> syms[i] in Interned()
      modifies this, buckets
      ensures Valid() && (fresh(buckets) || buckets == old(buckets))
      ensures |newsyms| == |syms| && newsyms[k..] == syms[k..]
      ensures forall i :: 0 <= i < k ==> newsyms[i] in Interned() && newsyms[i] in mem && SameSymbol(mem[newsyms[i]], old(mem)[syms[i]])
      ensures forall i, j :: 0 <= i < |syms| && 0 <= j < |syms| ==> (newsyms[i] == newsyms[j] <==> syms[i] == syms[j] && (i < k <==> j < k))
      ensures forall a :: a in old(mem) ==> a in mem && mem[a] == old(mem)[a] && a !in Interned()
    {
      hide Members, Placed, Hash, Addrs, Hashed;
      ghost var old0, mem0 := Interned(), mem;
      PreCallback();
      newsyms := syms;
      for n := 0 to k
        invariant Valid() && |newsyms| == |syms| && newsyms[n..] == syms[n..] && (fresh(buckets) || buckets == old(buckets))
        invariant forall a :: a in mem0 ==> a in mem && mem[a] == mem0[a] && a !in Interned()
        invariant forall i :: 0 <= i < n ==> newsyms[i] in Interned() && newsyms[i] in mem && SameSymbol(mem[newsyms[i]], mem0[syms[i]])
      {
        var newsym := TraceString(syms[n]);
        newsyms := newsyms[n := newsym];
      }
      SlotsAgree(old0, mem0, Interned(), mem, syms, newsyms, k);
    }

    /** A collection that goes through: two slots agree afterwards exactly if they did. */
    method TraceAll(syms: seq<nat>) returns (newsyms: seq<nat>)
      requires Valid() && forall i :: 0 <= i < |syms| ==> syms[i] in Interned()
      modifies this, buckets
      ensures Valid() && |newsyms| == |syms|
      ensures forall i :: 0 <= i < |syms| ==> newsyms[i] in Interned() && newsyms[i] in mem && SameSymbol(mem[newsyms[i]], old(mem)[syms[i]])
      ensures forall i, j :: 0 <= i < |syms| && 0 <= j < |syms| ==> (newsyms[i] == newsyms[j] <==> syms[i] == syms[j])
    {
      newsyms := TraceSome(syms, |syms|);
    }
  }

  lemma SlotsAgree(old0: set<nat>, mem0: Memory, new0: set<nat>, mem: Memory, syms: seq<nat>, newsyms: seq<nat>, k: nat)
    requires Unique(old0, mem0) && Unique(new0, mem) && k <= |syms| == |newsyms| && newsyms[k..] == syms[k..]
    requires forall i :: 0 <= i < |syms| ==> syms[i] in old0 && syms[i] in mem0
    requires forall a :: a in mem0 ==> a !in new0
    requires forall i :: 0 <= i < k ==> newsyms[i] in new0 && newsyms[i] in mem && SameSymbol(mem[newsyms[i]], mem0[syms[i]])
    ensures forall i, j :: 0 <= i < |syms| && 0 <= j < |syms| ==> (newsyms[i] == newsyms[j] <==> syms[i] == syms[j] && (i < k <==> j < k))
  {
    forall i | k <= i < |syms|
      ensures newsyms[i] == syms[i]
    {
      assert newsyms[k..][i - k] == syms[k..][i - k];
    }
  }

  /** A collection that stops before it reaches a pointer, and the same text interned
      again: there are two pointers for one symbol. */
  method SecondPointer(ty: nat, name: seq<nat>) returns (s: Strings, first: nat, second: nat)
    ensures s.Valid() && first in s.mem && second in s.mem && first != second
    ensures s.mem[first].ty == s.mem[second].ty == ty && s.mem[first].name == s.mem[second].name == name
  {
    hide Members, Placed, Unique, Hash, Addrs, Hashed;
    s := new Strings();
    first := s.Intern(ty, name);
    var slots := s.TraceSome([first], 0);
    assert slots == [first];
    second := s.Intern(ty, name);
  }

  lemma TableGone(s: Strings)
    requires s.numBuckets == 0 && s.buckets.Length > 0
    ensures s.Table() == [] && s.Interned() == {}
  {
  }

  lemma NothingUnique(mem: Memory)
    ensures Unique({}, mem)
  {
  }

  lemma NothingPlaced(bs: seq<Links>, mem: Memory, size: nat)
    requires size > 0 && forall n :: 0 <= n < |bs| ==> bs[n] == End
    ensures Placed(bs, mem, size)
  {
  }

  lemma NoneYet(bs: seq<Links>)
    ensures Members(bs[..0]) == {}
  {
  }

  lemma PutIs(bs: seq<Links>, n: nat, a: nat)
    requires n < |bs|
    ensures Put(bs, n, a) == bs[n := Link(a, bs[n])]
  {
  }

  lemma OneMoreUnique(s: set<nat>, mem: Memory, a: nat)
    requires Unique(s, mem) && a in mem && s <= mem.Keys && forall b :: b in s ==> !SameSymbol(mem[b], mem[a])
    ensures Unique(s + {a}, mem)
  {
  }

  lemma StillPlaced(bs: seq<Links>, mem: Memory, mem': Memory, size: nat)
    requires size > 0 && forall a :: a in mem ==> a in mem' && mem'[a] == mem[a]
    ensures Placed(bs, mem, size) ==> Placed(bs, mem', size)
  {
    hide Addrs;
  }

  lemma StillUnique(s: set<nat>, mem: Memory, mem': Memory)
    requires Unique(s, mem) && s <= mem.Keys && forall a :: a in mem ==> a in mem' && mem'[a] == mem[a]
    ensures Unique(s, mem')
  {
  }

  lemma OnlyOne(s: set<nat>, mem: Memory, a: nat)
    requires Unique(s, mem) && s <= mem.Keys && a in s
    ensures forall p :: p in mem && SameSymbol(mem[p], mem[a]) ==> (a == p <==> p in s)
  {
  }

  /** Interned pointers are equal exactly if they stand for the same symbol. */
  lemma EqualIffSameSymbol(s: Strings, a: nat, b: nat)
    requires s.Valid() && a in s.Interned() && b in s.Interned()
    ensures a in s.mem && b in s.mem && (a == b <==> SameSymbol(s.mem[a], s.mem[b]))
  {
    hide Members, Placed, Hashed;
  }
}
