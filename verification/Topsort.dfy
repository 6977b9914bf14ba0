/** The dependency sort of `bctopsort.c`: the path-based algorithm for strongly
    connected components, run over the items of a file.

    An item is compared by file, kind and source line (`gsbc_item_eq`). What the
    sort reads from an item is only the ordered list of its outgoing edges, so the
    graph is a map from items to sequences of items. */
module Topsort {

  datatype ItemKind = DataLable | CodeLable | TypeLable | CoercionLable

  datatype Item = Item(file: nat, kind: ItemKind, line: nat)

  type Graph = map<Item, seq<Item>>

  // ----- Reachability -----

  ghost predicate IsClosed(g: Graph) {
    forall x, y :: x in g && y in g[x] ==> y in g
  }

  ghost predicate IsPath(g: Graph, p: seq<Item>) {
    && p != []
    && forall i :: 0 <= i < |p| - 1 ==> p[i] in g && p[i + 1] in g[p[i]]
  }

  /** `y` can be reached from `x` along zero or more edges. */
  ghost predicate Reaches(g: Graph, x: Item, y: Item) {
    exists p :: IsPath(g, p) && p[0] == x && p[|p| - 1] == y
  }

  /** The reachable set of every item. Proofs go through this map, so that paths
      show up only in the four lemmas below. */
  type ReachMap = map<Item, set<Item>>

  ghost predicate IsReachMap(g: Graph, r: ReachMap) {
    && r.Keys == g.Keys
    && forall x, y {:trigger Reaches(g, x, y)} :: x in g ==> (y in r[x] <==> Reaches(g, x, y))
  }

  ghost predicate Leads(r: ReachMap, x: Item, y: Item) {
    x in r && y in r[x]
  }

  lemma LeadsToItself(g: Graph, r: ReachMap, x: Item)
    requires IsReachMap(g, r) && x in g
    ensures Leads(r, x, x)
  {
    assert IsPath(g, [x]);
    assert Reaches(g, x, x);
  }

  lemma LeadsByEdge(g: Graph, r: ReachMap, x: Item, y: Item)
    requires IsReachMap(g, r) && x in g && y in g[x]
    ensures Leads(r, x, y)
  {
    assert IsPath(g, [x, y]);
    assert Reaches(g, x, y);
  }

  lemma LeadsOn(g: Graph, r: ReachMap, x: Item, y: Item, z: Item)
    requires IsReachMap(g, r) && Leads(r, x, y) && Leads(r, y, z)
    ensures Leads(r, x, z)
  {
    assert Reaches(g, x, y) && Reaches(g, y, z);
    var p :| IsPath(g, p) && p[0] == x && p[|p| - 1] == y;
    var q :| IsPath(g, q) && q[0] == y && q[|q| - 1] == z;
    var w := p + q[1..];
    assert w[|w| - 1] == z;
    assert IsPath(g, w);
    assert Reaches(g, x, z);
  }

  /** Whatever an edge-closed set reaches is inside it. */
  lemma StaysInside(g: Graph, r: ReachMap, c: set<Item>, x: Item, y: Item)
    requires IsReachMap(g, r)
    requires forall u, v :: u in c && u in g && v in g[u] ==> v in c
    requires x in c && Leads(r, x, y)
    ensures y in c
  {
    assert Reaches(g, x, y);
    var p :| IsPath(g, p) && p[0] == x && p[|p| - 1] == y;
    for i := 0 to |p| - 1
      invariant forall k :: 0 <= k <= i ==> p[k] in c
    {
      assert p[i + 1] in g[p[i]];
    }
  }

  /** Paths of a graph closed under its edges stay in the graph, so each item has a
      finite reachable set. */
  ghost function ReachMapOf(g: Graph): ReachMap {
    map x | x in g :: set y | y in g && Reaches(g, x, y)
  }

  lemma ReachMapOfIsReachMap(g: Graph)
    requires IsClosed(g)
    ensures IsReachMap(g, ReachMapOf(g))
  {
    forall x, y {:trigger Reaches(g, x, y)} | x in g && Reaches(g, x, y)
      ensures y in g
    {
      var p :| IsPath(g, p) && p[0] == x && p[|p| - 1] == y;
      for i := 0 to |p| - 1
        invariant p[i] in g
      {
        assert p[i + 1] in g[p[i]];
      }
    }
  }

  /** `group` is exactly one strongly connected component: its items reach, and are
      reached by, just the items of `group`. */
  ghost predicate IsScc(r: ReachMap, group: set<Item>) {
    && group != {}
    && forall x, y :: x in group ==> (y in group <==> Leads(r, x, y) && Leads(r, y, x))
  }

  function Items(s: seq<Item>): set<Item> {
    set x | x in s
  }

  ghost predicate IsDistinct(s: seq<Item>) {
    forall i, j :: 0 <= i < j < |s| ==> s[i] != s[j]
  }

  // ----- State and invariant -----

  /** `sccs` is the symbol table's record of the group of an item; it lives across
      calls. `groups` lists the groups in order of creation. The rest belongs to
      one call. */
  datatype State = State(
    sccs: map<Item, nat>,
    groups: seq<seq<Item>>,
    preorders: map<Item, nat>,
    unassigned: seq<Item>,
    maybe: seq<Item>,
    counter: nat)

  /** Zero stands for no preorder, as in `gsbc_preorder_get`. */
  function Preorder(s: State, x: Item): nat {
    if x in s.preorders then s.preorders[x] else 0
  }

  /** Every dependency of a grouped item is in its group or in an earlier one. */
  ghost predicate EdgesGoBack(g: Graph, sccs: map<Item, nat>) {
    forall x, y :: x in sccs && x in g && y in g[x] ==> y in sccs && sccs[y] <= sccs[x]
  }

  ghost predicate IsFresh(g: Graph, sccs: map<Item, nat>, top: set<Item>) {
    forall x :: x in top ==> x in g && x !in sccs
  }

  /** What the symbol table records after any number of calls: the groups are
      exact components, disjoint and repetition-free, the table agrees with them,
      and every dependency edge goes to the same or to an earlier group. */
  ghost predicate TableOk(g: Graph, r: ReachMap, sccs: map<Item, nat>, groups: seq<seq<Item>>) {
    && (forall x :: x in sccs ==> x in g && sccs[x] < |groups| && x in groups[sccs[x]])
    && (forall k, x :: 0 <= k < |groups| && x in groups[k] ==> x in sccs && sccs[x] == k)
    && (forall k :: 0 <= k < |groups| ==> IsScc(r, Items(groups[k])) && IsDistinct(groups[k]))
    && EdgesGoBack(g, sccs)
  }

  ghost predicate Ascending(s: State, stack: seq<Item>) {
    forall i, j :: 0 <= i < j < |stack| ==> Preorder(s, stack[i]) < Preorder(s, stack[j])
  }

  ghost predicate StacksOk(g: Graph, s: State) {
    && (forall x :: x in s.unassigned ==> x in g && x in s.preorders && x !in s.sccs)
    && (forall x :: x in s.preorders ==> 0 < s.preorders[x] < s.counter && (x in s.unassigned || x in s.sccs))
    && Ascending(s, s.unassigned)
    && Ascending(s, s.maybe)
    && (forall k :: 0 <= k < |s.maybe| ==> s.maybe[k] in s.unassigned)
    && (s.unassigned != [] ==> s.maybe != [] && s.maybe[0] == s.unassigned[0])
    && 0 < s.counter
  }

  /** Entry `k` of `maybe` lies at or below `x` on the stack. */
  ghost predicate Under(s: State, k: nat, x: Item) {
    k < |s.maybe| && Preorder(s, s.maybe[k]) <= Preorder(s, x)
  }

  /** The entries of `maybe` cut `unassigned` into segments. An entry reaches all
      that lies above it, and an item reaches the entry that heads its segment. */
  ghost predicate SegmentsOk(r: ReachMap, s: State) {
    forall x, k: nat :: x in s.unassigned && Under(s, k, x) ==>
                     && Leads(r, s.maybe[k], x)
                     && (Under(s, k + 1, x) || Leads(r, x, s.maybe[k]))
  }

  /** The edge from `u` to `v` is accounted for: `v` has its group already, or it is
      stacked no lower than the segment of `u`. */
  ghost predicate Covered(s: State, u: Item, v: Item) {
    || v in s.sccs
    || (v in s.unassigned && forall k: nat :: Under(s, k, u) ==> Under(s, k, v))
  }

  ghost predicate EdgesOk(g: Graph, s: State, active: set<Item>) {
    forall u, v :: u in s.unassigned && u in g && u !in active && v in g[u] ==> Covered(s, u, v)
  }

  /** `active` holds the items whose call has not returned. */
  ghost predicate Inv(g: Graph, r: ReachMap, s: State, active: set<Item>) {
    && TableOk(g, r, s.sccs, s.groups)
    && StacksOk(g, s)
    && SegmentsOk(r, s)
    && EdgesOk(g, s, active)
    && active <= Items(s.unassigned)
  }

  // ----- Opening an item -----

  function Opened(s: State, item: Item): State {
    s.(preorders := s.preorders[item := s.counter],
       counter := s.counter + 1,
       unassigned := s.unassigned + [item],
       maybe := s.maybe + [item])
  }

  lemma AscendingPush(s: State, t: State, stack: seq<Item>, item: Item)
    requires Ascending(s, stack)
    requires forall x :: x in stack ==> Preorder(s, x) == Preorder(t, x) < Preorder(t, item)
    ensures Ascending(t, stack + [item])
  {
  }

  lemma OpenKeepsStacks(g: Graph, s: State, item: Item)
    requires StacksOk(g, s) && item in g && item !in s.preorders && item !in s.sccs
    ensures StacksOk(g, Opened(s, item))
  {
    var t := Opened(s, item);
    AscendingPush(s, t, s.unassigned, item);
    AscendingPush(s, t, s.maybe, item);
    assert forall x :: x in t.unassigned <==> x in s.unassigned || x == item;
    assert forall k :: 0 <= k < |t.maybe| ==> t.maybe[k] in t.unassigned;
  }

  lemma OpenKeepsUnder(g: Graph, s: State, item: Item, k: nat, x: Item)
    requires StacksOk(g, s) && item !in s.preorders && x in s.unassigned
    ensures Under(Opened(s, item), k, x) <==> Under(s, k, x)
    ensures Under(Opened(s, item), k, item) <==> k <= |s.maybe|
    ensures x in Opened(s, item).unassigned
  {
    var t := Opened(s, item);
    assert Preorder(t, item) == s.counter;
    assert Preorder(t, x) == Preorder(s, x) < s.counter;
    if k < |s.maybe| {
      assert t.maybe[k] == s.maybe[k] && s.maybe[k] in s.unassigned;
    }
  }

  lemma OpenKeepsSegments(g: Graph, r: ReachMap, s: State, item: Item)
    requires IsReachMap(g, r) && StacksOk(g, s) && SegmentsOk(r, s)
    requires item in g && item !in s.preorders
    requires s.maybe != [] ==> Leads(r, s.maybe[|s.maybe| - 1], item)
    ensures SegmentsOk(r, Opened(s, item))
  {
    var t := Opened(s, item);
    LeadsToItself(g, r, item);
    forall x, k: nat | x in t.unassigned && Under(t, k, x)
      ensures Leads(r, t.maybe[k], x)
      ensures Under(t, k + 1, x) || Leads(r, x, t.maybe[k])
    {
      if x == item {
        if k < |s.maybe| {
          var top := s.maybe[|s.maybe| - 1];
          assert top in s.unassigned && Under(s, k, top);
          LeadsOn(g, r, s.maybe[k], top, item);
          OpenKeepsUnder(g, s, item, k + 1, top);
        }
      } else {
        OpenKeepsUnder(g, s, item, k, x);
        OpenKeepsUnder(g, s, item, k + 1, x);
      }
    }
  }

  lemma OpenKeepsEdges(g: Graph, s: State, active: set<Item>, item: Item)
    requires StacksOk(g, s) && EdgesOk(g, s, active) && item !in s.preorders
    ensures EdgesOk(g, Opened(s, item), active + {item})
  {
    var t := Opened(s, item);
    forall u, v | u in t.unassigned && u in g && u !in active + {item} && v in g[u]
      ensures Covered(t, u, v)
    {
      assert Covered(s, u, v);
      if v !in s.sccs {
        forall k: nat | Under(t, k, u)
          ensures Under(t, k, v)
        {
          OpenKeepsUnder(g, s, item, k, u);
          OpenKeepsUnder(g, s, item, k, v);
        }
      }
    }
  }

  lemma OpenKeepsInv(g: Graph, r: ReachMap, s: State, active: set<Item>, item: Item)
    requires IsReachMap(g, r) && Inv(g, r, s, active)
    requires item in g && item !in s.preorders && item !in s.sccs
    requires s.maybe != [] ==> Leads(r, s.maybe[|s.maybe| - 1], item)
    ensures Inv(g, r, Opened(s, item), active + {item})
    ensures TopIsUnder(Opened(s, item), item) && item in Opened(s, item).unassigned
    ensures g.Keys - Opened(s, item).preorders.Keys < g.Keys - s.preorders.Keys
  {
    assert item in g.Keys - s.preorders.Keys && item !in g.Keys - Opened(s, item).preorders.Keys;
    OpenKeepsStacks(g, s, item);
    OpenKeepsSegments(g, r, s, item);
    OpenKeepsEdges(g, s, active, item);
  }

  // ----- Popping a group head -----

  function Popped(s: State): State
    requires s.maybe != []
  {
    s.(maybe := s.maybe[..|s.maybe| - 1])
  }

  lemma BottomIsUnder(g: Graph, s: State, x: Item)
    requires StacksOk(g, s) && x in s.unassigned
    ensures Under(s, 0, x)
  {
    var i :| 0 <= i < |s.unassigned| && s.unassigned[i] == x;
    assert s.maybe[0] == s.unassigned[0];
    assert i > 0 ==> Preorder(s, s.unassigned[0]) < Preorder(s, s.unassigned[i]);
  }

  /** Each stacked item has a segment head. */
  lemma HeadExists(g: Graph, s: State, x: Item, low: nat) returns (k: nat)
    requires StacksOk(g, s) && Under(s, low, x)
    ensures low <= k && Under(s, k, x) && !Under(s, k + 1, x)
    decreases |s.maybe| - low
  {
    if Under(s, low + 1, x) {
      k := HeadExists(g, s, x, low + 1);
    } else {
      k := low;
    }
  }

  lemma LowerHeadLeads(g: Graph, r: ReachMap, s: State, j: nat, k: nat)
    requires StacksOk(g, s) && SegmentsOk(r, s) && j <= k < |s.maybe|
    ensures Leads(r, s.maybe[j], s.maybe[k])
  {
    assert s.maybe[k] in s.unassigned;
    assert j < k ==> Preorder(s, s.maybe[j]) < Preorder(s, s.maybe[k]);
    assert Under(s, j, s.maybe[k]);
  }

  /** An edge from the top segment down to `v` lets the top head reach every head
      from that of `v` up. */
  lemma TopLeadsToLower(g: Graph, r: ReachMap, s: State, u: Item, v: Item)
    requires IsReachMap(g, r) && StacksOk(g, s) && SegmentsOk(r, s)
    requires u in s.unassigned && v in g[u] && v in s.unassigned
    requires |s.maybe| > 1 && Under(s, |s.maybe| - 1, u) && !Under(s, |s.maybe| - 1, v)
    ensures Leads(r, s.maybe[|s.maybe| - 1], s.maybe[|s.maybe| - 2])
  {
    var m := |s.maybe|;
    BottomIsUnder(g, s, v);
    var k := HeadExists(g, s, v, 0);
    assert k <= m - 2 by {
      if k == m - 1 {
        assert false;
      }
    }
    LeadsByEdge(g, r, u, v);
    LeadsOn(g, r, s.maybe[m - 1], u, v);
    LeadsOn(g, r, s.maybe[m - 1], v, s.maybe[k]);
    LowerHeadLeads(g, r, s, k, m - 2);
    LeadsOn(g, r, s.maybe[m - 1], s.maybe[k], s.maybe[m - 2]);
  }

  lemma PopKeepsSegments(g: Graph, r: ReachMap, s: State)
    requires IsReachMap(g, r) && StacksOk(g, s) && SegmentsOk(r, s)
    requires |s.maybe| > 1 && Leads(r, s.maybe[|s.maybe| - 1], s.maybe[|s.maybe| - 2])
    ensures SegmentsOk(r, Popped(s))
  {
    var t, m := Popped(s), |s.maybe|;
    forall x, k: nat | x in t.unassigned && Under(t, k, x)
      ensures Leads(r, t.maybe[k], x)
      ensures Under(t, k + 1, x) || Leads(r, x, t.maybe[k])
    {
      assert Under(s, k, x);
      if k == m - 2 && Under(s, m - 1, x) {
        assert !Under(s, m, x);
        LeadsOn(g, r, x, s.maybe[m - 1], s.maybe[m - 2]);
      } else {
        assert Under(t, k + 1, x) <==> Under(s, k + 1, x);
      }
    }
  }

  lemma PopKeepsCovered(s: State, u: Item, v: Item)
    requires s.maybe != [] && Covered(s, u, v)
    ensures Covered(Popped(s), u, v)
  {
    forall k: nat | Under(Popped(s), k, u)
      ensures v in s.sccs || Under(Popped(s), k, v)
    {
      assert Under(s, k, u);
    }
  }

  lemma PopKeepsInv(g: Graph, r: ReachMap, s: State, active: set<Item>, u: Item, v: Item)
    requires IsReachMap(g, r) && Inv(g, r, s, active)
    requires u in s.unassigned && v in g[u] && v in s.unassigned
    requires s.maybe != [] && Under(s, |s.maybe| - 1, u) && !Under(s, |s.maybe| - 1, v)
    ensures |s.maybe| > 1
    ensures Inv(g, r, Popped(s), active)
    ensures Under(Popped(s), |s.maybe| - 2, u)
  {
    BottomIsUnder(g, s, v);
    TopLeadsToLower(g, r, s, u, v);
    PopKeepsSegments(g, r, s);
    forall a, b | a in s.unassigned && a in g && a !in active && b in g[a]
      ensures Covered(Popped(s), a, b)
    {
      PopKeepsCovered(s, a, b);
    }
    LowerHeadIsUnder(s, u);
  }

  lemma LowerHeadIsUnder(s: State, u: Item)
    requires Ascending(s, s.maybe) && |s.maybe| > 1 && Under(s, |s.maybe| - 1, u)
    ensures Under(Popped(s), |s.maybe| - 2, u)
  {
    var m := |s.maybe|;
    assert Preorder(s, s.maybe[m - 2]) < Preorder(s, s.maybe[m - 1]);
  }

  /** Once the top head is at or below `v`, an edge from the top segment to `v` is
      accounted for. */
  lemma HeadsAscend(g: Graph, r: ReachMap, s: State, active: set<Item>)
    requires Inv(g, r, s, active)
    ensures Ascending(s, s.maybe)
  {
  }

  lemma CoveredWhenTopIsUnder(s: State, u: Item, v: Item)
    requires Ascending(s, s.maybe) && v in s.unassigned
    requires s.maybe != [] && Under(s, |s.maybe| - 1, v)
    ensures Covered(s, u, v)
  {
    forall k: nat | Under(s, k, u)
      ensures Under(s, k, v)
    {
      assert k < |s.maybe| - 1 ==> Preorder(s, s.maybe[k]) < Preorder(s, s.maybe[|s.maybe| - 1]);
    }
  }

  // ----- Emitting a group -----

  function Reversed(s: seq<Item>): (r: seq<Item>)
    ensures |r| == |s|
    ensures forall i :: 0 <= i < |s| ==> r[i] == s[|s| - 1 - i]
  {
    if s == [] then [] else [s[|s| - 1]] + Reversed(s[..|s| - 1])
  }

  /** The table after the items of `group` were given the group numbered `id`. */
  function Assigned(sccs: map<Item, nat>, group: set<Item>, id: nat): map<Item, nat> {
    map x | x in sccs.Keys + group :: if x in group then id else sccs[x]
  }

  /** The state once the stacked items from position `base` up became a group. */
  function Emitted(s: State, base: nat): State
    requires base <= |s.unassigned| && s.maybe != []
  {
    s.(sccs := Assigned(s.sccs, Items(s.unassigned[base..]), |s.groups|),
       groups := s.groups + [Reversed(s.unassigned[base..])],
       unassigned := s.unassigned[..base],
       maybe := s.maybe[..|s.maybe| - 1])
  }

  /** The finished item still heads the top segment, all its edges are accounted
      for, and what lies above it is finished. */
  ghost predicate ReadyToEmit(g: Graph, r: ReachMap, s: State, active: set<Item>, item: Item, base: nat) {
    && Inv(g, r, s, active + {item})
    && base < |s.unassigned| && s.unassigned[base] == item
    && s.maybe != [] && s.maybe[|s.maybe| - 1] == item
    && active <= Items(s.unassigned[..base])
    && (item in g ==> forall v :: v in g[item] ==> Covered(s, item, v))
  }

  lemma SplitByPreorder(g: Graph, s: State, item: Item, base: nat)
    requires StacksOk(g, s)
    requires base < |s.unassigned| && s.unassigned[base] == item
    ensures forall x :: x in s.unassigned[..base] ==> x in s.unassigned && Preorder(s, x) < Preorder(s, item)
    ensures forall x :: x in s.unassigned[base..] ==> x in s.unassigned && Preorder(s, item) <= Preorder(s, x)
    ensures forall x :: x in s.unassigned ==> x in s.unassigned[..base] || x in s.unassigned[base..]
  {
    assert s.unassigned == s.unassigned[..base] + s.unassigned[base..];
  }

  lemma TopSegmentEdges(g: Graph, r: ReachMap, s: State, active: set<Item>, item: Item, base: nat, x: Item, y: Item)
    requires ReadyToEmit(g, r, s, active, item, base)
    requires x in s.unassigned[base..] && x in g && y in g[x]
    ensures y in s.sccs || y in s.unassigned[base..]
  {
    SplitByPreorder(g, s, item, base);
    assert x !in active;
    assert Covered(s, x, y);
    assert Under(s, |s.maybe| - 1, x);
  }

  lemma TopSegmentIsMutual(g: Graph, r: ReachMap, s: State, active: set<Item>, item: Item, base: nat, x: Item)
    requires IsReachMap(g, r) && ReadyToEmit(g, r, s, active, item, base)
    requires x in s.unassigned[base..]
    ensures Leads(r, item, x) && Leads(r, x, item)
  {
    SplitByPreorder(g, s, item, base);
    assert Under(s, |s.maybe| - 1, x) && !Under(s, |s.maybe|, x);
  }

  lemma AssignedStaysAssigned(g: Graph, r: ReachMap, s: State, x: Item, y: Item)
    requires IsReachMap(g, r) && TableOk(g, r, s.sccs, s.groups)
    requires x in s.sccs && Leads(r, x, y)
    ensures y in s.sccs
  {
    StaysInside(g, r, s.sccs.Keys, x, y);
  }

  lemma TopSegmentIsScc(g: Graph, r: ReachMap, s: State, active: set<Item>, item: Item, base: nat)
    requires IsReachMap(g, r) && ReadyToEmit(g, r, s, active, item, base)
    ensures IsScc(r, Items(s.unassigned[base..]))
  {
    var top := s.unassigned[base..];
    var inside := s.sccs.Keys + Items(top);
    assert top[0] == item;
    assert item in Items(top);
    forall u, v | u in inside && u in g && v in g[u]
      ensures v in inside
    {
      if u in top {
        TopSegmentEdges(g, r, s, active, item, base, u, v);
      }
    }
    forall x, y | x in top
      ensures y in Items(top) <==> Leads(r, x, y) && Leads(r, y, x)
    {
      assert x in s.unassigned;
      TopSegmentIsMutual(g, r, s, active, item, base, x);
      if y in top {
        TopSegmentIsMutual(g, r, s, active, item, base, y);
        LeadsOn(g, r, x, item, y);
        LeadsOn(g, r, y, item, x);
      } else if Leads(r, x, y) && Leads(r, y, x) {
        StaysInside(g, r, inside, x, y);
        if y in s.sccs {
          AssignedStaysAssigned(g, r, s, y, x);
        }
      }
    }
  }

  lemma EmitKeepsTable(g: Graph, r: ReachMap, s: State, active: set<Item>, item: Item, base: nat)
    requires IsReachMap(g, r) && ReadyToEmit(g, r, s, active, item, base)
    ensures TableOk(g, r, Emitted(s, base).sccs, Emitted(s, base).groups)
  {
    var top := s.unassigned[base..];
    TopSegmentIsScc(g, r, s, active, item, base);
    ReversedHasSameItems(top);
    TopIsDistinct(g, s, base);
    TopIsFresh(g, s, base);
    EmittedEdges(g, r, s, active, item, base);
    TableGrows(g, r, s, Items(top), Reversed(top));
  }

  lemma TopIsFresh(g: Graph, s: State, base: nat)
    requires StacksOk(g, s) && base <= |s.unassigned|
    ensures IsFresh(g, s.sccs, Items(s.unassigned[base..]))
  {
    forall x | x in s.unassigned[base..]
      ensures x in g && x !in s.sccs
    {
      assert x in s.unassigned;
    }
  }

  lemma EmittedEdges(g: Graph, r: ReachMap, s: State, active: set<Item>, item: Item, base: nat)
    requires ReadyToEmit(g, r, s, active, item, base)
    ensures EdgesGoBack(g, Emitted(s, base).sccs)
  {
    var top := Items(s.unassigned[base..]);
    TopIsFresh(g, s, base);
    forall x, y | x in top && x in g && y in g[x]
      ensures y in s.sccs || y in top
    {
      TopSegmentEdges(g, r, s, active, item, base, x, y);
    }
    AssignedEdgesGoBack(g, s.sccs, top, |s.groups|);
  }

  lemma AssignedEdgesGoBack(g: Graph, sccs: map<Item, nat>, top: set<Item>, id: nat)
    requires EdgesGoBack(g, sccs) && IsFresh(g, sccs, top)
    requires forall x :: x in sccs ==> sccs[x] < id
    requires forall x, y :: x in top && x in g && y in g[x] ==> y in sccs || y in top
    ensures EdgesGoBack(g, Assigned(sccs, top, id))
  {
  }

  lemma TableGrows(g: Graph, r: ReachMap, s: State, top: set<Item>, group: seq<Item>)
    requires TableOk(g, r, s.sccs, s.groups)
    requires IsFresh(g, s.sccs, top) && EdgesGoBack(g, Assigned(s.sccs, top, |s.groups|))
    requires Items(group) == top && IsDistinct(group) && IsScc(r, top)
    ensures TableOk(g, r, Assigned(s.sccs, top, |s.groups|), s.groups + [group])
  {
    var sccs, groups := Assigned(s.sccs, top, |s.groups|), s.groups + [group];
    GrownPlaces(g, r, s, top, group);
    GrownHolds(g, r, s, top, group);
    hide IsScc, IsDistinct, EdgesGoBack, Assigned, Items, IsFresh;
    assert forall k :: 0 <= k < |groups| ==> IsScc(r, Items(groups[k])) && IsDistinct(groups[k]);
  }

  lemma GrownPlaces(g: Graph, r: ReachMap, s: State, top: set<Item>, group: seq<Item>)
    requires TableOk(g, r, s.sccs, s.groups) && IsFresh(g, s.sccs, top) && Items(group) == top
    ensures var sccs, groups := Assigned(s.sccs, top, |s.groups|), s.groups + [group];
            forall x :: x in sccs ==> x in g && sccs[x] < |groups| && x in groups[sccs[x]]
  {
    hide TableOk;
    var sccs, groups := Assigned(s.sccs, top, |s.groups|), s.groups + [group];
    forall x | x in sccs
      ensures x in g && sccs[x] < |groups| && x in groups[sccs[x]]
    {
      if x in top {
        assert x in Items(group);
      } else {
        TablePlace(g, r, s, x);
      }
    }
  }

  lemma GrownHolds(g: Graph, r: ReachMap, s: State, top: set<Item>, group: seq<Item>)
    requires TableOk(g, r, s.sccs, s.groups) && IsFresh(g, s.sccs, top) && Items(group) == top
    ensures var sccs, groups := Assigned(s.sccs, top, |s.groups|), s.groups + [group];
            forall k, x :: 0 <= k < |groups| && x in groups[k] ==> x in sccs && sccs[x] == k
  {
    hide TableOk;
    var sccs, groups := Assigned(s.sccs, top, |s.groups|), s.groups + [group];
    forall k, x | 0 <= k < |groups| && x in groups[k]
      ensures x in sccs && sccs[x] == k
    {
      if k == |s.groups| {
        assert x in Items(group);
      } else {
        TableHolds(g, r, s, k, x);
      }
    }
  }

  lemma ReversedHasSameItems(s: seq<Item>)
    ensures Items(Reversed(s)) == Items(s)
  {
    forall x | x in s
      ensures x in Reversed(s)
    {
      var i :| 0 <= i < |s| && s[i] == x;
      assert Reversed(s)[|s| - 1 - i] == x;
    }
  }

  lemma TopIsDistinct(g: Graph, s: State, base: nat)
    requires StacksOk(g, s) && base <= |s.unassigned|
    ensures IsDistinct(s.unassigned[base..]) && IsDistinct(Reversed(s.unassigned[base..]))
  {
    var top := s.unassigned[base..];
    forall i, j | 0 <= i < j < |top|
      ensures top[i] != top[j]
    {
      assert Preorder(s, s.unassigned[base + i]) < Preorder(s, s.unassigned[base + j]);
    }
    hide StacksOk;
    ReversedIsDistinct(top);
  }

  lemma ReversedIsDistinct(s: seq<Item>)
    requires IsDistinct(s)
    ensures IsDistinct(Reversed(s))
  {
    var r := Reversed(s);
    hide Reversed;
    forall i, j | 0 <= i < j < |r|
      ensures r[i] != r[j]
    {
      assert r[i] == s[|s| - 1 - i] && r[j] == s[|s| - 1 - j];
    }
  }

  lemma EmitKeepsStacks(g: Graph, r: ReachMap, s: State, active: set<Item>, item: Item, base: nat)
    requires ReadyToEmit(g, r, s, active, item, base)
    ensures StacksOk(g, Emitted(s, base))
  {
    var t := Emitted(s, base);
    SplitByPreorder(g, s, item, base);
    EmitKeepsHeads(g, s, item, base);
    assert Ascending(t, t.unassigned);
    forall x | x in t.unassigned
      ensures x in g && x in t.preorders && x !in t.sccs
    {
      assert x in s.unassigned;
    }
    forall x | x in t.preorders
      ensures x in t.unassigned || x in t.sccs
    {
      assert x in s.unassigned || x in s.sccs;
    }
  }

  lemma EmitKeepsHeads(g: Graph, s: State, item: Item, base: nat)
    requires StacksOk(g, s)
    requires base < |s.unassigned| && s.unassigned[base] == item
    requires s.maybe != [] && s.maybe[|s.maybe| - 1] == item
    ensures var t := Emitted(s, base);
            && Ascending(t, t.maybe)
            && (forall k :: 0 <= k < |t.maybe| ==> t.maybe[k] in t.unassigned)
            && (t.unassigned != [] ==> t.maybe != [] && t.maybe[0] == t.unassigned[0])
  {
    var t := Emitted(s, base);
    SplitByPreorder(g, s, item, base);
    forall k | 0 <= k < |t.maybe|
      ensures t.maybe[k] in t.unassigned
    {
      assert Preorder(s, s.maybe[k]) < Preorder(s, s.maybe[|s.maybe| - 1]);
    }
    if t.unassigned != [] {
      assert s.maybe[0] == s.unassigned[0];
      assert t.unassigned[0] in t.unassigned;
      assert |s.maybe| > 1;
    }
  }

  lemma EmitKeepsSegmentsAndEdges(g: Graph, r: ReachMap, s: State, active: set<Item>, item: Item, base: nat)
    requires ReadyToEmit(g, r, s, active, item, base)
    ensures SegmentsOk(r, Emitted(s, base))
    ensures EdgesOk(g, Emitted(s, base), active)
  {
    var t := Emitted(s, base);
    SplitByPreorder(g, s, item, base);
    assert forall x, k: nat :: x in t.unassigned ==> (Under(t, k, x) <==> Under(s, k, x));
    forall u, v | u in t.unassigned && u in g && u !in active && v in g[u]
      ensures Covered(t, u, v)
    {
      assert Covered(s, u, v);
    }
  }

  lemma EmitKeepsInv(g: Graph, r: ReachMap, s: State, active: set<Item>, item: Item, base: nat)
    requires IsReachMap(g, r) && ReadyToEmit(g, r, s, active, item, base)
    ensures Inv(g, r, Emitted(s, base), active)
  {
    EmitKeepsTable(g, r, s, active, item, base);
    EmitKeepsStacks(g, r, s, active, item, base);
    EmitKeepsSegmentsAndEdges(g, r, s, active, item, base);
  }

  // ----- What the table means, in terms of paths -----

  lemma SameGroupIffMutual(g: Graph, r: ReachMap, s: State, x: Item, y: Item)
    requires IsReachMap(g, r) && TableOk(g, r, s.sccs, s.groups)
    requires x in s.sccs && y in s.sccs
    ensures s.sccs[x] == s.sccs[y] <==> Reaches(g, x, y) && Reaches(g, y, x)
  {
    hide EdgesGoBack, IsDistinct;
    assert IsScc(r, Items(s.groups[s.sccs[x]]));
    assert x in Items(s.groups[s.sccs[x]]);
    assert y in Items(s.groups[s.sccs[x]]) <==> s.sccs[x] == s.sccs[y];
  }

  /** Loading the groups in order, all that an item depends on, at any distance, is
      loaded with it or before it. */
  lemma DependenciesComeFirst(g: Graph, r: ReachMap, s: State, x: Item, y: Item)
    requires IsReachMap(g, r) && TableOk(g, r, s.sccs, s.groups)
    requires x in s.sccs && Reaches(g, x, y)
    ensures y in s.sccs && s.sccs[y] <= s.sccs[x]
  {
    hide IsScc, IsDistinct;
    var earlier := set z | z in s.sccs && s.sccs[z] <= s.sccs[x];
    StaysInside(g, r, earlier, x, y);
  }

  // ----- What calls leave in place -----

  /** Tables and the unassigned stack only grow; the group-head stack only shrinks. */
  ghost predicate Extends(s: State, t: State) {
    && (forall x :: x in s.sccs ==> x in t.sccs && t.sccs[x] == s.sccs[x])
    && (forall x :: x in t.sccs ==> x in s.sccs || x in t.preorders)
    && s.groups <= t.groups
    && (forall x :: x in s.preorders ==> x in t.preorders && t.preorders[x] == s.preorders[x])
    && s.unassigned <= t.unassigned
    && t.maybe <= s.maybe
  }

  lemma ExtendsKeepsCovered(g: Graph, s: State, t: State, u: Item, v: Item)
    requires StacksOk(g, s) && Extends(s, t) && u in s.unassigned && Covered(s, u, v)
    ensures Covered(t, u, v)
  {
    if v !in s.sccs {
      assert v in t.unassigned;
      forall k: nat | Under(t, k, u)
        ensures Under(t, k, v)
      {
        assert t.maybe[k] == s.maybe[k] && s.maybe[k] in s.unassigned;
        assert Under(s, k, u);
      }
    }
  }

  /** All that `t` has visited beyond `s` can be reached from `item`. */
  ghost predicate VisitedFrom(r: ReachMap, s: State, t: State, item: Item) {
    forall x :: x in t.preorders && x !in s.preorders ==> Leads(r, item, x)
  }

  /** The item heading the top segment lies at or below `u`. */
  ghost predicate TopIsUnder(s: State, u: Item) {
    s.maybe != [] && Under(s, |s.maybe| - 1, u)
  }

  /** What a call on `item`, made with state `s`, hands back. */
  ghost predicate ItemDone(r: ReachMap, s: State, t: State, item: Item) {
    && Extends(s, t)
    && VisitedFrom(r, s, t, item)
    && item in t.preorders && s.counter <= t.preorders[item]
  }

  lemma TopLeadsAcrossEdge(g: Graph, r: ReachMap, s: State, u: Item, v: Item)
    requires IsReachMap(g, r) && StacksOk(g, s) && SegmentsOk(r, s)
    requires u in s.unassigned && v in g[u] && TopIsUnder(s, u)
    ensures Leads(r, s.maybe[|s.maybe| - 1], v)
  {
    LeadsByEdge(g, r, u, v);
    LeadsOn(g, r, s.maybe[|s.maybe| - 1], u, v);
  }

  lemma TopStaysUnder(g: Graph, s: State, t: State, u: Item)
    requires StacksOk(g, s) && StacksOk(g, t) && Extends(s, t)
    requires u in s.unassigned && TopIsUnder(s, u)
    ensures TopIsUnder(t, u)
  {
    assert u in t.unassigned;
    var k := |t.maybe| - 1;
    assert t.maybe[k] == s.maybe[k] && s.maybe[k] in s.unassigned;
    assert k < |s.maybe| - 1 ==> Preorder(s, s.maybe[k]) < Preorder(s, s.maybe[|s.maybe| - 1]);
  }

  lemma CoveredByCall(g: Graph, r: ReachMap, s: State, t: State, u: Item, v: Item)
    requires StacksOk(g, s) && StacksOk(g, t) && ItemDone(r, s, t, v)
    requires u in s.unassigned
    ensures Covered(t, u, v)
  {
    forall k: nat | Under(t, k, u)
      ensures Under(t, k, v)
    {
      assert t.maybe[k] == s.maybe[k] && s.maybe[k] in s.unassigned;
    }
  }

  lemma VisitedAcrossEdge(g: Graph, r: ReachMap, s: State, t: State, u: Item, v: Item)
    requires IsReachMap(g, r) && u in g && v in g[u] && VisitedFrom(r, s, t, v)
    ensures VisitedFrom(r, s, t, u)
  {
    LeadsByEdge(g, r, u, v);
    forall x | x in t.preorders && x !in s.preorders
      ensures Leads(r, u, x)
    {
      LeadsOn(g, r, u, v, x);
    }
  }

  lemma ExtendsOn(r: ReachMap, s: State, t: State, w: State, item: Item)
    requires Extends(s, t) && VisitedFrom(r, s, t, item)
    requires Extends(t, w) && VisitedFrom(r, t, w, item)
    ensures Extends(s, w) && VisitedFrom(r, s, w, item)
  {
  }

  lemma LoopStep(g: Graph, s: State, t: State, item: Item, i: nat)
    requires StacksOk(g, s) && Extends(s, t) && item in s.unassigned && item in g && i <= |g[item]|
    requires forall j :: 0 <= j < i ==> Covered(s, item, g[item][j])
    ensures forall j :: 0 <= j < i ==> Covered(t, item, g[item][j])
  {
    forall j | 0 <= j < i
      ensures Covered(t, item, g[item][j])
    {
      ExtendsKeepsCovered(g, s, t, item, g[item][j]);
    }
  }

  /** The state of the edge loop, entered with state `s`, after `i` edges. */
  ghost predicate EdgesVisited(g: Graph, r: ReachMap, s: State, t: State, item: Item, i: nat) {
    && Extends(s, t) && VisitedFrom(r, s, t, item)
    && item in t.unassigned && TopIsUnder(t, item)
    && (item in g && i <= |g[item]| ==> forall j :: 0 <= j < i ==> Covered(t, item, g[item][j]))
  }

  lemma EdgeVisited(g: Graph, r: ReachMap, s: State, t: State, w: State, item: Item, i: nat)
    requires StacksOk(g, t) && EdgesVisited(g, r, s, t, item, i) && item in g && i < |g[item]|
    requires Extends(t, w) && VisitedFrom(r, t, w, item)
    requires Covered(w, item, g[item][i]) && TopIsUnder(w, item)
    ensures EdgesVisited(g, r, s, w, item, i + 1)
  {
    LoopStep(g, t, w, item, i);
    ExtendsOn(r, s, t, w, item);
  }

  lemma AllEdgesVisited(g: Graph, r: ReachMap, s: State, t: State, item: Item)
    requires item in g && EdgesVisited(g, r, s, t, item, |g[item]|)
    ensures forall v :: v in g[item] ==> Covered(t, item, v)
  {
  }

  /** The state `t` when all edges of `item`, opened in state `s`, were followed. */
  ghost predicate ReadyToClose(g: Graph, r: ReachMap, s: State, t: State, active: set<Item>, item: Item) {
    && IsReachMap(g, r)
    && Inv(g, r, s, active) && Inv(g, r, t, active + {item})
    && item in g && item !in s.preorders
    && EdgesVisited(g, r, Opened(s, item), t, item, |g[item]|)
  }

  lemma ItemDoneWithoutGroup(g: Graph, r: ReachMap, s: State, t: State, item: Item)
    requires IsReachMap(g, r) && item in g && item !in s.preorders
    requires Extends(Opened(s, item), t) && VisitedFrom(r, Opened(s, item), t, item)
    requires t.maybe != [] && t.maybe[|t.maybe| - 1] != item
    ensures ItemDone(r, s, t, item)
  {
    var o := Opened(s, item);
    LeadsToItself(g, r, item);
    assert s.unassigned <= o.unassigned;
    assert t.maybe <= s.maybe by {
      assert o.maybe[|s.maybe|] == item;
      assert |t.maybe| <= |s.maybe|;
    }
    assert item in o.preorders;
  }

  lemma ItemDoneWithGroup(g: Graph, r: ReachMap, s: State, t: State, item: Item)
    requires IsReachMap(g, r) && item in g && item !in s.preorders && item !in s.maybe
    requires Extends(Opened(s, item), t) && VisitedFrom(r, Opened(s, item), t, item)
    requires t.maybe != [] && t.maybe[|t.maybe| - 1] == item
    requires forall x :: x in t.unassigned ==> x in t.preorders && x !in t.sccs
    ensures ItemDone(r, s, Emitted(t, |s.unassigned|), item)
    ensures |s.unassigned| < |t.unassigned| && t.unassigned[|s.unassigned|] == item
    ensures t.unassigned[..|s.unassigned|] == s.unassigned
  {
    var o, w := Opened(s, item), Emitted(t, |s.unassigned|);
    LeadsToItself(g, r, item);
    assert o.unassigned[|s.unassigned|] == item;
    assert t.maybe == o.maybe by {
      assert t.maybe[|t.maybe| - 1] == o.maybe[|t.maybe| - 1];
    }
    assert w.maybe == s.maybe;
    assert forall x :: x in t.unassigned[|s.unassigned|..] ==> x in t.unassigned;
  }

  /** The state `t` when the call on `item`, made with state `s`, is over. */
  ghost predicate ItemClosed(g: Graph, r: ReachMap, s: State, t: State, active: set<Item>, item: Item) {
    && Inv(g, r, t, active)
    && ItemDone(r, s, t, item)
    && (item in t.sccs ==> t.groups != [] && item in t.groups[|t.groups| - 1])
  }

  lemma CloseWithGroup(g: Graph, r: ReachMap, s: State, t: State, active: set<Item>, item: Item)
    requires ReadyToClose(g, r, s, t, active, item)
    requires t.maybe[|t.maybe| - 1] == item
    ensures |s.unassigned| < |t.unassigned| && t.unassigned[|s.unassigned|] == item
    ensures IsDistinct(t.unassigned)
    ensures ItemClosed(g, r, s, Emitted(t, |s.unassigned|), active, item)
  {
    assert t.unassigned[|s.unassigned|..][0] == item;
    ReversedHasSameItems(t.unassigned[|s.unassigned|..]);
    assert item in Items(Reversed(t.unassigned[|s.unassigned|..]));
    AllEdgesVisited(g, r, Opened(s, item), t, item);
    assert item !in s.unassigned;
    assert item !in Items(s.unassigned);
    ItemDoneWithGroup(g, r, s, t, item);
    TopIsDistinct(g, t, 0);
    assert t.unassigned[0..] == t.unassigned;
    EmitKeepsInv(g, r, t, active, item, |s.unassigned|);
  }

  lemma CloseWithoutGroup(g: Graph, r: ReachMap, s: State, t: State, active: set<Item>, item: Item)
    requires ReadyToClose(g, r, s, t, active, item)
    requires t.maybe[|t.maybe| - 1] != item
    ensures ItemClosed(g, r, s, t, active, item)
  {
    AllEdgesVisited(g, r, Opened(s, item), t, item);
    ItemDoneWithoutGroup(g, r, s, t, item);
    assert EdgesOk(g, t, active);
  }

  // ----- The sort -----

  /** What the sort reads from a file: the items of its sections, in order. */
  datatype ParsedFile =
    | PrefixFile(data: seq<Item>, types: seq<Item>, coercions: seq<Item>)
    | DocumentFile(data: seq<Item>)

  /** The items a file is sorted from; the entry point of a document comes first. */
  function Roots(file: ParsedFile): seq<Item> {
    match file
    case PrefixFile(data, types, coercions) => data + types + coercions
    case DocumentFile(data) => if data == [] then [] else [data[0]]
  }

  /** Exactly what the roots reach has been added to the table. */
  ghost predicate SortedExactly(r: ReachMap, before: map<Item, nat>, after: map<Item, nat>, roots: seq<Item>) {
    forall x :: x in after <==> x in before || exists i :: 0 <= i < |roots| && Leads(r, roots[i], x)
  }

  /** All that was visited is reached from the roots. */
  ghost predicate OnlyFrom(r: ReachMap, s: State, roots: seq<Item>) {
    forall x :: x in s.preorders ==> exists i :: 0 <= i < |roots| && Leads(r, roots[i], x)
  }

  lemma HeadIsStacked(g: Graph, s: State, k: nat)
    requires StacksOk(g, s) && k < |s.maybe|
    ensures s.maybe[k] in s.unassigned
  {
  }

  lemma NoHeads(g: Graph, s: State)
    requires StacksOk(g, s) && s.unassigned == []
    ensures s.maybe == []
  {
    if s.maybe != [] {
      HeadIsStacked(g, s, 0);
    }
  }

  lemma NothingLeftOver(g: Graph, r: ReachMap, s: State, t: State, item: Item)
    requires StacksOk(g, s) && StacksOk(g, t) && s.unassigned == []
    requires ItemDone(r, s, t, item)
    ensures t.unassigned == [] && t.maybe == [] && item in t.sccs
  {
    NoHeads(g, s);
  }

  lemma OnlyFromMore(r: ReachMap, s: State, t: State, roots: seq<Item>, item: Item)
    requires OnlyFrom(r, s, roots)
    requires VisitedFrom(r, s, t, item)
    ensures OnlyFrom(r, t, roots + [item])
  {
    var more := roots + [item];
    forall x | x in t.preorders
      ensures exists i :: 0 <= i < |more| && Leads(r, more[i], x)
    {
      if x in s.preorders {
        var i :| 0 <= i < |roots| && Leads(r, roots[i], x);
        assert more[i] == roots[i];
      } else {
        assert more[|roots|] == item;
      }
    }
  }

  /** The state `t` of a file sort begun in state `s`, after the calls for `roots`. */
  ghost predicate RootsDone(g: Graph, r: ReachMap, s: State, t: State, roots: seq<Item>) {
    && Inv(g, r, t, {}) && t.unassigned == []
    && Extends(s, t)
    && OnlyFrom(r, t, roots)
    && forall x :: x in roots ==> x in t.sccs
  }

  /** The last group made since state `s` holds `item`. */
  ghost predicate LastGroupHolds(s: State, t: State, item: Item) {
    |s.groups| < |t.groups| && item in t.groups[|t.groups| - 1]
  }

  lemma RootIsNew(g: Graph, r: ReachMap, s: State, t: State, roots: seq<Item>, item: Item)
    requires RootsDone(g, r, s, t, roots) && item !in t.sccs
    ensures item !in t.preorders && t.maybe == []
  {
    NoHeads(g, t);
  }

  lemma RootSkipped(g: Graph, r: ReachMap, s: State, t: State, roots: seq<Item>, item: Item)
    requires RootsDone(g, r, s, t, roots) && item in t.sccs
    ensures RootsDone(g, r, s, t, roots + [item])
  {
    OnlyFromMore(r, t, t, roots, item);
  }

  lemma RootSorted(g: Graph, r: ReachMap, s: State, t: State, w: State, roots: seq<Item>, item: Item)
    requires RootsDone(g, r, s, t, roots) && ItemClosed(g, r, t, w, {}, item) && item !in t.sccs
    ensures RootsDone(g, r, s, w, roots + [item])
    ensures LastGroupHolds(t, w, item)
  {
    NothingLeftOver(g, r, t, w, item);
    OnlyFromMore(r, t, w, roots, item);
    GroupIsNew(g, r, t, w, item);
  }

  lemma GroupIsNew(g: Graph, r: ReachMap, t: State, w: State, item: Item)
    requires TableOk(g, r, t.sccs, t.groups) && item !in t.sccs
    requires t.groups <= w.groups && w.groups != [] && item in w.groups[|w.groups| - 1]
    ensures |t.groups| < |w.groups|
  {
    if |t.groups| == |w.groups| {

    }
  }

  lemma NoRootsDone(g: Graph, r: ReachMap, s: State)
    requires TableOk(g, r, s.sccs, s.groups)
    requires s.preorders == map[] && s.unassigned == [] && s.maybe == [] && s.counter == 1
    ensures RootsDone(g, r, s, s, [])
  {
    assert StacksOk(g, s);
  }

  lemma RootsSorted(g: Graph, r: ReachMap, s: State, t: State, roots: seq<Item>)
    requires IsReachMap(g, r) && RootsDone(g, r, s, t, roots)
    ensures TableOk(g, r, t.sccs, t.groups) && Extends(s, t)
    ensures SortedExactly(r, s.sccs, t.sccs, roots)
  {
    forall x, i | 0 <= i < |roots| && Leads(r, roots[i], x)
      ensures x in t.sccs
    {
      AssignedStaysAssigned(g, r, t, roots[i], x);
    }
  }

  /** What is new in the table and is reached from `first` has an earlier group than what
      is new and is not. */
  ghost predicate GroupedFirst(r: ReachMap, before: map<Item, nat>, after: map<Item, nat>, first: seq<Item>) {
    forall x, y :: x in after && y in after && x !in before && y !in before && ReachedFrom(r, first, x) && !ReachedFrom(r, first, y) ==>
                     after[x] < after[y]
  }

  ghost predicate ReachedFrom(r: ReachMap, items: seq<Item>, x: Item) {
    exists y :: y in items && Leads(r, y, x)
  }

  /** No item has lost its group, and groups have been added after those there were. */
  ghost predicate TableGrew(s: State, t: State) {
    (forall x :: x in s.sccs ==> x in t.sccs && t.sccs[x] == s.sccs[x]) && s.groups <= t.groups
  }

  lemma ExtendsGrew(s: State, t: State)
    requires Extends(s, t)
    ensures TableGrew(s, t)
  {
  }

  lemma GrewTwice(s: State, t: State, w: State)
    requires TableGrew(s, t) && TableGrew(t, w)
    ensures TableGrew(s, w)
  {
  }

  /** The groups for the first roots have been made before those for the others. */
  lemma FirstRootsFirst(g: Graph, r: ReachMap, s: State, t: State, w: State, first: seq<Item>, roots: seq<Item>)
    requires IsReachMap(g, r) && RootsDone(g, r, s, t, first) && RootsDone(g, r, s, w, roots) && TableGrew(t, w)
    ensures GroupedFirst(r, s.sccs, w.sccs, first)
  {
    RootsSorted(g, r, s, t, first);
    RootsSorted(g, r, s, w, roots);
    hide IsReachMap, Leads, RootsDone, TableOk, TableGrew;
    forall x, y | x in w.sccs && y in w.sccs && x !in s.sccs && y !in s.sccs && ReachedFrom(r, first, x) && !ReachedFrom(r, first, y)
      ensures w.sccs[x] < w.sccs[y]
    {
      ReachedIff(r, s.sccs, t.sccs, first, x);
      ReachedIff(r, s.sccs, t.sccs, first, y);
      GroupsLater(g, r, t, w, x, y);
    }
  }

  lemma ReachedIff(r: ReachMap, before: map<Item, nat>, after: map<Item, nat>, roots: seq<Item>, x: Item)
    requires SortedExactly(r, before, after, roots)
    ensures x in after <==> x in before || ReachedFrom(r, roots, x)
  {
    if ReachedFrom(r, roots, x) {
      var y :| y in roots && Leads(r, y, x);
      var i :| 0 <= i < |roots| && roots[i] == y;
      assert Leads(r, roots[i], x);
    }
  }

  lemma GroupsLater(g: Graph, r: ReachMap, t: State, w: State, x: Item, y: Item)
    requires TableOk(g, r, t.sccs, t.groups) && TableOk(g, r, w.sccs, w.groups) && TableGrew(t, w)
    requires x in t.sccs && y in w.sccs && y !in t.sccs
    ensures x in w.sccs && w.sccs[x] < w.sccs[y]
  {
    TablePlace(g, r, t, x);
    TablePlace(g, r, w, y);
    if w.sccs[y] < |t.groups| {
      TableHolds(g, r, t, w.sccs[y], y);
    }
  }

  lemma TablePlace(g: Graph, r: ReachMap, t: State, x: Item)
    requires TableOk(g, r, t.sccs, t.groups) && x in t.sccs
    ensures x in g && t.sccs[x] < |t.groups| && x in t.groups[t.sccs[x]]
  {
    hide IsScc, EdgesGoBack;
  }

  lemma TableHolds(g: Graph, r: ReachMap, t: State, k: nat, x: Item)
    requires TableOk(g, r, t.sccs, t.groups) && k < |t.groups|
    ensures x in t.groups[k] ==> x in t.sccs && t.sccs[x] == k
  {
    hide IsScc, EdgesGoBack;
  }

  /** A prefix file is sorted from its data, its types and its coercions. */
  lemma PrefixReached(r: ReachMap, before: map<Item, nat>, after: map<Item, nat>, data: seq<Item>, types: seq<Item>, coercions: seq<Item>, x: Item)
    requires SortedExactly(r, before, after, data + types + coercions)
    ensures x in after <==> x in before || ReachedFrom(r, data, x) || ReachedFrom(r, types, x) || ReachedFrom(r, coercions, x)
  {
    hide SortedExactly, Leads;
    var all := data + types + coercions;
    ReachedIff(r, before, after, all, x);
    assert forall y :: y in all <==> y in data || y in types || y in coercions;
  }

  lemma EntryReached(r: ReachMap, before: map<Item, nat>, after: map<Item, nat>, entry: Item, x: Item)
    requires SortedExactly(r, before, after, [entry])
    ensures x in after <==> x in before || Leads(r, entry, x)
  {
    hide SortedExactly, Leads;
    ReachedIff(r, before, after, [entry], x);
  }

  class Sorter {
    const graph: Graph
    ghost const reach: ReachMap

    var sccs: map<Item, nat>
    var groups: seq<seq<Item>>
    var preorders: map<Item, nat>
    var unassigned: seq<Item>
    var maybe: seq<Item>
    var counter: nat

    ghost function St(): State
      reads this
    {
      State(sccs, groups, preorders, unassigned, maybe, counter)
    }

    ghost predicate Valid(active: set<Item>)
      reads this
    {
      IsClosed(graph) && IsReachMap(graph, reach) && Inv(graph, reach, St(), active)
    }

    function PreorderGet(item: Item): (n: nat)
      reads this
      ensures n == Preorder(St(), item)
    {
      if item in preorders then preorders[item] else 0
    }

    /** `gsbc_topsort_outgoing_edge`: follow the dependency of `u` on `item`. */
    method OutgoingEdge(ghost u: Item, item: Item, ghost active: set<Item>)
      requires Valid(active)
      requires u in unassigned && u in graph && item in graph[u]
      requires TopIsUnder(St(), u)
      modifies this
      ensures Valid(active)
      ensures Extends(old(St()), St()) && VisitedFrom(reach, old(St()), St(), u)
      ensures Covered(St(), u, item)
      ensures TopIsUnder(St(), u)
      decreases graph.Keys - preorders.Keys, 1
    {
      if item in sccs {
        return;
      }
      var n := PreorderGet(item);
      if n != 0 {
        if item in unassigned {
          PopHeadsAbove(u, item, n, active);
        }
      } else {
        ghost var s := St();
        TopLeadsAcrossEdge(graph, reach, s, u, item);
        SortItem(item, active);
        CoveredByCall(graph, reach, s, St(), u, item);
        TopStaysUnder(graph, s, St(), u);
        VisitedAcrossEdge(graph, reach, s, St(), u, item);
      }
    }

    /** The loop of `gsbc_topsort_outgoing_edge`. */
    method PopHeadsAbove(ghost u: Item, ghost item: Item, n: nat, ghost active: set<Item>)
      requires Valid(active)
      requires u in unassigned && u in graph && item in graph[u] && item in unassigned
      requires n == Preorder(St(), item) && TopIsUnder(St(), u)
      modifies `maybe
      ensures Valid(active)
      ensures maybe <= old(maybe)
      ensures Covered(St(), u, item)
      ensures TopIsUnder(St(), u)
    {
      hide Inv, IsReachMap, IsClosed, Covered, Leads;
      while PreorderGet(maybe[|maybe| - 1]) > n
        invariant Valid(active)
        invariant maybe <= old(maybe)
        invariant TopIsUnder(St(), u)
        decreases |maybe|
      {
        PopKeepsInv(graph, reach, St(), active, u, item);
        maybe := maybe[..|maybe| - 1];
      }
      HeadsAscend(graph, reach, St(), active);
      CoveredWhenTopIsUnder(St(), u, item);
    }

    /** `gsbc_topsort_item` */
    method SortItem(item: Item, ghost active: set<Item>)
      requires Valid(active)
      requires item in graph && item !in preorders && item !in sccs
      requires maybe != [] ==> Leads(reach, maybe[|maybe| - 1], item)
      modifies this
      ensures ItemClosed(graph, reach, old(St()), St(), active, item)
      decreases graph.Keys - preorders.Keys, 0
    {
      ghost var s := St();
      Open(item, active);
      VisitEdges(item, active + {item});
      Close(item, active, s);
    }

    method Open(item: Item, ghost active: set<Item>)
      requires Valid(active)
      requires item in graph && item !in preorders && item !in sccs
      requires maybe != [] ==> Leads(reach, maybe[|maybe| - 1], item)
      modifies this
      ensures Valid(active + {item}) && St() == Opened(old(St()), item)
      ensures TopIsUnder(St(), item) && item in unassigned
      ensures graph.Keys - preorders.Keys < graph.Keys - old(preorders.Keys)
    {
      hide Inv;
      OpenKeepsInv(graph, reach, St(), active, item);
      preorders, counter := preorders[item := counter], counter + 1;
      unassigned := unassigned + [item];
      maybe := maybe + [item];
    }

    /** The end of `gsbc_topsort_item`: if `item` still heads the top segment, that
        segment becomes a group. */
    method Close(item: Item, ghost active: set<Item>, ghost s: State)
      requires IsClosed(graph) && ReadyToClose(graph, reach, s, St(), active, item)
      modifies this
      ensures ItemClosed(graph, reach, s, St(), active, item)
    {
      ghost var t := St();
      if |maybe| > 0 && maybe[|maybe| - 1] == item {
        CloseWithGroup(graph, reach, s, t, active, item);
        EmitGroup(item, |s.unassigned|);
      } else {
        CloseWithoutGroup(graph, reach, s, t, active, item);
      }
    }

    /** The edge loops of the `gsbc_top_sort_subitems_of_*` functions. */
    method VisitEdges(item: Item, ghost active: set<Item>)
      requires Valid(active)
      requires item in unassigned && item in graph && TopIsUnder(St(), item)
      modifies this
      ensures Valid(active)
      ensures EdgesVisited(graph, reach, old(St()), St(), item, |graph[item]|)
      decreases graph.Keys - preorders.Keys, 2
    {
      for i := 0 to |graph[item]|
        invariant Valid(active)
        invariant EdgesVisited(graph, reach, old(St()), St(), item, i)
      {
        ghost var s := St();
        OutgoingEdge(item, graph[item][i], active);
        EdgeVisited(graph, reach, old(St()), s, St(), item, i);
      }
    }

    /** The popping loop of `gsbc_topsort_item`, from the top down to `item`. */
    method EmitGroup(item: Item, ghost base: nat)
      requires base < |unassigned| && unassigned[base] == item && maybe != []
      requires IsDistinct(unassigned)
      requires forall x :: x in unassigned ==> x !in sccs
      modifies this
      ensures St() == Emitted(old(St()), base)
    {
      var group := PopGroup(item, base);
      ReversedHasSameItems(old(unassigned)[base..]);
      SetSccs(group, |groups|);
      groups := groups + [group];
      maybe := maybe[..|maybe| - 1];
    }

    method PopGroup(item: Item, ghost base: nat) returns (group: seq<Item>)
      requires base < |unassigned| && unassigned[base] == item
      requires IsDistinct(unassigned)
      modifies `unassigned
      ensures unassigned == old(unassigned)[..base]
      ensures group == Reversed(old(unassigned)[base..])
      ensures |group| == |old(unassigned)| - base && group[|group| - 1] == item
      ensures forall k :: 0 <= k < |group| ==> group[k] == old(unassigned)[|old(unassigned)| - 1 - k]
    {
      var last := unassigned[|unassigned| - 1];
      unassigned := unassigned[..|unassigned| - 1];
      group := [last];
      while last != item
        invariant base <= |unassigned| < |old(unassigned)|
        invariant unassigned == old(unassigned)[..|unassigned|]
        invariant last == old(unassigned)[|unassigned|]
        invariant group == Reversed(old(unassigned)[|unassigned|..])
        decreases |unassigned|
      {
        last := unassigned[|unassigned| - 1];
        unassigned := unassigned[..|unassigned| - 1];
        group := group + [last];
      }
    }

    /** `gssymtable_set_scc` refuses an item that has a group already. */
    method SetSccs(group: seq<Item>, id: nat)
      requires IsDistinct(group) && forall x :: x in group ==> x !in sccs
      modifies `sccs
      ensures sccs == Assigned(old(sccs), Items(group), id)
    {
      for i := 0 to |group|
        invariant sccs == Assigned(old(sccs), Items(group[..i]), id)
      {
        assert group[i] !in sccs;
        sccs := sccs[group[i] := id];
        assert Items(group[..i + 1]) == Items(group[..i]) + {group[i]};
      }
      assert group[..|group|] == group;
    }

    /** An empty symbol table over a graph. */
    constructor (graph: Graph)
      requires IsClosed(graph)
      ensures this.graph == graph
      ensures ValidTable() && sccs == map[] && groups == []
    {
      ReachMapOfIsReachMap(graph);
      this.graph := graph;
      reach := ReachMapOf(graph);
      sccs, groups, preorders, unassigned, maybe, counter := map[], [], map[], [], [], 1;
    }

    /** What holds of the symbol table between calls. */
    ghost predicate ValidTable()
      reads this
    {
      IsClosed(graph) && IsReachMap(graph, reach) && TableOk(graph, reach, sccs, groups)
    }

    /** `gsbc_topsortfile`: the groups made for the items of a file. */
    method TopsortFile(file: ParsedFile) returns (result: seq<seq<Item>>)
      requires ValidTable()
      requires forall x :: x in Roots(file) ==> x in graph
      requires file.DocumentFile? ==> file.data != [] && file.data[0] !in sccs
      modifies this
      ensures ValidTable()
      ensures groups == old(groups) + result
      ensures forall x :: x in old(sccs) ==> x in sccs && sccs[x] == old(sccs)[x]
      ensures SortedExactly(reach, old(sccs), sccs, Roots(file))
      ensures file.DocumentFile? ==> result != [] && file.data[0] in result[|result| - 1]
      ensures file.PrefixFile? ==>
                forall x :: x in sccs <==>
                  || x in old(sccs)
                  || ReachedFrom(reach, file.data, x) || ReachedFrom(reach, file.types, x) || ReachedFrom(reach, file.coercions, x)
      ensures file.PrefixFile? ==>
                && GroupedFirst(reach, old(sccs), sccs, file.data)
                && GroupedFirst(reach, old(sccs), sccs, file.data + file.types)
      ensures file.DocumentFile? ==> forall x :: x in sccs <==> x in old(sccs) || Leads(reach, file.data[0], x)
    {
      hide RootsDone, TableOk, IsReachMap, IsClosed, SortedExactly, GroupedFirst, Leads, ReachedFrom;
      var first := |groups|;
      preorders, unassigned, maybe, counter := map[], [], [], 1;
      ghost var s := St();
      NoRootsDone(graph, reach, s);
      SortRoots(file);
      RootsSorted(graph, reach, s, St(), Roots(file));
      result := groups[first..];
      forall x
        ensures file.PrefixFile? ==>
                  (x in sccs <==>
                    || x in s.sccs
                    || ReachedFrom(reach, file.data, x) || ReachedFrom(reach, file.types, x) || ReachedFrom(reach, file.coercions, x))
        ensures file.DocumentFile? ==> (x in sccs <==> x in s.sccs || Leads(reach, file.data[0], x))
      {
        match file
        case PrefixFile(data, types, coercions) => PrefixReached(reach, s.sccs, sccs, data, types, coercions, x);
        case DocumentFile(data) => EntryReached(reach, s.sccs, sccs, data[0], x);
      }
    }

    method SortRoots(file: ParsedFile)
      requires IsClosed(graph) && IsReachMap(graph, reach)
      requires RootsDone(graph, reach, St(), St(), [])
      requires forall x :: x in Roots(file) ==> x in graph
      requires file.DocumentFile? ==> file.data != [] && file.data[0] !in sccs
      modifies this
      ensures RootsDone(graph, reach, old(St()), St(), Roots(file))
      ensures file.DocumentFile? ==> LastGroupHolds(old(St()), St(), file.data[0])
      ensures file.PrefixFile? ==>
                GroupedFirst(reach, old(sccs), sccs, file.data) && GroupedFirst(reach, old(sccs), sccs, file.data + file.types)
    {
      match file {
        case PrefixFile(data, types, coercions) =>
          SortPrefix(data, types, coercions);
        case DocumentFile(data) =>
          SortEntry(data[0]);
      }
    }

    method SortPrefix(data: seq<Item>, types: seq<Item>, coercions: seq<Item>)
      requires IsClosed(graph) && IsReachMap(graph, reach)
      requires RootsDone(graph, reach, St(), St(), [])
      requires forall x :: x in data + types + coercions ==> x in graph
      modifies this
      ensures RootsDone(graph, reach, old(St()), St(), data + types + coercions)
      ensures GroupedFirst(reach, old(sccs), sccs, data) && GroupedFirst(reach, old(sccs), sccs, data + types)
    {
      hide RootsDone, IsReachMap, GroupedFirst, TableGrew;
      ghost var s := St();
      assert [] + data == data;
      SortItems(data, s, []);
      ghost var t1 := St();
      SortItems(types, s, data);
      ghost var t2 := St();
      SortItems(coercions, s, data + types);
      GrewTwice(t1, t2, St());
      FirstRootsFirst(graph, reach, s, t1, St(), data, data + types + coercions);
      FirstRootsFirst(graph, reach, s, t2, St(), data + types, data + types + coercions);
    }

    method SortEntry(item: Item)
      requires IsClosed(graph) && IsReachMap(graph, reach)
      requires RootsDone(graph, reach, St(), St(), [])
      requires item in graph && item !in sccs
      modifies this
      ensures RootsDone(graph, reach, old(St()), St(), [item])
      ensures LastGroupHolds(old(St()), St(), item)
    {
      ghost var s := St();
      RootIsNew(graph, reach, s, s, [], item);
      SortItem(item, {});
      assert [] + [item] == [item];
      RootSorted(graph, reach, s, s, St(), [], item);
    }

    /** The loop over one section of a prefix file. */
    method SortItems(items: seq<Item>, ghost s: State, ghost before: seq<Item>)
      requires IsClosed(graph) && IsReachMap(graph, reach)
      requires RootsDone(graph, reach, s, St(), before)
      requires forall x :: x in items ==> x in graph
      modifies this
      ensures RootsDone(graph, reach, s, St(), before + items) && TableGrew(old(St()), St())
    {
      assert before + items[..0] == before;
      for i := 0 to |items|
        invariant RootsDone(graph, reach, s, St(), before + items[..i]) && TableGrew(old(St()), St())
      {
        ghost var t, roots := St(), before + items[..i];
        assert before + items[..i + 1] == roots + [items[i]];
        if items[i] in sccs {
          RootSkipped(graph, reach, s, t, roots, items[i]);
        } else {
          RootIsNew(graph, reach, s, t, roots, items[i]);
          SortItem(items[i], {});
          RootSorted(graph, reach, s, t, St(), roots, items[i]);
          ExtendsGrew(t, St());
          GrewTwice(old(St()), t, St());
        }
      }
      assert items[..|items|] == items;
    }
  }
}
