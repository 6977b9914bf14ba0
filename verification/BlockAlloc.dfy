/** Blocks and the allocators that carve them up (`alloc.c`): a block is free, allocated,
    or in from-space during a collection; a suballocator bumps a pointer through the
    blocks it has taken. An address is a block and an offset in it; a block is aligned
    to its own size. */
module BlockAlloc {

  datatype Option<T> = None | Some(value: T)

  // bytes of a block, and of the struct gs_blockdesc it starts with
  const BLOCK_SIZE := 0x200000
  const HEADER := 8

  datatype BlockType = Free | Allocated | FromSpace

  /** A suballocator: of items of any size, or of equal buffers. Its alignment divides
      the size of a block. */
  datatype Info = Items(id: nat, align: nat) | Buffers(id: nat, align: nat)

  predicate InfoOk(info: Info) {
    0 < info.align < BLOCK_SIZE && BLOCK_SIZE % info.align == 0
  }

  datatype Place = Place(block: nat, off: nat)

  /** What a caller has been given: `start` to `end` in a block. */
  datatype Extent = Extent(block: nat, start: nat, end: nat)

  /** The blocks, where each suballocator goes on (or none), and what has been given out
      and not been freed. */
  datatype State = State(blocks: seq<BlockType>, nursery: map<Info, Place>, live: seq<Extent>)

  // ----- Arithmetic -----

  /** `ALIGN_TO` */
  function AlignTo(p: nat, align: nat): (r: nat)
    requires align > 0
    ensures p <= r < p + align
  {
    if p % align != 0 then p + align - p % align else p
  }

  lemma TimesGrows(x: nat, y: nat, a: nat)
    requires x <= y
    ensures x * a <= y * a
  {
    assert y * a == x * a + (y - x) * a;
  }

  lemma MultipleIs(q: nat, a: nat)
    requires a > 0
    ensures q * a % a == 0
  {
    var k, r := q * a / a, q * a % a;
    assert q * a == k * a + r;
    if k < q {
      TimesGrows(k + 1, q, a);
    } else {
      TimesGrows(q, k, a);
    }
  }

  lemma AlignedIs(p: nat, align: nat)
    requires align > 0
    ensures AlignTo(p, align) % align == 0
  {
    var q := p / align;
    assert p == q * align + p % align;
    if p % align != 0 {
      assert AlignTo(p, align) == (q + 1) * align;
      MultipleIs(q + 1, align);
    }
  }

  /** Rounding down and going on by one alignment: the result is aligned and fits in a
      block. */
  lemma NextFits(p: nat, align: nat)
    requires align > 0 && p < BLOCK_SIZE && BLOCK_SIZE % align == 0
    ensures p < p - p % align + align <= BLOCK_SIZE
    ensures (p - p % align + align) % align == 0
  {
    var a, b := p / align, BLOCK_SIZE / align;
    assert p - p % align == a * align && BLOCK_SIZE == b * align;
    assert p - p % align + align == (a + 1) * align;
    MultipleIs(a + 1, align);
    if a < b {
      TimesGrows(a + 1, b, align);
    } else {
      TimesGrows(b, a, align);
    }
  }

  // ----- Operations -----

  /** `gs_sys_block_alloc`: the first free block, or none. */
  function FirstFree(blocks: seq<BlockType>): (r: Option<nat>)
    ensures r.Some? ==> r.value < |blocks| && blocks[r.value] == Free && forall i :: 0 <= i < r.value ==> blocks[i] != Free
    ensures r.None? ==> forall i :: 0 <= i < |blocks| ==> blocks[i] != Free
  {
    FirstFreeFrom(blocks, 0)
  }

  function FirstFreeFrom(blocks: seq<BlockType>, i: nat): (r: Option<nat>)
    requires i <= |blocks|
    ensures r.Some? ==> i <= r.value < |blocks| && blocks[r.value] == Free && forall k :: i <= k < r.value ==> blocks[k] != Free
    ensures r.None? ==> forall k :: i <= k < |blocks| ==> blocks[k] != Free
    decreases |blocks| - i
  {
    if i == |blocks| then None else if blocks[i] == Free then Some(i) else FirstFreeFrom(blocks, i + 1)
  }

  /** Where the items of a new block start. */
  function ItemsStart(align: nat): nat
    requires align > 0
  {
    AlignTo(HEADER, align)
  }

  /** The suballocator gets a new block; no result if there is no free one. */
  function NewBlock(s: State, info: Info, off: nat): Option<State> {
    var b := FirstFree(s.blocks);
    if b.None? then None
    else Some(s.(blocks := s.blocks[b.value := Allocated], nursery := s.nursery[info := Place(b.value, off)]))
  }

  /** The bump pointer moves on, or is forgotten at the end of the block. */
  function Bumped(s: State, info: Info, block: nat, off: nat): State {
    s.(nursery := if off >= BLOCK_SIZE then s.nursery - {info} else s.nursery[info := Place(block, off)])
  }

  /** `gs_sys_block_suballoc`: the new state and the extent, which may be missing: the
      item is larger than a block, or there are no free blocks. */
  function Suballoc(s: State, info: Info, sz: nat): (State, Option<Extent>)
    requires InfoOk(info)
  {
    var start := ItemsStart(info.align);
    var s1 := if info in s.nursery then Some(s) else NewBlock(s, info, start);
    if s1.None? then (s, None)
    else if sz > BLOCK_SIZE - HEADER then (s1.value, None)
    else
      var s2 := if s1.value.nursery[info].off + sz > BLOCK_SIZE then NewBlock(s1.value, info, start) else s1;
      if s2.None? then (s1.value, None)
      else
        var p := s2.value.nursery[info];
        var e := Extent(p.block, p.off, p.off + sz);
        (Bumped(s2.value, info, p.block, AlignTo(p.off + sz, info.align)).(live := s.live + [e]), Some(e))
  }

  /** `gs_sys_aligned_block_suballoc` */
  function BufferAlloc(s: State, info: Info): (State, Option<Extent>)
    requires InfoOk(info)
  {
    var s1 := if info in s.nursery then Some(s) else NewBlock(s, info, HEADER);
    if s1.None? then (s, None)
    else
      var p := s1.value.nursery[info];
      var end := p.off - p.off % info.align + info.align;
      var e := Extent(p.block, p.off, end);
      (Bumped(s1.value, info, p.block, end).(live := s.live + [e]), Some(e))
  }

  function Turned(blocks: seq<BlockType>, from: BlockType, to: BlockType): (r: seq<BlockType>)
    ensures |r| == |blocks|
  {
    seq(|blocks|, i requires 0 <= i < |blocks| => if blocks[i] == from then to else blocks[i])
  }

  /** The pre-callbacks forget where the suballocators were, and what is allocated
      becomes from-space. */
  function StartGc(s: State): State {
    State(Turned(s.blocks, Allocated, FromSpace), map[], s.live)
  }

  /** Extents outside from-space. */
  function Kept(blocks: seq<BlockType>, live: seq<Extent>): (r: seq<Extent>)
    ensures forall e :: e in r <==> e in live && e.block < |blocks| && blocks[e.block] != FromSpace
  {
    if live == [] then []
    else (if live[0].block < |blocks| && blocks[live[0].block] != FromSpace then [live[0]] else []) + Kept(blocks, live[1..])
  }

  /** `gs_sys_finish_gc`: from-space is freed. */
  function FinishGc(s: State): State {
    State(Turned(s.blocks, FromSpace, Free), s.nursery, Kept(s.blocks, s.live))
  }

  /** `gs_sys_gc_failed`: from-space is allocated again. */
  function FailGc(s: State): State {
    s.(blocks := Turned(s.blocks, FromSpace, Allocated))
  }

  // ----- The invariant -----

  /** An extent lies in a block in use, clear of its header. */
  ghost predicate ExtentOk(blocks: seq<BlockType>, e: Extent) {
    e.block < |blocks| && blocks[e.block] != Free && HEADER <= e.start <= e.end <= BLOCK_SIZE
  }

  predicate Apart(a: Extent, b: Extent) {
    a.block != b.block || a.end <= b.start || b.end <= a.start
  }

  ghost predicate AllApart(live: seq<Extent>) {
    forall i, j :: 0 <= i < j < |live| ==> Apart(live[i], live[j])
  }

  /** A suballocator goes on in an allocated block, aligned, after all extents. */
  ghost predicate PlaceOk(s: State, info: Info)
    requires info in s.nursery
  {
    var p := s.nursery[info];
    && InfoOk(info) && p.block < |s.blocks| && s.blocks[p.block] == Allocated && HEADER <= p.off < BLOCK_SIZE
    && (p.off % info.align == 0 || (info.Buffers? && p.off == HEADER))
    && forall e :: e in s.live && e.block == p.block ==> e.end <= p.off
  }

  ghost predicate PlacesOk(s: State) {
    && (forall info :: info in s.nursery ==> PlaceOk(s, info))
    && forall a, b :: a in s.nursery && b in s.nursery && s.nursery[a].block == s.nursery[b].block ==> a == b
  }

  ghost predicate LiveOk(s: State) {
    (forall e :: e in s.live ==> ExtentOk(s.blocks, e)) && AllApart(s.live)
  }

  ghost predicate Inv(s: State) { LiveOk(s) && PlacesOk(s) }

  // ----- Taking a block -----

  lemma NewBlockKeepsInv(s: State, info: Info, off: nat)
    requires Inv(s) && InfoOk(info) && HEADER <= off < BLOCK_SIZE && NewBlock(s, info, off).Some?
    requires off % info.align == 0 || (info.Buffers? && off == HEADER)
    ensures var s' := NewBlock(s, info, off).value;
            && Inv(s') && s'.live == s.live && info in s'.nursery && s'.nursery[info].off == off
            && s.blocks[s'.nursery[info].block] == Free
  {
    hide InfoOk;
    var s' := NewBlock(s, info, off).value;
    var b := FirstFree(s.blocks).value;
    forall e | e in s.live
      ensures ExtentOk(s'.blocks, e) && e.block != b
    {
      assert ExtentOk(s.blocks, e);
    }
    forall i | i in s'.nursery
      ensures PlaceOk(s', i)
      ensures i != info ==> s'.nursery[i].block != b
    {
      if i != info {
        assert PlaceOk(s, i);
      }
    }
  }

  // ----- Giving out an extent -----

  /** An extent that starts where the suballocator stands, and the suballocator moved
      past it. */
  lemma ExtentKeepsInv(s: State, info: Info, end: nat, next: nat)
    requires Inv(s) && info in s.nursery
    requires s.nursery[info].off <= end <= next && (next < BLOCK_SIZE ==> next % info.align == 0)
    ensures var p := s.nursery[info];
            var e := Extent(p.block, p.off, end);
            var s' := Bumped(s, info, p.block, next).(live := s.live + [e]);
            && (Inv(s') <==> end <= BLOCK_SIZE)
            && s.blocks[p.block] == Allocated && HEADER <= p.off && forall x :: x in s.live ==> Apart(x, e)
  {
    var p := s.nursery[info];
    var e := Extent(p.block, p.off, end);
    var s' := Bumped(s, info, p.block, next).(live := s.live + [e]);
    assert PlaceOk(s, info);
    if end <= BLOCK_SIZE {
      NewExtentOk(s, s', info, e, next);
    } else {
      assert e in s'.live && !ExtentOk(s'.blocks, e);
    }
  }

  lemma NewExtentOk(s: State, s': State, info: Info, e: Extent, next: nat)
    requires Inv(s) && info in s.nursery && e.end <= BLOCK_SIZE
    requires var p := s.nursery[info];
             && e == Extent(p.block, p.off, e.end) && p.off <= e.end <= next && (next < BLOCK_SIZE ==> next % info.align == 0)
             && s' == Bumped(s, info, p.block, next).(live := s.live + [e])
    ensures Inv(s')
  {
    assert PlaceOk(s, info);
    hide InfoOk;
    forall x | x in s'.live
      ensures ExtentOk(s'.blocks, x)
    {
      assert x != e ==> ExtentOk(s.blocks, x);
    }
    forall i | i in s'.nursery
      ensures PlaceOk(s', i)
    {
      assert PlaceOk(s, i);
    }
  }

  lemma ItemsStartOk(align: nat)
    requires 0 < align < BLOCK_SIZE && BLOCK_SIZE % align == 0
    ensures HEADER <= ItemsStart(align) < BLOCK_SIZE && ItemsStart(align) % align == 0
    ensures align <= HEADER ==> ItemsStart(align) == HEADER
  {
    AlignedIs(HEADER, align);
    if align > HEADER {
      assert ItemsStart(align) == align;
    } else if align != 1 && align != 2 && align != 4 {
      assert align == 8;
    }
  }

  // ----- Each allocation -----

  /** The room an item of `sz` bytes needs is there: where the suballocator stands, or
      past the start of a new block. */
  predicate Fits(s: State, info: Info, sz: nat)
    requires InfoOk(info)
  {
    (info in s.nursery && s.nursery[info].off + sz <= BLOCK_SIZE) || ItemsStart(info.align) + sz <= BLOCK_SIZE
  }

  /** What every extent given out in `s` owes to the extents there were. */
  ghost predicate Given(s: State, s': State, e: Extent) {
    && s'.live == s.live + [e] && HEADER <= e.start <= e.end && (forall x :: x in s.live ==> Apart(x, e))
    && e.block < |s.blocks| == |s'.blocks| && s.blocks[e.block] != FromSpace && s'.blocks[e.block] == Allocated
  }

  /** Blocks are only taken, and only free ones. */
  ghost predicate OnlyTaken(before: seq<BlockType>, after: seq<BlockType>) {
    && |before| == |after|
    && forall b :: 0 <= b < |after| && after[b] != before[b] ==> before[b] == Free && after[b] == Allocated
  }

  lemma TakenTwice(a: seq<BlockType>, b: seq<BlockType>, c: seq<BlockType>)
    requires OnlyTaken(a, b) && OnlyTaken(b, c)
    ensures OnlyTaken(a, c)
  {
  }

  lemma NewBlockTakes(s: State, info: Info, off: nat)
    requires NewBlock(s, info, off).Some?
    ensures OnlyTaken(s.blocks, NewBlock(s, info, off).value.blocks)
  {
  }

  /** Where an item is put: the suballocator as it stands, with a block that has the
      room if there is one. */
  function Settled(s: State, info: Info, sz: nat): Option<State>
    requires InfoOk(info)
  {
    var start := ItemsStart(info.align);
    if info in s.nursery && s.nursery[info].off + sz <= BLOCK_SIZE then Some(s)
    else
      var s1 := if info in s.nursery then Some(s) else NewBlock(s, info, start);
      if s1.Some? && s1.value.nursery[info].off + sz > BLOCK_SIZE then NewBlock(s1.value, info, start) else s1
  }

  lemma PlaceIs(s: State, info: Info)
    requires Inv(s) && info in s.nursery
    ensures PlaceOk(s, info)
  {
  }

  lemma SettledKeepsInv(s: State, info: Info, sz: nat)
    requires Inv(s) && InfoOk(info) && info.Items? && Settled(s, info, sz).Some?
    ensures var s2 := Settled(s, info, sz).value;
            && Inv(s2) && s2.live == s.live && info in s2.nursery && OnlyTaken(s.blocks, s2.blocks)
            && s2.nursery[info].off % info.align == 0
            && (s2.nursery[info].off + sz <= BLOCK_SIZE <==> Fits(s, info, sz))
  {
    hide NewBlock, Inv, InfoOk, PlaceOk, OnlyTaken, ItemsStart;
    StartOk(info);
    var start := ItemsStart(info.align);
    if info in s.nursery {
      PlaceIs(s, info);
      PlaceAligned(s, info);
      TakenRefl(s.blocks);
      if s.nursery[info].off + sz > BLOCK_SIZE {
        NewBlockKeepsInv(s, info, start);
        NewBlockTakes(s, info, start);
      }
    } else {
      NewBlockKeepsInv(s, info, start);
      NewBlockTakes(s, info, start);
      var s1 := NewBlock(s, info, start).value;
      if start + sz > BLOCK_SIZE {
        NewBlockKeepsInv(s1, info, start);
        NewBlockTakes(s1, info, start);
        TakenTwice(s.blocks, s1.blocks, NewBlock(s1, info, start).value.blocks);
      }
    }
  }

  lemma TakenRefl(blocks: seq<BlockType>)
    ensures OnlyTaken(blocks, blocks)
  {
  }

  lemma PlaceAligned(s: State, info: Info)
    requires info in s.nursery && PlaceOk(s, info) && info.Items?
    ensures s.nursery[info].off % info.align == 0
  {
  }

  lemma StartOk(info: Info)
    requires InfoOk(info)
    ensures info.align > 0 && HEADER <= ItemsStart(info.align) < BLOCK_SIZE && ItemsStart(info.align) % info.align == 0
  {
    ItemsStartOk(info.align);
  }

  lemma BumpedIs(s: State, info: Info, end: nat, next: nat)
    requires Inv(s) && info in s.nursery && InfoOk(info)
    requires s.nursery[info].off <= end <= next && (next < BLOCK_SIZE ==> next % info.align == 0)
    ensures var p := s.nursery[info];
            var e := Extent(p.block, p.off, end);
            var s' := Bumped(s, info, p.block, next).(live := s.live + [e]);
            && (Inv(s') <==> end <= BLOCK_SIZE) && Given(s, s', e) && s'.blocks == s.blocks
  {
    hide Inv, InfoOk, PlaceOk, Apart;
    ExtentKeepsInv(s, info, end, next);
    PlaceIs(s, info);
    PlaceInside(s, info);
  }

  lemma PlaceInside(s: State, info: Info)
    requires info in s.nursery && PlaceOk(s, info)
    ensures s.nursery[info].block < |s.blocks| && s.nursery[info].off < BLOCK_SIZE
  {
  }

  lemma GivenLater(s: State, s1: State, s': State, e: Extent)
    requires OnlyTaken(s.blocks, s1.blocks) && s1.live == s.live && Given(s1, s', e)
    ensures Given(s, s', e)
  {
    hide Apart;
  }

  /** An item is aligned, clear of everything live, and in a block the collector is not
      emptying; the state stays sound exactly when the item fits, and with an alignment
      of at most one word it always does. */
  lemma SuballocKeepsInv(s: State, info: Info, sz: nat)
    requires Inv(s) && InfoOk(info) && info.Items?
    ensures var (s', r) := Suballoc(s, info, sz);
            && OnlyTaken(s.blocks, s'.blocks)
            && (r.None? <==> sz > BLOCK_SIZE - HEADER || Settled(s, info, sz).None?)
            && (r.None? ==> Inv(s') && s'.live == s.live)
            && (r.Some? ==> (Inv(s') <==> Fits(s, info, sz)) && Given(s, s', r.value))
            && (r.Some? ==> r.value.end == r.value.start + sz && r.value.start % info.align == 0)
            && (r.Some? && info.align <= HEADER ==> Inv(s'))
  {
    hide NewBlock, Inv, InfoOk, PlaceOk, OnlyTaken, Bumped, Given, AlignTo;
    if sz > BLOCK_SIZE - HEADER || Settled(s, info, sz).None? {
      SuballocFails(s, info, sz);
    } else {
      var s2 := Settled(s, info, sz).value;
      SettledKeepsInv(s, info, sz);
      SuballocIs(s, info, sz);
      var p := s2.nursery[info];
      StartOk(info);
      AlignedIs(p.off + sz, info.align);
      BumpedIs(s2, info, p.off + sz, AlignTo(p.off + sz, info.align));
      GivenLater(s, s2, Suballoc(s, info, sz).0, Extent(p.block, p.off, p.off + sz));
      if info.align <= HEADER {
        ItemFits(s, info, sz);
      }
    }
  }

  lemma ItemFits(s: State, info: Info, sz: nat)
    requires InfoOk(info) && info.align <= HEADER && sz <= BLOCK_SIZE - HEADER
    ensures Fits(s, info, sz)
  {
    ItemsStartOk(info.align);
  }

  lemma SuballocIs(s: State, info: Info, sz: nat)
    requires InfoOk(info) && sz <= BLOCK_SIZE - HEADER && Settled(s, info, sz).Some? && info in Settled(s, info, sz).value.nursery
    ensures var s2 := Settled(s, info, sz).value;
            var p := s2.nursery[info];
            var e := Extent(p.block, p.off, p.off + sz);
            Suballoc(s, info, sz) == (Bumped(s2, info, p.block, AlignTo(p.off + sz, info.align)).(live := s.live + [e]), Some(e))
  {
    hide InfoOk, Bumped, AlignTo, ItemsStart;
  }

  lemma SuballocFails(s: State, info: Info, sz: nat)
    requires Inv(s) && InfoOk(info) && info.Items?
    requires sz > BLOCK_SIZE - HEADER || Settled(s, info, sz).None?
    ensures var (s', r) := Suballoc(s, info, sz);
            r.None? && Inv(s') && s'.live == s.live && OnlyTaken(s.blocks, s'.blocks)
  {
    hide NewBlock, Inv, InfoOk, PlaceOk, OnlyTaken, Bumped, AlignTo, ItemsStart;
    StartOk(info);
    TakenRefl(s.blocks);
    if info !in s.nursery && NewBlock(s, info, ItemsStart(info.align)).Some? {
      NewBlockKeepsInv(s, info, ItemsStart(info.align));
      NewBlockTakes(s, info, ItemsStart(info.align));
    }
  }

  /** With an alignment beyond the header, the largest item that is let through runs
      past the end of its block, and takes two blocks to do so. */
  lemma WideItemOverruns()
    ensures var s := State([Free, Free], map[], []);
            var (s', r) := Suballoc(s, Items(0, 16), BLOCK_SIZE - HEADER);
            Inv(s) && r == Some(Extent(1, 16, BLOCK_SIZE + HEADER)) && !Inv(s')
  {
    hide Inv;
    var s, info := State([Free, Free], map[], []), Items(0, 16);
    EmptyInv(s);
    WideStart();
    assert FirstFree(s.blocks) == Some(0);
    var s1 := NewBlock(s, info, 16).value;
    assert s1.blocks == [Allocated, Free] && s1.blocks[1] == Free;
    assert FirstFree(s1.blocks) == Some(1);
    SuballocKeepsInv(s, info, BLOCK_SIZE - HEADER);
  }

  lemma WideStart()
    ensures InfoOk(Items(0, 16)) && ItemsStart(16) == 16
  {
  }

  lemma EmptyInv(s: State)
    requires s.nursery == map[] && s.live == []
    ensures Inv(s)
  {
  }

  /** A buffer ends aligned and in its block, and is clear of everything live. */
  lemma BufferAllocKeepsInv(s: State, info: Info)
    requires Inv(s) && InfoOk(info) && info.Buffers?
    ensures var (s', r) := BufferAlloc(s, info);
            && OnlyTaken(s.blocks, s'.blocks) && Inv(s')
            && (r.None? ==> s' == s && info !in s.nursery && FirstFree(s.blocks).None?)
            && (r.Some? ==> Given(s, s', r.value) && r.value.start < r.value.end && r.value.end % info.align == 0)
            && (r.Some? ==> r.value.start % info.align == 0 || r.value.start == HEADER)
  {
    hide Inv, InfoOk, PlaceOk, OnlyTaken, Bumped, Given, NewBlock;
    if info in s.nursery {
      TakenRefl(s.blocks);
      BufferTaken(s, info);
    } else if NewBlock(s, info, HEADER).Some? {
      NewBlockKeepsInv(s, info, HEADER);
      NewBlockTakes(s, info, HEADER);
      var s1 := NewBlock(s, info, HEADER).value;
      BufferTaken(s1, info);
      var e := BufferAlloc(s, info).1.value;
      GivenLater(s, s1, BufferAlloc(s, info).0, e);
    } else {
      TakenRefl(s.blocks);
      NoNewBlock(s, info, HEADER);
    }
  }

  lemma NoNewBlock(s: State, info: Info, off: nat)
    requires NewBlock(s, info, off).None?
    ensures FirstFree(s.blocks).None?
  {
  }

  lemma BufferTaken(s: State, info: Info)
    requires Inv(s) && InfoOk(info) && info.Buffers? && info in s.nursery
    ensures var (s', r) := BufferAlloc(s, info);
            && r.Some? && s'.blocks == s.blocks && Inv(s') && Given(s, s', r.value)
            && r.value.start < r.value.end && r.value.end % info.align == 0
            && (r.value.start % info.align == 0 || r.value.start == HEADER)
  {
    hide Inv, InfoOk, PlaceOk, Bumped, Given;
    StartOk(info);
    PlaceIs(s, info);
    PlaceInside(s, info);
    BlockDivides(info);
    var p := s.nursery[info];
    NextFits(p.off, info.align);
    BumpedIs(s, info, p.off - p.off % info.align + info.align, p.off - p.off % info.align + info.align);
    BufferAligned(s, info);
  }

  lemma BufferAligned(s: State, info: Info)
    requires info in s.nursery && PlaceOk(s, info)
    ensures info.align > 0 && (s.nursery[info].off % info.align == 0 || s.nursery[info].off == HEADER)
  {
  }

  lemma BlockDivides(info: Info)
    requires InfoOk(info)
    ensures info.align > 0 && BLOCK_SIZE % info.align == 0
  {
  }

  // ----- Going on in a block -----

  predicate NoneFree(blocks: seq<BlockType>) { forall b :: 0 <= b < |blocks| ==> blocks[b] != Free }

  /** Only suballocator `info` has moved. */
  ghost predicate OthersStay(before: map<Info, Place>, after: map<Info, Place>, info: Info) {
    forall i :: i != info ==> (i in after <==> i in before) && (i in before && i in after ==> after[i] == before[i])
  }

  /** The suballocator stands where the extent ends, rounded up, or nowhere if the block is
      used up. */
  ghost predicate StandsAfter(s: State, info: Info, e: Extent) {
    info.align > 0 &&
    var next := AlignTo(e.end, info.align);
    if next < BLOCK_SIZE then info in s.nursery && s.nursery[info] == Place(e.block, next) else info !in s.nursery
  }

  /** An item that fits where the suballocator stands goes there, and takes no block. One
      is refused only if it is too large or every block is in use. */
  lemma SuballocGoesOn(s: State, info: Info, sz: nat)
    requires InfoOk(info)
    ensures var (s', r) := Suballoc(s, info, sz);
            && OthersStay(s.nursery, s'.nursery, info)
            && (r.None? ==> sz > BLOCK_SIZE - HEADER || NoneFree(s'.blocks))
            && (r.Some? ==> StandsAfter(s', info, r.value))
            && (info in s.nursery && s.nursery[info].off + sz <= BLOCK_SIZE && sz <= BLOCK_SIZE - HEADER ==>
                  s'.blocks == s.blocks && r == Some(Extent(s.nursery[info].block, s.nursery[info].off, s.nursery[info].off + sz)))
            && (info !in s.nursery && sz <= BLOCK_SIZE - HEADER && AlignTo(HEADER, info.align) + sz <= BLOCK_SIZE ==>
                  if NoneFree(s.blocks) then r.None? else
                  && r.Some? && r.value.start == AlignTo(HEADER, info.align) && r.value.block < |s.blocks| == |s'.blocks|
                  && s.blocks[r.value.block] == Free && s'.blocks == s.blocks[r.value.block := Allocated])
  {
    hide AlignTo, InfoOk;
    StartOk(info);
  }

  /** Two items in a row lie in one block, one after the other but for alignment, if the
      second fits there. */
  lemma NextInSameBlock(s: State, info: Info, sz: nat, sz2: nat)
    requires InfoOk(info) && Suballoc(s, info, sz).1.Some?
    requires var e := Suballoc(s, info, sz).1.value;
             AlignTo(e.end, info.align) < BLOCK_SIZE && AlignTo(e.end, info.align) + sz2 <= BLOCK_SIZE && sz2 <= BLOCK_SIZE - HEADER
    ensures var (s1, r) := Suballoc(s, info, sz);
            var (s2, r2) := Suballoc(s1, info, sz2);
            && s2.blocks == s1.blocks && r2.Some? && r2.value.block == r.value.block
            && r2.value.start == AlignTo(r.value.end, info.align)
  {
    hide AlignTo, InfoOk, Suballoc, OthersStay;
    SuballocGoesOn(s, info, sz);
    SuballocGoesOn(Suballoc(s, info, sz).0, info, sz2);
  }

  /** A buffer takes what is left of the stretch the suballocator stands in, and the next
      one follows it; none is refused unless every block is in use. */
  lemma BufferGoesOn(s: State, info: Info)
    requires InfoOk(info)
    ensures var (s', r) := BufferAlloc(s, info);
            && OthersStay(s.nursery, s'.nursery, info)
            && (r.None? <==> info !in s.nursery && NoneFree(s.blocks))
            && (r.Some? ==> r.value.start < r.value.end <= r.value.start + info.align)
            && (r.Some? ==> if r.value.end < BLOCK_SIZE then info in s'.nursery && s'.nursery[info] == Place(r.value.block, r.value.end)
                            else info !in s'.nursery)
            && (info in s.nursery ==>
                  s'.blocks == s.blocks && r.Some? && r.value.block == s.nursery[info].block && r.value.start == s.nursery[info].off)
            && (info !in s.nursery && r.Some? ==>
                  && r.value.start == HEADER && r.value.block < |s.blocks|
                  && s.blocks[r.value.block] == Free && s'.blocks == s.blocks[r.value.block := Allocated])
  {
  }

  lemma NextBufferFollows(s: State, info: Info)
    requires InfoOk(info) && BufferAlloc(s, info).1.Some? && BufferAlloc(s, info).1.value.end < BLOCK_SIZE
    ensures var (s1, r) := BufferAlloc(s, info);
            var (s2, r2) := BufferAlloc(s1, info);
            s2.blocks == s1.blocks && r2.Some? && r2.value.block == r.value.block && r2.value.start == r.value.end
  {
    hide InfoOk, BufferAlloc, OthersStay;
    BufferGoesOn(s, info);
    BufferGoesOn(BufferAlloc(s, info).0, info);
  }

  // ----- Collections -----

  lemma StartKeepsInv(s: State)
    requires Inv(s)
    ensures Inv(StartGc(s))
  {
    forall e | e in s.live
      ensures ExtentOk(StartGc(s).blocks, e)
    {
      assert ExtentOk(s.blocks, e);
    }
  }

  lemma FailKeepsInv(s: State)
    requires Inv(s)
    ensures Inv(FailGc(s))
  {
    var s' := FailGc(s);
    forall e | e in s'.live
      ensures ExtentOk(s'.blocks, e)
    {
      assert ExtentOk(s.blocks, e);
    }
    forall i | i in s'.nursery
      ensures PlaceOk(s', i)
    {
      assert PlaceOk(s, i);
    }
  }

  lemma {:induction false} KeptApart(blocks: seq<BlockType>, live: seq<Extent>)
    requires AllApart(live)
    ensures AllApart(Kept(blocks, live))
  {
    if live != [] {
      TailApart(live);
      KeptApart(blocks, live[1..]);
      var rest := Kept(blocks, live[1..]);
      forall j | 0 <= j < |rest|
        ensures Apart(live[0], rest[j])
      {
        assert rest[j] in live[1..];
      }
    }
  }

  lemma TailApart(live: seq<Extent>)
    requires AllApart(live) && live != []
    ensures AllApart(live[1..])
    ensures forall e :: e in live[1..] ==> Apart(live[0], e)
  {
  }

  lemma KeptOk(s: State)
    requires LiveOk(s)
    ensures LiveOk(FinishGc(s))
  {
    hide AllApart;
    KeptApart(s.blocks, s.live);
    forall e | e in FinishGc(s).live
      ensures ExtentOk(FinishGc(s).blocks, e)
    {
      assert ExtentOk(s.blocks, e);
    }
  }

  lemma FinishKeepsInv(s: State)
    requires Inv(s)
    ensures Inv(FinishGc(s))
  {
    hide LiveOk;
    KeptOk(s);
    var s' := FinishGc(s);
    forall i | i in s'.nursery
      ensures PlaceOk(s', i)
    {
      assert PlaceOk(s, i);
    }
  }

  // ----- Runs -----

  datatype Request = Item(info: Info, sz: nat) | Buffer(info: Info)

  /** A caller of its own suballocator; items are aligned to at most a word. */
  predicate Asked(r: Request) {
    InfoOk(r.info) && match r case Item(info, _) => info.Items? && info.align <= HEADER case Buffer(info) => info.Buffers?
  }

  function Served(s: State, r: Request): (State, Option<Extent>)
    requires Asked(r)
  {
    match r
    case Item(info, sz) => Suballoc(s, info, sz)
    case Buffer(info) => BufferAlloc(s, info)
  }

  datatype Step = Take(request: Request) | Start | Finish | Fail

  predicate StepAsked(step: Step) { step.Take? ==> Asked(step.request) }

  function Next(s: State, step: Step): State
    requires StepAsked(step)
  {
    match step
    case Take(r) => Served(s, r).0
    case Start => StartGc(s)
    case Finish => FinishGc(s)
    case Fail => FailGc(s)
  }

  function Run(s: State, steps: seq<Step>): State
    requires forall i :: 0 <= i < |steps| ==> StepAsked(steps[i])
    decreases |steps|
  {
    if steps == [] then s else Run(Next(s, steps[0]), steps[1..])
  }

  lemma ServedKeepsInv(s: State, r: Request)
    requires Inv(s) && Asked(r)
    ensures var (s', e) := Served(s, r);
            && Inv(s') && OnlyTaken(s.blocks, s'.blocks)
            && (e.None? ==> s'.live == s.live) && (e.Some? ==> Given(s, s', e.value))
  {
    hide Inv, OnlyTaken, Given, InfoOk, Suballoc, BufferAlloc, Settled, Fits;
    match r {
      case Item(info, sz) =>
        SuballocKeepsInv(s, info, sz);
        assert Suballoc(s, info, sz).1.None? || Suballoc(s, info, sz).1.Some?;
      case Buffer(info) => BufferAllocKeepsInv(s, info);
    }
  }

  /** Over every sequence of allocations and collections, finished or failed, what is live
      stays apart, inside blocks in use and clear of their headers. */
  lemma {:induction false} RunKeepsInv(s: State, steps: seq<Step>)
    requires Inv(s) && forall i :: 0 <= i < |steps| ==> StepAsked(steps[i])
    ensures Inv(Run(s, steps))
    decreases |steps|
  {
    hide Inv, StartGc, FinishGc, FailGc, Served, Asked;
    if steps != [] {
      assert StepAsked(steps[0]);
      match steps[0] {
        case Take(r) => ServedKeepsInv(s, r);
        case Start => StartKeepsInv(s);
        case Finish => FinishKeepsInv(s);
        case Fail => FailKeepsInv(s);
      }
      RunKeepsInv(Next(s, steps[0]), steps[1..]);
    }
  }

  // ----- A whole collection -----

  ghost predicate AllAsked(requests: seq<Request>) {
    forall i :: 0 <= i < |requests| ==> Asked(requests[i])
  }

  /** The state after the requests, and the extents given out for them. */
  ghost function ServedAll(s: State, requests: seq<Request>): (State, seq<Extent>)
    requires AllAsked(requests)
    decreases |requests|
  {
    if requests == [] then (s, [])
    else
      var (s1, e) := Served(s, requests[0]);
      var (s2, rest) := ServedAll(s1, requests[1..]);
      (s2, (if e.Some? then [e.value] else []) + rest)
  }

  ghost predicate NoFromSpace(blocks: seq<BlockType>) {
    forall b :: 0 <= b < |blocks| ==> blocks[b] != FromSpace
  }

  ghost predicate InBlocks(blocks: seq<BlockType>, extents: seq<Extent>, kind: BlockType) {
    forall e :: e in extents ==> e.block < |blocks| && blocks[e.block] == kind
  }

  lemma TakenStay(a: seq<BlockType>, b: seq<BlockType>, extents: seq<Extent>, kind: BlockType)
    requires OnlyTaken(a, b) && InBlocks(a, extents, kind) && kind != Free
    ensures InBlocks(b, extents, kind)
  {
  }

  /** What is given out while requests are served lies in allocated blocks, and what was
      from-space before still is. */
  lemma {:induction false} ServedAllKeepsInv(s: State, requests: seq<Request>)
    requires Inv(s) && AllAsked(requests)
    ensures var (s', given) := ServedAll(s, requests);
            Inv(s') && OnlyTaken(s.blocks, s'.blocks) && s'.live == s.live + given && InBlocks(s'.blocks, given, Allocated)
    decreases |requests|
  {
    hide Inv, OnlyTaken, InBlocks, Served, Asked;
    if requests == [] {
      TakenRefl(s.blocks);
      NoneInBlocks(s.blocks);
    } else {
      assert Asked(requests[0]);
      ServedKeepsInv(s, requests[0]);
      var (s1, e) := Served(s, requests[0]);
      ServedAllKeepsInv(s1, requests[1..]);
      var (s2, rest) := ServedAll(s1, requests[1..]);
      TakenTwice(s.blocks, s1.blocks, s2.blocks);
      if e.Some? {
        GivenIsAllocated(s, s1, e.value);
        TakenStay(s1.blocks, s2.blocks, [e.value], Allocated);
        InBlocksBoth(s2.blocks, [e.value], rest);
        assert s.live + [e.value] + rest == s.live + ([e.value] + rest);
      } else {
        assert [] + rest == rest;
      }
    }
  }

  lemma NoneInBlocks(blocks: seq<BlockType>)
    ensures InBlocks(blocks, [], Allocated)
  {
  }

  lemma GivenIsAllocated(s: State, s': State, e: Extent)
    requires Given(s, s', e)
    ensures InBlocks(s'.blocks, [e], Allocated) && s'.live == s.live + [e]
  {
    hide Apart;
  }

  lemma InBlocksBoth(blocks: seq<BlockType>, a: seq<Extent>, b: seq<Extent>)
    requires InBlocks(blocks, a, Allocated) && InBlocks(blocks, b, Allocated)
    ensures InBlocks(blocks, a + b, Allocated)
  {
  }

  lemma {:induction false} KeptSplits(blocks: seq<BlockType>, from: seq<Extent>, to: seq<Extent>)
    requires InBlocks(blocks, from, FromSpace) && InBlocks(blocks, to, Allocated)
    ensures Kept(blocks, from + to) == to
    decreases |from| + |to|
  {
    if from != [] {
      assert from[0] in from && (from + to)[1..] == from[1..] + to;
      KeptSplits(blocks, from[1..], to);
    } else if to != [] {
      assert from + to == to && to[0] in to && to[1..] == [] + to[1..];
      KeptSplits(blocks, [], to[1..]);
    } else {
      assert from + to == [];
    }
  }

  lemma StartMovesAll(s: State)
    requires Inv(s) && NoFromSpace(s.blocks)
    ensures InBlocks(StartGc(s).blocks, s.live, FromSpace)
  {
    forall e | e in s.live
      ensures e.block < |s.blocks| && s.blocks[e.block] == Allocated
    {
      assert ExtentOk(s.blocks, e);
    }
  }

  /** Blocks after a collection in which `during` were the blocks at its end. */
  lemma BlocksAfter(s: State, during: seq<BlockType>)
    requires NoFromSpace(s.blocks) && OnlyTaken(StartGc(s).blocks, during)
    ensures |during| == |s.blocks|
    ensures NoFromSpace(Turned(during, FromSpace, Free)) && NoFromSpace(Turned(during, FromSpace, Allocated))
    ensures forall b :: 0 <= b < |during| ==> Turned(during, FromSpace, Free)[b] == if s.blocks[b] == Free then during[b] else Free
    ensures forall b :: 0 <= b < |during| && s.blocks[b] == Allocated ==> Turned(during, FromSpace, Allocated)[b] == Allocated
  {
  }

  /** A collection that finishes frees every block there was and nothing else: what was
      given out during it is live, all of it, and everything older is gone. */
  lemma CollectionFinished(s: State, requests: seq<Request>)
    requires Inv(s) && NoFromSpace(s.blocks) && AllAsked(requests)
    ensures var (during, given) := ServedAll(StartGc(s), requests);
            var after := FinishGc(during);
            && Inv(after) && NoFromSpace(after.blocks) && after.live == given
            && InBlocks(during.blocks, s.live, FromSpace) && InBlocks(during.blocks, given, Allocated)
            && |after.blocks| == |s.blocks|
            && forall b :: 0 <= b < |s.blocks| ==> after.blocks[b] == if s.blocks[b] == Free then during.blocks[b] else Free
  {
    hide Inv, NoFromSpace, InBlocks, OnlyTaken, AllAsked, ServedAll, Kept, Turned;
    var s1 := StartGc(s);
    StartKeepsInv(s);
    StartMovesAll(s);
    ServedAllKeepsInv(s1, requests);
    var (during, given) := ServedAll(s1, requests);
    TakenStay(s1.blocks, during.blocks, s.live, FromSpace);
    KeptSplits(during.blocks, s.live, given);
    FinishKeepsInv(during);
    BlocksAfter(s, during.blocks);
  }

  /** A collection that fails loses nothing: what was live before and what was given out
      during it are all live, and their blocks allocated. */
  lemma CollectionFailed(s: State, requests: seq<Request>)
    requires Inv(s) && NoFromSpace(s.blocks) && AllAsked(requests)
    ensures var (during, given) := ServedAll(StartGc(s), requests);
            var after := FailGc(during);
            && Inv(after) && NoFromSpace(after.blocks) && after.live == s.live + given
            && InBlocks(during.blocks, s.live, FromSpace) && InBlocks(during.blocks, given, Allocated)
            && |after.blocks| == |s.blocks|
            && forall b :: 0 <= b < |s.blocks| && s.blocks[b] == Allocated ==> after.blocks[b] == Allocated
  {
    hide Inv, NoFromSpace, InBlocks, OnlyTaken, AllAsked, ServedAll, Turned;
    var s1 := StartGc(s);
    StartKeepsInv(s);
    StartMovesAll(s);
    ServedAllKeepsInv(s1, requests);
    var (during, given) := ServedAll(s1, requests);
    TakenStay(s1.blocks, during.blocks, s.live, FromSpace);
    FailKeepsInv(during);
    BlocksAfter(s, during.blocks);
  }

  // ----- The allocator -----

  /** The block table and the suballocators that have registered for collections; `live`
      is what callers hold. */
  class Allocator {
    const blocks: array<BlockType>
    var registered: seq<Info>
    var nursery: map<Info, Place>
    ghost var live: seq<Extent>

    ghost predicate Valid()
      reads this
    {
      forall info :: info in nursery ==> info in registered
    }

    ghost function Contents(): State
      reads this, blocks
    {
      State(blocks[..], nursery, live)
    }

    /** `gs_sys_memory_init`: all blocks are free. */
    constructor (numBlocks: nat)
      ensures Valid() && fresh(blocks) && blocks.Length == numBlocks
      ensures Contents() == State(seq(numBlocks, i => Free), map[], []) && Inv(Contents())
    {
      blocks := new BlockType[numBlocks](i => Free);
      registered, nursery, live := [], map[], [];
      new;
      assert blocks[..] == seq(numBlocks, i => Free);
      EmptyInv(Contents());
    }

    /** The linear scan takes the first free block. */
    method BlockAlloc() returns (r: Option<nat>)
      modifies blocks
      ensures r == FirstFree(old(blocks[..]))
      ensures blocks[..] == if r.Some? then old(blocks[..])[r.value := Allocated] else old(blocks[..])
    {
      var i := 0;
      while i < blocks.Length && blocks[i] != Free
        invariant i <= blocks.Length && FirstFree(blocks[..]) == FirstFreeFrom(blocks[..], i)
      {
        i := i + 1;
      }
      if i == blocks.Length {
        return None;
      }
      r := Some(i);
      blocks[i] := Allocated;
    }

    /** A suballocator that has none gets a block. */
    method TakeBlock(info: Info, off: nat) returns (ok: bool)
      requires Valid()
      modifies this, blocks
      ensures Valid() && info in registered && live == old(live)
      ensures ok ==> info in nursery && nursery[info].off == off
      ensures ok <==> NewBlock(old(Contents()), info, off).Some?
      ensures Contents() == if ok then NewBlock(old(Contents()), info, off).value else old(Contents())
    {
      if info !in registered {
        registered := registered + [info];
      }
      var b := BlockAlloc();
      if b.None? {
        return false;
      }
      nursery := nursery[info := Place(b.value, off)];
      ok := true;
    }

    /** `gs_sys_block_suballoc`, `gs_sys_global_block_suballoc` */
    method Suballocate(info: Info, sz: nat) returns (r: Option<Extent>)
      requires Valid() && InfoOk(info)
      modifies this, blocks
      ensures Valid() && (Contents(), r) == Suballoc(old(Contents()), info, sz)
    {
      hide InfoOk, AlignTo, ItemsStart, NewBlock, FirstFree;
      BlockDivides(info);
      if info !in nursery {
        var ok := TakeBlock(info, ItemsStart(info.align));
        if !ok {
          return None;
        }
      }
      if sz > BLOCK_SIZE - HEADER {
        return None;
      }
      if nursery[info].off + sz > BLOCK_SIZE {
        var ok := TakeBlock(info, ItemsStart(info.align));
        if !ok {
          return None;
        }
      }
      var p := nursery[info];
      r := Some(Extent(p.block, p.off, p.off + sz));
      live := live + [r.value];
      var next := AlignTo(p.off + sz, info.align);
      ghost var before := nursery;
      nursery := nursery[info := Place(p.block, next)];
      if next >= BLOCK_SIZE {
        assert nursery - {info} == before - {info};
        nursery := nursery - {info};
      }
    }

    /** `gs_sys_aligned_block_suballoc` */
    method SuballocateAligned(info: Info) returns (r: Option<Extent>)
      requires Valid() && InfoOk(info)
      modifies this, blocks
      ensures Valid() && (Contents(), r) == BufferAlloc(old(Contents()), info)
    {
      hide InfoOk, NewBlock, FirstFree;
      BlockDivides(info);
      if info !in nursery {
        var ok := TakeBlock(info, HEADER);
        if !ok {
          return None;
        }
      }
      var p := nursery[info];
      var base := p.off;
      if base % info.align != 0 {
        base := base - base % info.align;
      }
      var end := base + info.align;
      if end >= BLOCK_SIZE {
        nursery := nursery - {info};
      } else {
        nursery := nursery[info := Place(p.block, end)];
      }
      r := Some(Extent(p.block, p.off, end));
      live := live + [r.value];
    }

    /** The pre-callbacks: every registered suballocator forgets where it was. */
    method PreCallbacks()
      requires Valid()
      modifies this`nursery
      ensures Valid() && nursery == map[]
    {
      var i := 0;
      while i < |registered|
        invariant i <= |registered| && Valid()
        invariant forall info :: info in nursery ==> info !in registered[..i]
      {
        nursery := nursery - {registered[i]};
        i := i + 1;
      }
      assert registered[..i] == registered;
    }

    /** All blocks of one type become of another. */
    method TurnAll(from: BlockType, to: BlockType)
      requires from != to
      modifies blocks
      ensures blocks[..] == Turned(old(blocks[..]), from, to)
    {
      ghost var was := blocks[..];
      var i := 0;
      while i < blocks.Length
        invariant i <= blocks.Length && |was| == blocks.Length
        invariant forall k :: 0 <= k < i ==> blocks[k] == if was[k] == from then to else was[k]
        invariant forall k :: i <= k < blocks.Length ==> blocks[k] == was[k]
      {
        if blocks[i] == from {
          blocks[i] := to;
        }
        i := i + 1;
      }
    }

    /** `gs_sys_start_gc`, up to the root callbacks */
    method StartCollection()
      requires Valid()
      modifies this`nursery, blocks
      ensures Valid() && Contents() == StartGc(old(Contents()))
    {
      PreCallbacks();
      TurnAll(Allocated, FromSpace);
    }

    /** `gs_sys_finish_gc`, after the post-callbacks: what lay in from-space is gone. */
    method FinishCollection()
      requires Valid()
      modifies this`live, blocks
      ensures Valid() && Contents() == FinishGc(old(Contents()))
    {
      live := Kept(blocks[..], live);
      TurnAll(FromSpace, Free);
    }

    /** `gs_sys_gc_failed` */
    method CollectionFails()
      requires Valid()
      modifies blocks
      ensures Valid() && Contents() == FailGc(old(Contents()))
    {
      TurnAll(FromSpace, Allocated);
    }
  }
}
