/** What page_lookup does to the free list, the queue and the clock, and what that means for
    sys_mem_map, which looks two pages up before it inserts a mapping. */
module VmLookup {
  import opened Prelude
  import opened VmState
  import opened VmClock
  import opened VmMove
  import opened VmSteps
  import opened VmEvict
  import opened VmOps

  ghost function Touched(c: Clock, p: nat): Clock {
    if p < |c.accessed| then c.(accessed := c.accessed[p := true]) else c
  }

  /** page_alloc has taken the free frame p. */
  ghost predicate Taken(c: Clock, d: Clock, p: nat) {
    p < |c.accessed| && d == c.(accessed := c.accessed[p := false])
  }

  /** The frames that page_alloc evicts. */
  ghost function ToEvictIn(s: Vm, c: Clock): seq<nat> {
    if s.free == [] then Victims(s.queue, c, NSWAP) else []
  }

  /** The swapped page x has been brought back to frame p, for which the frames ev were
      evicted. */
  ghost predicate Back(s: Vm, t: Vm, x: Slot, p: nat, ev: seq<nat>) {
    && x in s.pte && t.tables == s.tables
    && |t.free| == |s.free| + |ev| - 1 && |t.queue| == |s.queue| - |ev| + 1 && p in t.queue
    && FreeBlocks(t.bitmap) == FreeBlocks(s.bitmap) - |ev| + 1
    && t.pte.Keys == s.pte.Keys
    && (forall y :: y in s.pte ==>
          (t.pte[y].valid <==> if s.pte[y].valid then s.pte[y].num !in ev else Where(s.pte[y]) == Where(s.pte[x])))
  }

  /** The same, with the evictions that the clock chooses. */
  ghost predicate Looked(s: Vm, c: Clock, t: Vm, d: Clock, x: Slot, p: nat, ev: seq<nat>) {
    && Back(s, t, x, p, ev) && ev == ToEvictIn(s, c) && (p < |d.accessed| ==> d.accessed[p])
    && (s.free != [] ==> p == s.free[0] && t.queue == s.queue + [p] && d == Touched(c, p))
  }

  /** page_alloc has taken a frame and evicted the frames ev for it. */
  ghost predicate FrameTaken(s: Vm, a: Vm, ev: seq<nat>) {
    && |a.free| == |s.free| + |ev| - 1 && |a.queue| == |s.queue| - |ev| && FreeBlocks(a.bitmap) == FreeBlocks(s.bitmap) - |ev|
    && |ev| == (if s.free == [] then Min(NSWAP, |s.queue|) else 0) && (forall q :: q in ev ==> q in s.queue)
    && a.tables == s.tables && a.pool == s.pool && a.reg == s.reg && a.pte.Keys == s.pte.Keys
    && (forall y :: y in s.pte ==>
          if s.pte[y].valid && s.pte[y].num in ev then !a.pte[y].valid else a.pte[y] == s.pte[y])
  }

  lemma RecycledTaken(s: Vm, c: Clock, m: Vm, ev: seq<nat>)
    requires Recycled(s, m, ev) && ShapeOk(m) && m.free != [] && m.free[0] < |m.ram| && Distinct(s.queue) && ev == ToEvictIn(s, c)
    ensures FrameTaken(s, Allocate(m), ev)
  {
    EvictCount(s, c);
  }

  /** There is a frame for page x, and another one if mapping it there needs one: for a page table,
      or to bring back the page under it, which the eviction for the first may have put on the
      disk. */
  ghost predicate TwoFrames(s: Vm, x: Slot) {
    match |s.free|
    case 0 => !OutOfMemory(s) && (|s.queue| > 1 || !(NeedsFrame(s, x) || (x in s.pte && s.pte[x].num in s.queue)))
    case 1 => NeedsFrame(s, x) ==> s.queue != [] && FreeBlocks(s.bitmap) >= Min(NSWAP, |s.queue|)
    case _ => true
  }

  /** TwoFrames says before page_alloc whether page_insert at x will have its frame after it. */
  lemma TakenTwo(s: Vm, a: Vm, x: Slot, ev: seq<nat>)
    requires FrameTaken(s, a, ev) && !OutOfMemory(s) && Distinct(s.queue) && Distinct(ev)
    ensures TwoFrames(s, x) <==> !(NeedsFrame(a, x) && OutOfMemory(a))
  {
    if s.free == [] && |s.queue| == 1 {
      assert ev[0] in s.queue && ev == s.queue;
    }
  }

  /** page_lookup of x took s to t. */
  ghost predicate LookedUp(s: Vm, c: Clock, t: Vm, d: Clock, x: Slot, ev: seq<nat>) {
    if x !in s.pte then t == s && d == c
    else if s.pte[x].valid then t == s && d == Touched(c, s.pte[x].num)
    else x in t.pte && t.pte[x].valid && Looked(s, c, t, d, x, t.pte[x].num, ev)
  }

  /** A lookup uses up one free frame at most. */
  lemma LookupCosts(s: Vm, c: Clock, t: Vm, d: Clock, x: Slot, ev: seq<nat>)
    requires LookedUp(s, c, t, d, x, ev) && s.free != []
    ensures |t.free| >= |s.free| - 1
  {}

  lemma FreeBlocksFreed(bitmap: seq<bool>, b: nat)
    requires b < |bitmap| && bitmap[b]
    ensures FreeBlocks(bitmap[b := false]) == FreeBlocks(bitmap) + 1
  {
    var freed := bitmap[b := false];
    FreeBlocksTaken(freed, b);
    assert freed[b := true] == bitmap;
  }

  /** A run of evictions moves no page to the block of another swapped page. */
  lemma BlockApart(s: Vm, m: Vm, ev: seq<nat>, x: Slot, y: Slot)
    requires Recycled(s, m, ev) && x in s.pte && !s.pte[x].valid && y in s.pte && s.pte[y].valid
    ensures x in m.pte && y in m.pte && Where(m.pte[y]) != Where(s.pte[x])
  {
    assert m.pte[x] == s.pte[x];
    assert Shares(m, x, y) <==> Shares(s, x, y);
  }

  /** The pages that are valid once x is back. */
  lemma BackValid(s: Vm, m: Vm, t: Vm, ev: seq<nat>, x: Slot, p: nat)
    requires Recycled(s, m, ev) && ShapeOk(m) && m.free != [] && m.free[0] < |m.ram|
    requires x in s.pte && !s.pte[x].valid && SwappedIn(Allocate(m), t, p, s.pte[x].num)
    ensures t.pte.Keys == s.pte.Keys
    ensures forall y :: y in s.pte ==>
      (t.pte[y].valid <==> if s.pte[y].valid then s.pte[y].num !in ev else Where(s.pte[y]) == Where(s.pte[x]))
  {
    forall y | y in s.pte
      ensures t.pte[y].valid <==> if s.pte[y].valid then s.pte[y].num !in ev else Where(s.pte[y]) == Where(s.pte[x])
    {
      if s.pte[y].valid {
        BlockApart(s, m, ev, x, y);
      } else {
        assert m.pte[y] == s.pte[y];
      }
    }
  }

  lemma BackLooked(s: Vm, c: Clock, m: Vm, t: Vm, d: Clock, x: Slot, ev: seq<nat>)
    requires Recycled(s, m, ev) && ShapeOk(m) && m.free != [] && m.free[0] < |m.ram| && ev == ToEvictIn(s, c)
    requires x in s.pte && !s.pte[x].valid && SwappedIn(Allocate(m), t, m.free[0], s.pte[x].num)
    requires s.pte[x].num < |m.bitmap| && m.bitmap[s.pte[x].num]
    requires s.free != [] ==> m == s && Taken(c, d, m.free[0])
    ensures Looked(s, c, t, Touched(d, m.free[0]), x, m.free[0], ev)
  {
    BackValid(s, m, t, ev, x, m.free[0]);
    FreeBlocksFreed(m.bitmap, s.pte[x].num);
  }

  // ------------------------------------------------------- sys_mem_map and its source

  /** page_insert of src's frame at dst will evict that frame: src is in memory, and dst is
      unmapped or in memory unless the lookup of src has evicted it. */
  ghost predicate LostNow(t: Vm, c: Clock, src: Slot, dst: Slot) {
    && src in t.pte && t.pte[src].valid
    && NeedsFrame(t, dst) && !OutOfMemory(t) && t.pte[src].num in ToEvictIn(t, c)
  }

  /** One frame is all that is left for two pages that are not both in memory. */
  ghost predicate OneFrameLeft(s: Vm, src: Slot, dst: Slot)
    requires src in s.pte && dst in s.pte
  {
    && Where(s.pte[src]) != Where(s.pte[dst]) && !(s.pte[src].valid && s.pte[dst].valid)
    && |s.free| + |s.queue| == 1 && (s.free == [] ==> FreeBlocks(s.bitmap) > 0)
    && (s.pte[src].valid ==> s.queue == [s.pte[src].num])
    && (s.pte[dst].valid ==> s.queue == [s.pte[dst].num])
  }

  /** The next run of evictions takes the frame that src has, or that it takes when it is
      looked up first, as the last free one. */
  ghost predicate EvictsSource(s: Vm, c: Clock, src: Slot)
    requires src in s.pte
  {
    if s.pte[src].valid then
      && s.free == [] && !OutOfMemory(s)
      && s.pte[src].num in Victims(s.queue, Touched(c, s.pte[src].num), NSWAP)
    else if |s.free| == 1 then
      && FreeBlocks(s.bitmap) + 1 >= Min(NSWAP, |s.queue| + 1)
      && s.free[0] in Victims(s.queue + [s.free[0]], Touched(c, s.free[0]), NSWAP)
    else s.free == [] && |s.queue| == 1 && FreeBlocks(s.bitmap) > 0
  }

  /** When sys_mem_map loses the frame it is about to map.  If dst is unmapped it must need a
      page table, for which src's frame is evicted.  If dst is mapped, one frame must be all
      that is left for the two pages. */
  ghost predicate SourceLost(s: Vm, c: Clock, src: Slot, dst: Slot) {
    src in s.pte &&
    if dst in s.pte then OneFrameLeft(s, src, dst) else TableOf(dst) !in s.tables && EvictsSource(s, c, src)
  }

  /** The same for sys_ipc_try_send, which looks up src only: a page on the disk under dst is
      brought back by page_insert. */
  ghost predicate SendLost(s: Vm, c: Clock, src: Slot, dst: Slot) {
    src in s.pte &&
    if dst in s.pte && s.pte[dst].valid then OneFrameLeft(s, src, dst)
    else NeedsFrame(s, dst) && (dst in s.pte ==> Where(s.pte[src]) != Where(s.pte[dst])) && EvictsSource(s, c, src)
  }

  /** How many frames page_alloc evicts. */
  lemma EvictCount(s: Vm, c: Clock)
    requires Distinct(s.queue)
    ensures |ToEvictIn(s, c)| == if s.free == [] then Min(NSWAP, |s.queue|) else 0
    ensures forall p :: p in ToEvictIn(s, c) ==> p in s.queue
    ensures s.free == [] && |s.queue| <= NSWAP ==> forall p :: p in s.queue ==> p in ToEvictIn(s, c)
  {
    VictimsQueued(s.queue, c, NSWAP);
  }

  lemma OneLeftBefore(s: Vm, t: Vm, src: Slot, dst: Slot, p: nat, ev: seq<nat>)
    requires src in s.pte && dst in s.pte && !s.pte[dst].valid && Back(s, t, dst, p, ev) && Where(t.pte[dst]) == Ram(p)
    requires |ev| == if s.free == [] then Min(NSWAP, |s.queue|) else 0
    requires forall q :: q in ev ==> q in s.queue
    requires Where(s.pte[src]) == Where(s.pte[dst]) <==> Where(t.pte[src]) == Where(t.pte[dst])
    ensures OneFrameLeft(s, src, dst) <==> OneFrameLeft(t, src, dst)
  {
    if OneFrameLeft(t, src, dst) && s.pte[src].valid { assert s.pte[src].num in ev; }
    if OneFrameLeft(s, src, dst) && s.pte[src].valid { assert ev[0] in s.queue; }
  }

  /** Looking dst up does not decide the matter. */
  lemma LostBefore(s: Vm, c: Clock, t: Vm, d: Clock, src: Slot, dst: Slot, ev: seq<nat>)
    requires Distinct(s.queue) && LookedUp(s, c, t, d, dst, ev) && SameMemory(s, t)
    ensures SourceLost(s, c, src, dst) <==> SourceLost(t, d, src, dst)
  {
    if src in s.pte && dst in s.pte && !s.pte[dst].valid {
      EvictCount(s, c);
      assert Shares(s, src, dst) <==> Shares(t, src, dst);
      OneLeftBefore(s, t, src, dst, t.pte[dst].num, ev);
    }
  }

  /** Nor does a lookup that fails. */
  lemma NotLost(s: Vm, c: Clock, x: Slot, src: Slot, dst: Slot)
    requires x in s.pte && !s.pte[x].valid && OutOfMemory(s)
    requires x == dst || (x == src && (dst in s.pte ==> s.pte[dst].valid))
    ensures !SourceLost(s, c, src, dst)
  {}

  /** After both lookups it is decided. */
  lemma LostAfter(s: Vm, c: Clock, t: Vm, d: Clock, src: Slot, dst: Slot, ev: seq<nat>)
    requires Distinct(s.queue) && Distinct(t.queue) && LookedUp(s, c, t, d, src, ev) && SameMemory(s, t)
    requires src in s.pte && (dst in s.pte ==> s.pte[dst].valid)
    ensures SourceLost(s, c, src, dst) <==> LostNow(t, d, src, dst)
  {
    EvictCount(s, c);
    EvictCount(t, d);
  }

  lemma SendNotLost(s: Vm, c: Clock, src: Slot, dst: Slot)
    requires src in s.pte && !s.pte[src].valid && OutOfMemory(s)
    ensures !SendLost(s, c, src, dst)
  {}

  lemma SendLostAfter(s: Vm, c: Clock, t: Vm, d: Clock, src: Slot, dst: Slot, ev: seq<nat>)
    requires Distinct(s.queue) && Distinct(t.queue) && LookedUp(s, c, t, d, src, ev) && SameMemory(s, t) && src in s.pte
    ensures SendLost(s, c, src, dst) <==> LostNow(t, d, src, dst)
  {
    if dst !in s.pte || s.pte[dst].valid {
      LostAfter(s, c, t, d, src, dst, ev);
    } else {
      SendLostOver(s, c, t, d, src, dst, ev);
    }
  }

  /** The page under dst waits on the disk. */
  lemma SendLostOver(s: Vm, c: Clock, t: Vm, d: Clock, src: Slot, dst: Slot, ev: seq<nat>)
    requires Distinct(s.queue) && Distinct(t.queue) && LookedUp(s, c, t, d, src, ev) && SameMemory(s, t) && src in s.pte
    requires dst in s.pte && !s.pte[dst].valid
    ensures SendLost(s, c, src, dst) <==> LostNow(t, d, src, dst)
  {
    EvictCount(s, c);
    EvictCount(t, d);
  }

  // -------------------------------------------------------------------- an example

  const SRC := Slot(0, UCOW + 1)
  const DST := Slot(0, UCOW + 1 + NPTE)

  /** Three frames: a page directory, a page table, and the only page, which is queued; the swap
      disk is empty. */
  function Crowded(): Vm {
    Vm([[], [], []], [1, 1, 1], [], seq(SD_NBLK, _ => []), seq(SD_NBLK, _ => false), [2], [[], [], [0]],
       seq(SD_NBLK, _ => []), [SwapInfo(SRC, 0)], [], map[0 := 0], map[TableOf(SRC) := 1],
       map[SRC := Pte(true, false, 2, Perm(true, false, false, false))], [],
       [Ram(2)], [Dir, Table(TableOf(SRC)), Data], map[SRC := 0], map[0 := 0])
  }

  lemma CrowdedFrames()
    ensures var s := Crowded(); ShapeOk(s) && FreeOk(s) && RefsOk(s) && SharersOk(s)
  {
    var s := Crowded();
    assert Users(s.pte, Ram(2)) == {SRC};
    forall l: Loc ensures |Users(s.pte, l)| <= MAX_REF {
      assert Users(s.pte, l) == if l == Ram(2) then {SRC} else {};
    }
    assert RefOk(s, 0) && RefOk(s, 1) && RefOk(s, 2);
  }

  lemma CrowdedRecords()
    ensures var s := Crowded(); RegOk(s) && QueueOk(s)
  {}

  lemma CrowdedLists()
    ensures ListsOk(Crowded())
  {
    var s := Crowded();
    assert Lists(s.ste[0], s.loc, Ram(0)) && Lists(s.ste[1], s.loc, Ram(1)) && Lists(s.ste[2], s.loc, Ram(2));
  }

  lemma CrowdedEntries()
    ensures var s := Crowded(); SpacesOk(s) && PtesOk(s) && CompleteOk(s, None) && TlbOk(s)
  {}

  lemma CrowdedInv()
    ensures Inv(Crowded(), None)
  {
    CrowdedFrames();
    CrowdedRecords();
    CrowdedLists();
    CrowdedEntries();
  }

  /** Mapping the only page at an address that has no page table evicts it. */
  lemma LostExample(accessed: seq<bool>, hand: Option<nat>)
    ensures Inv(Crowded(), None) && SourceLost(Crowded(), Clock(accessed, hand), SRC, DST)
  {
    var s := Crowded();
    CrowdedInv();
    assert TableOf(DST) != TableOf(SRC);
    assert !s.bitmap[0];
    FreeBlocksTaken(s.bitmap, 0);
    VictimsQueued(s.queue, Touched(Clock(accessed, hand), 2), NSWAP);
    assert 2 in s.queue;
  }
}
