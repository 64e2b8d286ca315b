/** The effect of whole operations: looking a page up, inserting and removing mappings. */
module VmOps {
  import opened Prelude
  import opened VmState
  import opened VmMove
  import opened VmSteps
  import opened VmEvict

  // ------------------------------------------------------------------ swapping back

  /** After swap_back the pages of block b are valid at the frame it has taken; nothing
      else that mapping calls rely on has changed, and user programs see no difference. */
  lemma BackPaged(s: Vm, m: Vm, t: Vm, ev: seq<nat>, b: nat)
    requires Inv(s, None) && Inv(m, None) && Recycled(s, m, ev) && (s.free != [] ==> ev == [])
    requires b < |s.bitmap| && s.bitmap[b] && |m.bitmap| == |s.bitmap| && Brought(m, t, b)
    ensures Inv(t, None) && Paged(s, t, ev) && t.tables == s.tables && SwappedIn(Allocate(m), t, m.free[0], b)
    ensures forall x :: x in s.pte && Where(s.pte[x]) == Disk(b) ==> t.pte[x] == Aim(s.pte[x], Ram(m.free[0]))
  {
    var a, p := Allocate(m), m.free[0];
    BringsBack(s, m, ev, b);
    assert SwappedIn(a, t, p, b) by { BringsSwapsIn(a, b, p); }
    assert Inv(t, None) by { SwapInKeeps(a, t, p, b); }
    assert Paged(s, t, ev) by {
      FreeHead(m);
      RecycledPaged(s, m, ev);
      InPaged(s, a, t, ev, p, b);
    }
    BackAims(s, m, t, ev, b);
  }

  lemma BackAims(s: Vm, m: Vm, t: Vm, ev: seq<nat>, b: nat)
    requires Recycled(s, m, ev) && ShapeOk(m) && m.free != [] && m.free[0] < |m.ram|
    requires SwappedIn(Allocate(m), t, m.free[0], b)
    ensures forall x :: x in s.pte && Where(s.pte[x]) == Disk(b) ==> t.pte[x] == Aim(s.pte[x], Ram(m.free[0]))
  {
    forall x | x in s.pte && Where(s.pte[x]) == Disk(b) ensures t.pte[x] == Aim(s.pte[x], Ram(m.free[0])) {
      assert m.pte[x] == s.pte[x];
    }
  }

  // --------------------------------------------------------------- removing a mapping

  /** page_remove of the valid page x, mapped to p. */
  function RemoveState(s: Vm, x: Slot, p: nat): Vm
    requires ShapeOk(s) && p < |s.ref| && s.ref[p] > 0 && x.pgdir in s.asid
    requires x in s.reg ==> s.reg[x] < |s.loc|
  {
    var u := if x in s.reg then Unregister(s, x, p) else s;
    Unmap(u.(tlb := Flushed(u.tlb, HiOf(x, u.asid[x.pgdir]))), x, p)
  }

  lemma FlushForgets(s: Vm, x: Slot)
    requires x.pgdir in s.asid
    ensures NoEntry(s.(tlb := Flushed(s.tlb, HiOf(x, s.asid[x.pgdir]))), x)
  {}

  lemma MappedFacts(s: Vm, x: Slot)
    requires ShapeOk(s) && FrameHalf(s) && x in s.pte
    ensures x.pgdir in s.asid && TableOf(x) in s.tables
    ensures s.pte[x].valid ==> s.pte[x].num < |s.ref| && s.kind[s.pte[x].num] == Data && s.ref[s.pte[x].num] > 0
    ensures s.pte[x].valid ==> s.ref[s.pte[x].num] == |Users(s.pte, Ram(s.pte[x].num))|
    ensures !s.pte[x].valid ==> s.pte[x].swapped && s.pte[x].num < |s.bitmap| && s.bitmap[s.pte[x].num]
  {
    assert PteOk(s, x);
    if s.pte[x].valid { assert RefOk(s, s.pte[x].num); }
  }

  /** After unregistering x every other mapping of p that still needs a record has one. */
  lemma UnregisterLeaves(s: Vm, x: Slot, p: nat, odd: Option<nat>)
    requires ShapeOk(s) && CompleteOk(s, odd) && QueueOk(s)
    requires x in s.pte && Where(s.pte[x]) == Ram(p) && x in s.reg && p < |s.ste| && s.reg[x] < |s.loc|
    requires odd == None || (odd == Some(p) && s.ste[p] == [s.reg[x]])
    ensures forall y :: y in s.pte && Where(s.pte[y]) == Ram(p) && y != x && p in Unregister(s, x, p).queue ==>
              y in Unregister(s, x, p).reg
  {
    var i, t := s.reg[x], Unregister(s, x, p);
    WithoutKeeps(s.queue, p);
    if odd == Some(p) {
      assert Without([i], i) == [] by { WithoutKeeps([i], i); }
    }
  }

  /** Removing a mapping keeps the invariant; a partly registered frame must be losing its
      only registered mapping. */
  lemma RemoveKeeps(s: Vm, x: Slot, odd: Option<nat>)
    requires Inv(s, odd) && x in s.pte && s.pte[x].valid && (odd == None || odd == Some(s.pte[x].num))
    requires odd != None ==> x in s.reg && s.ste[s.pte[x].num] == [s.reg[x]]
    ensures x.pgdir in s.asid && s.pte[x].num < |s.ref| && s.ref[s.pte[x].num] > 0
    ensures x in s.reg ==> s.reg[x] < |s.loc|
    ensures Inv(RemoveState(s, x, s.pte[x].num), None)
  {
    MappedFacts(s, x);
    var p := s.pte[x].num;
    if x in s.reg {
      UnregisterKeeps(s, x, p, odd);
      UnregisterLeaves(s, x, p, odd);
      RemoveUnregistered(Unregister(s, x, p), x, p, Some(p));
    } else {
      RemoveUnregistered(s, x, p, None);
    }
  }

  lemma RemoveUnregistered(u: Vm, x: Slot, p: nat, odd: Option<nat>)
    requires Inv(u, odd) && (odd == None || odd == Some(p)) && p < |u.ref| && x.pgdir in u.asid
    requires x in u.pte && u.pte[x].valid && u.pte[x].num == p && x !in u.reg
    requires forall y :: y in u.pte && Where(u.pte[y]) == Ram(p) && y != x && p in u.queue ==> y in u.reg
    ensures u.ref[p] > 0 && Inv(Unmap(u.(tlb := Flushed(u.tlb, HiOf(x, u.asid[x.pgdir]))), x, p), None)
  {
    var f := u.(tlb := Flushed(u.tlb, HiOf(x, u.asid[x.pgdir])));
    assert Inv(f, odd) by { FlushKeeps(u, HiOf(x, u.asid[x.pgdir]), odd); }
    FlushForgets(u, x);
    UnmapKeeps(f, x, p, odd);
  }

  /** Changing one entry is seen nowhere else. */
  lemma OneEntry(s: Vm, t: Vm, x: Slot)
    requires t.ram == s.ram && t.disk == s.disk
    requires forall y :: y != x ==> (y in s.pte <==> y in t.pte)
    requires forall y :: y != x && y in s.pte && y in t.pte ==> t.pte[y] == s.pte[y]
    ensures SameBut(s, t, {x})
  {
    forall y | y !in {x} ensures ViewAt(s, y) == ViewAt(t, y) {
      if y in s.pte { assert Contained(s, Where(s.pte[y])) == Contained(t, Where(s.pte[y])); }
    }
  }

  lemma RemoveLocal(s: Vm, x: Slot, p: nat)
    requires ShapeOk(s) && p < |s.ref| && s.ref[p] > 0 && x.pgdir in s.asid
    requires x in s.reg ==> s.reg[x] < |s.loc|
    ensures x !in RemoveState(s, x, p).pte && SameBut(s, RemoveState(s, x, p), {x})
  {
    OneEntry(s, RemoveState(s, x, p), x);
  }

  /** The records of a frame's list that name x: the registered one, or none. */
  ghost predicate RecordOf(info: seq<SwapInfo>, list: seq<nat>, reg: map<Slot, nat>, x: Slot, a: nat) {
    && Records(info, list)
    && (x in reg ==> reg[x] in list && reg[x] < |info| && info[reg[x]] == SwapInfo(x, a))
    && (forall i :: i in list && i < |info| && info[i].slot == x ==> x in reg && i == reg[x])
  }

  lemma RecordFound(s: Vm, x: Slot, p: nat)
    requires ShapeOk(s) && RegOk(s) && ListsOk(s) && p < |s.ste| && x in s.pte && Where(s.pte[x]) == Ram(p) && x.pgdir in s.asid
    ensures RecordOf(s.info, s.ste[p], s.reg, x, s.asid[x.pgdir])
    ensures x in s.reg ==> s.reg[x] < |s.loc|
  {
    assert Lists(s.ste[p], s.loc, Ram(p));
    ListRecords(s, s.ste[p], Ram(p));
  }

  /** What page_remove does: x is unmapped, nothing is seen to change elsewhere, and frames
      not involved keep their use, count and place in the queue. */
  ghost predicate Removed(s: Vm, t: Vm, x: Slot, ev: seq<nat>) {
    && SameBut(s, t, {x})
    && t.asid == s.asid && t.owner == s.owner && TablesGrow(s, t) && t.reg == s.reg - {x}
    && t.pte.Keys == s.pte.Keys - {x} && |t.kind| == |s.kind| == |t.ref| == |s.ref| && |t.ram| == |s.ram|
    && TlbShrinks(s.tlb, t.tlb)
    && (s.free != [] ==> ev == [])
    && (forall q :: q in ev ==> q in s.queue && q < |s.kind| && s.kind[q] == Data)
    && (forall q :: 0 <= q < |s.kind| && s.kind[q] != Free && q !in ev && !(x in s.pte && Where(s.pte[x]) == Ram(q)) ==>
          t.kind[q] == s.kind[q] && t.ref[q] == s.ref[q] && (q in t.queue <==> q in s.queue))
    && (forall q :: 0 <= q < |s.kind| && q < |s.ram| && s.kind[q] == Held ==> t.ram[q] == s.ram[q])
    && (forall y :: y != x && y in s.pte && s.pte[y].valid && s.pte[y].num !in ev ==> t.pte[y] == s.pte[y])
    && NoLeak(s, t, None)
  }

  /** The record pool once x has been unmapped. */
  function Returned(s: Vm, x: Slot): seq<nat> {
    if x in s.reg then [s.reg[x]] + s.pool else s.pool
  }

  lemma RemovedNothing(s: Vm, t: Vm, x: Slot, ev: seq<nat>)
    requires Paged(s, t, ev) && x !in s.pte && RegOk(s)
    ensures Removed(s, t, x, ev)
  {
    assert x !in s.reg;
    SameWiden(s, t, {}, {x});
  }

  lemma RemovedSame(s: Vm, x: Slot)
    requires Inv(s, None) && x !in s.pte
    ensures Removed(s, s, x, [])
  {
    assert Paged(s, s, []) by { PagedNothing(s); }
    RemovedNothing(s, s, x, []);
  }

  lemma RemovedSeen(s: Vm, m: Vm, x: Slot, p: nat)
    requires SameMemory(s, m) && ShapeOk(m) && p < |m.ref| && m.ref[p] > 0 && x.pgdir in m.asid
    requires x in m.reg ==> m.reg[x] < |m.loc|
    ensures SameBut(s, RemoveState(m, x, p), {x})
  {
    RemoveLocal(m, x, p);
    SameWiden(s, m, {}, {x});
    SameTrans(s, m, RemoveState(m, x, p), {x});
  }

  lemma RemovedRest(s: Vm, m: Vm, x: Slot, p: nat, ev: seq<nat>)
    requires ShapeOk(m) && Paged(s, m, ev) && p < |m.ref| && m.ref[p] > 0 && x.pgdir in m.asid
    requires x in m.reg ==> m.reg[x] < |m.loc|
    ensures var t := RemoveState(m, x, p);
      && t.asid == s.asid && t.owner == s.owner && TablesGrow(s, t) && t.reg == s.reg - {x}
      && t.pte.Keys == s.pte.Keys - {x} && |t.kind| == |s.kind| == |t.ref| == |s.ref| && |t.ram| == |s.ram|
      && TlbShrinks(s.tlb, t.tlb)
      && (forall q :: 0 <= q < |s.kind| && q < |s.ram| && s.kind[q] == Held ==> t.ram[q] == s.ram[q])
      && (forall y :: y != x && y in s.pte && s.pte[y].valid && s.pte[y].num !in ev ==> t.pte[y] == s.pte[y])
      && NoLeak(s, t, None)
  {}

  lemma RemovedAfterPaging(s: Vm, m: Vm, x: Slot, ev: seq<nat>)
    requires Inv(s, None) && Inv(m, None) && Paged(s, m, ev) && x in m.pte && m.pte[x].valid
    requires m.pte[x].num < |m.ref| && m.ref[m.pte[x].num] > 0 && x.pgdir in m.asid
    requires x in m.reg ==> m.reg[x] < |m.loc|
    ensures Removed(s, RemoveState(m, x, m.pte[x].num), x, ev)
  {
    RemovedSeen(s, m, x, m.pte[x].num);
    RemovedRest(s, m, x, m.pte[x].num, ev);
    RemovedFrames(s, m, x, ev);
  }

  lemma RemovedFrames(s: Vm, m: Vm, x: Slot, ev: seq<nat>)
    requires ShapeOk(s) && RefsOk(s) && ShapeOk(m) && RefsOk(m) && PtesOk(m) && QueueOk(m) && Paged(s, m, ev)
    requires x in m.pte && m.pte[x].valid && m.pte[x].num < |m.ref| && m.ref[m.pte[x].num] > 0 && x.pgdir in m.asid
    requires x in m.reg ==> m.reg[x] < |m.loc|
    ensures var t := RemoveState(m, x, m.pte[x].num); forall q ::
      0 <= q < |s.kind| && s.kind[q] != Free && q !in ev && !(x in s.pte && Where(s.pte[x]) == Ram(q)) ==>
          t.kind[q] == s.kind[q] && t.ref[q] == s.ref[q] && (q in t.queue <==> q in s.queue)
  {
    var p := m.pte[x].num;
    var t := RemoveState(m, x, p);
    WithoutKeeps(m.queue, p);
    forall q | 0 <= q < |s.kind| && s.kind[q] != Free && q !in ev && !(x in s.pte && Where(s.pte[x]) == Ram(q))
      ensures t.kind[q] == s.kind[q] && t.ref[q] == s.ref[q] && (q in t.queue <==> q in s.queue)
    {
      OtherFrame(s, m, x, q, ev);
    }
  }

  /** A frame that is neither evicted nor x's own in s is not the one x is brought back to:
      it would count one page more than before. */
  lemma OtherFrame(s: Vm, m: Vm, x: Slot, q: nat, ev: seq<nat>)
    requires ShapeOk(s) && RefsOk(s) && ShapeOk(m) && RefsOk(m) && PtesOk(m) && Paged(s, m, ev)
    requires x in m.pte && m.pte[x].valid && q < |s.kind| && s.kind[q] != Free && q !in ev
    requires !(x in s.pte && Where(s.pte[x]) == Ram(q))
    ensures q != m.pte[x].num
  {
    assert PteOk(m, x) && RefOk(s, q) && RefOk(m, q);
    if q == m.pte[x].num {
      var before, after := Users(s.pte, Ram(q)), Users(m.pte, Ram(q));
      OneMore(before, after, x);
    }
  }

  lemma OneMore<T>(a: set<T>, b: set<T>, x: T)
    requires a <= b && x in b && x !in a
    ensures |a| < |b|
  {
    assert b == a + (b - a) && x in b - a;
  }

  // -------------------------------------------------------------- inserting a mapping

  /** Mapping an unmapped page keeps the invariant, with its frame not yet registered. */
  lemma InsertKeeps(s: Vm, x: Slot, p: nat, perm: Perm)
    requires Inv(s, None) && x !in s.pte && TableOf(x) in s.tables
    requires p < |s.ref| && (s.kind[p] == Held || s.kind[p] == Data) && s.ref[p] < MAX_REF
    ensures Inv(MapPage(s, x, p, perm), Some(p)) && SameBut(s, MapPage(s, x, p, perm), {x})
  {
    assert Inv(MapPage(s, x, p, perm), Some(p)) by { MapKeeps(s, x, p, perm); }
    MapLocal(s, x, p, perm);
  }

  lemma MapLocal(s: Vm, x: Slot, p: nat, perm: Perm)
    requires ShapeOk(s) && p < |s.ref|
    ensures SameBut(s, MapPage(s, x, p, perm), {x})
  {
    OneEntry(s, MapPage(s, x, p, perm), x);
  }

  /** page_insert where x is mapped to the same frame already: only permissions change. */
  function RemapState(s: Vm, x: Slot, perm: Perm): Vm
    requires x in s.pte && x.pgdir in s.asid
  {
    Remap(s.(tlb := Flushed(s.tlb, HiOf(x, s.asid[x.pgdir]))), x, perm)
  }

  lemma RemapFlushed(s: Vm, x: Slot, perm: Perm)
    requires Inv(s, None) && x in s.pte && x.pgdir in s.asid
    ensures Inv(RemapState(s, x, perm), None)
  {
    var f := s.(tlb := Flushed(s.tlb, HiOf(x, s.asid[x.pgdir])));
    assert Inv(f, None) by { FlushKeeps(s, HiOf(x, s.asid[x.pgdir]), None); }
    FlushForgets(s, x);
    RemapKeeps(f, x, perm, None);
  }

  lemma RemapLocal(s: Vm, x: Slot, perm: Perm)
    requires x in s.pte && x.pgdir in s.asid
    ensures SameBut(s, RemapState(s, x, perm), {x})
  {
    OneEntry(s, RemapState(s, x, perm), x);
  }

  lemma RemapStateKeeps(s: Vm, x: Slot, perm: Perm)
    requires Inv(s, None) && x in s.pte
    ensures x.pgdir in s.asid && Inv(RemapState(s, x, perm), None) && SameBut(s, RemapState(s, x, perm), {x})
  {
    assert x.pgdir in s.asid by { MappedFacts(s, x); }
    RemapFlushed(s, x, perm);
    RemapLocal(s, x, perm);
  }

  /** A frame that just got its first mapping is complete as it is: it is not queued. */
  lemma FreshComplete(s: Vm, p: nat)
    requires Inv(s, Some(p)) && p !in s.queue
    ensures Inv(s, None)
  {}

  // --------------------------------------------------------- page tables on demand

  lemma HeldUncounted(m: Vm)
    requires Inv(m, None) && m.free != []
    ensures m.free[0] < |m.ref| && m.ref[m.free[0]] == 0
  {
    FreeHead(m);
    assert RefOk(m, m.free[0]);
  }

  /** A page table created after a run of evictions changes nothing that mapping relies on. */
  lemma TableAdded(s: Vm, m: Vm, ev: seq<nat>, k: TableKey)
    requires Inv(s, None) && Inv(m, None) && Recycled(s, m, ev) && m.free != [] && (s.free != [] ==> ev == [])
    requires k !in s.tables && k.pgdir in s.asid && k.pdx < UTOP / NPTE
    ensures m.free[0] < |m.ram| && Inv(AddTable(Allocate(m), k, m.free[0]), None)
    ensures Paged(s, AddTable(Allocate(m), k, m.free[0]), ev)
  {
    AllocateKeeps(m, None);
    FreeHead(m);
    var a, t := Allocate(m), AddTable(Allocate(m), k, m.free[0]);
    AddTableKeeps(a, k, m.free[0], None);
    assert Paging(s, a, ev) && NoLeak(s, a, Some(m.free[0])) by { RecycledPaged(s, m, ev); }
    assert s.kind[m.free[0]] == Free || m.free[0] in ev;
    TablePaged(s, a, ev, k, m.free[0]);
  }

  lemma TablePaged(s: Vm, a: Vm, ev: seq<nat>, k: TableKey, p: nat)
    requires Paging(s, a, ev) && NoLeak(s, a, Some(p)) && ShapeOk(a) && p < |a.ref| && p < |s.kind| && k !in s.tables && (s.kind[p] == Free || p in ev)
    requires SameMemory(a, AddTable(a, k, p))
    ensures Paged(s, AddTable(a, k, p), ev)
  {
    SameTrans(s, a, AddTable(a, k, p), {});
  }

  /** tlb_invalidate for page x. */
  function FlushState(s: Vm, x: Slot): Vm
    requires x.pgdir in s.asid
  {
    s.(tlb := Flushed(s.tlb, HiOf(x, s.asid[x.pgdir])))
  }

  /** A flush counts as paging. */
  lemma FlushPaged(s: Vm, x: Slot)
    requires ShapeOk(s) && x.pgdir in s.asid
    ensures Paged(s, FlushState(s, x), [])
  {
    SameInvisible(s, FlushState(s, x));
  }

  lemma PagedTrans(s: Vm, m: Vm, t: Vm, ev: seq<nat>)
    requires Paged(s, m, []) && Paged(m, t, ev) && m.queue == s.queue && m.free == s.free
    requires forall q :: 0 <= q < |s.kind| ==> m.kind[q] == s.kind[q]
    ensures Paged(s, t, ev)
  {
    SameTrans(s, m, t, {});
  }

  lemma RemovedFlushed(s: Vm, m: Vm, x: Slot, ev: seq<nat>)
    requires Removed(s, m, x, ev) && x.pgdir in m.asid
    ensures Removed(s, FlushState(m, x), x, ev)
  {
    var t := FlushState(m, x);
    assert SameBut(s, t, {x}) by {
      SameInvisible(m, t);
      SameWiden(m, t, {}, {x});
      SameTrans(s, m, t, {x});
    }
  }

  /** A frame that page_insert is about to map is still what it was. */
  lemma SourceKept(s: Vm, g: Vm, x: Slot, p: nat, ev: seq<nat>)
    requires Removed(s, g, x, ev) && p < |s.kind| && (s.kind[p] == Held || s.kind[p] == Data) && p !in ev
    requires !(x in s.pte && Where(s.pte[x]) == Ram(p))
    ensures g.kind[p] == s.kind[p] && g.ref[p] == s.ref[p] && (p in g.queue <==> p in s.queue)
  {}

  // ------------------------------------------------- what a finished insertion means

  /** page_insert mapped x to p where it was not mapped to p before: the state before the
      entry is written is g. */
  ghost predicate Inserted(s: Vm, g: Vm, x: Slot, p: nat, ev: seq<nat>) {
    && Inv(g, None) && Removed(s, g, x, ev) && p !in ev && x !in g.pte && TableOf(x) in g.tables
    && p < |g.ref| && g.ref[p] < MAX_REF && p < |s.kind| && p < |g.kind|
    && !(x in s.pte && Where(s.pte[x]) == Ram(p))
  }

  /** Clearing the old mapping of x and inserting the new one make one insertion. */
  lemma InsertedOver(s: Vm, m: Vm, x: Slot, p: nat, ev: seq<nat>)
    requires Removed(s, m, x, ev) && x.pgdir in m.asid && Inserted(m, FlushState(m, x), x, p, [])
    requires !(x in s.pte && Where(s.pte[x]) == Ram(p)) && p !in ev
    ensures Inserted(s, FlushState(m, x), x, p, ev)
  {
    RemovedFlushed(s, m, x, ev);
  }

  lemma InsertedKeeps(s: Vm, g: Vm, x: Slot, p: nat, perm: Perm, ev: seq<nat>)
    requires Inserted(s, g, x, p, ev) && (s.kind[p] == Held || s.kind[p] == Data)
    ensures Inv(MapPage(g, x, p, perm), Some(p))
    ensures p !in g.queue ==> Inv(MapPage(g, x, p, perm), None)
    ensures SameBut(s, MapPage(g, x, p, perm), {x})
  {
    SourceKept(s, g, x, p, ev);
    InsertKeeps(g, x, p, perm);
    if p !in g.queue { FreshComplete(MapPage(g, x, p, perm), p); }
    SameTrans(s, g, MapPage(g, x, p, perm), {x});
  }

  /** The record pool and address space that swap_register needs are there. */
  lemma RegisterReady(g: Vm, x: Slot)
    requires Inv(g, None) && TableOf(x) in g.tables && g.pool != []
    ensures g.pool[0] < |g.info| && x.pgdir in g.asid
  {
    PoolHead(g);
  }

  /** swap_register after page_insert completes the registration of p, if p was fresh or
      queued. */
  lemma InsertedRegisters(s: Vm, g: Vm, x: Slot, p: nat, perm: Perm, ev: seq<nat>)
    requires Inserted(s, g, x, p, ev) && (s.kind[p] == Held || (s.kind[p] == Data && p in s.queue)) && g.pool != []
    requires ShapeOk(g) && p < |g.ste| && g.pool[0] < |g.info| && x.pgdir in g.asid
    ensures Inv(Register(MapPage(g, x, p, perm), x, p, g.asid[x.pgdir]), None)
  {
    SourceKept(s, g, x, p, ev);
    MapRegisters(g, x, p, perm);
  }

  lemma MapRegisters(g: Vm, x: Slot, p: nat, perm: Perm)
    requires Inv(g, None) && x !in g.pte && TableOf(x) in g.tables && g.pool != []
    requires p < |g.ref| && g.ref[p] < MAX_REF && (g.kind[p] == Held || (g.kind[p] == Data && p in g.queue))
    requires ShapeOk(g) && p < |g.ste| && g.pool[0] < |g.info| && x.pgdir in g.asid
    ensures Inv(Register(MapPage(g, x, p, perm), x, p, g.asid[x.pgdir]), None)
  {
    var t := MapPage(g, x, p, perm);
    assert Inv(t, Some(p)) by { InsertKeeps(g, x, p, perm); }
    assert x !in t.reg by { assert RegOk(g); }
    assert forall y :: y in t.pte && Where(t.pte[y]) == Ram(p) && y != x ==> y in t.reg by {
      if g.kind[p] == Held { NotData(g, p); }
    }
    RegisterKeeps(t, x, p, Some(p));
  }

  /** Registration is invisible. */
  lemma RegisterSame(s: Vm, t: Vm, x: Slot, p: nat, but: set<Slot>)
    requires ShapeOk(t) && p < |t.ste| && t.pool != [] && t.pool[0] < |t.info| && x.pgdir in t.asid && SameBut(s, t, but)
    ensures SameBut(s, Register(t, x, p, t.asid[x.pgdir]), but)
  {
    var u := Register(t, x, p, t.asid[x.pgdir]);
    SameInvisible(t, u);
    SameWiden(t, u, {}, but);
    SameTrans(s, t, u, but);
  }

  /** page_insert at x allocates a frame: for a page table, or to bring x back. */
  ghost predicate NeedsFrame(s: Vm, x: Slot) {
    if x in s.pte then !s.pte[x].valid else TableOf(x) !in s.tables
  }

  /** The free list after the page table k has been looked for, if it was not empty. */
  function FreeAfter(s: Vm, k: TableKey): seq<nat> {
    if s.free == [] || k in s.tables then s.free else s.free[1..]
  }

  predicate OutOfFrames(r: Outcome<()>) { r.Panic? && (r.reason == NoFrame || r.reason == DiskFull) }

  /** Exactly when page_insert of frame p stops in state s: it needs a frame and there is
      none, or the run of evictions for that frame takes p, or the count of p is full. */
  ghost predicate InsertStops(r: Outcome<()>, needed: bool, s: Vm, victims: seq<nat>, p: nat, full: bool) {
    if needed && OutOfMemory(s) then OutOfFrames(r)
    else if needed && p in victims then r == Panic(SourceEvicted)
    else if full then r == Panic(RefOverflow)
    else r.Done?
  }

  /** The ways in which page_insert at an unmapped page stops; g is the state with the page
      table. */
  lemma FreshStops(s: Vm, g: Vm, x: Slot, p: nat, ev: seq<nat>, victims: seq<nat>,
                   walk: Outcome<()>, r: Outcome<()>)
    requires p < |s.ref| && |s.ref| == |s.kind| && s.kind[p] != Free
    requires walk.Panic? <==> TableOf(x) !in s.tables && OutOfMemory(s)
    requires walk.Panic? ==> OutOfFrames(walk) && r == walk
    requires walk.Done? ==> ev == if TableOf(x) in s.tables then [] else victims
    requires walk.Done? ==> Paged(s, g, ev) && (r.Panic? <==> p in ev || g.ref[p] >= MAX_REF)
    requires walk.Done? && r.Panic? ==> r.reason == if p in ev then SourceEvicted else RefOverflow
    ensures InsertStops(r, TableOf(x) !in s.tables, s, victims, p, s.ref[p] >= MAX_REF)
  {}

  lemma NothingNeeded(r: Outcome<()>, s: Vm, victims: seq<nat>, p: nat, full: bool)
    requires InsertStops(r, false, s, victims, p, full)
    ensures r.Panic? <==> full
    ensures r.Panic? ==> r.reason == RefOverflow
  {}

  /** The ways in which bringing back the page under it stops page_insert. */
  lemma BackStops(s: Vm, needed: bool, p: nat, ev: seq<nat>, victims: seq<nat>, back: Outcome<()>, r: Outcome<()>)
    requires back.Panic? <==> needed && OutOfMemory(s)
    requires back.Panic? ==> OutOfFrames(back)
    requires back.Done? ==> ev == if needed then victims else []
    requires r == if back.Done? && p in ev then Panic(SourceEvicted) else back
    ensures InsertStops(r, needed, s, victims, p, false)
  {}

  /** A page that is mapped to a frame of its own, which it alone uses. */
  ghost predicate Private(s: Vm, x: Slot, contents: Contents, perm: Perm) {
    && ViewAt(s, x) == Mapped(Some(contents), perm)
    && forall y :: Shares(s, x, y) ==> y == x
  }

  lemma MapPrivate(g: Vm, x: Slot, p: nat, perm: Perm)
    requires ShapeOk(g) && p < |g.ref| && x !in g.pte && forall y :: y in g.pte ==> Where(g.pte[y]) != Ram(p)
    ensures Private(MapPage(g, x, p, perm), x, g.ram[p], perm)
  {
  }

  /** A fresh frame inserted at x is x's alone and reads as it did before. */
  lemma FreshPrivate(s: Vm, g: Vm, x: Slot, p: nat, perm: Perm, ev: seq<nat>)
    requires Inserted(s, g, x, p, ev) && s.kind[p] == Held && p < |s.ram|
    ensures Private(MapPage(g, x, p, perm), x, s.ram[p], perm)
  {
    assert g.kind[p] == Held && g.ram[p] == s.ram[p] by { SourceKept(s, g, x, p, ev); }
    NotData(g, p);
    MapPrivate(g, x, p, perm);
  }

  lemma RegisterPrivate(t: Vm, x: Slot, p: nat, c: Contents, perm: Perm)
    requires ShapeOk(t) && p < |t.ste| && t.pool != [] && t.pool[0] < |t.info| && x.pgdir in t.asid && Private(t, x, c, perm)
    ensures Private(Register(t, x, p, t.asid[x.pgdir]), x, c, perm)
  {
    var u := Register(t, x, p, t.asid[x.pgdir]);
    forall y | Shares(u, x, y) ensures y == x { assert Shares(t, x, y); }
  }

  /** A frame as page_alloc hands it out: zeroed, mapped nowhere, not queued. */
  ghost predicate Fresh(s: Vm, p: nat) {
    && p < |s.ram| && p < |s.kind| && p < |s.ref| && s.kind[p] == Held && s.ref[p] == 0 && s.ram[p] == ZeroPage()
    && p !in s.queue && (forall x :: x in s.pte ==> Where(s.pte[x]) != Ram(p))
  }

  lemma AllocatedFresh(s: Vm, m: Vm, ev: seq<nat>)
    requires Recycled(s, m, ev) && Inv(m, None) && m.free != []
    ensures m.free[0] < |m.ram| && Inv(Allocate(m), None) && Fresh(Allocate(m), m.free[0])
    ensures SameMemory(s, Allocate(m)) && TlbShrinks(s.tlb, Allocate(m).tlb)
  {
    AllocateKeeps(m, None);
    FreeHead(m);
    var a := Allocate(m);
    assert SameMemory(s, a) by { SameTrans(s, m, a, {}); }
    assert a.ref[m.free[0]] == 0 by { assert RefOk(a, m.free[0]); }
    assert m.free[0] !in a.queue by { HeldNotQueued(a, m.free[0]); }
    NotData(a, m.free[0]);
  }

  /** A fresh frame mapped at x, not registered. */
  lemma FreshMapped(s: Vm, g: Vm, x: Slot, p: nat, perm: Perm, ev: seq<nat>)
    requires Inserted(s, g, x, p, ev) && Fresh(s, p)
    ensures Inv(MapPage(g, x, p, perm), None) && SameBut(s, MapPage(g, x, p, perm), {x})
    ensures Private(MapPage(g, x, p, perm), x, ZeroPage(), perm)
  {
    SourceKept(s, g, x, p, ev);
    FreshPrivate(s, g, x, p, perm, ev);
    InsertedKeeps(s, g, x, p, perm, ev);
  }
}
