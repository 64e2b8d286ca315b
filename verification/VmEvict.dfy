/** Summaries of runs of evictions, and the bookkeeping of the two list walks in swap
    and swap_back. */
module VmEvict {
  import opened Prelude
  import opened VmState
  import opened VmClock
  import opened VmMove
  import opened VmSteps

  // --------------------------------------------------------- walking a record list

  /** The first k records of a list have had their entries aimed at to; done names them. */
  ghost predicate Progress(s: Vm, ids: seq<nat>, k: nat, done: set<Slot>, pte: map<Slot, Pte>, from: Loc, to: Loc)
    requires to != Pool
  {
    && k <= |ids|
    && (forall x :: x in done ==> x in s.pte && Where(s.pte[x]) == from && x in s.reg && s.reg[x] in ids[..k])
    && (forall j :: 0 <= j < k ==> ids[j] < |s.info| && s.info[ids[j]].slot in done)
    && pte.Keys == s.pte.Keys
    && (forall x :: x in pte ==> pte[x] == if x in done then Aim(s.pte[x], to) else s.pte[x])
  }

  /** The next record names a page at from that has not been treated yet. */
  lemma ProgressStep(s: Vm, ids: seq<nat>, k: nat, done: set<Slot>, pte: map<Slot, Pte>, from: Loc, to: Loc)
    requires to != Pool && from != Pool && Progress(s, ids, k, done, pte, from, to) && k < |ids|
    requires RegOk(s) && Lists(ids, s.loc, from)
    ensures ids[k] < |s.info|
    ensures var x := s.info[ids[k]].slot;
      && x in s.pte && Where(s.pte[x]) == from && x !in done && x in pte && pte[x] == s.pte[x]
      && x.pgdir in s.asid && s.info[ids[k]].asid == s.asid[x.pgdir]
      && Progress(s, ids, k + 1, done + {x}, pte[x := Aim(pte[x], to)], from, to)
  {
    assert ids[k] in ids;
    var x := s.info[ids[k]].slot;
    assert x in s.reg && s.reg[x] == ids[k];
    assert ids[k] !in ids[..k];
    assert ids[..k + 1] == ids[..k] + [ids[k]];
  }

  /** When every page at from is registered, the walk treats them all. */
  lemma ProgressEnd(s: Vm, ids: seq<nat>, done: set<Slot>, pte: map<Slot, Pte>, from: Loc, to: Loc)
    requires to != Pool && Progress(s, ids, |ids|, done, pte, from, to)
    requires RegOk(s) && Lists(ids, s.loc, from)
    requires forall x :: x in s.pte && Where(s.pte[x]) == from ==> x in s.reg
    ensures done == Users(s.pte, from)
    ensures forall x :: x in s.pte ==> pte[x] == if Where(s.pte[x]) == from then Aim(s.pte[x], to) else s.pte[x]
  {
    forall x | x in Users(s.pte, from) ensures x in done {
      assert s.reg[x] in ids;
      var j :| 0 <= j < |ids| && ids[j] == s.reg[x];
    }
  }

  /** Entries of the TLB only disappear. */
  ghost predicate TlbShrinks(before: seq<TlbEntry>, after: seq<TlbEntry>) {
    |after| == |before| && forall j :: 0 <= j < |before| ==> after[j] == before[j] || after[j] == EMPTY
  }

  /** No entry translates a page of done. */
  ghost predicate TlbForgets(s: Vm, tlb: seq<TlbEntry>, done: set<Slot>) {
    forall j, x :: 0 <= j < |tlb| && x in done && x.pgdir in s.asid ==>
      tlb[j].hi != HiOf(x, s.asid[x.pgdir]) || tlb[j] == EMPTY
  }

  lemma ForgetMore(s: Vm, tlb: seq<TlbEntry>, done: set<Slot>, x: Slot)
    requires TlbShrinks(s.tlb, tlb) && TlbForgets(s, tlb, done) && x.pgdir in s.asid
    ensures TlbShrinks(s.tlb, Flushed(tlb, HiOf(x, s.asid[x.pgdir])))
    ensures TlbForgets(s, Flushed(tlb, HiOf(x, s.asid[x.pgdir])), done + {x})
  {}

  // ------------------------------------------------- the two loops over a record list

  ghost predicate Records(info: seq<SwapInfo>, ids: seq<nat>) {
    forall k :: 0 <= k < |ids| ==> ids[k] < |info|
  }

  /** The page-table entries after the records ids have been treated in order. */
  function Walk(info: seq<SwapInfo>, start: map<Slot, Pte>, ids: seq<nat>, to: Loc): map<Slot, Pte>
    requires to != Pool && Records(info, ids)
    decreases |ids|
  {
    if ids == [] then start else
      var before := Walk(info, start, ids[..|ids| - 1], to);
      var x := info[ids[|ids| - 1]].slot;
      if x in before then before[x := Aim(before[x], to)] else before
  }

  /** The TLB after the pages of the records ids have been flushed in order. */
  function WalkTlb(info: seq<SwapInfo>, start: seq<TlbEntry>, ids: seq<nat>): seq<TlbEntry>
    requires Records(info, ids)
    decreases |ids|
  {
    if ids == [] then start else
      var sinfo := info[ids[|ids| - 1]];
      Flushed(WalkTlb(info, start, ids[..|ids| - 1]), HiOf(sinfo.slot, sinfo.asid))
  }

  ghost function SlotsOf(s: Vm, ids: seq<nat>): set<Slot> {
    set i | i in ids && i < |s.info| :: s.info[i].slot
  }

  /** What the kernel checks before it treats a record: the page table exists and the
      entry is valid and not swapped (from a frame) or the opposite (from a block). */
  ghost predicate CheckOk(info: seq<SwapInfo>, start: map<Slot, Pte>, tables: map<TableKey, nat>,
                          ids: seq<nat>, k: nat, from: Loc, to: Loc)
    requires to != Pool && k < |ids| && Records(info, ids)
  {
    var x := info[ids[k]].slot;
    var pte := Walk(info, start, ids[..k], to);
    TableOf(x) in tables && x in pte && pte[x].valid == from.Ram? && pte[x].swapped == from.Disk?
  }

  ghost predicate ChecksOk(info: seq<SwapInfo>, start: map<Slot, Pte>, tables: map<TableKey, nat>,
                           ids: seq<nat>, from: Loc, to: Loc)
    requires to != Pool
  {
    Records(info, ids) && forall k :: 0 <= k < |ids| ==> CheckOk(info, start, tables, ids, k, from, to)
  }

  lemma WalkUnroll(s: Vm, ids: seq<nat>, k: nat, to: Loc)
    requires to != Pool && k < |ids| && Records(s.info, ids)
    ensures var x := s.info[ids[k]].slot; var before := Walk(s.info, s.pte, ids[..k], to);
      Walk(s.info, s.pte, ids[..k + 1], to) == if x in before then before[x := Aim(before[x], to)] else before
    ensures SlotsOf(s, ids[..k + 1]) == SlotsOf(s, ids[..k]) + {s.info[ids[k]].slot}
  {
    assert ids[..k + 1][..k] == ids[..k];
    assert ids[..k + 1] == ids[..k] + [ids[k]];
  }

  lemma ListRecords(s: Vm, ids: seq<nat>, at: Loc)
    requires |s.info| == |s.loc| && Lists(ids, s.loc, at)
    ensures Records(s.info, ids) && forall k :: 0 <= k < |ids| ==> s.loc[ids[k]] == at
  {
    forall k | 0 <= k < |ids| ensures ids[k] < |s.info| && s.loc[ids[k]] == at { assert ids[k] in ids; }
  }

  ghost predicate WalkAt(s: Vm, ids: seq<nat>, k: nat, from: Loc, to: Loc)
    requires to != Pool && k <= |ids| && Records(s.info, ids)
  {
    && Progress(s, ids, k, SlotsOf(s, ids[..k]), Walk(s.info, s.pte, ids[..k], to), from, to)
    && |SlotsOf(s, ids[..k])| == k
  }

  lemma WalkStep(s: Vm, ids: seq<nat>, k: nat, from: Loc, to: Loc)
    requires to != Pool && from != Pool && k < |ids| && RegOk(s) && Lists(ids, s.loc, from)
    requires Records(s.info, ids) && WalkAt(s, ids, k, from, to)
    ensures WalkAt(s, ids, k + 1, from, to)
  {
    ProgressStep(s, ids, k, SlotsOf(s, ids[..k]), Walk(s.info, s.pte, ids[..k], to), from, to);
    WalkUnroll(s, ids, k, to);
  }

  lemma {:induction false} WalkProgress(s: Vm, ids: seq<nat>, k: nat, from: Loc, to: Loc)
    requires to != Pool && from != Pool && k <= |ids| && RegOk(s) && Lists(ids, s.loc, from)
    ensures Records(s.info, ids) && WalkAt(s, ids, k, from, to)
    decreases k
  {
    ListRecords(s, ids, from);
    if k == 0 {
      assert SlotsOf(s, ids[..0]) == {};
    } else {
      WalkProgress(s, ids, k - 1, from, to);
      WalkStep(s, ids, k - 1, from, to);
    }
  }

  /** The kernel's checks on the entries of a record list never fire. */
  lemma WalkChecks(s: Vm, ids: seq<nat>, from: Loc, to: Loc)
    requires to != Pool && from != Pool && RegOk(s) && PtesOk(s) && Lists(ids, s.loc, from)
    ensures ChecksOk(s.info, s.pte, s.tables, ids, from, to)
  {
    WalkProgress(s, ids, 0, from, to);
    forall k | 0 <= k < |ids| ensures CheckOk(s.info, s.pte, s.tables, ids, k, from, to) {
      WalkProgress(s, ids, k, from, to);
      ProgressStep(s, ids, k, SlotsOf(s, ids[..k]), Walk(s.info, s.pte, ids[..k], to), from, to);
      assert PteOk(s, s.info[ids[k]].slot);
    }
  }

  /** A record list is as long as the set of pages that live there, and the walk treats
      exactly those pages. */
  lemma WalkEnd(s: Vm, ids: seq<nat>, from: Loc, to: Loc)
    requires to != Pool && from != Pool && RegOk(s) && Lists(ids, s.loc, from)
    requires forall x :: x in s.pte && Where(s.pte[x]) == from ==> x in s.reg
    ensures Records(s.info, ids)
    ensures SlotsOf(s, ids) == Users(s.pte, from) && |ids| == |Users(s.pte, from)|
    ensures Walk(s.info, s.pte, ids, to).Keys == s.pte.Keys
    ensures forall x :: x in s.pte ==>
      Walk(s.info, s.pte, ids, to)[x] == if Where(s.pte[x]) == from then Aim(s.pte[x], to) else s.pte[x]
  {
    WalkProgress(s, ids, |ids|, from, to);
    assert ids[..|ids|] == ids;
    ProgressEnd(s, ids, SlotsOf(s, ids), Walk(s.info, s.pte, ids, to), from, to);
  }

  lemma {:induction false} WalkTlbForgets(s: Vm, ids: seq<nat>)
    requires RegOk(s) && (forall k :: 0 <= k < |ids| ==> ids[k] < |s.loc| && s.loc[ids[k]] != Pool)
    ensures Records(s.info, ids)
    ensures TlbShrinks(s.tlb, WalkTlb(s.info, s.tlb, ids)) && TlbForgets(s, WalkTlb(s.info, s.tlb, ids), SlotsOf(s, ids))
    decreases |ids|
  {
    if ids == [] {
      assert SlotsOf(s, ids) == {};
    } else {
      var n := |ids| - 1;
      WalkTlbForgets(s, ids[..n]);
      var x := s.info[ids[n]].slot;
      assert x in s.reg && s.info[ids[n]].asid == s.asid[x.pgdir];
      ForgetMore(s, WalkTlb(s.info, s.tlb, ids[..n]), SlotsOf(s, ids[..n]), x);
      assert SlotsOf(s, ids) == SlotsOf(s, ids[..n]) + {x};
    }
  }

  lemma SlotsCount(s: Vm, ids: seq<nat>, at: Loc)
    requires at != Pool && RegOk(s) && Lists(ids, s.loc, at)
    ensures |SlotsOf(s, ids)| == |ids|
  {
    WalkProgress(s, ids, |ids|, at, Disk(0));
    assert ids[..|ids|] == ids;
  }

  /** A page has a record on a list exactly if it lives there and is registered. */
  lemma SlotListed(s: Vm, ids: seq<nat>, at: Loc, x: Slot)
    requires at != Pool && RegOk(s) && Lists(ids, s.loc, at)
    ensures x in SlotsOf(s, ids) <==> x in s.reg && x in Users(s.pte, at)
  {
    if x in SlotsOf(s, ids) {
      var i :| i in ids && i < |s.info| && s.info[i].slot == x;
      assert s.loc[i] == at && s.reg[x] == i;
    }
    if x in s.reg && x in Users(s.pte, at) {
      assert s.reg[x] in ids && s.info[s.reg[x]].slot == x;
    }
  }

  /** So a list is no longer than the number of pages at its frame, and as long only if all of
      them are registered. */
  lemma ListBelow(s: Vm, ids: seq<nat>, at: Loc)
    requires at != Pool && RegOk(s) && Lists(ids, s.loc, at)
    ensures |ids| <= |Users(s.pte, at)|
    ensures |ids| == |Users(s.pte, at)| <==> forall x :: x in Users(s.pte, at) ==> x in s.reg
  {
    var slots, users := SlotsOf(s, ids), Users(s.pte, at);
    SlotsCount(s, ids, at);
    forall x ensures x in slots <==> x in s.reg && x in users { SlotListed(s, ids, at, x); }
    SubsetCount(slots, users);
  }

  lemma SubsetCount<T>(a: set<T>, b: set<T>)
    requires a <= b
    ensures |a| <= |b| && (|a| == |b| <==> b <= a)
  {
    assert b == a + (b - a);
  }

  /** The walk over the records of a queued frame rewrites and flushes what it has to. */
  lemma OutWalked(s: Vm, p: nat, b: nat)
    requires RegOk(s) && ListsOk(s) && CompleteOk(s, None) && p in s.queue && p < |s.ste|
    ensures Records(s.info, s.ste[p]) && |s.ste[p]| == |Users(s.pte, Ram(p))|
    ensures Walk(s.info, s.pte, s.ste[p], Disk(b)).Keys == s.pte.Keys
    ensures forall x :: x in s.pte ==>
      Walk(s.info, s.pte, s.ste[p], Disk(b))[x] == if Where(s.pte[x]) == Ram(p) then Aim(s.pte[x], Disk(b)) else s.pte[x]
    ensures TlbShrinks(s.tlb, WalkTlb(s.info, s.tlb, s.ste[p])) && TlbForgets(s, WalkTlb(s.info, s.tlb, s.ste[p]), Users(s.pte, Ram(p)))
  {
    var ids := s.ste[p];
    assert Lists(ids, s.loc, Ram(p));
    WalkEnd(s, ids, Ram(p), Disk(b));
    ListRecords(s, ids, Ram(p));
    WalkTlbForgets(s, ids);
  }

  /** What the statements of swap() do to the tables once block b is marked as taken. */
  function EvictState(s: Vm, p: nat, b: nat): Vm
    requires p < |s.ram| && p < |s.ste| && p < |s.ref| && p < |s.kind| && b < |s.disk| && b < |s.bste|
    requires Records(s.info, s.ste[p])
  {
    s.(disk := s.disk[b := s.ram[p]], pte := Walk(s.info, s.pte, s.ste[p], Disk(b)),
       tlb := WalkTlb(s.info, s.tlb, s.ste[p]), ref := s.ref[p := 0], kind := s.kind[p := Free],
       free := [p] + s.free, queue := Without(s.queue, p), ste := s.ste[p := []],
       bste := s.bste[b := Reverse(s.ste[p])], loc := Relocated(s.loc, Ram(p), Disk(b)))
  }

  /** t is s after swap() has evicted p to b. */
  ghost predicate Evicts(s: Vm, t: Vm, p: nat, b: nat) {
    && p < |s.ram| && p < |s.ste| && p < |s.ref| && p < |s.kind|
    && b < |s.disk| && b < |s.bste| && b < |s.bitmap| && Records(s.info, s.ste[p])
    && t == EvictState(s.(bitmap := s.bitmap[b := true]), p, b)
  }

  lemma EvictsSwapsOut(s: Vm, t: Vm, p: nat, b: nat)
    requires ShapeOk(s) && RegOk(s) && ListsOk(s) && CompleteOk(s, None) && p in s.queue && Evicts(s, t, p, b)
    ensures SwappedOut(s, t, p, b)
  {
    OutWalked(s, p, b);
  }

  /** An eviction keeps the invariant and cannot be seen by user programs. */
  lemma EvictsKeeps(s: Vm, t: Vm, p: nat, b: nat)
    requires Inv(s, None) && p in s.queue && Evicts(s, t, p, b) && !s.bitmap[b]
    ensures Inv(t, None) && SameMemory(s, t) && SwappedOut(s, t, p, b)
  {
    EvictsSwapsOut(s, t, p, b);
    assert Inv(t, None) by { SwapOutKeeps(s, t, p, b); }
    assert SameMemory(s, t) by { SwapOutInvisible(s, t, p, b); }
  }

  function Relocated(loc: seq<Loc>, from: Loc, to: Loc): seq<Loc> {
    seq(|loc|, i requires 0 <= i < |loc| => if loc[i] == from then to else loc[i])
  }

  /** A queued frame's count is the length of its record list: both are its mappings. */
  lemma QueuedCounts(s: Vm, p: nat)
    requires Inv(s, None) && p in s.queue
    ensures p < |s.ste| && s.kind[p] == Data && s.ref[p] == |s.ste[p]| == |Users(s.pte, Ram(p))|
  {
    assert p < |s.kind| && s.kind[p] == Data by { QueuedIsData(s, p); }
    assert s.ref[p] == |Users(s.pte, Ram(p))| by { assert RefOk(s, p); }
    assert |s.ste[p]| == |Users(s.pte, Ram(p))| by { OutWalked(s, p, 0); }
  }

  /** swap's check for a zero count while the frame p may be partly registered: the list of a
      queued frame is never longer than its count, and shorter only if the frame is p and
      p is indeed partly registered. */
  lemma OddCounts(s: Vm, p: nat, q: nat)
    requires Inv(s, Some(p)) && q in s.queue
    ensures q < |s.ste| && |s.ste[q]| <= s.ref[q]
    ensures |s.ste[q]| == s.ref[q] <==> q != p || Inv(s, None)
  {
    assert q < |s.kind| && s.kind[q] == Data by { QueuedIsData(s, q); }
    assert s.ref[q] == |Users(s.pte, Ram(q))| by { assert RefOk(s, q); }
    assert Lists(s.ste[q], s.loc, Ram(q));
    ListBelow(s, s.ste[q], Ram(q));
    OddComplete(s, p, q);
  }

  lemma OddComplete(s: Vm, p: nat, q: nat)
    requires CompleteOk(s, Some(p)) && q in s.queue
    ensures (forall x :: x in Users(s.pte, Ram(q)) ==> x in s.reg) <==> q != p || CompleteOk(s, None)
  {}

  /** What swap() needs to start its walk over the records of a queued frame. */
  lemma OutReady(s: Vm, p: nat, b: nat)
    requires Inv(s, None) && p in s.queue && b < |s.bitmap| && !s.bitmap[b]
    ensures p < |s.ste| && s.bste[b] == [] && |s.ste[p]| == s.ref[p]
    ensures ChecksOk(s.info, s.pte, s.tables, s.ste[p], Ram(p), Disk(b))
  {
    QueuedCounts(s, p);
    assert ChecksOk(s.info, s.pte, s.tables, s.ste[p], Ram(p), Disk(b)) by {
      assert Lists(s.ste[p], s.loc, Ram(p));
      WalkChecks(s, s.ste[p], Ram(p), Disk(b));
    }
  }

  // -------------------------------------------------------------- runs of evictions

  /** s became t by evicting the frames ev, in that order. */
  ghost predicate Recycled(s: Vm, t: Vm, ev: seq<nat>) {
    && SameMemory(s, t)
    && t.ram == s.ram && t.asid == s.asid && t.owner == s.owner && t.tables == s.tables
    && t.reg == s.reg && t.info == s.info && t.pool == s.pool
    && |t.kind| == |s.kind| && |t.ref| == |s.ref|
    && TlbShrinks(s.tlb, t.tlb)
    && Distinct(ev)
    && (forall q :: q in ev ==> q in s.queue)
    && (forall q :: q in t.queue <==> q in s.queue && q !in ev)
    && (forall q :: q in t.free <==> q in s.free || q in ev)
    && |t.free| == |s.free| + |ev| && |t.queue| == |s.queue| - |ev|
    && (forall q :: 0 <= q < |s.kind| ==> t.kind[q] == if q in ev then Free else s.kind[q])
    && (forall q :: 0 <= q < |s.ref| && q !in ev ==> t.ref[q] == s.ref[q])
    && t.pte.Keys == s.pte.Keys
    && (forall x :: x in s.pte && !(s.pte[x].valid && s.pte[x].num in ev) ==> t.pte[x] == s.pte[x])
    && (forall x :: x in s.pte && s.pte[x].valid && s.pte[x].num in ev ==> !t.pte[x].valid)
    && FreeBlocks(t.bitmap) == FreeBlocks(s.bitmap) - |ev|
  }

  ghost function FreeBlocks(bitmap: seq<bool>): nat {
    |set b | 0 <= b < |bitmap| && !bitmap[b]|
  }

  /** page_alloc finds no frame: none is free, and none is queued or the swap disk cannot take
      all the pages that NSWAP evictions write. */
  ghost predicate OutOfMemory(s: Vm) {
    s.free == [] && (s.queue == [] || FreeBlocks(s.bitmap) < Min(NSWAP, |s.queue|))
  }

  lemma FreeBlocksTaken(bitmap: seq<bool>, b: nat)
    requires b < |bitmap| && !bitmap[b]
    ensures FreeBlocks(bitmap) > 0 && FreeBlocks(bitmap[b := true]) == FreeBlocks(bitmap) - 1
  {
    var before := set c | 0 <= c < |bitmap| && !bitmap[c];
    var taken := bitmap[b := true];
    var after := set c | 0 <= c < |taken| && !taken[c];
    assert b in before && after == before - {b};
  }

  lemma FreeBlocksNone(bitmap: seq<bool>)
    requires forall b :: 0 <= b < |bitmap| ==> bitmap[b]
    ensures FreeBlocks(bitmap) == 0
  {
    assert (set b | 0 <= b < |bitmap| && !bitmap[b]) == {};
  }

  lemma RecycledNothing(s: Vm)
    ensures Recycled(s, s, [])
  {}

  /** A run that finds the disk full has filled it. */
  lemma RecycledFull(s: Vm, t: Vm, ev: seq<nat>)
    requires Recycled(s, t, ev) && t.queue != [] && forall b :: 0 <= b < |t.bitmap| ==> t.bitmap[b]
    ensures FreeBlocks(s.bitmap) == |ev| < |s.queue|
  {
    FreeBlocksNone(t.bitmap);
  }

  /** One more eviction extends a run. */
  lemma RecycledMore(s: Vm, m: Vm, t: Vm, ev: seq<nat>, p: nat, b: nat)
    requires Recycled(s, m, ev) && SwappedOut(m, t, p, b) && SameMemory(m, t)
    requires p in m.queue && Distinct(m.queue) && !m.bitmap[b] && |m.bitmap| == |m.disk|
    ensures Recycled(s, t, ev + [p])
  {
    WithoutKeeps(m.queue, p);
    FreeBlocksTaken(m.bitmap, b);
    RecycledEntries(s, m, t, ev, p, b);
    RecycledFrames(s, m, t, ev, p, b);
  }

  lemma RecycledEntries(s: Vm, m: Vm, t: Vm, ev: seq<nat>, p: nat, b: nat)
    requires Recycled(s, m, ev) && SwappedOut(m, t, p, b) && SameMemory(m, t)
    ensures SameMemory(s, t) && TlbShrinks(s.tlb, t.tlb) && t.pte.Keys == s.pte.Keys
    ensures forall x :: x in s.pte && !(s.pte[x].valid && s.pte[x].num in ev + [p]) ==> t.pte[x] == s.pte[x]
    ensures forall x :: x in s.pte && s.pte[x].valid && s.pte[x].num in ev + [p] ==> !t.pte[x].valid
  {
    SameTrans(s, m, t, {});
    forall x | x in s.pte && s.pte[x].valid && s.pte[x].num in ev + [p] ensures !t.pte[x].valid {
      if s.pte[x].num !in ev { assert m.pte[x] == s.pte[x]; }
    }
    forall x | x in s.pte && !(s.pte[x].valid && s.pte[x].num in ev + [p]) ensures t.pte[x] == s.pte[x] {
      assert m.pte[x] == s.pte[x];
    }
  }

  lemma RecycledFrames(s: Vm, m: Vm, t: Vm, ev: seq<nat>, p: nat, b: nat)
    requires Recycled(s, m, ev) && SwappedOut(m, t, p, b) && p in m.queue
    requires forall q :: q in t.queue <==> q in m.queue && q != p
    ensures Distinct(ev + [p]) && (forall q :: q in ev + [p] ==> q in s.queue)
    ensures forall q :: q in t.queue <==> q in s.queue && q !in ev + [p]
    ensures forall q :: q in t.free <==> q in s.free || q in ev + [p]
    ensures forall q :: 0 <= q < |s.kind| ==> t.kind[q] == if q in ev + [p] then Free else s.kind[q]
    ensures forall q :: 0 <= q < |s.ref| && q !in ev + [p] ==> t.ref[q] == s.ref[q]
  {}

  lemma SameTrans(s: Vm, m: Vm, t: Vm, but: set<Slot>)
    requires SameBut(s, m, but) && SameBut(m, t, but)
    ensures SameBut(s, t, but)
  {
    forall x | x !in but ensures ViewAt(s, x) == ViewAt(t, x) { assert ViewAt(s, x) == ViewAt(m, x); }
    forall x, y | x !in but && y !in but ensures Shares(s, x, y) <==> Shares(t, x, y) {
      assert Shares(s, x, y) <==> Shares(m, x, y);
    }
  }

  lemma SameWiden(s: Vm, t: Vm, a: set<Slot>, b: set<Slot>)
    requires SameBut(s, t, a) && a <= b
    ensures SameBut(s, t, b)
  {
    forall x | x !in b ensures ViewAt(s, x) == ViewAt(t, x) { assert x !in a; }
    forall x, y | x !in b && y !in b ensures Shares(s, x, y) <==> Shares(t, x, y) { assert x !in a && y !in a; }
  }

  /** One more call of swap() extends a run. */
  lemma RecycledEvicts(s: Vm, m: Vm, t: Vm, ev: seq<nat>, p: nat, b: nat)
    requires Recycled(s, m, ev) && Inv(m, None) && p in m.queue && Evicts(m, t, p, b) && !m.bitmap[b]
    ensures Recycled(s, t, ev + [p]) && Inv(t, None)
  {
    EvictsKeeps(m, t, p, b);
    RecycledMore(s, m, t, ev, p, b);
  }

  /** A run of evictions that began in state s with the clock c. */
  ghost predicate Evicting(s: Vm, c: Clock, t: Vm, d: Clock, ev: seq<nat>, trace: seq<(seq<nat>, Clock)>) {
    && Recycled(s, t, ev)
    && Clicks(trace, ev) && trace[0] == (s.queue, c) && trace[|ev|] == (t.queue, d)
  }

  lemma EvictingMore(s: Vm, c: Clock, m: Vm, e: Clock, t: Vm, d: Clock, ev: seq<nat>, trace: seq<(seq<nat>, Clock)>,
                     p: nat, b: nat) returns (longer: seq<(seq<nat>, Clock)>)
    requires Inv(m, None) && Evicting(s, c, m, e, ev, trace)
    requires p in m.queue && Evicts(m, t, p, b) && !m.bitmap[b] && (p, d) == Chosen(m.queue, e)
    ensures Inv(t, None) && Evicting(s, c, t, d, ev + [p], longer) && |ev| < |s.queue|
  {
    RecycledEvicts(s, m, t, ev, p, b);
    ClicksMore(trace, ev, m.queue, e, (p, d));
    longer := trace + [(t.queue, d)];
  }

  lemma EvictingEnd(s: Vm, c: Clock, t: Vm, d: Clock, ev: seq<nat>, trace: seq<(seq<nat>, Clock)>)
    requires Evicting(s, c, t, d, ev, trace) && |ev| == Min(NSWAP, |s.queue|)
    ensures ev == Victims(s.queue, c, NSWAP) && |ev| <= FreeBlocks(s.bitmap)
  {
    ClicksVictims(trace, ev, NSWAP);
  }

  // ----------------------------------------------------- what paging may change

  ghost predicate TablesGrow(s: Vm, t: Vm) {
    forall k :: k in s.tables ==> k in t.tables && t.tables[k] == s.tables[k]
  }

  /** Neither in hand nor lost to the kernel: the uses of a frame that no page, table or
      directory accounts for. */
  predicate Unaccounted(kind: Kind) { kind == Held || kind == Reserved }

  /** No frame has been taken off the free list and put to no use. */
  ghost predicate NoLeak(s: Vm, t: Vm, but: Option<nat>) {
    forall q :: 0 <= q < |t.kind| && Unaccounted(t.kind[q]) ==> q < |s.kind| && (s.kind[q] == t.kind[q] || but == Some(q))
  }

  /** Between s and t pages were evicted (the frames ev) and brought back; everything a
      mapping call relies on is as before. */
  ghost predicate Paged(s: Vm, t: Vm, ev: seq<nat>) {
    Paging(s, t, ev) && NoLeak(s, t, None)
  }

  /** The same, possibly with a frame in hand. */
  ghost predicate Paging(s: Vm, t: Vm, ev: seq<nat>) {
    && SameMemory(s, t)
    && t.asid == s.asid && t.owner == s.owner && TablesGrow(s, t)
    && t.reg == s.reg && t.pool == s.pool
    && t.pte.Keys == s.pte.Keys && |t.kind| == |s.kind| == |t.ref| == |s.ref|
    && |t.ram| == |s.ram|
    && TlbShrinks(s.tlb, t.tlb)
    && (s.free != [] ==> ev == [])
    && (forall q :: q in ev ==> q in s.queue && q < |s.kind| && s.kind[q] == Data)
    && (forall q :: 0 <= q < |s.kind| && s.kind[q] != Free && q !in ev ==>
          t.kind[q] == s.kind[q] && t.ref[q] == s.ref[q])
    && (forall q :: 0 <= q < |s.kind| && q < |s.ram| && s.kind[q] == Held ==> t.ram[q] == s.ram[q])
    && (forall q :: 0 <= q < |s.kind| && s.kind[q] != Free && q !in ev ==> (q in t.queue <==> q in s.queue))
    && (forall x :: x in s.pte && s.pte[x].valid && s.pte[x].num !in ev ==> t.pte[x] == s.pte[x])
  }

  lemma PagedNothing(s: Vm)
    requires ShapeOk(s)
    ensures Paged(s, s, [])
  {}

  lemma EvictedAreData(s: Vm, ev: seq<nat>)
    requires ShapeOk(s) && ListsOk(s) && RegOk(s) && QueueOk(s) && PtesOk(s)
    requires forall q :: q in ev ==> q in s.queue
    ensures forall q :: q in ev ==> q < |s.kind| && s.kind[q] == Data
  {
    forall q | q in ev ensures q < |s.kind| && s.kind[q] == Data { QueuedIsData(s, q); }
  }

  /** A frame taken after a run of evictions. */
  lemma RecycledPaged(s: Vm, m: Vm, ev: seq<nat>)
    requires Inv(s, None) && Inv(m, None) && Recycled(s, m, ev) && m.free != [] && (s.free != [] ==> ev == [])
    ensures m.free[0] < |m.ram| && Paging(s, Allocate(m), ev) && NoLeak(s, Allocate(m), Some(m.free[0]))
  {
    FreeHead(m);
    EvictedAreData(s, ev);
    RecycledSame(s, m, ev);
  }

  lemma RecycledSame(s: Vm, m: Vm, ev: seq<nat>)
    requires Inv(m, None) && Recycled(s, m, ev) && m.free != []
    ensures m.free[0] < |m.ram| && SameMemory(s, Allocate(m))
  {
    AllocateKeeps(m, None);
    SameTrans(s, m, Allocate(m), {});
  }

  lemma InPaged(s: Vm, m: Vm, t: Vm, ev: seq<nat>, p: nat, b: nat)
    requires Inv(s, None) && Paging(s, m, ev) && NoLeak(s, m, Some(p)) && PtesOk(m)
    requires SwappedIn(m, t, p, b) && m.kind[p] == Held
    requires s.kind[p] == Free || p in ev
    ensures Paged(s, t, ev)
  {
    assert SameMemory(s, t) by {
      SwapInInvisible(m, t, p, b);
      SameTrans(s, m, t, {});
    }
    EvictedAreData(s, ev);
  }

  // ------------------------------------------------------------- bringing a page back

  /** What the statements of swap_back() do to the tables once it holds the frame p. */
  function BringState(s: Vm, b: nat, p: nat): Vm
    requires p < |s.ram| && p < |s.ste| && p < |s.ref| && p < |s.kind| && b < |s.disk| && b < |s.bste| && b < |s.bitmap|
    requires Records(s.info, s.bste[b])
  {
    s.(ram := s.ram[p := s.disk[b]], bitmap := s.bitmap[b := false],
       pte := Walk(s.info, s.pte, s.bste[b], Ram(p)), ref := s.ref[p := |s.bste[b]|],
       kind := s.kind[p := Data], queue := s.queue + [p], bste := s.bste[b := []],
       ste := s.ste[p := Reverse(s.bste[b])], loc := Relocated(s.loc, Disk(b), Ram(p)))
  }

  /** m became t by taking the first free frame and bringing block b back to it. */
  ghost predicate Brought(m: Vm, t: Vm, b: nat) {
    && ShapeOk(m) && m.free != [] && m.free[0] < |m.ram| && b < |m.disk| && Records(m.info, m.bste[b])
    && t == BringState(Allocate(m), b, m.free[0])
  }

  lemma SwappedRegistered(s: Vm, b: nat)
    requires PtesOk(s)
    ensures forall x :: x in s.pte && Where(s.pte[x]) == Disk(b) ==> x in s.reg
  {
    forall x | x in s.pte && Where(s.pte[x]) == Disk(b) ensures x in s.reg { assert PteOk(s, x); }
  }

  /** The walk over the records of a block rewrites what it has to. */
  lemma InWalked(s: Vm, b: nat, p: nat)
    requires RegOk(s) && ListsOk(s) && PtesOk(s) && b < |s.bste|
    ensures Records(s.info, s.bste[b]) && |s.bste[b]| == |Users(s.pte, Disk(b))|
    ensures Walk(s.info, s.pte, s.bste[b], Ram(p)).Keys == s.pte.Keys
    ensures forall x :: x in s.pte ==>
      Walk(s.info, s.pte, s.bste[b], Ram(p))[x] == if Where(s.pte[x]) == Disk(b) then Aim(s.pte[x], Ram(p)) else s.pte[x]
  {
    assert Lists(s.bste[b], s.loc, Disk(b));
    SwappedRegistered(s, b);
    WalkEnd(s, s.bste[b], Disk(b), Ram(p));
    ListRecords(s, s.bste[b], Disk(b));
  }

  /** What swap_back() needs to start its walk over the records of a block. */
  lemma InReady(s: Vm, b: nat, p: nat)
    requires Inv(s, None) && b < |s.bitmap| && p < |s.kind| && s.kind[p] == Held
    ensures s.ref[p] == 0 && s.ste[p] == [] && ChecksOk(s.info, s.pte, s.tables, s.bste[b], Disk(b), Ram(p))
  {
    assert s.ref[p] == 0 by { assert RefOk(s, p); }
    assert s.ste[p] == [] by { HeldNotQueued(s, p); }
    assert ChecksOk(s.info, s.pte, s.tables, s.bste[b], Disk(b), Ram(p)) by {
      assert Lists(s.bste[b], s.loc, Disk(b));
      WalkChecks(s, s.bste[b], Disk(b), Ram(p));
    }
  }

  lemma BringsSwapsIn(s: Vm, b: nat, p: nat)
    requires ShapeOk(s) && RegOk(s) && ListsOk(s) && PtesOk(s) && b < |s.bitmap| && p < |s.ram|
    ensures Records(s.info, s.bste[b]) && SwappedIn(s, BringState(s, b, p), p, b)
  {
    InWalked(s, b, p);
  }

  /** Bringing a block back keeps the invariant; its pages are valid again, everything
      mapping calls rely on is as before. */
  lemma BringsBack(s: Vm, m: Vm, ev: seq<nat>, b: nat)
    requires Inv(s, None) && Inv(m, None) && Recycled(s, m, ev) && m.free != [] && (s.free != [] ==> ev == [])
    requires b < |s.bitmap| && s.bitmap[b] && |m.bitmap| == |s.bitmap|
    ensures m.free[0] < |m.ram| && Inv(Allocate(m), None) && Allocate(m).kind[m.free[0]] == Held
    ensures Allocate(m).bitmap[b]
  {
    AllocateKeeps(m, None);
    FreeHead(m);
    assert Allocate(m).bitmap[b] by {
      BlockInUse(s, b);
      var x :| x in Users(s.pte, Disk(b));
      assert m.pte[x] == s.pte[x];
      assert PteOk(m, x) && PteOk(s, x);
    }
  }

  /** What swap_back() needs once it has taken its frame. */
  lemma BackReady(s: Vm, m: Vm, ev: seq<nat>, b: nat)
    requires Inv(s, None) && Inv(m, None) && Recycled(s, m, ev) && m.free != [] && (s.free != [] ==> ev == [])
    requires b < |s.bitmap| && s.bitmap[b] && |m.bitmap| == |s.bitmap|
    ensures m.free[0] < |m.ram| && m.bitmap[b] && m.bste[b] != []
    ensures var a, p := Allocate(m), m.free[0];
      && a.kind[p] == Held && a.ref[p] == 0 && a.ste[p] == []
      && ChecksOk(a.info, a.pte, a.tables, a.bste[b], Disk(b), Ram(p)) && Records(m.info, m.bste[b])
  {
    BringsBack(s, m, ev, b);
    InReady(Allocate(m), b, m.free[0]);
    InWalked(m, b, m.free[0]);
  }
}
