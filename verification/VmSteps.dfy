/** The other state changes the memory manager is built from, each with the proof that
    it keeps the invariant. */
module VmSteps {
  import opened Prelude
  import opened VmState

  /** The invariant in two halves: frames, spaces and entries; lists, queue and TLB. */
  ghost predicate FrameHalf(s: Vm) {
    RefsOk(s) && FreeOk(s) && SharersOk(s) && SpacesOk(s) && PtesOk(s)
  }

  ghost predicate RecordHalf(s: Vm, odd: Option<nat>) {
    ListsOk(s) && RegOk(s) && QueueOk(s) && CompleteOk(s, odd) && TlbOk(s)
  }

  // ------------------------------------- parts of the invariant a step does not touch

  lemma SameFrames(s: Vm, t: Vm)
    requires RefsOk(s) && FreeOk(s) && SharersOk(s) && SpacesOk(s)
    requires t.ref == s.ref && t.kind == s.kind && t.free == s.free && t.pte == s.pte
    requires t.asid == s.asid && t.owner == s.owner && t.tables == s.tables
    ensures RefsOk(t) && FreeOk(t) && SharersOk(t) && SpacesOk(t)
  {
    forall q | 0 <= q < |t.ref| ensures RefOk(t, q) { assert RefOk(s, q); }
    forall l: Loc ensures |Users(t.pte, l)| <= MAX_REF { assert |Users(s.pte, l)| <= MAX_REF; }
  }

  lemma SamePtes(s: Vm, t: Vm)
    requires PtesOk(s) && t.pte == s.pte && t.bitmap == s.bitmap && t.tables == s.tables
    requires |t.kind| == |s.kind| && forall q :: 0 <= q < |s.kind| && s.kind[q] == Data ==> t.kind[q] == Data
    requires forall x :: x in s.reg && x in s.pte && s.pte[x].swapped ==> x in t.reg
    ensures PtesOk(t)
  {
    forall x | x in t.pte ensures PteOk(t, x) { assert PteOk(s, x); }
  }

  lemma SameRecords(s: Vm, t: Vm)
    requires ListsOk(s) && QueueOk(s)
    requires t.loc == s.loc && t.pool == s.pool && t.ste == s.ste && t.bste == s.bste
    requires t.queue == s.queue && t.bitmap == s.bitmap
    ensures ListsOk(t) && QueueOk(t)
  {}

  lemma SameReg(s: Vm, t: Vm)
    requires RegOk(s) && t.info == s.info && t.loc == s.loc && t.reg == s.reg && t.asid == s.asid
    requires forall x :: x in s.pte && x in s.reg ==> x in t.pte && Where(t.pte[x]) == Where(s.pte[x])
    ensures RegOk(t)
  {}

  lemma SameTlb(s: Vm, t: Vm)
    requires TlbOk(s) && t.tlb == s.tlb && t.owner == s.owner
    requires forall x :: x in s.pte ==> x in t.pte && t.pte[x] == s.pte[x]
    ensures TlbOk(t)
  {
    forall j | 0 <= j < |t.tlb| ensures EntryOk(t, t.tlb[j]) { assert EntryOk(s, s.tlb[j]); }
  }

  /** A step that changes no list, no entry and no TLB entry. */
  lemma SameRecordHalf(s: Vm, t: Vm, odd: Option<nat>)
    requires RecordHalf(s, odd) && t.pte == s.pte && t.reg == s.reg && t.tlb == s.tlb
    requires t.loc == s.loc && t.pool == s.pool && t.ste == s.ste && t.bste == s.bste && t.info == s.info
    requires t.queue == s.queue && t.bitmap == s.bitmap && t.asid == s.asid && t.owner == s.owner
    ensures RecordHalf(t, odd)
  {
    SameRecords(s, t);
    SameReg(s, t);
    SameTlb(s, t);
  }

  /** A step that changes no frame, no space, and no entry. */
  lemma SameFrameHalf(s: Vm, t: Vm)
    requires FrameHalf(s) && t.pte == s.pte && t.bitmap == s.bitmap && t.tables == s.tables
    requires t.ref == s.ref && t.kind == s.kind && t.free == s.free
    requires t.asid == s.asid && t.owner == s.owner
    requires forall x :: x in s.reg && x in s.pte && s.pte[x].swapped ==> x in t.reg
    ensures FrameHalf(t)
  {
    SameFrames(s, t);
    SamePtes(s, t);
  }

  // ------------------------------------------------ taking a frame off the free list

  function Allocate(s: Vm): Vm
    requires ShapeOk(s) && s.free != [] && s.free[0] < |s.ram|
  {
    var p := s.free[0];
    s.(free := s.free[1..], ram := s.ram[p := ZeroPage()], kind := s.kind[p := Held])
  }

  lemma FreeHead(s: Vm)
    requires ShapeOk(s) && FreeOk(s) && s.free != []
    ensures s.free[0] < |s.ram| && s.kind[s.free[0]] == Free
  {
    assert s.free[0] in s.free;
  }

  lemma NotData(s: Vm, p: nat)
    requires PtesOk(s) && p < |s.kind| && s.kind[p] != Data
    ensures forall x :: x in s.pte ==> Where(s.pte[x]) != Ram(p)
  {
    forall x | x in s.pte ensures Where(s.pte[x]) != Ram(p) { assert PteOk(s, x); }
  }

  /** Changing the contents of a place nobody lives at is invisible. */
  lemma UnusedInvisible(s: Vm, t: Vm, l: Loc)
    requires t.pte == s.pte && (forall x :: x in s.pte ==> Where(s.pte[x]) != l)
    requires forall m: Loc :: m != l ==> Contained(t, m) == Contained(s, m)
    ensures SameMemory(s, t)
  {
    forall x ensures ViewAt(s, x) == ViewAt(t, x) {
      if x in s.pte { assert Where(s.pte[x]) != l; }
    }
  }

  lemma SameInvisible(s: Vm, t: Vm)
    requires t.pte == s.pte && t.ram == s.ram && t.disk == s.disk
    ensures SameMemory(s, t)
  {
    forall x ensures ViewAt(s, x) == ViewAt(t, x) {
      if x in s.pte { assert Contained(s, Where(s.pte[x])) == Contained(t, Where(s.pte[x])); }
    }
  }

  lemma AllocateFree(s: Vm)
    requires ShapeOk(s) && FreeOk(s) && s.free != [] && s.free[0] < |s.ram|
    ensures FreeOk(Allocate(s))
  {
    var t := Allocate(s);
    assert s.free == [s.free[0]] + t.free;
    forall q: nat ensures q in t.free <==> q < |t.kind| && t.kind[q] == Free {
      assert q in s.free <==> q < |s.kind| && s.kind[q] == Free;
    }
  }

  lemma AllocateFrames(s: Vm)
    requires ShapeOk(s) && FrameHalf(s) && s.free != [] && s.free[0] < |s.ram| && s.kind[s.free[0]] == Free
    ensures FrameHalf(Allocate(s))
  {
    var t := Allocate(s);
    AllocateFree(s);
    forall q | 0 <= q < |t.ref| ensures RefOk(t, q) { assert RefOk(s, q); }
    SamePtes(s, t);
  }

  lemma AllocateKeeps(s: Vm, odd: Option<nat>)
    requires Inv(s, odd) && s.free != []
    ensures s.free[0] < |s.ram| && Inv(Allocate(s), odd) && SameMemory(s, Allocate(s))
  {
    FreeHead(s);
    var p, t := s.free[0], Allocate(s);
    AllocateFrames(s);
    SameRecordHalf(s, t, odd);
    assert SameMemory(s, t) by { NotData(s, p); UnusedInvisible(s, t, Ram(p)); }
  }

  // ----------------------------------------------------------------- the TLB

  function Cleared(e: TlbEntry, hi: Hi): TlbEntry { if e.hi == hi then EMPTY else e }

  /** tlb_out: the entry that matches hi is cleared. */
  function Flushed(tlb: seq<TlbEntry>, hi: Hi): seq<TlbEntry> {
    seq(|tlb|, j requires 0 <= j < |tlb| => Cleared(tlb[j], hi))
  }

  lemma FlushTlb(s: Vm, hi: Hi)
    requires TlbOk(s)
    ensures TlbOk(s.(tlb := Flushed(s.tlb, hi)))
  {
    var t := s.(tlb := Flushed(s.tlb, hi));
    forall j | 0 <= j < |t.tlb| ensures EntryOk(t, t.tlb[j]) { assert EntryOk(s, s.tlb[j]); }
  }

  lemma FlushKeeps(s: Vm, hi: Hi, odd: Option<nat>)
    requires Inv(s, odd)
    ensures Inv(s.(tlb := Flushed(s.tlb, hi)), odd)
  {
    var t := s.(tlb := Flushed(s.tlb, hi));
    SameFrameHalf(s, t);
    assert RecordHalf(t, odd) by {
      FlushTlb(s, hi);
      SameRecords(s, t);
      SameReg(s, t);
    }
  }

  function HardAt(s: Vm, x: Slot): Lo {
    if x in s.pte then Hard(s.pte[x]) else Lo(0, false, false)
  }

  /** The entry a refill for vpn in space d writes: both halves of the pair. */
  function Pair(s: Vm, d: nat, vpn: nat): TlbEntry
    requires d in s.asid
  {
    var even := vpn / 2 * 2;
    TlbEntry(Hi(vpn / 2, s.asid[d]), HardAt(s, Slot(d, even)), HardAt(s, Slot(d, even + 1)))
  }

  lemma RefillTlb(s: Vm, d: nat, vpn: nat, j: nat)
    requires TlbOk(s) && SpacesOk(s) && d in s.asid && j < |s.tlb| && Hi(vpn / 2, s.asid[d]) != Hi(0, 0)
    requires forall i :: 0 <= i < |s.tlb| ==> s.tlb[i].hi != Hi(vpn / 2, s.asid[d])
    ensures TlbOk(s.(tlb := s.tlb[j := Pair(s, d, vpn)]))
  {
    var t := s.(tlb := s.tlb[j := Pair(s, d, vpn)]);
    forall i | 0 <= i < |t.tlb| ensures EntryOk(t, t.tlb[i]) {
      assert EntryOk(s, s.tlb[i]);
      assert s.owner[s.asid[d]] == d;
    }
  }

  lemma RefillKeeps(s: Vm, d: nat, vpn: nat, j: nat, odd: Option<nat>)
    requires Inv(s, odd) && d in s.asid && j < |s.tlb| && Hi(vpn / 2, s.asid[d]) != Hi(0, 0)
    requires forall i :: 0 <= i < |s.tlb| ==> s.tlb[i].hi != Hi(vpn / 2, s.asid[d])
    ensures Inv(s.(tlb := s.tlb[j := Pair(s, d, vpn)]), odd)
  {
    var t := s.(tlb := s.tlb[j := Pair(s, d, vpn)]);
    SameFrameHalf(s, t);
    assert RecordHalf(t, odd) by {
      RefillTlb(s, d, vpn, j);
      SameRecords(s, t);
      SameReg(s, t);
    }
  }

  /** An entry for the first two pages of the space with id 0 matches whatever a cleared entry
      matches. */
  lemma RefillZero(s: Vm, d: nat, vpn: nat, j: nat)
    requires d in s.asid && j < |s.tlb| && Hi(vpn / 2, s.asid[d]) == Hi(0, 0)
    requires Slot(d, vpn) in s.pte && s.pte[Slot(d, vpn)].valid
    ensures !TlbUnique(s.tlb[j := Pair(s, d, vpn)])
  {
    assert s.tlb[j := Pair(s, d, vpn)][j] == Pair(s, d, vpn);
  }

  /** Writing the pair of a mapped page over any entry keeps the invariant exactly if it is not
      the pair of the first two pages in the space with id 0. */
  lemma RefillIff(s: Vm, d: nat, vpn: nat, j: nat)
    requires Inv(s, None) && d in s.asid && j < |s.tlb| && Slot(d, vpn) in s.pte && s.pte[Slot(d, vpn)].valid
    requires Hi(vpn / 2, s.asid[d]) != Hi(0, 0) ==> forall i :: 0 <= i < |s.tlb| ==> s.tlb[i].hi != Hi(vpn / 2, s.asid[d])
    ensures Inv(s.(tlb := s.tlb[j := Pair(s, d, vpn)]), None) <==> vpn >= 2 || s.asid[d] != 0
  {
    if vpn >= 2 || s.asid[d] != 0 {
      RefillKeeps(s, d, vpn, j, None);
    } else {
      RefillZero(s, d, vpn, j);
    }
  }

  // ------------------------------------------------------------- registration

  /** swap_register for a page that is mapped to p. */
  function Register(s: Vm, x: Slot, p: nat, asid: nat): Vm
    requires ShapeOk(s) && p < |s.ste| && s.pool != [] && s.pool[0] < |s.info|
  {
    var i := s.pool[0];
    s.(queue := if s.ste[p] == [] then s.queue + [p] else s.queue,
       pool := s.pool[1..], info := s.info[i := SwapInfo(x, asid)],
       ste := s.ste[p := [i] + s.ste[p]], loc := s.loc[i := Ram(p)], reg := s.reg[x := i])
  }

  lemma PoolHead(s: Vm)
    requires ShapeOk(s) && ListsOk(s) && s.pool != []
    ensures s.pool[0] < |s.info| && s.loc[s.pool[0]] == Pool
  {
    assert s.pool[0] in s.pool;
  }

  lemma RegisterLists(s: Vm, x: Slot, p: nat, asid: nat)
    requires ShapeOk(s) && ListsOk(s) && s.pool != [] && p < |s.ste|
    ensures s.pool[0] < |s.info| && ListsOk(Register(s, x, p, asid))
  {
    PoolHead(s);
    var i, t := s.pool[0], Register(s, x, p, asid);
    assert s.pool == [i] + t.pool;
    assert Lists(t.pool, t.loc, Pool) by {
      forall k: nat ensures k in t.pool <==> k < |t.loc| && t.loc[k] == Pool {
        assert k in s.pool <==> k < |s.loc| && s.loc[k] == Pool;
      }
    }
    forall q | 0 <= q < |t.ste| ensures Lists(t.ste[q], t.loc, Ram(q)) {
      assert Lists(s.ste[q], s.loc, Ram(q));
      forall k: nat ensures k in t.ste[q] <==> k < |t.loc| && t.loc[k] == Ram(q) {
        assert k in s.ste[q] <==> k < |s.loc| && s.loc[k] == Ram(q);
      }
      assert i !in s.ste[q];
    }
    forall b | 0 <= b < |t.bste| ensures Lists(t.bste[b], t.loc, Disk(b)) {
      assert Lists(s.bste[b], s.loc, Disk(b));
      forall k: nat ensures k in t.bste[b] <==> k < |t.loc| && t.loc[k] == Disk(b) {
        assert k in s.bste[b] <==> k < |s.loc| && s.loc[k] == Disk(b);
      }
    }
  }

  lemma RegisterQueue(s: Vm, x: Slot, p: nat, asid: nat)
    requires ShapeOk(s) && QueueOk(s) && p < |s.ste| && s.pool != [] && s.pool[0] < |s.info|
    ensures QueueOk(Register(s, x, p, asid))
  {
    var t := Register(s, x, p, asid);
    forall q: nat ensures q in t.queue <==> q < |t.ste| && t.ste[q] != [] {
      assert q in s.queue <==> q < |s.ste| && s.ste[q] != [];
    }
    assert p in s.queue <==> s.ste[p] != [];
  }

  lemma RegisterReg(s: Vm, x: Slot, p: nat)
    requires ShapeOk(s) && RegOk(s) && p < |s.ste| && s.pool != [] && s.pool[0] < |s.info|
    requires s.loc[s.pool[0]] == Pool && x !in s.reg
    requires x in s.pte && Where(s.pte[x]) == Ram(p) && x.pgdir in s.asid
    ensures RegOk(Register(s, x, p, s.asid[x.pgdir]))
  {}

  lemma RegisterHalf(s: Vm, x: Slot, p: nat, odd: Option<nat>)
    requires ShapeOk(s) && RecordHalf(s, odd) && p < |s.ste| && s.pool != [] && s.pool[0] < |s.info|
    requires s.loc[s.pool[0]] == Pool && x !in s.reg && (odd == None || odd == Some(p))
    requires x in s.pte && Where(s.pte[x]) == Ram(p) && x.pgdir in s.asid
    ensures RecordHalf(Register(s, x, p, s.asid[x.pgdir]), Some(p))
  {
    RegisterLists(s, x, p, s.asid[x.pgdir]);
    RegisterQueue(s, x, p, s.asid[x.pgdir]);
    RegisterReg(s, x, p);
    SameTlb(s, Register(s, x, p, s.asid[x.pgdir]));
  }

  /** Registering a mapping of p keeps everything but that all mappings of p are registered. */
  lemma RegisterOdd(s: Vm, x: Slot, p: nat, odd: Option<nat>)
    requires Inv(s, odd) && (odd == None || odd == Some(p)) && s.pool != []
    requires x in s.pte && s.pte[x].valid && s.pte[x].num == p && x !in s.reg
    ensures p < |s.ste| && s.pool[0] < |s.info| && x.pgdir in s.asid
    ensures Inv(Register(s, x, p, s.asid[x.pgdir]), Some(p))
  {
    assert PteOk(s, x) && TableOf(x) in s.tables;
    PoolHead(s);
    RegisterHalf(s, x, p, odd);
    SameFrameHalf(s, Register(s, x, p, s.asid[x.pgdir]));
  }

  /** Registering the last unregistered mapping of p keeps the invariant. */
  lemma RegisterKeeps(s: Vm, x: Slot, p: nat, odd: Option<nat>)
    requires Inv(s, odd) && (odd == None || odd == Some(p)) && s.pool != []
    requires x in s.pte && s.pte[x].valid && s.pte[x].num == p && x !in s.reg
    requires forall y :: y in s.pte && Where(s.pte[y]) == Ram(p) && y != x ==> y in s.reg
    ensures p < |s.ste| && s.pool[0] < |s.info| && x.pgdir in s.asid
    ensures Inv(Register(s, x, p, s.asid[x.pgdir]), None)
  {
    RegisterOdd(s, x, p, odd);
  }

  /** swap_unregister for a registered page mapped to p. */
  function Unregister(s: Vm, x: Slot, p: nat): Vm
    requires ShapeOk(s) && p < |s.ste| && x in s.reg && s.reg[x] < |s.loc|
  {
    var i := s.reg[x];
    var list := Without(s.ste[p], i);
    s.(queue := if list == [] then Without(s.queue, p) else s.queue,
       pool := [i] + s.pool, ste := s.ste[p := list], loc := s.loc[i := Pool], reg := s.reg - {x})
  }

  lemma UnregisterLists(s: Vm, x: Slot, p: nat)
    requires ShapeOk(s) && ListsOk(s) && p < |s.ste|
    requires x in s.reg && s.reg[x] < |s.loc| && s.loc[s.reg[x]] == Ram(p)
    ensures ListsOk(Unregister(s, x, p))
  {
    var i, t := s.reg[x], Unregister(s, x, p);
    assert Lists(t.pool, t.loc, Pool) by {
      forall k: nat ensures k in t.pool <==> k < |t.loc| && t.loc[k] == Pool {
        assert k in s.pool <==> k < |s.loc| && s.loc[k] == Pool;
      }
      assert i !in s.pool;
    }
    forall q | 0 <= q < |t.ste| ensures Lists(t.ste[q], t.loc, Ram(q)) {
      assert Lists(s.ste[q], s.loc, Ram(q));
      WithoutKeeps(s.ste[q], i);
      forall k: nat ensures k in t.ste[q] <==> k < |t.loc| && t.loc[k] == Ram(q) {
        assert k in s.ste[q] <==> k < |s.loc| && s.loc[k] == Ram(q);
      }
    }
    forall b | 0 <= b < |t.bste| ensures Lists(t.bste[b], t.loc, Disk(b)) {
      assert Lists(s.bste[b], s.loc, Disk(b));
      forall k: nat ensures k in t.bste[b] <==> k < |t.loc| && t.loc[k] == Disk(b) {
        assert k in s.bste[b] <==> k < |s.loc| && s.loc[k] == Disk(b);
      }
    }
  }

  lemma UnregisterQueue(s: Vm, x: Slot, p: nat)
    requires ShapeOk(s) && QueueOk(s) && p < |s.ste| && p in s.queue
    requires x in s.reg && s.reg[x] < |s.loc| && s.ste[p] != []
    ensures QueueOk(Unregister(s, x, p))
  {
    var t := Unregister(s, x, p);
    WithoutKeeps(s.queue, p);
    forall q: nat ensures q in t.queue <==> q < |t.ste| && t.ste[q] != [] {
      assert q in s.queue <==> q < |s.ste| && s.ste[q] != [];
    }
  }

  lemma UnregisterReg(s: Vm, x: Slot, p: nat)
    requires ShapeOk(s) && RegOk(s) && p < |s.ste| && x in s.reg && s.reg[x] < |s.loc|
    requires s.loc[s.reg[x]] == Ram(p)
    ensures RegOk(Unregister(s, x, p))
  {
    var t := Unregister(s, x, p);
    forall y | y in t.reg
      ensures t.reg[y] < |t.loc| && t.info[t.reg[y]].slot == y && t.reg[y] != s.reg[x]
    {
      assert y in s.reg;
    }
  }

  lemma RegisteredIsQueued(s: Vm, x: Slot, p: nat)
    requires ListsOk(s) && RegOk(s) && QueueOk(s) && x in s.reg && p < |s.ste|
    requires x in s.pte && Where(s.pte[x]) == Ram(p)
    ensures s.reg[x] < |s.loc| && s.loc[s.reg[x]] == Ram(p) && s.ste[p] != [] && p in s.queue
    ensures s.reg[x] in s.ste[p]
  {
    assert Lists(s.ste[p], s.loc, Ram(p));
  }

  lemma UnregisterHalf(s: Vm, x: Slot, p: nat, odd: Option<nat>)
    requires ShapeOk(s) && RecordHalf(s, odd) && (odd == None || odd == Some(p))
    requires x in s.pte && s.pte[x].valid && s.pte[x].num == p && p < |s.ste| && x in s.reg
    ensures s.reg[x] < |s.loc| && RecordHalf(Unregister(s, x, p), Some(p))
  {
    RegisteredIsQueued(s, x, p);
    UnregisterLists(s, x, p);
    UnregisterQueue(s, x, p);
    assert CompleteOk(Unregister(s, x, p), Some(p)) by { WithoutKeeps(s.queue, p); }
    UnregisterReg(s, x, p);
    SameTlb(s, Unregister(s, x, p));
  }

  lemma UnregisterFrames(s: Vm, x: Slot, p: nat)
    requires ShapeOk(s) && FrameHalf(s) && p < |s.ste| && x in s.reg && s.reg[x] < |s.loc|
    requires x in s.pte && s.pte[x].valid
    ensures FrameHalf(Unregister(s, x, p))
  {
    assert !s.pte[x].swapped by { assert PteOk(s, x); }
    SameFrameHalf(s, Unregister(s, x, p));
  }

  /** Unregistering a mapping leaves p odd until that mapping is gone. */
  lemma UnregisterKeeps(s: Vm, x: Slot, p: nat, odd: Option<nat>)
    requires Inv(s, odd) && (odd == None || odd == Some(p))
    requires x in s.pte && s.pte[x].valid && s.pte[x].num == p && x in s.reg
    ensures p < |s.ste| && s.reg[x] < |s.loc| && Inv(Unregister(s, x, p), Some(p))
  {
    assert p < |s.ste| by { assert PteOk(s, x); }
    UnregisterHalf(s, x, p, odd);
    UnregisterFrames(s, x, p);
  }

  // ------------------------------------------------------- mapping and unmapping

  /** An unmapped page is mapped to p. */
  function MapPage(s: Vm, x: Slot, p: nat, perm: Perm): Vm
    requires ShapeOk(s) && p < |s.ref|
  {
    s.(pte := s.pte[x := Pte(true, false, p, perm)], ref := s.ref[p := s.ref[p] + 1],
       kind := s.kind[p := Data])
  }

  lemma MapUsers(s: Vm, x: Slot, p: nat, perm: Perm)
    requires ShapeOk(s) && p < |s.ref| && x !in s.pte
    ensures Users(MapPage(s, x, p, perm).pte, Ram(p)) == Users(s.pte, Ram(p)) + {x}
    ensures forall l: Loc :: l != Ram(p) ==> Users(MapPage(s, x, p, perm).pte, l) == Users(s.pte, l)
  {}

  lemma MapRefs(s: Vm, x: Slot, p: nat, perm: Perm)
    requires ShapeOk(s) && RefsOk(s) && PtesOk(s) && SharersOk(s)
    requires p < |s.ref| && x !in s.pte && (s.kind[p] == Held || s.kind[p] == Data) && s.ref[p] < MAX_REF
    ensures RefsOk(MapPage(s, x, p, perm)) && SharersOk(MapPage(s, x, p, perm))
  {
    var t := MapPage(s, x, p, perm);
    MapUsers(s, x, p, perm);
    assert |Users(t.pte, Ram(p))| == |Users(s.pte, Ram(p))| + 1;
    assert s.ref[p] == |Users(s.pte, Ram(p))| by {
      assert RefOk(s, p);
      if s.kind[p] == Held {
        NotData(s, p);
        assert Users(s.pte, Ram(p)) == {};
      }
    }
    forall q | 0 <= q < |t.ref| ensures RefOk(t, q) {
      assert RefOk(s, q);
      if q != p { assert Users(t.pte, Ram(q)) == Users(s.pte, Ram(q)); }
    }
    forall l: Loc ensures |Users(t.pte, l)| <= MAX_REF { assert |Users(s.pte, l)| <= MAX_REF; }
  }

  lemma MapFree(s: Vm, x: Slot, p: nat, perm: Perm)
    requires ShapeOk(s) && FreeOk(s) && p < |s.ref| && (s.kind[p] == Held || s.kind[p] == Data)
    ensures FreeOk(MapPage(s, x, p, perm))
  {
    var t := MapPage(s, x, p, perm);
    forall q: nat ensures q in t.free <==> q < |t.kind| && t.kind[q] == Free {
      assert q in s.free <==> q < |s.kind| && s.kind[q] == Free;
    }
  }

  lemma MapPtes(s: Vm, x: Slot, p: nat, perm: Perm)
    requires ShapeOk(s) && PtesOk(s) && x !in s.pte && TableOf(x) in s.tables && p < |s.ref|
    ensures PtesOk(MapPage(s, x, p, perm))
  {
    var t := MapPage(s, x, p, perm);
    forall y | y in t.pte ensures PteOk(t, y) { if y != x { assert PteOk(s, y); } }
  }

  lemma MapSpaces(s: Vm, x: Slot, p: nat, perm: Perm)
    requires ShapeOk(s) && SpacesOk(s) && p < |s.ref| && (s.kind[p] == Held || s.kind[p] == Data)
    ensures SpacesOk(MapPage(s, x, p, perm))
  {}

  lemma MapRecords(s: Vm, x: Slot, p: nat, perm: Perm)
    requires ShapeOk(s) && RecordHalf(s, None) && x !in s.pte && p < |s.ref|
    ensures RecordHalf(MapPage(s, x, p, perm), Some(p))
  {
    var t := MapPage(s, x, p, perm);
    SameRecords(s, t);
    SameReg(s, t);
    SameTlb(s, t);
  }

  lemma MapKeeps(s: Vm, x: Slot, p: nat, perm: Perm)
    requires Inv(s, None) && x !in s.pte && TableOf(x) in s.tables
    requires p < |s.ref| && (s.kind[p] == Held || s.kind[p] == Data) && s.ref[p] < MAX_REF
    ensures Inv(MapPage(s, x, p, perm), Some(p))
  {
    MapRefs(s, x, p, perm);
    MapFree(s, x, p, perm);
    MapPtes(s, x, p, perm);
    MapSpaces(s, x, p, perm);
    MapRecords(s, x, p, perm);
  }

  /** The permissions of a mapped page change; its TLB entry has been flushed. */
  function Remap(s: Vm, x: Slot, perm: Perm): Vm
    requires x in s.pte
  {
    s.(pte := s.pte[x := s.pte[x].(perm := perm)])
  }

  ghost predicate NoEntry(s: Vm, x: Slot) {
    x.pgdir in s.asid && forall j :: 0 <= j < |s.tlb| ==> s.tlb[j].hi != HiOf(x, s.asid[x.pgdir]) || s.tlb[j] == EMPTY
  }

  /** Changing the entry of a page the TLB does not know keeps the TLB coherent. */
  lemma TlbIndependent(s: Vm, t: Vm, x: Slot)
    requires TlbOk(s) && SpacesOk(s) && NoEntry(s, x)
    requires t.tlb == s.tlb && t.owner == s.owner
    requires forall y :: y != x && y in s.pte ==> y in t.pte && t.pte[y] == s.pte[y]
    ensures TlbOk(t)
  {
    forall j | 0 <= j < |t.tlb| ensures EntryOk(t, t.tlb[j]) {
      var e := s.tlb[j];
      assert EntryOk(s, e);
      if e != EMPTY {
        HalfIndependent(s, t, x, e.hi, 2 * e.hi.vpn2, e.lo0);
        HalfIndependent(s, t, x, e.hi, 2 * e.hi.vpn2 + 1, e.lo1);
      }
    }
  }

  lemma HalfIndependent(s: Vm, t: Vm, x: Slot, hi: Hi, vpn: nat, lo: Lo)
    requires SpacesOk(s) && HalfOk(s, hi.asid, vpn, lo) && vpn / 2 == hi.vpn2
    requires x.pgdir in s.asid && hi != HiOf(x, s.asid[x.pgdir]) && t.owner == s.owner
    requires forall y :: y != x && y in s.pte ==> y in t.pte && t.pte[y] == s.pte[y]
    ensures HalfOk(t, hi.asid, vpn, lo)
  {
    if lo.v {
      var y := Slot(s.owner[hi.asid], vpn);
      assert s.asid[y.pgdir] == hi.asid;
      assert y != x;
    }
  }

  lemma RemapFrames(s: Vm, x: Slot, perm: Perm)
    requires RefsOk(s) && SharersOk(s) && FreeOk(s) && SpacesOk(s) && x in s.pte
    ensures var t := Remap(s, x, perm); RefsOk(t) && SharersOk(t) && FreeOk(t) && SpacesOk(t)
  {
    var t := Remap(s, x, perm);
    assert forall l: Loc :: Users(t.pte, l) == Users(s.pte, l);
    forall l: Loc ensures |Users(t.pte, l)| <= MAX_REF { assert |Users(s.pte, l)| <= MAX_REF; }
    forall q | 0 <= q < |t.ref| ensures RefOk(t, q) {
      assert RefOk(s, q);
      assert Users(t.pte, Ram(q)) == Users(s.pte, Ram(q));
    }
  }

  lemma RemapPtes(s: Vm, x: Slot, perm: Perm)
    requires PtesOk(s) && x in s.pte
    ensures PtesOk(Remap(s, x, perm))
  {
    var t := Remap(s, x, perm);
    forall y | y in t.pte ensures PteOk(t, y) { assert PteOk(s, y); }
  }

  lemma RemapRecords(s: Vm, x: Slot, perm: Perm, odd: Option<nat>)
    requires RecordHalf(s, odd) && SpacesOk(s) && x in s.pte && NoEntry(s, x)
    ensures RecordHalf(Remap(s, x, perm), odd)
  {
    var t := Remap(s, x, perm);
    SameRecords(s, t);
    SameReg(s, t);
    TlbIndependent(s, t, x);
  }

  lemma RemapKeeps(s: Vm, x: Slot, perm: Perm, odd: Option<nat>)
    requires Inv(s, odd) && x in s.pte && NoEntry(s, x)
    ensures Inv(Remap(s, x, perm), odd)
  {
    RemapFrames(s, x, perm);
    RemapPtes(s, x, perm);
    RemapRecords(s, x, perm, odd);
  }

  /** page_remove on an unregistered valid page whose TLB entry is flushed. */
  function Unmap(s: Vm, x: Slot, p: nat): Vm
    requires ShapeOk(s) && p < |s.ref| && s.ref[p] > 0
  {
    var last := s.ref[p] == 1;
    s.(pte := s.pte - {x}, ref := s.ref[p := s.ref[p] - 1],
       kind := if last then s.kind[p := Free] else s.kind,
       free := if last then [p] + s.free else s.free)
  }

  lemma UnmapUsers(s: Vm, x: Slot, p: nat)
    requires ShapeOk(s) && p < |s.ref| && s.ref[p] > 0 && x in s.pte && Where(s.pte[x]) == Ram(p)
    ensures Users(Unmap(s, x, p).pte, Ram(p)) == Users(s.pte, Ram(p)) - {x}
    ensures |Users(Unmap(s, x, p).pte, Ram(p))| == |Users(s.pte, Ram(p))| - 1
    ensures forall l: Loc :: l != Ram(p) ==> Users(Unmap(s, x, p).pte, l) == Users(s.pte, l)
  {
    assert x in Users(s.pte, Ram(p));
  }

  lemma UnmapFrames(s: Vm, x: Slot, p: nat)
    requires ShapeOk(s) && RefsOk(s) && FreeOk(s) && SharersOk(s)
    requires p < |s.ref| && s.kind[p] == Data && x in s.pte && Where(s.pte[x]) == Ram(p)
    ensures s.ref[p] > 0 && RefsOk(Unmap(s, x, p)) && FreeOk(Unmap(s, x, p)) && SharersOk(Unmap(s, x, p))
  {
    assert RefOk(s, p);
    var t := Unmap(s, x, p);
    UnmapUsers(s, x, p);
    forall q | 0 <= q < |t.ref| ensures RefOk(t, q) {
      assert RefOk(s, q);
      if q != p { assert Users(t.pte, Ram(q)) == Users(s.pte, Ram(q)); }
    }
    assert FreeOk(t) by {
      forall q: nat ensures q in t.free <==> q < |t.kind| && t.kind[q] == Free {
        assert q in s.free <==> q < |s.kind| && s.kind[q] == Free;
      }
    }
    forall l: Loc ensures |Users(t.pte, l)| <= MAX_REF { assert |Users(s.pte, l)| <= MAX_REF; }
  }

  lemma LastUser(s: Vm, x: Slot, y: Slot, p: nat)
    requires |Users(s.pte, Ram(p))| == 1
    requires x in s.pte && Where(s.pte[x]) == Ram(p) && y in s.pte && Where(s.pte[y]) == Ram(p)
    ensures x == y
  {
    var users := Users(s.pte, Ram(p));
    assert x in users && y in users && |users - {x}| == 0;
    assert y !in users - {x};
  }

  lemma UnmapPtes(s: Vm, x: Slot, p: nat)
    requires ShapeOk(s) && PtesOk(s) && RefsOk(s) && p < |s.ref| && s.kind[p] == Data
    requires x in s.pte && Where(s.pte[x]) == Ram(p) && s.ref[p] > 0
    ensures PtesOk(Unmap(s, x, p))
  {
    var t := Unmap(s, x, p);
    forall y | y in t.pte ensures PteOk(t, y) {
      assert PteOk(s, y);
      if Where(s.pte[y]) == Ram(p) && s.ref[p] == 1 {
        assert RefOk(s, p);
        LastUser(s, x, y, p);
      }
    }
  }

  lemma UnmapRecords(s: Vm, x: Slot, p: nat, odd: Option<nat>)
    requires ShapeOk(s) && RecordHalf(s, odd) && SpacesOk(s) && (odd == None || odd == Some(p)) && NoEntry(s, x)
    requires p < |s.ref| && s.ref[p] > 0 && x in s.pte && Where(s.pte[x]) == Ram(p) && x !in s.reg
    requires forall y :: y in s.pte && Where(s.pte[y]) == Ram(p) && y != x && p in s.queue ==> y in s.reg
    ensures RecordHalf(Unmap(s, x, p), None)
  {
    var t := Unmap(s, x, p);
    SameRecords(s, t);
    SameReg(s, t);
    TlbIndependent(s, t, x);
  }

  lemma UnmapSpaces(s: Vm, x: Slot, p: nat)
    requires ShapeOk(s) && SpacesOk(s) && p < |s.ref| && s.ref[p] > 0 && s.kind[p] == Data
    ensures SpacesOk(Unmap(s, x, p))
  {}

  lemma UnmapKeeps(s: Vm, x: Slot, p: nat, odd: Option<nat>)
    requires Inv(s, odd) && (odd == None || odd == Some(p)) && NoEntry(s, x)
    requires x in s.pte && s.pte[x].valid && s.pte[x].num == p && x !in s.reg
    requires forall y :: y in s.pte && Where(s.pte[y]) == Ram(p) && y != x && p in s.queue ==> y in s.reg
    ensures p < |s.ref| && s.ref[p] > 0 && Inv(Unmap(s, x, p), None)
  {
    assert p < |s.ref| && s.kind[p] == Data by { assert PteOk(s, x); }
    UnmapFrames(s, x, p);
    assert PtesOk(Unmap(s, x, p)) by { UnmapPtes(s, x, p); }
    assert SpacesOk(Unmap(s, x, p)) by { UnmapSpaces(s, x, p); }
    assert RecordHalf(Unmap(s, x, p), None) by { UnmapRecords(s, x, p, odd); }
  }

  // ----------------------------------------------- page tables and directories

  function AddTable(s: Vm, k: TableKey, p: nat): Vm
    requires ShapeOk(s) && p < |s.ref|
  {
    s.(tables := s.tables[k := p], ref := s.ref[p := 1], kind := s.kind[p := Table(k)])
  }

  lemma AddTableKeeps(s: Vm, k: TableKey, p: nat, odd: Option<nat>)
    requires Inv(s, odd) && k !in s.tables && k.pgdir in s.asid && k.pdx < UTOP / NPTE
    requires p < |s.ref| && s.kind[p] == Held
    ensures Inv(AddTable(s, k, p), odd) && SameMemory(s, AddTable(s, k, p))
  {
    var t := AddTable(s, k, p);
    assert RecordHalf(t, odd) by { SameRecordHalf(s, t, odd); }
    assert RefsOk(t) by { SameRefs(s, t, p); }
    FramesRelabelled(s, t, p);
  }

  /** Parts of the invariant that do not depend on what an unmapped frame is used for. */
  lemma FramesRelabelled(s: Vm, t: Vm, p: nat)
    requires ShapeOk(s) && FreeOk(s) && PtesOk(s) && TlbOk(s) && SharersOk(s)
    requires p < |s.kind| && (s.kind[p] == Held || s.kind[p].Dir? || s.kind[p].Table?)
    requires t.pte == s.pte && t.reg == s.reg && t.bitmap == s.bitmap && t.tlb == s.tlb
    requires t.ram == s.ram && t.disk == s.disk && |t.kind| == |s.kind| && t.kind[p] != Data
    requires forall q :: 0 <= q < |s.kind| && q != p ==> t.kind[q] == s.kind[q]
    requires t.kind[p] == Free ==> t.free == [p] + s.free
    requires t.kind[p] != Free ==> t.free == s.free
    requires forall x :: x in s.pte ==> TableOf(x) in t.tables
    requires forall a :: a in s.owner && s.owner[a] != p ==> a in t.owner && t.owner[a] == s.owner[a]
    requires forall x :: x in s.pte ==> x.pgdir != p || s.kind[p] == Held
    requires s.kind[p] == Held ==> forall a :: a in s.owner ==> s.owner[a] != p
    ensures FreeOk(t) && PtesOk(t) && TlbOk(t) && SharersOk(t) && SameMemory(s, t)
  {
    assert FreeOk(t) by {
      forall q: nat ensures q in t.free <==> q < |t.kind| && t.kind[q] == Free {
        assert q in s.free <==> q < |s.kind| && s.kind[q] == Free;
      }
    }
    assert PtesOk(t) by {
      forall x | x in t.pte ensures PteOk(t, x) { assert PteOk(s, x); }
    }
    assert TlbOk(t) by {
      forall j | 0 <= j < |t.tlb| ensures EntryOk(t, t.tlb[j]) { assert EntryOk(s, s.tlb[j]); }
    }
    assert SameMemory(s, t) by { SameInvisible(s, t); }
    forall l: Loc ensures |Users(t.pte, l)| <= MAX_REF { assert |Users(s.pte, l)| <= MAX_REF; }
  }

  lemma SameRefs(s: Vm, t: Vm, p: nat)
    requires RefsOk(s) && |t.ref| == |t.kind| == |s.kind| && t.pte == s.pte && p < |t.ref| && RefOk(t, p)
    requires forall q :: 0 <= q < |s.kind| && q != p ==> t.kind[q] == s.kind[q] && t.ref[q] == s.ref[q]
    requires forall d :: d in s.asid && d != p ==> d in t.asid
    requires forall k :: k in s.tables && s.tables[k] != p ==> k in t.tables && t.tables[k] == s.tables[k]
    ensures RefsOk(t)
  {
    forall q | 0 <= q < |t.ref| ensures RefOk(t, q) { assert RefOk(s, q); }
  }

  function DropTable(s: Vm, k: TableKey): Vm
    requires ShapeOk(s) && k in s.tables && s.tables[k] < |s.ref|
  {
    var p := s.tables[k];
    s.(tables := s.tables - {k}, ref := s.ref[p := 0], kind := s.kind[p := Free], free := [p] + s.free)
  }

  lemma DropTableUnused(s: Vm, k: TableKey)
    requires SpacesOk(s) && PtesOk(s) && k in s.tables && (forall x :: x in s.pte ==> TableOf(x) != k)
    ensures forall x :: x in s.pte ==> x.pgdir != s.tables[k] && TableOf(x) in s.tables - {k}
    ensures forall a :: a in s.owner ==> s.owner[a] != s.tables[k]
  {
    forall x | x in s.pte ensures x.pgdir != s.tables[k] && TableOf(x) in s.tables - {k} {
      assert PteOk(s, x);
      assert s.kind[x.pgdir] == Dir;
    }
    forall a | a in s.owner ensures s.owner[a] != s.tables[k] { assert s.kind[s.owner[a]] == Dir; }
  }

  lemma DropTableKeeps(s: Vm, k: TableKey)
    requires Inv(s, None) && k in s.tables
    requires forall x :: x in s.pte ==> TableOf(x) != k
    ensures s.tables[k] < |s.ref| && s.ref[s.tables[k]] == 1
    ensures Inv(DropTable(s, k), None) && SameMemory(s, DropTable(s, k))
  {
    var p := s.tables[k];
    assert RefOk(s, p);
    var t := DropTable(s, k);
    assert RecordHalf(t, None) by { SameRecordHalf(s, t, None); }
    assert RefsOk(t) by { SameRefs(s, t, p); }
    DropTableUnused(s, k);
    FramesRelabelled(s, t, p);
  }

  function AddSpace(s: Vm, d: nat, a: nat): Vm
    requires ShapeOk(s) && d < |s.ref|
  {
    s.(asid := s.asid[d := a], owner := s.owner[a := d], ref := s.ref[d := 1], kind := s.kind[d := Dir])
  }

  lemma HeldUnused(s: Vm, d: nat)
    requires SpacesOk(s) && PtesOk(s) && d < |s.kind| && s.kind[d] == Held
    ensures d !in s.asid && (forall b :: b in s.owner ==> s.owner[b] != d)
    ensures forall x :: x in s.pte ==> TableOf(x) in s.tables
  {
    forall b | b in s.owner ensures s.owner[b] != d { assert s.owner[b] in s.asid; }
    forall x | x in s.pte ensures TableOf(x) in s.tables { assert PteOk(s, x); }
  }

  lemma AddSpaceRest(s: Vm, d: nat, a: nat)
    requires ShapeOk(s) && SpacesOk(s) && RegOk(s) && d < |s.ref|
    requires s.kind[d] == Held && d !in s.asid && a !in s.owner && a < NASID
    ensures SpacesOk(AddSpace(s, d, a)) && RegOk(AddSpace(s, d, a))
  {}

  lemma AddSpaceKeeps(s: Vm, d: nat, a: nat)
    requires Inv(s, None) && d < |s.ref| && s.kind[d] == Held && a !in s.owner && a < NASID
    ensures Inv(AddSpace(s, d, a), None) && SameMemory(s, AddSpace(s, d, a))
  {
    var t := AddSpace(s, d, a);
    HeldUnused(s, d);
    FramesRelabelled(s, t, d);
    assert RefsOk(t) by { SameRefs(s, t, d); }
    assert ListsOk(t) && QueueOk(t) by { SameRecords(s, t); }
    AddSpaceRest(s, d, a);
  }

  /** A directory frame that no environment gets stays referenced for ever. */
  function Leak(s: Vm, d: nat): Vm
    requires ShapeOk(s) && d < |s.ref|
  {
    s.(ref := s.ref[d := 1], kind := s.kind[d := Reserved])
  }

  lemma LeakKeeps(s: Vm, d: nat)
    requires Inv(s, None) && d < |s.ref| && s.kind[d] == Held
    ensures Inv(Leak(s, d), None) && SameMemory(s, Leak(s, d))
  {
    var t := Leak(s, d);
    HeldUnused(s, d);
    FramesRelabelled(s, t, d);
    SameRefs(s, t, d);
    SameRecordHalf(s, t, None);
  }

  function DropSpace(s: Vm, d: nat): Vm
    requires ShapeOk(s) && d in s.asid && d < |s.ref|
  {
    s.(asid := s.asid - {d}, owner := s.owner - {s.asid[d]},
       ref := s.ref[d := 0], kind := s.kind[d := Free], free := [d] + s.free)
  }

  lemma DropSpaceRest(s: Vm, d: nat)
    requires ShapeOk(s) && SpacesOk(s) && RegOk(s) && d in s.asid && d < |s.ref|
    requires forall k :: k in s.tables ==> k.pgdir != d
    requires forall x :: x in s.pte ==> x.pgdir != d
    ensures SpacesOk(DropSpace(s, d)) && RegOk(DropSpace(s, d))
  {}

  lemma DropSpaceKeeps(s: Vm, d: nat)
    requires Inv(s, None) && d in s.asid && (forall k :: k in s.tables ==> k.pgdir != d)
    ensures d < |s.ref| && s.ref[d] == 1
    ensures Inv(DropSpace(s, d), None) && SameMemory(s, DropSpace(s, d))
  {
    assert RefOk(s, d);
    var t := DropSpace(s, d);
    forall x | x in s.pte ensures x.pgdir != d && TableOf(x) in t.tables { assert PteOk(s, x); }
    FramesRelabelled(s, t, d);
    SameRefs(s, t, d);
    SameRecords(s, t);
    DropSpaceRest(s, d);
  }

  // ----------------------------------------------------------------- a store

  lemma StoreKeeps(s: Vm, p: nat, c: Contents, odd: Option<nat>)
    requires Inv(s, odd) && p < |s.ram|
    ensures Inv(s.(ram := s.ram[p := c]), odd)
  {
    SameFrameHalf(s, s.(ram := s.ram[p := c]));
    SameRecordHalf(s, s.(ram := s.ram[p := c]), odd);
  }

  // ------------------------------------------------------------------- boot

  function Const<T>(n: nat, v: T): (q: seq<T>)
    ensures |q| == n && forall i :: 0 <= i < n ==> q[i] == v
  {
    seq(n, _ => v)
  }

  /** hi - 1, ..., lo: what inserting lo, lo + 1, ... at a list's head gives. */
  function Descending(lo: nat, hi: nat): (q: seq<nat>)
    requires lo <= hi
    ensures |q| == hi - lo && forall k :: 0 <= k < |q| ==> q[k] == hi - 1 - k
  {
    if lo == hi then [] else [hi - 1] + Descending(lo, hi - 1)
  }

  lemma DescendingMembers(lo: nat, hi: nat)
    requires lo <= hi
    ensures Distinct(Descending(lo, hi)) && forall q: nat :: q in Descending(lo, hi) <==> lo <= q < hi
  {
    forall q: nat ensures q in Descending(lo, hi) <==> lo <= q < hi {
      if lo <= q < hi { assert Descending(lo, hi)[hi - 1 - q] == q; }
    }
  }

  /** After page_init and swap_init: frames below nboot hold the kernel; every other frame,
      every swap block and every SwapInfo record is free; no address space exists. */
  function BootState(npage: nat, nboot: nat, ntlb: nat): Vm
    requires nboot <= npage
  {
    Vm(Const(npage, []), Const(nboot, 1) + Const(npage - nboot, 0), Descending(nboot, npage),
       Const(SD_NBLK, []), Const(SD_NBLK, false), [], Const(npage, []), Const(SD_NBLK, []),
       Const(MAX_SWAPINFO, SwapInfo(Slot(0, 0), 0)), Descending(0, MAX_SWAPINFO), map[], map[], map[],
       Const(ntlb, EMPTY), Const(MAX_SWAPINFO, Pool), Const(nboot, Reserved) + Const(npage - nboot, Free), map[], map[])
  }

  lemma BootFrames(npage: nat, nboot: nat, ntlb: nat)
    requires nboot <= npage
    ensures var s := BootState(npage, nboot, ntlb); FreeOk(s) && RefsOk(s)
  {
    DescendingMembers(nboot, npage);
  }

  lemma BootLists(npage: nat, nboot: nat, ntlb: nat)
    requires nboot <= npage
    ensures ListsOk(BootState(npage, nboot, ntlb))
  {
    DescendingMembers(0, MAX_SWAPINFO);
    var s := BootState(npage, nboot, ntlb);
    forall p | 0 <= p < |s.ste| ensures Lists(s.ste[p], s.loc, Ram(p)) {}
    forall b | 0 <= b < |s.bste| ensures Lists(s.bste[b], s.loc, Disk(b)) {}
  }

  lemma BootRest(npage: nat, nboot: nat, ntlb: nat)
    requires nboot <= npage
    ensures var s := BootState(npage, nboot, ntlb);
            && ShapeOk(s) && SharersOk(s) && SpacesOk(s) && PtesOk(s)
            && RegOk(s) && QueueOk(s) && CompleteOk(s, None) && TlbOk(s)
  {
    var s := BootState(npage, nboot, ntlb);
    forall l: Loc ensures |Users(s.pte, l)| <= MAX_REF { assert Users(s.pte, l) == {}; }
  }

  /** The invariant holds after boot. */
  lemma BootKeeps(npage: nat, nboot: nat, ntlb: nat)
    requires nboot <= npage
    ensures Inv(BootState(npage, nboot, ntlb), None)
  {
    BootFrames(npage, nboot, ntlb);
    BootLists(npage, nboot, ntlb);
    BootRest(npage, nboot, ntlb);
  }
}
