/** What the memory manager's invariant is for: user loads and stores through the TLB reach
    the right memory, every record and frame has one place, and nothing is lost. */
module VmUser {
  import opened Prelude
  import opened VmState
  import opened VmSteps
  import opened VmEvict
  import opened Kernels

  // ----------------------------------------------------------- loads and stores

  function HalfOf(e: TlbEntry, vpn: nat): Lo { if vpn % 2 == 0 then e.lo0 else e.lo1 }

  /** TLB entry j translates page x. */
  ghost predicate Hits(s: Vm, x: Slot, j: nat) {
    x.pgdir in s.asid && j < |s.tlb| && s.tlb[j].hi == HiOf(x, s.asid[x.pgdir]) && HalfOf(s.tlb[j], x.vpn).v
  }

  /** A valid TLB half is the page's current entry, whatever was evicted, brought back or
      remapped since it was loaded. */
  lemma HitIsCurrent(s: Vm, x: Slot, j: nat)
    requires Inv(s, None) && Hits(s, x, j)
    ensures x in s.pte && s.pte[x].valid && HalfOf(s.tlb[j], x.vpn) == Hard(s.pte[x])
    ensures s.pte[x].num < |s.ram|
  {
    assert EntryOk(s, s.tlb[j]);
    assert s.owner[s.asid[x.pgdir]] == x.pgdir;
    assert x == Slot(x.pgdir, if x.vpn % 2 == 0 then 2 * (x.vpn / 2) else 2 * (x.vpn / 2) + 1);
    assert PteOk(s, x);
  }

  /** At most one entry translates a page. */
  lemma OneHit(s: Vm, x: Slot, i: nat, j: nat)
    requires Inv(s, None) && Hits(s, x, i) && Hits(s, x, j)
    ensures i == j
  {}

  /** c has been stored at x: exactly the pages that share x's memory read c. */
  ghost predicate Stored(s: Vm, t: Vm, x: Slot, c: Contents) {
    && t.pte == s.pte && (forall y, z :: Shares(t, y, z) <==> Shares(s, y, z))
    && (forall y :: y in s.pte ==> ViewAt(t, y) == if Shares(s, x, y) then Mapped(Some(c), s.pte[y].perm) else ViewAt(s, y))
  }

  lemma StoreSeen(s: Vm, x: Slot, c: Contents)
    requires x in s.pte && s.pte[x].valid && s.pte[x].num < |s.ram|
    ensures Stored(s, s.(ram := s.ram[s.pte[x].num := c]), x, c)
  {}

  /** A store through the TLB. */
  method UserStore(k: Kernel, x: Slot, j: nat, c: Contents)
    requires k.Valid() && Inv(k.Abs(), None) && Hits(k.Abs(), x, j) && HalfOf(k.tlb[j], x.vpn).d
    modifies k.ram
    ensures k.Valid() && Inv(k.Abs(), None) && Stored(old(k.Abs()), k.Abs(), x, c)
    ensures x in k.pte && k.pte[x].perm.d && k.Abs() == old(k.Abs()).(ram := k.ram[..])
  {
    ghost var s := k.Abs();
    HitIsCurrent(s, x, j);
    StoreSeen(s, x, c);
    StoreKeeps(s, s.pte[x].num, c, None);
    k.ram[HalfOf(k.tlb[j], x.vpn).pfn] := c;
    assert k.Abs() == s.(ram := s.ram[s.pte[x].num := c]);
  }

  /** A load through the TLB reads what the page denotes. */
  method UserLoad(k: Kernel, x: Slot, j: nat) returns (c: Contents)
    requires k.Valid() && Inv(k.Abs(), None) && Hits(k.Abs(), x, j)
    ensures ViewAt(k.Abs(), x).Mapped? && ViewAt(k.Abs(), x).contents == Some(c)
  {
    HitIsCurrent(k.Abs(), x, j);
    c := k.ram[HalfOf(k.tlb[j], x.vpn).pfn];
  }

  // -------------------------------------------------------------- conservation

  /** Between calls no frame is in hand. */
  ghost predicate Settled(s: Vm) {
    forall p :: 0 <= p < |s.kind| ==> s.kind[p] != Held
  }

  /** The free frames are exactly the unreferenced ones. */
  lemma FreeIffUnreferenced(s: Vm, p: nat)
    requires Inv(s, None) && Settled(s)
    ensures p in s.free <==> p < |s.ref| && s.ref[p] == 0
  {
    if p < |s.ref| { assert RefOk(s, p); }
  }

  /** A frame in use is the kernel's, a directory, a page table, or mapped by somebody: no
      call leaves a frame that nobody can reach. */
  lemma UsedIsReachable(s: Vm, p: nat)
    requires Inv(s, None) && Settled(s) && p < |s.kind| && p !in s.free && s.kind[p] != Reserved
    ensures p in s.asid || (exists k :: k in s.tables && s.tables[k] == p) || exists x :: x in s.pte && Where(s.pte[x]) == Ram(p)
  {
    assert RefOk(s, p);
    if s.kind[p] == Data {
      assert Users(s.pte, Ram(p)) != {};
      var x :| x in Users(s.pte, Ram(p));
    }
  }

  ghost function ListAt(s: Vm, l: Loc): seq<nat> {
    match l
    case Pool => s.pool
    case Ram(p) => if p < |s.ste| then s.ste[p] else []
    case Disk(b) => if b < |s.bste| then s.bste[b] else []
  }

  /** Every SwapInfo record is on exactly one of the lists. */
  lemma RecordPlace(s: Vm, i: nat)
    requires Inv(s, None) && i < |s.info|
    ensures exists l :: i in ListAt(s, l)
    ensures forall l, m :: i in ListAt(s, l) && i in ListAt(s, m) ==> l == m
    ensures forall l :: Distinct(ListAt(s, l))
  {
    assert i in ListAt(s, s.loc[i]);
    forall l ensures Distinct(ListAt(s, l)) && (i in ListAt(s, l) ==> l == s.loc[i]) {
      match l {
        case Pool =>
        case Ram(p) => if p < |s.ste| { assert Lists(s.ste[p], s.loc, Ram(p)); }
        case Disk(b) => if b < |s.bste| { assert Lists(s.bste[b], s.loc, Disk(b)); }
      }
    }
  }

  /** The reverse maps mirror the page tables: the records of a queued frame, or of a block in
      use, name exactly the pages that live there, each once. */
  lemma RecordsMirror(s: Vm, l: Loc)
    requires Inv(s, None) && l != Pool && ListAt(s, l) != []
    ensures forall i :: i in ListAt(s, l) ==> i < |s.info|
    ensures forall x :: (exists i :: i in ListAt(s, l) && i < |s.info| && s.info[i].slot == x) <==> x in s.pte && Where(s.pte[x]) == l
    ensures |ListAt(s, l)| == |Users(s.pte, l)|
  {
    AllRegistered(s, l);
    Named(s, ListAt(s, l), l);
  }

  lemma Named(s: Vm, ids: seq<nat>, l: Loc)
    requires l != Pool && RegOk(s) && Lists(ids, s.loc, l)
    requires forall x :: x in s.pte && Where(s.pte[x]) == l ==> x in s.reg
    ensures forall i :: i in ids ==> i < |s.info|
    ensures forall x :: (exists i :: i in ids && i < |s.info| && s.info[i].slot == x) <==> x in s.pte && Where(s.pte[x]) == l
    ensures |ids| == |Users(s.pte, l)|
  {
    WalkEnd(s, ids, l, if l.Ram? then Disk(0) else Ram(0));
    assert forall x :: x in SlotsOf(s, ids) <==> x in Users(s.pte, l);
  }

  lemma AllRegistered(s: Vm, l: Loc)
    requires Inv(s, None) && l != Pool && ListAt(s, l) != []
    ensures Lists(ListAt(s, l), s.loc, l)
    ensures forall x :: x in s.pte && Where(s.pte[x]) == l ==> x in s.reg
  {
    forall x | x in s.pte && Where(s.pte[x]) == l ensures x in s.reg { assert PteOk(s, x); }
  }

  /** A swapped page has exactly one record, and it is on its block's list. */
  lemma SwappedOnce(s: Vm, x: Slot)
    requires Inv(s, None) && x in s.pte && s.pte[x].swapped
    ensures s.pte[x].num < |s.bste| && s.bitmap[s.pte[x].num] && x in s.reg && s.reg[x] in s.bste[s.pte[x].num]
    ensures forall i, l :: i in ListAt(s, l) && l != Pool && i < |s.info| && s.info[i].slot == x ==> i == s.reg[x]
  {
    assert PteOk(s, x);
    assert Lists(s.bste[s.pte[x].num], s.loc, Disk(s.pte[x].num));
    forall i, l | i in ListAt(s, l) && l != Pool && i < |s.info| && s.info[i].slot == x ensures i == s.reg[x] {
      match l {
        case Ram(p) => assert Lists(s.ste[p], s.loc, Ram(p));
        case Disk(b) => assert Lists(s.bste[b], s.loc, Disk(b));
      }
    }
  }
}
