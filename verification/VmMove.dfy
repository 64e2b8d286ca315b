/** Moving a page between a frame and a swap block: the common part of swap and
    swap_back, and why neither can be seen by user programs. */
module VmMove {
  import opened Prelude
  import opened VmState

  /** Every page that lives at one place lives at another one; its records follow. */
  ghost predicate Moved(s: Vm, t: Vm, from: Loc, to: Loc) {
    && from != Pool && to != Pool && from != to
    && t.pte.Keys == s.pte.Keys
    && (forall x :: x in s.pte ==> t.pte[x] == if Where(s.pte[x]) == from then Aim(s.pte[x], to) else s.pte[x])
    && |t.loc| == |s.loc|
    && (forall i :: 0 <= i < |s.loc| ==> t.loc[i] == if s.loc[i] == from then to else s.loc[i])
    && t.info == s.info && t.reg == s.reg && t.pool == s.pool
    && t.asid == s.asid && t.owner == s.owner && t.tables == s.tables
    && |t.ram| == |s.ram| && |t.disk| == |s.disk| && |t.ref| == |s.ref| && |t.kind| == |s.kind|
    && |t.bitmap| == |s.bitmap| && |t.ste| == |s.ste| && |t.bste| == |s.bste|
  }

  /** The effect of swap() on everything but the accessed flags. */
  ghost predicate SwappedOut(s: Vm, t: Vm, p: nat, b: nat) {
    && p < |s.ram| && p < |s.ref| && p < |s.ste| && p < |s.kind|
    && b < |s.disk| && b < |s.bitmap| && b < |s.bste|
    && Moved(s, t, Ram(p), Disk(b))
    && t.ram == s.ram && t.disk == s.disk[b := s.ram[p]] && t.bitmap == s.bitmap[b := true]
    && t.ref == s.ref[p := 0] && t.kind == s.kind[p := Free] && t.free == [p] + s.free
    && t.queue == Without(s.queue, p)
    && t.ste == s.ste[p := []] && t.bste == s.bste[b := Reverse(s.ste[p])]
    && |t.tlb| == |s.tlb|
    && (forall j :: 0 <= j < |s.tlb| ==> t.tlb[j] == s.tlb[j] || t.tlb[j] == EMPTY)
    && (forall j, x :: 0 <= j < |s.tlb| && x in s.pte && Where(s.pte[x]) == Ram(p) && x.pgdir in s.asid ==>
          t.tlb[j].hi != HiOf(x, s.asid[x.pgdir]) || t.tlb[j] == EMPTY)
  }

  /** The effect of swap_back() after it has obtained the frame p. */
  ghost predicate SwappedIn(s: Vm, t: Vm, p: nat, b: nat) {
    && p < |s.ram| && p < |s.ref| && p < |s.ste| && p < |s.kind|
    && b < |s.disk| && b < |s.bitmap| && b < |s.bste|
    && Moved(s, t, Disk(b), Ram(p))
    && t.ram == s.ram[p := s.disk[b]] && t.disk == s.disk && t.bitmap == s.bitmap[b := false]
    && t.ref == s.ref[p := |Users(s.pte, Disk(b))|] && t.kind == s.kind[p := Data] && t.free == s.free
    && t.queue == s.queue + [p]
    && t.ste == s.ste[p := Reverse(s.bste[b])] && t.bste == s.bste[b := []]
    && t.tlb == s.tlb
  }

  /** A move to an unused place that carries the contents along is invisible. */
  lemma MoveInvisible(s: Vm, t: Vm, from: Loc, to: Loc)
    requires Moved(s, t, from, to)
    requires Contained(t, to) == Contained(s, from)
    requires forall x :: x in s.pte ==> Where(s.pte[x]) != to
    requires forall x :: x in s.pte && Where(s.pte[x]) != from ==>
               Contained(t, Where(s.pte[x])) == Contained(s, Where(s.pte[x]))
    ensures SameMemory(s, t)
  {
    forall x ensures ViewAt(s, x) == ViewAt(t, x) {
      if x in s.pte { assert x in t.pte; }
    }
  }

  lemma MoveUsers(s: Vm, t: Vm, from: Loc, to: Loc)
    requires Moved(s, t, from, to)
    requires forall x :: x in s.pte ==> Where(s.pte[x]) != to
    ensures Users(t.pte, from) == {}
    ensures Users(t.pte, to) == Users(s.pte, from)
    ensures forall l: Loc :: l != from && l != to ==> Users(t.pte, l) == Users(s.pte, l)
  {
    assert Where(Aim(Pte(true, false, 0, Perm(false, false, false, false)), to)) == to;
  }

  lemma MoveShared(s: Vm, t: Vm, from: Loc, to: Loc)
    requires Moved(s, t, from, to) && SharersOk(s)
    requires forall x :: x in s.pte ==> Where(s.pte[x]) != to
    ensures SharersOk(t)
  {
    MoveUsers(s, t, from, to);
    forall l: Loc ensures |Users(t.pte, l)| <= MAX_REF {
      assert |Users(s.pte, l)| <= MAX_REF && |Users(s.pte, from)| <= MAX_REF;
    }
  }

  lemma MoveSpaces(s: Vm, t: Vm, from: Loc, to: Loc)
    requires Moved(s, t, from, to) && SpacesOk(s)
    requires forall p :: 0 <= p < |s.kind| && (s.kind[p].Dir? || s.kind[p].Table?) ==> t.kind[p] == s.kind[p]
    ensures SpacesOk(t)
  {}

  lemma MoveReg(s: Vm, t: Vm, from: Loc, to: Loc)
    requires Moved(s, t, from, to) && RegOk(s)
    ensures RegOk(t)
  {}

  lemma MoveList(list: seq<nat>, s: Vm, t: Vm, from: Loc, to: Loc, at: Loc)
    requires Moved(s, t, from, to) && Lists(list, s.loc, at) && at != from && at != to
    ensures Lists(list, t.loc, at)
  {}

  lemma MovedList(s: Vm, t: Vm, from: Loc, to: Loc, list: seq<nat>, empty: seq<nat>)
    requires Moved(s, t, from, to)
    requires Lists(list, s.loc, from) && Lists(empty, s.loc, to) && empty == []
    ensures Lists(Reverse(list), t.loc, to) && Lists([], t.loc, from)
  {
    ReverseKeeps(list);
    forall i: nat ensures i in Reverse(list) <==> i < |t.loc| && t.loc[i] == to {
      assert i in list <==> i < |s.loc| && s.loc[i] == from;
      assert i in empty <==> i < |s.loc| && s.loc[i] == to;
    }
  }

  // -------------------------------------------------------------- swapping out

  lemma OutTargetUnused(s: Vm, p: nat, b: nat)
    requires PtesOk(s) && b < |s.bitmap| && !s.bitmap[b]
    ensures forall x :: x in s.pte ==> Where(s.pte[x]) != Disk(b)
  {
    forall x | x in s.pte ensures Where(s.pte[x]) != Disk(b) {
      assert PteOk(s, x);
    }
  }

  /** Swapping a frame out cannot be seen: same contents, permissions and sharing. */
  lemma SwapOutInvisible(s: Vm, t: Vm, p: nat, b: nat)
    requires SwappedOut(s, t, p, b) && PtesOk(s) && !s.bitmap[b]
    ensures SameMemory(s, t)
  {
    OutTargetUnused(s, p, b);
    MoveInvisible(s, t, Ram(p), Disk(b));
  }

  /** A queued frame is a data frame and all its mappings are registered. */
  lemma QueuedIsData(s: Vm, p: nat)
    requires ShapeOk(s) && ListsOk(s) && RegOk(s) && QueueOk(s) && PtesOk(s) && p in s.queue
    ensures p < |s.kind| && s.kind[p] == Data
  {
    var i := s.ste[p][0];
    assert Lists(s.ste[p], s.loc, Ram(p));
    assert i in s.ste[p];
    var x := s.info[i].slot;
    assert x in s.reg && PteOk(s, x);
  }

  lemma OutFree(s: Vm, t: Vm, p: nat, b: nat)
    requires SwappedOut(s, t, p, b) && FreeOk(s) && s.kind[p] == Data
    ensures FreeOk(t)
  {
    forall q: nat ensures q in t.free <==> q < |t.kind| && t.kind[q] == Free {
      assert q in s.free <==> q < |s.kind| && s.kind[q] == Free;
    }
    assert p !in s.free;
  }

  lemma OutRefs(s: Vm, t: Vm, p: nat, b: nat)
    requires SwappedOut(s, t, p, b) && RefsOk(s) && s.kind[p] == Data
    requires forall x :: x in s.pte ==> Where(s.pte[x]) != Disk(b)
    ensures RefsOk(t)
  {
    MoveUsers(s, t, Ram(p), Disk(b));
    forall q | 0 <= q < |t.ref| ensures RefOk(t, q) {
      assert RefOk(s, q);
      if q != p { assert Users(t.pte, Ram(q)) == Users(s.pte, Ram(q)); }
    }
  }

  lemma OutPtes(s: Vm, t: Vm, p: nat, b: nat)
    requires SwappedOut(s, t, p, b) && PtesOk(s) && CompleteOk(s, None) && p in s.queue
    ensures PtesOk(t)
  {
    forall x | x in t.pte ensures PteOk(t, x) {
      assert PteOk(s, x);
      if Where(s.pte[x]) == Ram(p) { assert x in s.reg; }
    }
  }

  lemma OutLists(s: Vm, t: Vm, p: nat, b: nat)
    requires SwappedOut(s, t, p, b) && ListsOk(s) && s.bste[b] == []
    ensures ListsOk(t)
  {
    MoveList(s.pool, s, t, Ram(p), Disk(b), Pool);
    assert Lists(s.ste[p], s.loc, Ram(p)) && Lists(s.bste[b], s.loc, Disk(b));
    MovedList(s, t, Ram(p), Disk(b), s.ste[p], s.bste[b]);
    forall q | 0 <= q < |t.ste| ensures Lists(t.ste[q], t.loc, Ram(q)) {
      if q != p { MoveList(s.ste[q], s, t, Ram(p), Disk(b), Ram(q)); }
    }
    forall c | 0 <= c < |t.bste| ensures Lists(t.bste[c], t.loc, Disk(c)) {
      if c != b { MoveList(s.bste[c], s, t, Ram(p), Disk(b), Disk(c)); }
    }
  }

  lemma OutQueue(s: Vm, t: Vm, p: nat, b: nat)
    requires SwappedOut(s, t, p, b) && QueueOk(s) && p in s.queue
    ensures QueueOk(t)
  {
    WithoutKeeps(s.queue, p);
    ReverseKeeps(s.ste[p]);
    forall q: nat ensures q in t.queue <==> q < |t.ste| && t.ste[q] != [] {
      assert q in s.queue <==> q < |s.ste| && s.ste[q] != [];
    }
    assert s.ste[p] != [] && |t.bste[b]| == |s.ste[p]|;
  }

  lemma OutComplete(s: Vm, t: Vm, p: nat, b: nat)
    requires SwappedOut(s, t, p, b) && CompleteOk(s, None) && QueueOk(s)
    ensures CompleteOk(t, None)
  {
    WithoutKeeps(s.queue, p);
    forall x | x in t.pte && t.pte[x].valid && t.pte[x].num in t.queue ensures x in t.reg {
      assert t.pte[x] == s.pte[x];
    }
  }

  lemma OutHalf(s: Vm, t: Vm, p: nat, b: nat, j: nat, vpn: nat, lo: Lo)
    requires SwappedOut(s, t, p, b) && SpacesOk(s) && j < |s.tlb| && t.tlb[j] != EMPTY
    requires HalfOk(s, s.tlb[j].hi.asid, vpn, lo) && vpn / 2 == s.tlb[j].hi.vpn2
    ensures HalfOk(t, s.tlb[j].hi.asid, vpn, lo)
  {
    var a := s.tlb[j].hi.asid;
    if lo.v {
      var x := Slot(s.owner[a], vpn);
      assert t.tlb[j] == s.tlb[j] && s.asid[x.pgdir] == a;
      assert t.tlb[j].hi == HiOf(x, a);
    }
  }

  lemma OutTlb(s: Vm, t: Vm, p: nat, b: nat)
    requires SwappedOut(s, t, p, b) && TlbOk(s) && SpacesOk(s)
    ensures TlbOk(t)
  {
    forall j | 0 <= j < |t.tlb| ensures EntryOk(t, t.tlb[j]) {
      if t.tlb[j] != EMPTY {
        assert EntryOk(s, s.tlb[j]);
        var e := s.tlb[j];
        OutHalf(s, t, p, b, j, 2 * e.hi.vpn2, e.lo0);
        OutHalf(s, t, p, b, j, 2 * e.hi.vpn2 + 1, e.lo1);
      }
    }
  }

  /** Swapping out a queued frame keeps the invariant. */
  lemma SwapOutKeeps(s: Vm, t: Vm, p: nat, b: nat)
    requires Inv(s, None) && SwappedOut(s, t, p, b) && p in s.queue && !s.bitmap[b]
    ensures Inv(t, None)
  {
    QueuedIsData(s, p);
    OutTargetUnused(s, p, b);
    OutFree(s, t, p, b);
    OutRefs(s, t, p, b);
    MoveShared(s, t, Ram(p), Disk(b));
    MoveSpaces(s, t, Ram(p), Disk(b));
    OutPtes(s, t, p, b);
    OutLists(s, t, p, b);
    MoveReg(s, t, Ram(p), Disk(b));
    OutQueue(s, t, p, b);
    OutComplete(s, t, p, b);
    OutTlb(s, t, p, b);
  }

  // --------------------------------------------------------------- swapping in

  lemma InTargetUnused(s: Vm, p: nat)
    requires PtesOk(s) && p < |s.kind| && s.kind[p] != Data
    ensures forall x :: x in s.pte ==> Where(s.pte[x]) != Ram(p)
  {
    forall x | x in s.pte ensures Where(s.pte[x]) != Ram(p) {
      assert PteOk(s, x);
    }
  }

  /** Swapping a block in cannot be seen. */
  lemma SwapInInvisible(s: Vm, t: Vm, p: nat, b: nat)
    requires SwappedIn(s, t, p, b) && PtesOk(s) && s.kind[p] == Held
    ensures SameMemory(s, t)
  {
    InTargetUnused(s, p);
    MoveInvisible(s, t, Disk(b), Ram(p));
  }

  /** A block in use holds a registered page. */
  lemma BlockInUse(s: Vm, b: nat)
    requires ShapeOk(s) && ListsOk(s) && RegOk(s) && QueueOk(s) && b < |s.bitmap| && s.bitmap[b]
    ensures |Users(s.pte, Disk(b))| > 0
  {
    var i := s.bste[b][0];
    assert Lists(s.bste[b], s.loc, Disk(b));
    assert i in s.bste[b];
    var x := s.info[i].slot;
    assert x in s.reg && x in Users(s.pte, Disk(b));
  }

  lemma InRefs(s: Vm, t: Vm, p: nat, b: nat)
    requires SwappedIn(s, t, p, b) && RefsOk(s) && |Users(s.pte, Disk(b))| > 0
    requires forall x :: x in s.pte ==> Where(s.pte[x]) != Ram(p)
    ensures RefsOk(t)
  {
    MoveUsers(s, t, Disk(b), Ram(p));
    forall q | 0 <= q < |t.ref| ensures RefOk(t, q) {
      assert RefOk(s, q);
      if q != p { assert Users(t.pte, Ram(q)) == Users(s.pte, Ram(q)); }
    }
  }

  lemma InFree(s: Vm, t: Vm, p: nat, b: nat)
    requires SwappedIn(s, t, p, b) && FreeOk(s) && s.kind[p] == Held
    ensures FreeOk(t)
  {
    forall q: nat ensures q in t.free <==> q < |t.kind| && t.kind[q] == Free {
      assert q in s.free <==> q < |s.kind| && s.kind[q] == Free;
    }
  }

  lemma InPtes(s: Vm, t: Vm, p: nat, b: nat)
    requires SwappedIn(s, t, p, b) && PtesOk(s)
    ensures PtesOk(t)
  {
    forall x | x in t.pte ensures PteOk(t, x) {
      assert PteOk(s, x);
    }
  }

  lemma InLists(s: Vm, t: Vm, p: nat, b: nat)
    requires SwappedIn(s, t, p, b) && ListsOk(s) && s.ste[p] == []
    ensures ListsOk(t)
  {
    MoveList(s.pool, s, t, Disk(b), Ram(p), Pool);
    assert Lists(s.ste[p], s.loc, Ram(p)) && Lists(s.bste[b], s.loc, Disk(b));
    MovedList(s, t, Disk(b), Ram(p), s.bste[b], s.ste[p]);
    forall q | 0 <= q < |t.ste| ensures Lists(t.ste[q], t.loc, Ram(q)) {
      if q != p { MoveList(s.ste[q], s, t, Disk(b), Ram(p), Ram(q)); }
    }
    forall c | 0 <= c < |t.bste| ensures Lists(t.bste[c], t.loc, Disk(c)) {
      if c != b { MoveList(s.bste[c], s, t, Disk(b), Ram(p), Disk(c)); }
    }
  }

  lemma InQueue(s: Vm, t: Vm, p: nat, b: nat)
    requires SwappedIn(s, t, p, b) && QueueOk(s) && s.bitmap[b] && p !in s.queue
    ensures QueueOk(t)
  {
    ReverseKeeps(s.bste[b]);
    assert t.ste[p] != [];
    forall q: nat ensures q in t.queue <==> q < |t.ste| && t.ste[q] != [] {
      assert q in s.queue <==> q < |s.ste| && s.ste[q] != [];
    }
  }

  lemma InComplete(s: Vm, t: Vm, p: nat, b: nat)
    requires SwappedIn(s, t, p, b) && CompleteOk(s, None) && PtesOk(s) && s.kind[p] == Held
    ensures CompleteOk(t, None)
  {
    forall x | x in t.pte && t.pte[x].valid && t.pte[x].num in t.queue ensures x in t.reg {
      assert PteOk(s, x);
    }
  }

  lemma InTlb(s: Vm, t: Vm, p: nat, b: nat)
    requires SwappedIn(s, t, p, b) && TlbOk(s)
    ensures TlbOk(t)
  {
    forall j | 0 <= j < |t.tlb| ensures EntryOk(t, t.tlb[j]) {
      assert EntryOk(s, s.tlb[j]);
    }
  }

  lemma HeldNotQueued(s: Vm, p: nat)
    requires ShapeOk(s) && ListsOk(s) && RegOk(s) && QueueOk(s) && PtesOk(s)
    requires p < |s.kind| && s.kind[p] != Data
    ensures p !in s.queue && s.ste[p] == []
  {
    if p in s.queue { QueuedIsData(s, p); }
  }

  lemma InFrames(s: Vm, t: Vm, p: nat, b: nat)
    requires Inv(s, None) && SwappedIn(s, t, p, b) && s.kind[p] == Held && s.bitmap[b]
    ensures ShapeOk(t) && FreeOk(t) && RefsOk(t) && SharersOk(t) && SpacesOk(t)
  {
    assert SpacesOk(t) by { MoveSpaces(s, t, Disk(b), Ram(p)); }
    assert FreeOk(t) by { InFree(s, t, p, b); }
    InTargetUnused(s, p);
    assert SharersOk(t) by { MoveShared(s, t, Disk(b), Ram(p)); }
    assert RefsOk(t) by { BlockInUse(s, b); InRefs(s, t, p, b); }
  }

  /** Swapping a block in keeps the invariant, although no TLB entry is flushed. */
  lemma SwapInKeeps(s: Vm, t: Vm, p: nat, b: nat)
    requires Inv(s, None) && SwappedIn(s, t, p, b) && s.kind[p] == Held && s.bitmap[b]
    ensures Inv(t, None)
  {
    HeldNotQueued(s, p);
    InFrames(s, t, p, b);
    InPtes(s, t, p, b);
    InLists(s, t, p, b);
    MoveReg(s, t, Disk(b), Ram(p));
    InQueue(s, t, p, b);
    InComplete(s, t, p, b);
    InTlb(s, t, p, b);
  }
}
