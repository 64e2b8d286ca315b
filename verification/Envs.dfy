/** Address spaces of environments: their creation and destruction in kern/env.c. */
module Envs {
  import opened Prelude
  import opened VmState
  import opened VmSteps
  import opened VmEvict
  import opened VmOps
  import opened VmLookup
  import opened Kernels
  import opened Syscalls

  // ------------------------------------------------------------------- teardown

  ghost function PagesOf(pte: map<Slot, Pte>, d: nat): set<Slot> {
    set x | x in pte && x.pgdir == d
  }

  /** Part of the space d is gone: its pages below number v and its tables below index n.
      Nobody else notices, although pages are brought back and others evicted meanwhile. */
  ghost predicate Freeing(s: Vm, t: Vm, d: nat, v: nat, n: nat) {
    && t.asid == s.asid && t.owner == s.owner && SameBut(s, t, PagesOf(s.pte, d)) && NoLeak(s, t, None)
    && (forall x :: x in t.pte ==> x in s.pte && (x.pgdir == d ==> x.vpn >= v))
    && (forall x :: x in s.pte && x.pgdir != d ==> x in t.pte)
    && (forall k :: k in t.tables ==> k.pgdir == d ==> k.pdx >= n)
    && (forall k: TableKey :: k.pgdir != d ==> (k in t.tables <==> k in s.tables))
  }

  lemma FreeingPage(s: Vm, m: Vm, t: Vm, d: nat, v: nat, n: nat, ev: seq<nat>)
    requires Freeing(s, m, d, v, n) && Removed(m, t, Slot(d, v), ev) && t.tables == m.tables
    ensures Freeing(s, t, d, v + 1, n)
  {
    var x := Slot(d, v);
    if x in m.pte {
      SameWiden(m, t, {x}, PagesOf(s.pte, d));
      SameTrans(s, m, t, PagesOf(s.pte, d));
    } else {
      forall y ensures ViewAt(m, y) == ViewAt(t, y) { if y == x { assert x !in t.pte; } }
      assert SameMemory(m, t);
      SameWiden(m, t, {}, PagesOf(s.pte, d));
      SameTrans(s, m, t, PagesOf(s.pte, d));
    }
  }

  /** A step that user programs cannot see and that removes no page or space. */
  lemma FreeingSame(s: Vm, m: Vm, t: Vm, d: nat, v: nat, n: nat)
    requires SameBut(s, m, PagesOf(s.pte, d)) && SameMemory(m, t)
    ensures SameBut(s, t, PagesOf(s.pte, d))
  {
    SameWiden(m, t, {}, PagesOf(s.pte, d));
    SameTrans(s, m, t, PagesOf(s.pte, d));
  }

  lemma TableRest(s: Vm, m: Vm, d: nat, n: nat)
    requires Freeing(s, m, d, (n + 1) * NPTE, n) && TableKey(d, n) in m.tables && ShapeOk(m)
    requires m.tables[TableKey(d, n)] < |m.ref| && SameMemory(m, DropTable(m, TableKey(d, n)))
    ensures Freeing(s, DropTable(m, TableKey(d, n)), d, (n + 1) * NPTE, n + 1)
  {
    FreeingSame(s, m, DropTable(m, TableKey(d, n)), d, (n + 1) * NPTE, n + 1);
  }

  lemma TableEmpty(s: Vm, m: Vm, d: nat, n: nat)
    requires Freeing(s, m, d, (n + 1) * NPTE, n)
    ensures forall x :: x in m.pte ==> TableOf(x) != TableKey(d, n)
  {}

  lemma FreeingTable(s: Vm, m: Vm, d: nat, n: nat)
    requires Inv(m, None) && Freeing(s, m, d, (n + 1) * NPTE, n) && TableKey(d, n) in m.tables
    ensures m.tables[TableKey(d, n)] < |m.ref| && m.ref[m.tables[TableKey(d, n)]] == 1
    ensures Inv(DropTable(m, TableKey(d, n)), None) && Freeing(s, DropTable(m, TableKey(d, n)), d, (n + 1) * NPTE, n + 1)
  {
    TableEmpty(s, m, d, n);
    DropTableKeeps(m, TableKey(d, n));
    TableRest(s, m, d, n);
  }

  /** Pages without a page table do not exist. */
  lemma FreeingNoTable(s: Vm, m: Vm, d: nat, n: nat)
    requires PtesOk(m) && Freeing(s, m, d, n * NPTE, n) && TableKey(d, n) !in m.tables
    ensures Freeing(s, m, d, (n + 1) * NPTE, n + 1)
  {
    forall x | x in m.pte && x.pgdir == d ensures x.vpn >= (n + 1) * NPTE { assert PteOk(m, x); }
  }

  /** The address space d of state s is gone: no page, page table or SwapInfo record names
      it, no frame is lost, and everybody else sees the same memory. */
  ghost predicate Torn(s: Vm, t: Vm, d: nat)
    requires d in s.asid
  {
    && t.asid == s.asid - {d} && t.owner == s.owner - {s.asid[d]} && SameBut(s, t, PagesOf(s.pte, d)) && NoLeak(s, t, None)
    && t.pte.Keys == s.pte.Keys - PagesOf(s.pte, d)
    && (forall k :: k in t.tables <==> k in s.tables && k.pgdir != d)
    && (forall i :: 0 <= i < |t.loc| && i < |t.info| && t.loc[i] != Pool ==> t.info[i].slot.pgdir != d)
  }

  /** All pages of the space d are in memory. */
  ghost predicate InMemory(pte: map<Slot, Pte>, d: nat) {
    forall x :: x in pte && x.pgdir == d ==> pte[x].valid
  }

  /** The teardown of d has come to state at and cannot go on: the next page is on the disk, and
      page_remove gets no frame to bring it back to. */
  ghost predicate Stuck(s: Vm, at: Vm, d: nat) {
    exists v, n :: Freeing(s, at, d, v, n) && Slot(d, v) in at.pte && !at.pte[Slot(d, v)].valid && OutOfMemory(at)
  }

  lemma StillInMemory(m: Vm, t: Vm, x: Slot, d: nat)
    requires Removed(m, t, x, []) && InMemory(m.pte, d)
    ensures InMemory(t.pte, d)
  {
    forall y | y in t.pte && y.pgdir == d ensures t.pte[y].valid { assert y in m.pte && y != x; }
  }

  /** At the end no table and no page of d is left. */
  lemma FreeingAll(s: Vm, m: Vm, d: nat)
    requires SpacesOk(m) && PtesOk(m) && Freeing(s, m, d, UTOP, UTOP / NPTE) && d in s.asid
    ensures forall k :: k in m.tables ==> k.pgdir != d
    ensures forall x :: x in m.pte ==> x.pgdir != d
    ensures m.pte.Keys == s.pte.Keys - PagesOf(s.pte, d)
  {
    forall x | x in m.pte ensures x.pgdir != d { assert PteOk(m, x); }
  }

  /** No listed record names a space without pages. */
  lemma NoRecords(t: Vm, d: nat)
    requires RegOk(t) && forall x :: x in t.pte ==> x.pgdir != d
    ensures forall i :: 0 <= i < |t.loc| && i < |t.info| && t.loc[i] != Pool ==> t.info[i].slot.pgdir != d
  {}

  lemma TornRest(s: Vm, m: Vm, d: nat)
    requires ShapeOk(m) && d in m.asid && d < |m.ref| && Freeing(s, m, d, UTOP, UTOP / NPTE) && d in s.asid
    requires m.pte.Keys == s.pte.Keys - PagesOf(s.pte, d) && RegOk(DropSpace(m, d)) && SameMemory(m, DropSpace(m, d))
    requires forall k :: k in m.tables ==> k.pgdir != d
    requires forall x :: x in m.pte ==> x.pgdir != d
    ensures Torn(s, DropSpace(m, d), d)
  {
    FreeingSame(s, m, DropSpace(m, d), d, UTOP, UTOP / NPTE);
    NoRecords(DropSpace(m, d), d);
  }

  lemma FreeingEnd(s: Vm, m: Vm, d: nat)
    requires Inv(m, None) && Freeing(s, m, d, UTOP, UTOP / NPTE) && d in s.asid
    ensures d < |m.ref| && m.ref[d] == 1 && Inv(DropSpace(m, d), None) && Torn(s, DropSpace(m, d), d)
  {
    FreeingAll(s, m, d);
    DropSpaceKeeps(m, d);
    TornRest(s, m, d);
  }

  // ---------------------------------------------------------------------- creation

  /** A new, empty address space d with id a. */
  ghost predicate Created(s: Vm, t: Vm, d: nat, a: nat) {
    && SameMemory(s, t) && d !in s.asid && t.asid == s.asid[d := a] && a !in s.owner && t.owner == s.owner[a := d]
    && NoLeak(s, t, None) && t.pte.Keys == s.pte.Keys && (forall x :: x in t.pte ==> x.pgdir != d)
  }

  lemma CreatedSpace(s: Vm, m: Vm, d: nat, a: nat)
    requires ShapeOk(m) && SpacesOk(m) && PtesOk(m) && d < |m.ref| && m.kind[d] == Held && a !in m.owner
    requires SameMemory(s, m) && m.asid == s.asid && m.owner == s.owner && NoLeak(s, m, Some(d)) && m.pte.Keys == s.pte.Keys
    requires SameMemory(m, AddSpace(m, d, a))
    ensures Created(s, AddSpace(m, d, a), d, a)
  {
    HeldUnused(m, d);
    SameTrans(s, m, AddSpace(m, d, a), {});
  }

  /** env_alloc without a free address-space id: the frame taken for the directory is lost. */
  ghost predicate Leaked(s: Vm, t: Vm, d: nat) {
    && SameMemory(s, t) && t.asid == s.asid && t.owner == s.owner && NoLeak(s, t, Some(d))
    && d < |t.kind| && t.kind[d] == Reserved && d < |s.kind| && !Unaccounted(s.kind[d])
  }

  lemma LeakedSpace(s: Vm, m: Vm, d: nat)
    requires ShapeOk(m) && d < |m.ref| && d < |s.kind| && !Unaccounted(s.kind[d])
    requires SameMemory(s, m) && m.asid == s.asid && m.owner == s.owner && NoLeak(s, m, Some(d)) && SameMemory(m, Leak(m, d))
    ensures Leaked(s, Leak(m, d), d)
  {
    SameTrans(s, m, Leak(m, d), {});
  }

  /** A frame has been taken off a free list that was not empty; nothing that mapping a page uses
      up has changed otherwise. */
  ghost predicate TookOne(s: Vm, t: Vm) {
    |t.free| == |s.free| - 1 && t.pool == s.pool && t.reg == s.reg && t.pte == s.pte
  }

  lemma TakenOne(s: Vm, a: Vm, ev: seq<nat>)
    requires FrameTaken(s, a, ev) && s.free != []
    ensures TookOne(s, a)
  {
    assert ev == [];
    assert a.pte == s.pte;
  }

  /** The used bits, with id just taken for the directory d. */
  ghost predicate Tracked(used: seq<bool>, owner: map<nat, nat>, id: Option<nat>) {
    |used| == NASID && forall a :: 0 <= a < NASID ==> (used[a] <==> a in owner || id == Some(a))
  }

  lemma IdTracked(used: seq<bool>, taken: seq<bool>, owner: map<nat, nat>, id: Option<nat>)
    requires Tracked(used, owner, None)
    requires if id.Some? then id.value < NASID && taken == used[id.value := true] else taken == used
    ensures Tracked(taken, owner, id)
  {}

  /** The address spaces of all environments, and which ids they have. */
  class Spaces {
    const k: Kernel
    const asidUsed: array<bool>       // asid_bitmap

    ghost function Repr(): set<object> {
      {this, asidUsed} + k.Repr()
    }

    ghost predicate Valid()
      reads Repr()
    {
      && asidUsed != k.bitmap && asidUsed.Length == NASID && k.Valid()
      && Tracked(asidUsed[..], k.owner, None)
    }

    constructor (npage: nat, nboot: nat, ntlb: nat)
      requires nboot <= npage
      ensures Valid() && Inv(k.Abs(), None) && k.asid == map[]
    {
      k := new Kernel(npage, nboot, ntlb);
      asidUsed := new bool[NASID](_ => false);
      new;
      BootKeeps(npage, nboot, ntlb);
    }

    /** asid_alloc: the lowest unused id, if there is one. */
    method AsidAlloc() returns (r: Option<nat>)
      requires asidUsed.Length == NASID && asidUsed != k.bitmap && k.Valid()
      modifies asidUsed
      ensures k.Valid() && k.Abs() == old(k.Abs())
      ensures r.None? ==> (forall a :: 0 <= a < NASID ==> old(asidUsed[a])) && asidUsed[..] == old(asidUsed[..])
      ensures r.Some? ==> r.value < NASID && !old(asidUsed[r.value]) && forall a :: 0 <= a < r.value ==> old(asidUsed[a])
      ensures r.Some? ==> asidUsed[..] == old(asidUsed[..])[r.value := true]
    {
      for i := 0 to NASID
        invariant asidUsed[..] == old(asidUsed[..])
        invariant forall a :: 0 <= a < i ==> asidUsed[a]
      {
        if !asidUsed[i] {
          asidUsed[i] := true;
          return Some(i);
        }
      }
      return None;
    }

    /** asid_free. */
    method AsidFree(a: nat)
      requires asidUsed.Length == NASID && asidUsed != k.bitmap && k.Valid() && a < NASID
      modifies asidUsed
      ensures k.Valid() && k.Abs() == old(k.Abs()) && asidUsed[..] == old(asidUsed[..])[a := false]
    {
      asidUsed[a] := false;
    }

    /** The new directory is counted and belongs to id a. */
    method EnterSpace(d: nat, a: nat)
      requires k.Valid() && ShapeOk(k.Abs()) && d < |k.ref| && k.ref[d] == 0
      modifies k`ref, k`asid, k`owner, k`kind
      ensures k.Valid() && k.Abs() == AddSpace(old(k.Abs()), d, a)
    {
      k.ref := k.ref[d := k.ref[d] + 1];
      k.asid := k.asid[d := a];
      k.owner, k.kind := k.owner[a := d], k.kind[d := Dir];
    }

    method LeakFrame(d: nat)
      requires k.Valid() && ShapeOk(k.Abs()) && d < |k.ref| && k.ref[d] == 0
      modifies k`ref, k`kind
      ensures k.Valid() && k.Abs() == Leak(old(k.Abs()), d)
    {
      k.ref := k.ref[d := k.ref[d] + 1];
      k.kind := k.kind[d := Reserved];
    }

    /** env_setup_vm and asid_alloc of env_alloc.  Without a free id the result is None
        (the error code), and the frame of the directory is never given back. */
    method EnvAlloc() returns (r: Outcome<Option<nat>>, ghost a: nat, ghost lost: nat)
      requires Valid() && Inv(k.Abs(), None)
      modifies Repr()
      ensures r.Panic? <==> OutOfMemory(old(k.Abs()))
      ensures r.Panic? ==> r.reason == NoFrame || r.reason == DiskFull
      ensures r.Done? ==> Valid() && Inv(k.Abs(), None)
      ensures r.Done? ==> (r.value.None? <==> forall b :: 0 <= b < NASID ==> old(asidUsed[b]))
      ensures r.Done? && r.value.Some? ==> Created(old(k.Abs()), k.Abs(), r.value.value, a)
      ensures r.Done? && r.value.Some? ==> a < NASID && forall b :: 0 <= b < a ==> old(asidUsed[b])
      ensures r.Done? && r.value.None? ==> Leaked(old(k.Abs()), k.Abs(), lost)
      ensures r.Done? && old(k.free) != [] ==> TookOne(old(k.Abs()), k.Abs())
    {
      ghost var s, used := k.Abs(), asidUsed[..];
      assert asidUsed !in k.Repr();
      a, lost := 0, 0;
      var pa;
      ghost var ev;
      pa, ev := FreshFrame(k);
      if pa.Panic? {
        return Panic(pa.reason), a, lost;
      }
      lost := pa.value;
      assert asidUsed[..] == used;
      ghost var m := k.Abs();
      if s.free != [] { TakenOne(s, m, ev); }
      var id := Assign(pa.value, s);
      assert k.pte == m.pte && k.reg == m.reg && k.pool == m.pool && k.free == m.free;
      a := if id.Some? then id.value else 0;
      r := Done(if id.Some? then Some(pa.value) else None);
    }

    /** The rest of env_alloc, with the frame d in hand. */
    method Assign(d: nat, ghost s: Vm) returns (id: Option<nat>)
      requires Valid() && Inv(k.Abs(), None) && Fresh(k.Abs(), d) && SameMemory(s, k.Abs()) && NoLeak(s, k.Abs(), Some(d))
      requires k.asid == s.asid && k.owner == s.owner && k.pte.Keys == s.pte.Keys && d < |s.kind| && !Unaccounted(s.kind[d])
      modifies k`ref, k`asid, k`owner, k`kind, asidUsed
      ensures Valid() && Inv(k.Abs(), None)
      ensures id.None? <==> forall b :: 0 <= b < NASID ==> old(asidUsed[b])
      ensures id.Some? ==> id.value < NASID && forall b :: 0 <= b < id.value ==> old(asidUsed[b])
      ensures if id.Some? then Created(s, k.Abs(), d, id.value) else Leaked(s, k.Abs(), d)
    {
      ghost var used := asidUsed[..];
      id := AsidAlloc();
      IdTracked(used, asidUsed[..], k.owner, id);
      SetUp(d, id, s);
    }

    /** The frame d becomes the directory of id, or is lost if there is none. */
    method SetUp(d: nat, id: Option<nat>, ghost s: Vm)
      requires k.Valid() && Inv(k.Abs(), None) && Fresh(k.Abs(), d) && SameMemory(s, k.Abs()) && NoLeak(s, k.Abs(), Some(d))
      requires k.asid == s.asid && k.owner == s.owner && k.pte.Keys == s.pte.Keys && d < |s.kind| && !Unaccounted(s.kind[d])
      requires asidUsed != k.bitmap && Tracked(asidUsed[..], k.owner, id) && (id.Some? ==> id.value !in k.owner && id.value < NASID)
      modifies k`ref, k`asid, k`owner, k`kind
      ensures Valid() && Inv(k.Abs(), None)
      ensures if id.Some? then Created(s, k.Abs(), d, id.value) else Leaked(s, k.Abs(), d)
    {
      ghost var m := k.Abs();
      if id.Some? {
        AddSpaceKeeps(m, d, id.value);
        CreatedSpace(s, m, d, id.value);
        EnterSpace(d, id.value);
      } else {
        LeakKeeps(m, d);
        LeakedSpace(s, m, d);
        LeakFrame(d);
      }
    }

    /** The inner loop of env_free: page_remove for every entry of one page table. */
    method FreePages(d: nat, pdx: nat, ghost s: Vm) returns (r: Outcome<()>, ghost at: Vm)
      requires k.Valid() && Inv(k.Abs(), None) && Freeing(s, k.Abs(), d, pdx * NPTE, pdx)
      modifies k.Repr()
      ensures k.Valid()
      ensures r.Done? ==> Inv(k.Abs(), None) && Freeing(s, k.Abs(), d, (pdx + 1) * NPTE, pdx) && k.tables == old(k.tables)
      ensures InMemory(old(k.pte), d) ==> r.Done? && InMemory(k.pte, d)
      ensures r.Panic? ==> OutOfFrames(r) && Stuck(s, at, d)
    {
      at := k.Abs();
      for ptx := 0 to NPTE
        invariant k.Valid() && Inv(k.Abs(), None) && k.tables == old(k.tables)
        invariant Freeing(s, k.Abs(), d, pdx * NPTE + ptx, pdx)
        invariant InMemory(old(k.pte), d) ==> InMemory(k.pte, d)
      {
        r, at := FreePage(d, pdx * NPTE + ptx, pdx, s);
        if r.Panic? {
          return;
        }
      }
      r := Done(());
    }

    /** page_remove for one entry, if it is in use. */
    method FreePage(d: nat, vpn: nat, ghost pdx: nat, ghost s: Vm) returns (r: Outcome<()>, ghost at: Vm)
      requires k.Valid() && Inv(k.Abs(), None) && Freeing(s, k.Abs(), d, vpn, pdx)
      modifies k.Repr()
      ensures k.Valid()
      ensures r.Done? ==> Inv(k.Abs(), None) && Freeing(s, k.Abs(), d, vpn + 1, pdx) && k.tables == old(k.tables)
      ensures InMemory(old(k.pte), d) ==> r.Done? && InMemory(k.pte, d)
      ensures r.Panic? ==> OutOfFrames(r) && Stuck(s, at, d)
    {
      ghost var m := k.Abs();
      at := m;
      r := Done(());
      ghost var ev := [];
      if Slot(d, vpn) in k.pte {
        r, ev := k.PageRemove(Slot(d, vpn));
      } else {
        RemovedSame(m, Slot(d, vpn));
      }
      if r.Done? {
        FreeingPage(s, m, k.Abs(), d, vpn, pdx, ev);
        if InMemory(m.pte, d) { StillInMemory(m, k.Abs(), Slot(d, vpn), d); }
      }
    }

    /** One round of env_free's outer loop: the pages of one table, then the table. */
    method FreeTable(d: nat, pdx: nat, ghost s: Vm) returns (r: Outcome<()>, ghost at: Vm)
      requires k.Valid() && Inv(k.Abs(), None) && Freeing(s, k.Abs(), d, pdx * NPTE, pdx)
      modifies k.Repr()
      ensures k.Valid()
      ensures r.Done? ==> Inv(k.Abs(), None) && Freeing(s, k.Abs(), d, (pdx + 1) * NPTE, pdx + 1)
      ensures InMemory(old(k.pte), d) ==> r.Done? && InMemory(k.pte, d)
      ensures r.Panic? ==> OutOfFrames(r) && Stuck(s, at, d)
    {
      if TableKey(d, pdx) !in k.tables {
        FreeingNoTable(s, k.Abs(), d, pdx);
        return Done(()), k.Abs();
      }
      r, at := FreePages(d, pdx, s);
      if r.Done? {
        FreeingTable(s, k.Abs(), d, pdx);
        LeaveTable(TableKey(d, pdx));
      }
    }

    method LeaveTable(key: TableKey)
      requires k.Valid() && ShapeOk(k.Abs()) && key in k.tables && k.tables[key] < |k.ref| && k.ref[k.tables[key]] == 1
      modifies k`tables, k`ref, k`free, k`kind
      ensures k.Valid() && k.Abs() == DropTable(old(k.Abs()), key)
    {
      var p := k.tables[key];
      k.tables := k.tables - {key};
      k.PageDecref(p);
    }

    method LeaveSpace(d: nat)
      requires k.Valid() && ShapeOk(k.Abs()) && d in k.asid && d < |k.ref| && k.ref[d] == 1
      modifies k`asid, k`owner, k`ref, k`free, k`kind
      ensures k.Valid() && k.Abs() == DropSpace(old(k.Abs()), d)
    {
      k.PageDecref(d);
      k.owner := k.owner - {k.asid[d]};
      k.asid := k.asid - {d};
    }

    /** The outer loop of env_free. */
    method FreeTables(d: nat) returns (r: Outcome<()>, ghost at: Vm)
      requires k.Valid() && Inv(k.Abs(), None)
      modifies k.Repr()
      ensures k.Valid()
      ensures r.Done? ==> Inv(k.Abs(), None) && Freeing(old(k.Abs()), k.Abs(), d, UTOP, UTOP / NPTE)
      ensures InMemory(old(k.pte), d) ==> r.Done?
      ensures r.Panic? ==> OutOfFrames(r) && Stuck(old(k.Abs()), at, d)
    {
      ghost var s := k.Abs();
      at := s;
      FreeingNothing(s, d);
      for pdx := 0 to UTOP / NPTE
        invariant k.Valid() && Inv(k.Abs(), None) && Freeing(s, k.Abs(), d, pdx * NPTE, pdx)
        invariant InMemory(s.pte, d) ==> InMemory(k.pte, d)
      {
        r, at := FreeTable(d, pdx, s);
        if r.Panic? {
          return;
        }
      }
      r := Done(());
    }

    /** The end of env_free: the directory and the id are given back. */
    method CloseSpace(d: nat)
      requires Valid() && ShapeOk(k.Abs()) && SpacesOk(k.Abs()) && d in k.asid && d < |k.ref| && k.ref[d] == 1
      modifies k`asid, k`owner, k`ref, k`free, k`kind, asidUsed
      ensures Valid() && k.Abs() == DropSpace(old(k.Abs()), d) && asidUsed[..] == old(asidUsed[..])[old(k.asid)[d] := false]
    {
      var a := k.asid[d];
      LeaveSpace(d);
      AsidFree(a);
    }

    /** env_free: all pages, page tables, the directory and the id are given back.  It succeeds
        if all pages are in memory; it stops only in a state at in which a page is on the disk
        and no frame is to be had for it. */
    method EnvFree(d: nat) returns (r: Outcome<()>, ghost at: Vm)
      requires Valid() && Inv(k.Abs(), None) && d in k.asid
      modifies Repr()
      ensures r.Done? ==> Valid() && Inv(k.Abs(), None) && Torn(old(k.Abs()), k.Abs(), d)
      ensures r.Done? ==> asidUsed[..] == old(asidUsed[..])[old(k.asid)[d] := false]
      ensures InMemory(old(k.pte), d) ==> r.Done?
      ensures r.Panic? ==> OutOfFrames(r) && Stuck(old(k.Abs()), at, d)
    {
      ghost var s, used := k.Abs(), asidUsed[..];
      assert asidUsed !in k.Repr();
      r, at := FreeTables(d);
      if r.Done? {
        assert asidUsed[..] == used;
        FreeingEnd(s, k.Abs(), d);
        CloseSpace(d);
      }
    }
  }

  lemma FreeingNothing(s: Vm, d: nat)
    ensures Freeing(s, s, d, 0, 0)
  {}
}
