/** Copy-on-write of user/lib/fork.c on top of the memory system calls: fork gives the child
    the parent's memory, and afterwards no store of one reaches a private page of another. */
module Cow {
  import opened Prelude
  import opened VmState
  import opened VmSteps
  import opened VmEvict
  import opened VmOps
  import opened VmClock
  import opened VmLookup
  import opened VmShare
  import opened VmUser
  import opened Kernels
  import opened Syscalls
  import opened Envs

  // ------------------------------------------------------------- the isolation invariant

  ghost predicate CowPair(s: Vm, x: Slot, y: Slot)
    requires x in s.pte && y in s.pte
  {
    s.pte[x].perm.library == s.pte[y].perm.library && (x != y && s.pte[x].perm.d ==> s.pte[x].perm.library)
  }

  /** No page is both writable and copy-on-write; a writable page that is not a library page
      is mapped once; pages that share memory agree on being library pages. */
  ghost predicate CowInv(s: Vm) {
    && (forall x :: x in s.pte ==> !(s.pte[x].perm.d && s.pte[x].perm.cow))
    && (forall x, y :: Shares(s, x, y) ==> CowPair(s, x, y))
  }

  /** A store by anyone changes no other page, unless that is a library page. */
  lemma StoreIsolated(s: Vm, t: Vm, x: Slot, c: Contents)
    requires CowInv(s) && x in s.pte && s.pte[x].perm.d && Stored(s, t, x, c)
    ensures CowInv(t)
    ensures forall y :: y != x && y in s.pte && !s.pte[y].perm.library ==> ViewAt(t, y) == ViewAt(s, y)
    ensures ViewAt(t, x) == Mapped(Some(c), s.pte[x].perm)
  {
    forall y, z | Shares(t, y, z) ensures CowPair(t, y, z) { assert Shares(s, y, z) && CowPair(s, y, z); }
    forall y | y != x && y in s.pte && !s.pte[y].perm.library ensures ViewAt(t, y) == ViewAt(s, y) {
      assert Shares(s, x, y) ==> CowPair(s, x, y);
    }
    assert Shares(s, x, x);
  }

  lemma SamePerm(s: Vm, t: Vm, but: set<Slot>, x: Slot)
    requires SameBut(s, t, but) && x !in but && x in t.pte
    ensures x in s.pte && t.pte[x].perm == s.pte[x].perm
  {
    assert ViewAt(s, x) == ViewAt(t, x);
  }

  /** Unmapping and tearing down keep the invariant. */
  lemma CowGone(s: Vm, t: Vm, but: set<Slot>)
    requires CowInv(s) && SameBut(s, t, but) && forall x :: x in but ==> x !in t.pte
    ensures CowInv(t)
  {
    forall x | x in t.pte ensures !(t.pte[x].perm.d && t.pte[x].perm.cow) { SamePerm(s, t, but, x); }
    forall x, y | Shares(t, x, y) ensures CowPair(t, x, y) {
      SamePerm(s, t, but, x);
      SamePerm(s, t, but, y);
      assert Shares(s, x, y) && CowPair(s, x, y);
    }
  }

  /** A page of x's own keeps it, if its permissions are sensible. */
  lemma CowPrivate(s: Vm, t: Vm, x: Slot, c: Contents, perm: Perm)
    requires CowInv(s) && SameBut(s, t, {x}) && Private(t, x, c, perm) && !(perm.d && perm.cow)
    ensures CowInv(t)
  {
    forall y | y in t.pte ensures !(t.pte[y].perm.d && t.pte[y].perm.cow) { if y != x { SamePerm(s, t, {x}, y); } }
    forall y, z | Shares(t, y, z) ensures CowPair(t, y, z) {
      if y == x || z == x {
        assert Shares(t, x, if y == x then z else y);
      } else {
        SamePerm(s, t, {x}, y);
        SamePerm(s, t, {x}, z);
        assert Shares(s, y, z) && CowPair(s, y, z);
      }
    }
  }

  // ---------------------------------------------- the other calls keep the invariant

  /** sys_mem_alloc, unless it is asked for a page that is both writable and copy-on-write. */
  lemma AllocIsolated(s: Vm, t: Vm, x: Slot, perm: Perm, swappable: bool)
    requires CowInv(s) && GotFresh(s, t, x, perm, swappable) && !(perm.d && perm.cow)
    ensures CowInv(t)
  {
    CowPrivate(s, t, x, ZeroPage(), perm);
  }

  lemma UnmapIsolated(s: Vm, t: Vm, x: Slot, ev: seq<nat>)
    requires CowInv(s) && Removed(s, t, x, ev)
    ensures CowInv(t)
  {
    assert x !in t.pte by { assert t.pte.Keys == s.pte.Keys - {x}; }
    CowGone(s, t, {x});
  }

  /** A TLB refill, with the passive allocation it may make. */
  lemma RefillIsolated(s: Vm, t: Vm, x: Slot, j: nat)
    requires CowInv(s) && Refilled(s, t, x, j)
    ensures CowInv(t)
  {
    if x in s.pte {
      CowGone(s, t, {});
    } else {
      CowPrivate(s, t, x, ZeroPage(), WRITABLE);
    }
  }

  lemma TeardownIsolated(s: Vm, t: Vm, d: nat)
    requires CowInv(s) && d in s.asid && Torn(s, t, d)
    ensures CowInv(t)
  {
    forall x | x in PagesOf(s.pte, d) ensures x !in t.pte { assert t.pte.Keys == s.pte.Keys - PagesOf(s.pte, d); }
    CowGone(s, t, PagesOf(s.pte, d));
  }

  /** Mapping src's memory at dst keeps it, if afterwards no writable private page is shared. */
  lemma CowShared(s: Vm, t: Vm, src: Slot, dst: Slot, perm: Perm)
    requires CowInv(s) && GotMapping(s, t, src, dst, perm) && !(perm.d && perm.cow)
    requires perm.library == s.pte[src].perm.library && (perm.d ==> perm.library)
    requires src != dst && s.pte[src].perm.d ==> s.pte[src].perm.library
    ensures CowInv(t)
  {
    forall y | y in t.pte ensures !(t.pte[y].perm.d && t.pte[y].perm.cow) { if y != dst { SamePerm(s, t, {dst}, y); } }
    forall y, z | Shares(t, y, z) ensures CowPair(t, y, z) {
      SharedPair(s, t, src, dst, perm, y, z);
    }
  }

  lemma SharedPair(s: Vm, t: Vm, src: Slot, dst: Slot, perm: Perm, y: Slot, z: Slot)
    requires CowInv(s) && GotMapping(s, t, src, dst, perm) && Shares(t, y, z)
    requires perm.library == s.pte[src].perm.library && (perm.d ==> perm.library)
    requires src != dst && s.pte[src].perm.d ==> s.pte[src].perm.library
    ensures CowPair(t, y, z)
  {
    if y != dst { SamePerm(s, t, {dst}, y); }
    if z != dst { SamePerm(s, t, {dst}, z); }
    if y != dst && z != dst {
      assert Shares(s, y, z) && CowPair(s, y, z);
    } else if y != z {
      var other := if y == dst then z else y;
      assert Shares(t, dst, other);
      assert Shares(s, src, other) && CowPair(s, src, other) && CowPair(s, other, src) by {
        assert Shares(s, other, src);
      }
    }
  }

  // --------------------------------------------------------------------- duppage

  /** duppage takes PTE_D from a private writable page and marks it copy-on-write. */
  predicate Splits(p: Perm) { p.d && !p.library && !p.cow }

  function DupPerm(p: Perm): Perm {
    if Splits(p) then p.(d := false, cow := true) else p
  }

  /** What duppage promises for the permissions of both pages: a private writable page becomes
      copy-on-write and read-only, any other keeps its permissions; nothing else changes. */
  ghost predicate SplitInto(p: Perm, q: Perm) {
    && q.library == p.library && q.dirty == p.dirty
    && (if p.d && !p.library then q.cow && !q.d else q == p)
  }

  lemma DupSplits(p: Perm)
    requires !(p.d && p.cow)
    ensures SplitInto(p, DupPerm(p))
  {}

  function DupView(v: View): View {
    match v
    case Unmapped => Unmapped
    case Mapped(c, p) => Mapped(c, DupPerm(p))
  }

  ghost predicate PermsSplit(before: map<Slot, Pte>, after: map<Slot, Pte>, x: Slot, y: Slot)
    requires x in before
  {
    && x in after && SplitInto(before[x].perm, after[x].perm)
    && y in after && SplitInto(before[x].perm, after[y].perm)
  }

  /** x has been given to y: both read what x read, with the same permissions. */
  ghost predicate Duped(s: Vm, t: Vm, x: Slot, y: Slot) {
    && SameBut(s, t, {x, y}) && Shares(t, x, y)
    && ViewAt(t, x) == DupView(ViewAt(s, x)) && ViewAt(t, y) == DupView(ViewAt(s, x))
    && t.asid == s.asid && t.pte.Keys == s.pte.Keys + {y} && NoLeak(s, t, None)
  }

  lemma OneMapDuped(s: Vm, t: Vm, x: Slot, y: Slot)
    requires CowInv(s) && x in s.pte && !Splits(s.pte[x].perm) && x != y && MapDone(ByMap, s, t, x, y, s.pte[x].perm)
    ensures CowInv(t) && Duped(s, t, x, y)
  {
    CowShared(s, t, x, y, s.pte[x].perm);
    MapDuped(s, t, x, y);
  }

  lemma MapDuped(s: Vm, t: Vm, x: Slot, y: Slot)
    requires x in s.pte && !Splits(s.pte[x].perm) && x != y
    requires GotMapping(s, t, x, y, s.pte[x].perm) && Aside(s, t, y)
    ensures Duped(s, t, x, y)
  {
    SameWiden(s, t, {y}, {x, y});
    assert ViewAt(t, x) == ViewAt(s, x) by { assert x !in {y}; }
    assert Shares(t, y, x) by { assert Shares(s, x, x); }
  }

  /** The two calls for a private writable page: in between the invariant does not hold. */
  lemma TwoMapsPair(s: Vm, m: Vm, t: Vm, x: Slot, y: Slot, a: Slot, b: Slot, p: Perm)
    requires CowInv(s) && x in s.pte && Splits(s.pte[x].perm) && x != y && p == DupPerm(s.pte[x].perm)
    requires GotMapping(s, m, x, y, p) && GotMapping(m, t, x, x, p) && Shares(t, a, b)
    ensures CowPair(t, a, b)
  {
    assert y in t.pte && t.pte[y].perm == p by { assert ViewAt(m, y) == ViewAt(t, y); }
    forall z | z != x && z != y && z in t.pte ensures z in s.pte && t.pte[z].perm == s.pte[z].perm && !Shares(t, x, z) && !Shares(t, z, x) && !Shares(t, y, z) && !Shares(t, z, y) {
      SamePerm(m, t, {x}, z);
      SamePerm(s, m, {y}, z);
      assert Shares(s, x, z) ==> CowPair(s, x, z);
      assert Shares(m, y, z) <==> Shares(s, x, z);
      assert Shares(m, x, z) <==> Shares(s, x, z);
      assert Shares(t, x, z) <==> Shares(m, x, z);
      assert Shares(t, y, z) <==> Shares(m, y, z);
    }
    if a != x && a != y && b != x && b != y {
      assert Shares(m, a, b) && Shares(s, a, b) && CowPair(s, a, b);
    }
  }

  lemma TwoMapsCow(s: Vm, m: Vm, t: Vm, x: Slot, y: Slot, p: Perm)
    requires CowInv(s) && x in s.pte && Splits(s.pte[x].perm) && x != y && p == DupPerm(s.pte[x].perm)
    requires GotMapping(s, m, x, y, p) && GotMapping(m, t, x, x, p)
    ensures CowInv(t)
  {
    forall a, b | Shares(t, a, b) ensures CowPair(t, a, b) { TwoMapsPair(s, m, t, x, y, a, b, p); }
    forall z | z in t.pte ensures !(t.pte[z].perm.d && t.pte[z].perm.cow) {
      if z != x {
        SamePerm(m, t, {x}, z);
        if z != y { SamePerm(s, m, {y}, z); }
      }
    }
  }

  lemma TwoMapsDuped(s: Vm, m: Vm, t: Vm, x: Slot, y: Slot, p: Perm)
    requires x in s.pte && x != y && p == DupPerm(s.pte[x].perm)
    requires GotMapping(s, m, x, y, p) && GotMapping(m, t, x, x, p) && Aside(s, m, y) && Aside(m, t, x)
    ensures Duped(s, t, x, y)
  {
    SameWiden(s, m, {y}, {x, y});
    SameWiden(m, t, {x}, {x, y});
    SameTrans(s, m, t, {x, y});
    TwoMapsViews(s, m, t, x, y, p);
  }

  lemma TwoMapsViews(s: Vm, m: Vm, t: Vm, x: Slot, y: Slot, p: Perm)
    requires x in s.pte && x != y && p == DupPerm(s.pte[x].perm)
    requires GotMapping(s, m, x, y, p) && GotMapping(m, t, x, x, p)
    ensures Shares(t, x, y) && ViewAt(t, x) == DupView(ViewAt(s, x)) && ViewAt(t, y) == DupView(ViewAt(s, x))
  {
    assert ViewAt(m, x) == ViewAt(s, x);
    assert ViewAt(t, y) == ViewAt(m, y);
    assert Shares(s, x, x) && Shares(m, y, x) && Shares(m, x, y) && Shares(t, x, y);
  }

  lemma MapKept(s: Vm, t: Vm, src: Slot, dst: Slot, perm: Perm)
    requires MapDone(ByMap, s, t, src, dst, perm) && (src == dst || !Shares(s, src, dst)) && src.vpn != UCOW
    ensures Inv(t, None)
  {}

  /** The source of a finished mapping is in memory. */
  lemma SourceStays(s: Vm, m: Vm, x: Slot, y: Slot, perm: Perm)
    requires MapDone(ByMap, s, m, x, y, perm) && x in s.pte
    ensures Present(m.pte, x) && Present(m.pte, y)
  {
    if x != y { assert Shares(s, x, x) && Shares(m, y, x); }
  }

  /** Mapping a page in memory at its own address always succeeds. */
  lemma SelfMaps(m: Vm, c: Clock, x: Slot)
    requires Present(m.pte, x)
    ensures Maps(m, c, x, x) && !Registers(ByMap, m, x, x) && Shares(m, x, x)
  {}

  /** The same pages but y are swappable. */
  ghost predicate RegKept(before: map<Slot, nat>, after: map<Slot, nat>, y: Slot) {
    forall z :: z != y ==> (z in after <==> z in before)
  }

  /** What duppage costs as long as a frame is free: a frame for a page table of the child at most,
      a record if the page is swappable, and no page of the parent is put on the disk. */
  ghost predicate Spent(s: Vm, t: Vm, x: Slot, y: Slot) {
    && t.free == FreeAfter(s, TableOf(y)) && |t.pool| + (if x in s.reg then 1 else 0) >= |s.pool|
    && RegKept(s.reg, t.reg, y) && (InMemory(s.pte, x.pgdir) ==> InMemory(t.pte, x.pgdir))
  }

  lemma RegOthers(before: map<Slot, nat>, after: map<Slot, nat>, y: Slot)
    requires after - {y} == before - {y}
    ensures RegKept(before, after, y)
  {
    forall z | z != y ensures z in after <==> z in before { assert z in after - {y} <==> z in before - {y}; }
  }

  lemma MemoryKept(before: map<Slot, Pte>, after: map<Slot, Pte>, y: Slot, d: nat)
    requires KeptPages(before, after, y) && InMemory(before, d) && after.Keys <= before.Keys + {y}
    requires y.pgdir != d || Present(after, y)
    ensures InMemory(after, d)
  {
    forall z | z in after && z.pgdir == d ensures after[z].valid { assert z != y ==> Untouched(before, after, z); }
  }

  lemma OneSpent(s: Vm, m: Vm, x: Slot, y: Slot)
    requires Aside(s, m, y) && Spends(s, m, x, y) && x in s.pte && y !in s.pte && x.pgdir != y.pgdir && y !in s.reg
    requires m.pool == PoolAfter(s, x, y, Registers(ByMap, s, x, y)) && x.vpn != UCOW
    ensures Spent(s, m, x, y)
  {
    assert RegKept(s.reg, m.reg, y) by { RegOthers(s.reg, m.reg, y); }
    if InMemory(s.pte, x.pgdir) { MemoryKept(s.pte, m.pte, y, x.pgdir); }
  }

  lemma TwoSpent(s: Vm, m: Vm, t: Vm, x: Slot, y: Slot)
    requires Spent(s, m, x, y) && Aside(m, t, x) && SwappableAfter(ByMap, m, t, x, x) && Spends(m, t, x, x) && x in m.pte
    requires t.pool == PoolAfter(m, x, x, Registers(ByMap, m, x, x)) && Present(t.pte, x)
    ensures Spent(s, t, x, y)
  {
    assert Shares(m, x, x);
    assert RegKept(m.reg, t.reg, x) by { RegOthers(m.reg, t.reg, x); }
    if InMemory(m.pte, x.pgdir) { MemoryKept(m.pte, t.pte, x, x.pgdir); }
  }

  /** duppage: the page, if there is one, is given to the child. */
  method DupPage(k: Kernel, x: Slot, y: Slot) returns (r: Outcome<()>)
    requires k.Valid() && Inv(k.Abs(), None) && CowInv(k.Abs()) && x.pgdir in k.asid && y.pgdir in k.asid
    requires x.pgdir != y.pgdir && x.vpn == y.vpn && UTEMP <= x.vpn < USTACKTOP && y !in k.pte
    requires x.vpn == UCOW ==> x !in k.pte
    modifies k.Repr()
    ensures k.Valid()
    ensures x !in old(k.pte) ==> r.Done? && k.Abs() == old(k.Abs())
    ensures r.Done? && x in old(k.pte) ==> Inv(k.Abs(), None) && CowInv(k.Abs()) && Duped(old(k.Abs()), k.Abs(), x, y)
    ensures r.Done? && x in old(k.pte) ==> PermsSplit(old(k.pte), k.pte, x, y)
    ensures Present(old(k.pte), x) ==>
      (r.Done? <==> Maps(old(k.Abs()), Touched(old(k.Clk()), old(k.pte)[x].num), x, y) && (x in old(k.reg) ==> old(k.pool) != []))
    ensures Present(old(k.pte), x) && r.Done? && old(k.free) != [] ==> Spent(old(k.Abs()), k.Abs(), x, y)
    ensures Room(old(k.Abs()), x) ==> r.Done?
  {
    ghost var s := k.Abs();
    if x !in k.pte {
      return Done(());
    }
    var perm := k.pte[x].perm;
    DupSplits(perm);
    var mapped := GivePage(k, x, y, DupPerm(perm));
    if mapped.Panic? {
      return Panic(mapped.reason);
    }
    if !Splits(perm) {
      OneMapDuped(s, k.Abs(), x, y);
      return Done(());
    }
    ghost var m := k.Abs();
    ChangePerm(k, x, DupPerm(perm));
    TwoMapsCow(s, m, k.Abs(), x, y, DupPerm(perm));
    TwoMapsDuped(s, m, k.Abs(), x, y, DupPerm(perm));
    if Present(s.pte, x) && s.free != [] { TwoSpent(s, m, k.Abs(), x, y); }
    r := Done(());
  }

  /** duppage's mapping of x in the child. */
  method GivePage(k: Kernel, x: Slot, y: Slot, perm: Perm) returns (r: Outcome<()>)
    requires k.Valid() && Inv(k.Abs(), None) && x.pgdir in k.asid && y.pgdir in k.asid && x in k.pte
    requires x.pgdir != y.pgdir && x.vpn == y.vpn && UTEMP <= x.vpn < USTACKTOP && y !in k.pte && x.vpn != UCOW
    modifies k.Repr()
    ensures k.Valid()
    ensures r.Done? ==> Inv(k.Abs(), None) && MapDone(ByMap, old(k.Abs()), k.Abs(), x, y, perm) && Present(k.pte, x)
    ensures Present(old(k.pte), x) ==>
      (r.Done? <==> Maps(old(k.Abs()), Touched(old(k.Clk()), old(k.pte)[x].num), x, y) && (x in old(k.reg) ==> old(k.pool) != []))
    ensures Present(old(k.pte), x) && r.Done? && old(k.free) != [] ==> Spent(old(k.Abs()), k.Abs(), x, y)
    ensures Room(old(k.Abs()), x) ==> r.Done?
  {
    ghost var s := k.Abs();
    assert y !in k.reg by { assert RegOk(s); }
    var mapped := MemMap(k, x, y, perm);
    if mapped.Panic? {
      return Panic(mapped.reason);
    }
    MapKept(s, k.Abs(), x, y, perm);
    SourceStays(s, k.Abs(), x, y, perm);
    if Present(s.pte, x) && s.free != [] { OneSpent(s, k.Abs(), x, y); }
    r := Done(());
  }

  /** duppage's mapping of x at its own address, which cannot fail. */
  method ChangePerm(k: Kernel, x: Slot, perm: Perm)
    requires k.Valid() && Inv(k.Abs(), None) && x.pgdir in k.asid && Present(k.pte, x) && UTEMP <= x.vpn < USTACKTOP && x.vpn != UCOW
    modifies k.Repr()
    ensures k.Valid() && Inv(k.Abs(), None) && MapDone(ByMap, old(k.Abs()), k.Abs(), x, x, perm)
    ensures Spends(old(k.Abs()), k.Abs(), x, x) && k.pool == PoolAfter(old(k.Abs()), x, x, Registers(ByMap, old(k.Abs()), x, x))
    ensures Present(k.pte, x)
  {
    ghost var m := k.Abs();
    SelfMaps(m, Touched(k.Clk(), k.pte[x].num), x);
    var mapped := MemMap(k, x, x, perm);
    MapKept(m, k.Abs(), x, x, perm);
  }

  // ------------------------------------------------------------------------- fork

  /** fork has treated the pages below number v of space a: a and its child b read there what
      a read, share that memory, and have the same permissions; nothing else has changed. */
  ghost predicate Forked(s: Vm, t: Vm, a: nat, b: nat, v: nat) {
    && (forall z: Slot :: z.pgdir != a && z.pgdir != b ==> ViewAt(t, z) == ViewAt(s, z))
    && (forall w: nat :: w < UTEMP || w >= v ==> ViewAt(t, Slot(a, w)) == ViewAt(s, Slot(a, w)) && ViewAt(t, Slot(b, w)) == ViewAt(s, Slot(b, w)))
    && (forall w :: UTEMP <= w < v ==> ViewAt(t, Slot(a, w)) == DupView(ViewAt(s, Slot(a, w))) == ViewAt(t, Slot(b, w)))
    && (forall w :: UTEMP <= w < v && Slot(a, w) in s.pte ==> Shares(t, Slot(a, w), Slot(b, w)))
    && NoLeak(s, t, None)
  }

  lemma ForkStep(s: Vm, m: Vm, t: Vm, a: nat, b: nat, v: nat)
    requires a != b && UTEMP <= v && Forked(s, m, a, b, v) && Duped(m, t, Slot(a, v), Slot(b, v))
    ensures Forked(s, t, a, b, v + 1)
  {
    forall z: Slot | z.pgdir != a && z.pgdir != b ensures ViewAt(t, z) == ViewAt(s, z) { assert ViewAt(t, z) == ViewAt(m, z); }
    forall w: nat | w != v ensures ViewAt(t, Slot(a, w)) == ViewAt(m, Slot(a, w)) && ViewAt(t, Slot(b, w)) == ViewAt(m, Slot(b, w)) {}
    forall w | UTEMP <= w < v && Slot(a, w) in s.pte ensures Shares(t, Slot(a, w), Slot(b, w)) {
      assert Shares(m, Slot(a, w), Slot(b, w));
    }
  }

  lemma ForkSkip(s: Vm, m: Vm, a: nat, b: nat, v: nat)
    requires Forked(s, m, a, b, v) && Slot(a, v) !in m.pte && Slot(b, v) !in m.pte
    ensures Forked(s, m, a, b, v + 1)
  {
    assert ViewAt(m, Slot(a, v)) == ViewAt(s, Slot(a, v)) || UTEMP <= v;
  }

  // ------------------------------------------------------ a fork with enough memory

  /** The swappable pages of space a from page number v on. */
  ghost function RegFrom(reg: map<Slot, nat>, a: nat, v: nat): set<Slot> {
    set x | x in reg && x.pgdir == a && v <= x.vpn
  }

  /** The pages of space a below page number v. */
  ghost function PagesBelow(pte: map<Slot, Pte>, a: nat, v: nat): set<Slot> {
    set x | x in pte && x.pgdir == a && x.vpn < v
  }

  /** Enough for the loop of fork: the parent's pages are in memory, there are frames for all the
      page tables of the child and records for its swappable pages, and so few pages that no
      reference count can overflow. */
  ghost predicate Affords(s: Vm, a: nat) {
    && InMemory(s.pte, a) && |s.free| > UTOP / NPTE && |RegFrom(s.reg, a, 0)| <= |s.pool| && 2 * |s.pte| < MAX_REF
  }

  /** What is left of it after the pages below v: u is the state then. */
  ghost predicate AffordsRest(s: Vm, u: Vm, a: nat, b: nat, v: nat) {
    && InMemory(u.pte, a) && (forall z: Slot :: z.pgdir == a ==> (z in u.reg <==> z in s.reg))
    && |u.free| + v / NPTE + (if TableKey(b, v / NPTE) in u.tables then 1 else 0) > UTOP / NPTE
    && |RegFrom(s.reg, a, v)| <= |u.pool| && 2 * |s.pte| < MAX_REF && |u.pte.Keys| <= |s.pte| + |PagesBelow(s.pte, a, v)|
  }

  lemma RegNext(reg: map<Slot, nat>, a: nat, v: nat)
    ensures |RegFrom(reg, a, v)| == |RegFrom(reg, a, v + 1)| + (if Slot(a, v) in reg then 1 else 0)
  {
    var x := Slot(a, v);
    if x in reg {
      assert RegFrom(reg, a, v) == RegFrom(reg, a, v + 1) + {x};
    } else {
      assert RegFrom(reg, a, v) == RegFrom(reg, a, v + 1);
    }
  }

  lemma PagesNext(pte: map<Slot, Pte>, a: nat, v: nat)
    ensures |PagesBelow(pte, a, v + 1)| == |PagesBelow(pte, a, v)| + (if Slot(a, v) in pte then 1 else 0)
    ensures |PagesBelow(pte, a, v)| <= |pte|
  {
    var x := Slot(a, v);
    if x in pte {
      assert PagesBelow(pte, a, v + 1) == PagesBelow(pte, a, v) + {x};
    } else {
      assert PagesBelow(pte, a, v + 1) == PagesBelow(pte, a, v);
    }
    Within(PagesBelow(pte, a, v), pte.Keys);
  }

  lemma Within<T>(x: set<T>, y: set<T>)
    requires x <= y
    ensures |x| <= |y|
  {
    assert y == x + (y - x);
  }

  lemma AffordsStart(s: Vm, a: nat, b: nat)
    requires Affords(s, a)
    ensures AffordsRest(s, s, a, b, UTEMP)
  {
    Within(RegFrom(s.reg, a, UTEMP), RegFrom(s.reg, a, 0));
  }

  /** Then the next page can be given to the child. */
  lemma AffordsPage(s: Vm, u: Vm, c: Clock, a: nat, b: nat, v: nat)
    requires AffordsRest(s, u, a, b, v) && v < USTACKTOP && Slot(a, v) in u.pte && Slot(b, v) !in u.pte
    ensures u.free != []
    ensures Maps(u, c, Slot(a, v), Slot(b, v)) && (Slot(a, v) in u.reg ==> u.pool != [])
  {
    var x := Slot(a, v);
    PagesNext(s.pte, a, v);
    RegNext(s.reg, a, v);
    Within(Users(u.pte, Where(u.pte[x])), u.pte.Keys);
  }

  /** So the next round succeeds, whether there is a page or not. */
  lemma AffordsRound(s: Vm, u: Vm, c: Clock, a: nat, b: nat, v: nat)
    requires AffordsRest(s, u, a, b, v) && UTEMP <= v < USTACKTOP && Slot(b, v) !in u.pte && Forked(s, u, a, b, v)
    ensures Slot(a, v) in s.pte <==> Slot(a, v) in u.pte
    ensures u.free != [] && (Slot(a, v) in u.pte ==> u.pte[Slot(a, v)].valid && (Slot(a, v) in u.reg ==> u.pool != []))
    ensures Slot(a, v) in u.pte ==> Maps(u, Touched(c, u.pte[Slot(a, v)].num), Slot(a, v), Slot(b, v))
  {
    assert ViewAt(u, Slot(a, v)) == ViewAt(s, Slot(a, v));
    if Slot(a, v) in u.pte { AffordsPage(s, u, Touched(c, u.pte[Slot(a, v)].num), a, b, v); }
  }

  lemma AffordsMore(s: Vm, u: Vm, t: Vm, a: nat, b: nat, v: nat)
    requires AffordsRest(s, u, a, b, v) && a != b && v < USTACKTOP && PtesOk(t)
    requires if Slot(a, v) in u.pte then Slot(a, v) in s.pte && Spent(u, t, Slot(a, v), Slot(b, v)) && t.pte.Keys == u.pte.Keys + {Slot(b, v)}
             else t == u && Slot(a, v) !in s.pte
    requires RegOk(s)
    ensures AffordsRest(s, t, a, b, v + 1)
  {
    PagesNext(s.pte, a, v);
    RegNext(s.reg, a, v);
    if Slot(a, v) in u.pte {
      var y := Slot(b, v);
      assert PteOk(t, y) && TableOf(y) == TableKey(b, v / NPTE);
      OneMoreAtMost(u.pte.Keys, y);
    }
    NextTable(v);
  }

  lemma OneMoreAtMost<T>(x: set<T>, y: T)
    ensures |x + {y}| <= |x| + 1
  {}

  lemma NextTable(v: nat)
    ensures (v + 1) / NPTE == v / NPTE || (v + 1) / NPTE == v / NPTE + 1
  {}

  /** The loop of fork over the pages from UTEMP to the top of the stack. */
  method CopySpace(k: Kernel, a: nat, b: nat) returns (r: Outcome<()>)
    requires k.Valid() && Inv(k.Abs(), None) && CowInv(k.Abs()) && a in k.asid && b in k.asid && a != b
    requires Slot(a, UCOW) !in k.pte && forall x :: x in k.pte ==> x.pgdir != b
    modifies k.Repr()
    ensures k.Valid()
    ensures r.Done? ==> Inv(k.Abs(), None) && CowInv(k.Abs()) && Forked(old(k.Abs()), k.Abs(), a, b, USTACKTOP)
    ensures Affords(old(k.Abs()), a) ==> r.Done?
  {
    ghost var s := k.Abs();
    if Affords(s, a) { AffordsStart(s, a, b); }
    for vpn := UTEMP to USTACKTOP
      invariant k.Valid() && Inv(k.Abs(), None) && CowInv(k.Abs()) && Copying(s, k.Abs(), a, b, vpn)
      invariant Affords(s, a) ==> AffordsRest(s, k.Abs(), a, b, vpn)
    {
      r := CopyRound(k, a, b, vpn, s);
      if r.Panic? {
        return;
      }
    }
    r := Done(());
  }

  /** The loop, begun in state s, has come to page number v. */
  ghost predicate Copying(s: Vm, u: Vm, a: nat, b: nat, v: nat) {
    && Forked(s, u, a, b, v) && u.asid == s.asid && a in u.asid && b in u.asid && a != b
    && Slot(a, UCOW) !in u.pte && forall w: nat :: w >= v ==> Slot(b, w) !in u.pte
  }

  /** One round of the loop. */
  method CopyRound(k: Kernel, a: nat, b: nat, vpn: nat, ghost s: Vm) returns (r: Outcome<()>)
    requires k.Valid() && Inv(k.Abs(), None) && CowInv(k.Abs()) && Copying(s, k.Abs(), a, b, vpn) && RegOk(s)
    requires UTEMP <= vpn < USTACKTOP
    modifies k.Repr()
    ensures k.Valid()
    ensures r.Done? ==> Inv(k.Abs(), None) && CowInv(k.Abs()) && Copying(s, k.Abs(), a, b, vpn + 1)
    ensures AffordsRest(s, old(k.Abs()), a, b, vpn) ==> r.Done? && AffordsRest(s, k.Abs(), a, b, vpn + 1)
  {
    ghost var m := k.Abs();
    if AffordsRest(s, m, a, b, vpn) { AffordsRound(s, m, k.Clk(), a, b, vpn); }
    r := CopyPage(k, a, b, vpn);
    if r.Done? {
      CopiedRound(s, m, k.Abs(), a, b, vpn);
      if AffordsRest(s, m, a, b, vpn) { AffordsMore(s, m, k.Abs(), a, b, vpn); }
    }
  }

  lemma CopiedRound(s: Vm, m: Vm, t: Vm, a: nat, b: nat, v: nat)
    requires Copying(s, m, a, b, v) && UTEMP <= v < USTACKTOP && Round(m, t, Slot(a, v), Slot(b, v))
    ensures Copying(s, t, a, b, v + 1)
  {
    ForkRound(s, m, t, a, b, v);
  }

  /** What duppage does in one round of the loop. */
  ghost predicate Round(m: Vm, t: Vm, x: Slot, y: Slot) {
    if x in m.pte then Duped(m, t, x, y) else t == m
  }

  lemma ForkRound(s: Vm, m: Vm, t: Vm, a: nat, b: nat, v: nat)
    requires a != b && UTEMP <= v && Forked(s, m, a, b, v) && Round(m, t, Slot(a, v), Slot(b, v)) && Slot(b, v) !in m.pte
    ensures Forked(s, t, a, b, v + 1) && t.asid == m.asid
    ensures forall z :: z in t.pte <==> z in m.pte || (z == Slot(b, v) && Slot(a, v) in m.pte)
  {
    if Slot(a, v) in m.pte {
      ForkStep(s, m, t, a, b, v);
    } else {
      ForkSkip(s, m, a, b, v);
    }
  }

  /** One round: duppage, if the parent has a page table there. */
  method CopyPage(k: Kernel, a: nat, b: nat, vpn: nat) returns (r: Outcome<()>)
    requires k.Valid() && Inv(k.Abs(), None) && CowInv(k.Abs()) && a in k.asid && b in k.asid && a != b
    requires UTEMP <= vpn < USTACKTOP && Slot(a, UCOW) !in k.pte && Slot(b, vpn) !in k.pte
    modifies k.Repr()
    ensures k.Valid()
    ensures r.Done? ==> Inv(k.Abs(), None) && CowInv(k.Abs()) && Round(old(k.Abs()), k.Abs(), Slot(a, vpn), Slot(b, vpn))
    ensures Slot(a, vpn) !in old(k.pte) ==> r.Done?
    ensures Present(old(k.pte), Slot(a, vpn)) ==>
      (r.Done? <==> Maps(old(k.Abs()), Touched(old(k.Clk()), old(k.pte)[Slot(a, vpn)].num), Slot(a, vpn), Slot(b, vpn))
                    && (Slot(a, vpn) in old(k.reg) ==> old(k.pool) != []))
    ensures Present(old(k.pte), Slot(a, vpn)) && r.Done? && old(k.free) != [] ==> Spent(old(k.Abs()), k.Abs(), Slot(a, vpn), Slot(b, vpn))
  {
    if Slot(a, vpn) in k.pte { MappedFacts(k.Abs(), Slot(a, vpn)); }
    r := Done(());
    if TableKey(a, vpn / NPTE) in k.tables {
      r := DupPage(k, Slot(a, vpn), Slot(b, vpn));
    }
  }

  /** The same with a frame for the page directory. */
  ghost predicate AffordsFork(s: Vm, a: nat) {
    && InMemory(s.pte, a) && |s.free| > UTOP / NPTE + 1 && |RegFrom(s.reg, a, 0)| <= |s.pool| && 2 * |s.pte| < MAX_REF
  }

  lemma AffordsAfter(s: Vm, m: Vm, a: nat)
    requires AffordsFork(s, a) && TookOne(s, m)
    ensures Affords(m, a)
  {}

  /** fork, as far as memory goes: a new space and the loop.  None is the error code of
      env_alloc. */
  method Fork(e: Spaces, a: nat) returns (r: Outcome<Option<nat>>)
    requires e.Valid() && Inv(e.k.Abs(), None) && CowInv(e.k.Abs()) && a in e.k.asid && Slot(a, UCOW) !in e.k.pte
    modifies e.Repr()
    ensures OutOfMemory(old(e.k.Abs())) ==> r.Panic?
    ensures AffordsFork(old(e.k.Abs()), a) ==> r.Done? && (r.value.Some? <==> exists d :: 0 <= d < NASID && !old(e.asidUsed[d]))
    ensures r.Done? ==> Inv(e.k.Abs(), None) && CowInv(e.k.Abs())
    ensures r.Done? && r.value.None? ==> SameMemory(old(e.k.Abs()), e.k.Abs())
    ensures r.Done? && r.value.Some? ==>
      r.value.value !in old(e.k.asid) && Forked(old(e.k.Abs()), e.k.Abs(), a, r.value.value, USTACKTOP)
    ensures r.Done? && r.value.Some? ==>
      forall w :: UTEMP <= w < USTACKTOP && Slot(a, w) in old(e.k.pte) ==>
        PermsSplit(old(e.k.pte), e.k.pte, Slot(a, w), Slot(r.value.value, w))
  {
    ghost var s := e.k.Abs();
    if AffordsFork(s, a) { assert s.free != []; }
    var child, _, lost := e.EnvAlloc();
    if child.Panic? {
      return Panic(child.reason);
    }
    CowGone(s, e.k.Abs(), {});
    if child.value.None? {
      return Done(None);
    }
    ghost var m := e.k.Abs();
    if AffordsFork(s, a) { AffordsAfter(s, m, a); }
    var done := CopySpace(e.k, a, child.value.value);
    if done.Panic? {
      return Panic(done.reason);
    }
    ForkedFrom(s, m, e.k.Abs(), a, child.value.value);
    ForkedPerms(s, e.k.Abs(), a, child.value.value);
    r := Done(child.value);
  }

  lemma ForkedPerms(s: Vm, t: Vm, a: nat, b: nat)
    requires CowInv(s) && Forked(s, t, a, b, USTACKTOP)
    ensures forall w :: UTEMP <= w < USTACKTOP && Slot(a, w) in s.pte ==> PermsSplit(s.pte, t.pte, Slot(a, w), Slot(b, w))
  {
    forall w | UTEMP <= w < USTACKTOP && Slot(a, w) in s.pte ensures PermsSplit(s.pte, t.pte, Slot(a, w), Slot(b, w)) {
      DupSplits(s.pte[Slot(a, w)].perm);
    }
  }

  lemma ForkedFrom(s: Vm, m: Vm, t: Vm, a: nat, b: nat)
    requires SameMemory(s, m) && NoLeak(s, m, None) && m.pte.Keys == s.pte.Keys && Forked(m, t, a, b, USTACKTOP)
    ensures Forked(s, t, a, b, USTACKTOP)
  {
    forall x ensures ViewAt(s, x) == ViewAt(m, x) {}
  }

  // --------------------------------------------------------------- copy-on-write faults

  /** The permissions a copy-on-write page gets back. */
  function FaultPerm(p: Perm): Perm { p.(cow := false, d := true) }

  /** The page is writable again and not copy-on-write; nothing else has changed. */
  ghost predicate GaveBack(p: Perm, q: Perm) {
    q.d && !q.cow && q.library == p.library && q.dirty == p.dirty
  }

  /** cow_entry gave x a private, writable copy of what it read. */
  ghost predicate Copied(s: Vm, t: Vm, x: Slot) {
    && SameBut(s, t, {x}) && x in s.pte && Contained(s, Where(s.pte[x])).Some?
    && Private(t, x, Contained(s, Where(s.pte[x])).value, FaultPerm(s.pte[x].perm))
    && t.asid == s.asid && NoLeak(s, t, None)
  }

  /** A store between two TLB refills, as seen from the state before. */
  lemma CopySeen(s: Vm, a: Vm, b: Vm, t: Vm, x: Slot, u: Slot, c: Contents)
    requires Steady(s, a) && Steady(a, b) && Stored(b, t, u, c) && x in s.pte && u in s.pte && x != u
    requires ViewAt(a, x) == Mapped(Some(c), s.pte[x].perm) && forall y :: Shares(s, u, y) ==> y == u
    ensures ViewAt(s, x) == ViewAt(a, x) && SameBut(s, t, {u}) && Private(t, u, c, s.pte[u].perm)
  {
    assert ViewAt(s, x) == ViewAt(a, x);
    SameTrans(s, a, b, {});
    forall y | y != u ensures ViewAt(t, y) == ViewAt(s, y) {
      assert ViewAt(s, y) == ViewAt(b, y);
      assert Shares(s, u, y) <==> Shares(b, u, y);
    }
    forall y, z ensures Shares(t, y, z) <==> Shares(s, y, z) { assert Shares(s, y, z) <==> Shares(b, y, z); }
    assert ViewAt(s, u) == ViewAt(b, u) && Shares(b, u, u);
  }

  /** After a refill the TLB translates the page. */
  lemma RefilledHits(s: Vm, x: Slot, j: nat)
    requires Present(s.pte, x) && x.pgdir in s.asid && j < |s.tlb| && s.tlb[j] == Pair(s, x.pgdir, x.vpn)
    ensures Hits(s, x, j) && HalfOf(s.tlb[j], x.vpn).d == s.pte[x].perm.d
  {
    assert x == Slot(x.pgdir, if x.vpn % 2 == 0 then x.vpn / 2 * 2 else x.vpn / 2 * 2 + 1);
  }

  /** A refill for a mapped page that is not one of the first. */
  method RefillMapped(k: Kernel, x: Slot, j: nat) returns (r: Outcome<()>)
    requires k.Valid() && Inv(k.Abs(), None) && x.pgdir in k.asid && UTEMP <= x.vpn < UTOP && j < k.tlb.Length && x in k.pte
    modifies k.Repr()
    ensures k.Valid()
    ensures r.Done? ==> Inv(k.Abs(), None) && Steady(old(k.Abs()), k.Abs()) && Present(k.pte, x)
    ensures r.Done? ==> x.pgdir in k.asid && j < k.tlb.Length && k.tlb[j] == Pair(k.Abs(), x.pgdir, x.vpn)
    ensures Present(old(k.pte), x) ==> r.Done? && k.pte == old(k.pte)
  {
    r := TlbRefill(k, x, j);
  }

  /** A user load of a mapped page: refill, then read. */
  method LoadPage(k: Kernel, x: Slot, j: nat) returns (r: Outcome<Contents>)
    requires k.Valid() && Inv(k.Abs(), None) && x.pgdir in k.asid && UTEMP <= x.vpn < UTOP && j < k.tlb.Length && x in k.pte
    modifies k.Repr()
    ensures k.Valid()
    ensures r.Done? ==> Inv(k.Abs(), None) && Steady(old(k.Abs()), k.Abs())
    ensures r.Done? ==> ViewAt(k.Abs(), x) == Mapped(Some(r.value), old(k.pte)[x].perm)
    ensures Present(old(k.pte), x) ==> r.Done? && k.pte == old(k.pte)
  {
    var refill := RefillMapped(k, x, j);
    if refill.Panic? {
      return Panic(refill.reason);
    }
    ghost var pte := k.pte;
    RefilledHits(k.Abs(), x, j);
    assert ViewAt(old(k.Abs()), x) == ViewAt(k.Abs(), x);
    var c := UserLoad(k, x, j);
    assert k.pte == pte;
    r := Done(c);
  }

  lemma StoreReady(s: Vm, b: Vm, x: Slot, j: nat)
    requires x in s.pte && s.pte[x].perm.d && SameMemory(s, b) && Present(b.pte, x) && x.pgdir in b.asid
    requires j < |b.tlb| && b.tlb[j] == Pair(b, x.pgdir, x.vpn)
    ensures Hits(b, x, j) && HalfOf(b.tlb[j], x.vpn).d
  {
    RefilledHits(b, x, j);
    assert ViewAt(s, x) == ViewAt(b, x);
  }

  /** A user store to a mapped, writable page: refill, then write.  b is the state between. */
  method StorePage(k: Kernel, x: Slot, j: nat, c: Contents) returns (r: Outcome<()>, ghost b: Vm)
    requires k.Valid() && Inv(k.Abs(), None) && x.pgdir in k.asid && UTEMP <= x.vpn < UTOP && j < k.tlb.Length
    requires x in k.pte && k.pte[x].perm.d
    modifies k.Repr()
    ensures k.Valid()
    ensures r.Done? ==> Inv(k.Abs(), None) && Steady(old(k.Abs()), b) && Stored(b, k.Abs(), x, c)
    ensures r.Done? ==> k.Abs() == b.(ram := k.ram[..])
    ensures Present(old(k.pte), x) ==> r.Done? && k.pte == old(k.pte)
  {
    var refill := RefillMapped(k, x, j);
    b := k.Abs();
    if refill.Panic? {
      return Panic(refill.reason), b;
    }
    assert Hits(b, x, j) && HalfOf(b.tlb[j], x.vpn).d by { StoreReady(old(k.Abs()), b, x, j); }
    UserStore(k, x, j, c);
    r := Done(());
  }

  /** The copy of cow_entry has been made at u. */
  ghost predicate CopyMade(s: Vm, t: Vm, x: Slot, u: Slot) {
    && SameBut(s, t, {u}) && x in s.pte && u in s.pte && Contained(s, Where(s.pte[x])).Some?
    && Private(t, u, Contained(s, Where(s.pte[x])).value, s.pte[u].perm)
    && t.asid == s.asid && t.owner == s.owner && t.reg == s.reg && t.pte.Keys == s.pte.Keys && NoLeak(s, t, None)
  }

  lemma CopyIsMade(s: Vm, a: Vm, b: Vm, t: Vm, x: Slot, u: Slot, c: Contents)
    requires Steady(s, a) && Steady(a, b) && Stored(b, t, u, c) && t == b.(ram := t.ram) && x in s.pte && u in s.pte && x != u
    requires ViewAt(a, x) == Mapped(Some(c), s.pte[x].perm) && forall y :: Shares(s, u, y) ==> y == u
    ensures CopyMade(s, t, x, u)
  {
    CopySeen(s, a, b, t, x, u, c);
  }

  /** memcpy from page x to page u, where nobody else uses u's memory. */
  method CopyContents(k: Kernel, x: Slot, u: Slot, j: nat) returns (r: Outcome<()>)
    requires k.Valid() && Inv(k.Abs(), None) && x.pgdir in k.asid && u.pgdir in k.asid && j < k.tlb.Length
    requires UTEMP <= x.vpn < UTOP && UTEMP <= u.vpn < UTOP && x != u
    requires x in k.pte && u in k.pte && k.pte[u].perm.d && forall y :: Shares(k.Abs(), u, y) ==> y == u
    modifies k.Repr()
    ensures k.Valid()
    ensures r.Done? ==> Inv(k.Abs(), None) && CopyMade(old(k.Abs()), k.Abs(), x, u)
    ensures Present(old(k.pte), x) && Present(old(k.pte), u) ==> r.Done? && k.pte == old(k.pte)
  {
    ghost var s := k.Abs();
    var load := LoadPage(k, x, j);
    if load.Panic? {
      return Panic(load.reason);
    }
    ghost var a := k.Abs();
    assert ViewAt(s, u) == ViewAt(a, u);
    ghost var b;
    r, b := StorePage(k, u, j, load.value);
    if r.Done? {
      CopyIsMade(s, a, b, k.Abs(), x, u, load.value);
    }
  }

  // -------------------------------------------- the unmapping of UCOW in cow_entry

  lemma AllSame(list: seq<nat>, e: nat)
    requires Distinct(list) && e in list && forall i :: i in list ==> i == e
    ensures list == [e]
  {
    assert list[|list| - 1] in list && list[0] in list;
    assert list[|list| - 1] == list[0];
  }

  lemma OnlyRecord(s: Vm, u: Slot, x: Slot, p: nat)
    requires ShapeOk(s) && ListsOk(s) && RegOk(s) && u in s.reg && u in s.pte && Where(s.pte[u]) == Ram(p) && p < |s.ste|
    requires x !in s.reg && forall y :: Shares(s, u, y) ==> y == u || y == x
    ensures s.ste[p] == [s.reg[u]]
  {
    var list := s.ste[p];
    assert Lists(list, s.loc, Ram(p));
    forall i | i in list ensures i == s.reg[u] {
      assert s.info[i].slot in s.reg && Shares(s, u, s.info[i].slot);
    }
    AllSame(list, s.reg[u]);
  }

  /** If the mapping of UCOW has left the frame partly registered, then UCOW has the frame's
      only record. */
  lemma LoneRecord(s: Vm, u: Slot, x: Slot, p: nat)
    requires Inv(s, Some(p)) && !CompleteOk(s, None) && u in s.reg && u in s.pte && Where(s.pte[u]) == Ram(p) && p < |s.ste|
    requires forall y :: Shares(s, u, y) ==> y == u || y == x
    ensures s.ste[p] == [s.reg[u]]
  {
    if x in s.reg { BothRegistered(s, u, x, p); }
    OnlyRecord(s, u, x, p);
  }

  lemma BothRegistered(s: Vm, u: Slot, x: Slot, p: nat)
    requires CompleteOk(s, Some(p)) && u in s.reg && x in s.reg && u in s.pte && Where(s.pte[u]) == Ram(p)
    requires forall y :: Shares(s, u, y) ==> y == u || y == x
    ensures CompleteOk(s, None)
  {
    forall y | y in s.pte && s.pte[y].valid && s.pte[y].num in s.queue ensures y in s.reg {
      assert s.pte[y].num == p ==> Shares(s, u, y);
    }
  }

  lemma CopyUnmaps(s: Vm, u: Slot, x: Slot, p: nat)
    requires Inv(s, Some(p)) && u in s.reg && u in s.pte && Where(s.pte[u]) == Ram(p)
    requires forall y :: Shares(s, u, y) ==> y == u || y == x
    ensures u.pgdir in s.asid && p < |s.ref| && s.ref[p] > 0 && s.reg[u] < |s.loc| && Inv(RemoveState(s, u, p), None)
    ensures p < |s.ste| && RecordOf(s.info, s.ste[p], s.reg, u, s.asid[u.pgdir])
  {
    MappedFacts(s, u);
    RecordFound(s, u, p);
    if CompleteOk(s, None) {
      RemoveKeeps(s, u, None);
    } else {
      LoneRecord(s, u, x, p);
      RemoveKeeps(s, u, Some(p));
    }
  }

  lemma CopyGone(s: Vm, u: Slot, p: nat)
    requires ShapeOk(s) && p < |s.ref| && s.ref[p] > 0 && u.pgdir in s.asid && (u in s.reg ==> s.reg[u] < |s.loc|)
    ensures var t := RemoveState(s, u, p);
      SameBut(s, t, {u}) && u !in t.pte && t.asid == s.asid && NoLeak(s, t, None) && ShapeOk(t) && t.reg == s.reg - {u}
  {
    RemoveLocal(s, u, p);
  }

  /** sys_mem_unmap of UCOW right after sys_mem_map: the page is in memory. */
  method UnmapCopy(k: Kernel, u: Slot, ghost x: Slot)
    requires k.Valid() && u in k.pte && k.pte[u].valid && Inv(k.Abs(), Some(k.pte[u].num)) && u in k.reg
    requires forall y :: Shares(k.Abs(), u, y) ==> y == u || y == x
    modifies k.Repr()
    ensures k.Valid() && Inv(k.Abs(), None)
    ensures SameBut(old(k.Abs()), k.Abs(), {u}) && u !in k.pte && k.asid == old(k.asid) && NoLeak(old(k.Abs()), k.Abs(), None)
    ensures k.reg == old(k.reg) - {u}
  {
    ghost var s := k.Abs();
    var p := k.pte[u].num;
    CopyUnmaps(s, u, x, p);
    CopyGone(s, u, p);
    k.Touch(p);
    k.RemoveMapped(u, p);
  }

  // ------------------------------------------------------------- cow_entry as a whole

  lemma NarrowBut(s: Vm, t: Vm, x: Slot, u: Slot)
    requires SameBut(s, t, {x, u}) && u !in s.pte && u !in t.pte
    ensures SameBut(s, t, {x})
  {
    forall y | y != x ensures ViewAt(s, y) == ViewAt(t, y) {}
    forall y, z | y != x && z != x ensures Shares(s, y, z) <==> Shares(t, y, z) {}
  }

  /** The last two calls: x has taken over UCOW's page. */
  lemma TakenOver(m: Vm, n: Vm, t: Vm, x: Slot, u: Slot, c: Contents, perm: Perm)
    requires x != u && Private(m, u, c, perm) && GotMapping(m, n, u, x, perm) && SameBut(n, t, {u}) && u !in t.pte
    ensures Private(t, x, c, perm) && SameBut(m, t, {x, u})
  {
    SameWiden(m, n, {x}, {x, u});
    SameWiden(n, t, {u}, {x, u});
    SameTrans(m, n, t, {x, u});
    assert ViewAt(t, x) == ViewAt(n, x);
    forall y | Shares(t, x, y) ensures y == x {
      assert y != u && Shares(n, x, y);
      assert y != x ==> Shares(m, u, y);
    }
  }

  /** All four calls of cow_entry together. */
  lemma FaultDone(s: Vm, a: Vm, m: Vm, n: Vm, t: Vm, x: Slot, u: Slot, perm: Perm)
    requires x != u && x in s.pte && u !in s.pte && perm == FaultPerm(s.pte[x].perm)
    requires SameBut(s, a, {u}) && CopyMade(a, m, x, u) && u in a.pte && a.pte[u].perm == perm
    requires GotMapping(m, n, u, x, perm) && SameBut(n, t, {u}) && u !in t.pte
    requires a.asid == s.asid && n.asid == m.asid && t.asid == n.asid
    requires NoLeak(s, a, None) && NoLeak(m, n, None) && NoLeak(n, t, None)
    ensures Copied(s, t, x)
  {
    var c := Contained(a, Where(a.pte[x])).value;
    assert ViewAt(s, x) == ViewAt(a, x);
    TakenOver(m, n, t, x, u, c, perm);
    SameWiden(s, a, {u}, {x, u});
    SameWiden(a, m, {u}, {x, u});
    SameTrans(s, a, m, {x, u});
    SameTrans(s, m, t, {x, u});
    NarrowBut(s, t, x, u);
  }

  lemma FreshSeen(s: Vm, a: Vm, x: Slot, u: Slot, perm: Perm)
    requires GotFresh(s, a, u, perm, true) && x != u && x in s.pte
    ensures x in a.reg <==> x in s.reg
    ensures u in a.pte && a.pte[u].perm == perm && u in a.reg && SameBut(s, a, {u}) && a.asid == s.asid && NoLeak(s, a, None)
    ensures forall y :: Shares(a, u, y) ==> y == u
    ensures x in a.pte
  {
    assert ViewAt(s, x) == ViewAt(a, x);
    assert x in a.reg - {u} <==> x in s.reg - {u};
  }

  /** Enough for a fault on x: the page is in memory, and two frames and a record are free. */
  ghost predicate Plenty(s: Vm, x: Slot) {
    Present(s.pte, x) && |s.free| >= 2 && s.pool != []
  }

  lemma PlentyLeft(s: Vm, a: Vm, x: Slot, u: Slot, perm: Perm)
    requires Plenty(s, x) && x != u && KeptPages(s.pte, a.pte, u) && GotFresh(s, a, u, perm, true)
    ensures Present(a.pte, x) && Present(a.pte, u)
  {
    assert Untouched(s.pte, a.pte, x);
  }

  /** The first two steps of cow_entry: a fresh page at u, and the copy; a is the state between. */
  method MakeCopy(k: Kernel, x: Slot, u: Slot, perm: Perm, j: nat) returns (r: Outcome<()>, ghost a: Vm)
    requires k.Valid() && Inv(k.Abs(), None) && x.pgdir in k.asid && u.pgdir == x.pgdir && j < k.tlb.Length
    requires UTEMP <= x.vpn < UTOP && u.vpn == UCOW && x != u && x in k.pte && perm.d
    modifies k.Repr()
    ensures k.Valid()
    ensures r.Done? ==> Inv(k.Abs(), None) && CopyMade(a, k.Abs(), x, u) && (x in k.reg <==> x in old(k.reg))
    ensures r.Done? ==> u in a.pte && a.pte[u].perm == perm && u in a.reg && SameBut(old(k.Abs()), a, {u})
    ensures r.Done? ==> a.asid == old(k.asid) && NoLeak(old(k.Abs()), a, None)
    ensures Plenty(old(k.Abs()), x) ==> r.Done? && Present(k.pte, x) && Present(k.pte, u)
  {
    ghost var s := k.Abs();
    var got := MemAlloc(k, u, perm);
    a := k.Abs();
    if got.Panic? {
      return Panic(got.reason), a;
    }
    assert got.value == Ok;
    FreshSeen(s, a, x, u, perm);
    if Plenty(s, x) { PlentyLeft(s, a, x, u, perm); }
    r := CopyContents(k, x, u, j);
  }

  lemma CopyShares(m: Vm, n: Vm, x: Slot, u: Slot, perm: Perm)
    requires GotMapping(m, n, u, x, perm) && x != u && u in m.pte && forall y :: Shares(m, u, y) ==> y == u
    ensures Shares(n, x, u) && forall y :: Shares(n, u, y) ==> y == u || y == x
  {
    assert Shares(m, u, u) && Shares(n, x, u);
    forall y | Shares(n, u, y) ensures y == u || y == x {
      assert Shares(n, x, y);
      assert y != x ==> Shares(m, u, y);
    }
  }

  /** What sys_mem_map(UCOW, x) leaves for the unmapping of UCOW. */
  lemma MapLeaves(m: Vm, n: Vm, x: Slot, u: Slot, perm: Perm)
    requires GotMapping(m, n, u, x, perm) && Aside(m, n, x) && x in n.pte && n.pte[x].valid
    requires x != u && u in m.reg && u in m.pte && forall y :: Shares(m, u, y) ==> y == u
    ensures u in n.pte && n.pte[u].valid && u in n.reg && x in n.pte && n.pte[x].num == n.pte[u].num
    ensures forall y :: Shares(n, u, y) ==> y == u || y == x
  {
    CopyShares(m, n, x, u, perm);
    assert u in n.reg - {x};
    assert n.pte[x].valid && n.pte[u].num == n.pte[x].num && n.pte[u].valid;
  }

  lemma NotDoubled(m: Vm, n: Vm, u: Slot, x: Slot)
    requires RecordsAfter(ByMap, m, n, u, x) && !Shares(m, u, x)
    ensures Inv(n, Some(n.pte[x].num))
  {}

  /** Whether x is swappable does not change, although the frame comes from UCOW. */
  lemma SwappableKept(m: Vm, n: Vm, u: Slot, x: Slot, reg: map<Slot, nat>)
    requires SwappableAfter(ByMap, m, n, u, x) && !Shares(m, u, x) && u.vpn == UCOW && u != x && reg == n.reg - {u}
    ensures x in reg <==> x in m.reg
  {}

  /** cow_entry is user code: it can be preempted after the mapping of UCOW, in state n.  The
      count check of swap then fails exactly if the victim is the frame of x and x was not
      registered. */
  lemma WindowCounts(m: Vm, n: Vm, u: Slot, x: Slot, q: nat)
    requires RecordsAfter(ByMap, m, n, u, x) && !Shares(m, u, x) && u.vpn == UCOW && u in m.reg && q in n.queue
    ensures q < |n.ste| && |n.ste[q]| <= n.ref[q]
    ensures |n.ste[q]| == n.ref[q] <==> x in m.reg || q != n.pte[x].num
  {
    OddCounts(n, n.pte[x].num, q);
  }

  /** Mapping the copy at x needs no frame, and the record of x is there again. */
  lemma MoveReady(m: Vm, c: Clock, x: Slot, u: Slot)
    requires Inv(m, None) && Present(m.pte, x) && Present(m.pte, u) && u.vpn == UCOW && x != u
    requires forall y :: Shares(m, u, y) ==> y == u
    ensures Maps(m, c, u, x) && (Registers(ByMap, m, u, x) ==> RecordLeft(m, u, x))
  {
    forall y | y in Users(m.pte, Where(m.pte[u])) ensures y == u { assert Shares(m, u, y); }
    assert Users(m.pte, Where(m.pte[u])) == {u};
  }

  /** The last two steps of cow_entry: the copy is mapped at x and UCOW is unmapped; n is the
      state between. */
  method MoveCopy(k: Kernel, x: Slot, u: Slot, perm: Perm) returns (r: Outcome<()>, ghost n: Vm)
    requires k.Valid() && Inv(k.Abs(), None) && x.pgdir in k.asid && u.pgdir == x.pgdir
    requires UTEMP <= x.vpn < UTOP && u.vpn == UCOW && x != u && u in k.pte && u in k.reg
    requires forall y :: Shares(k.Abs(), u, y) ==> y == u
    modifies k.Repr()
    ensures k.Valid()
    ensures r.Done? ==> Inv(k.Abs(), None) && u !in k.pte && GotMapping(old(k.Abs()), n, u, x, perm) && SameBut(n, k.Abs(), {u})
    ensures r.Done? ==> n.asid == old(k.asid) == k.asid && NoLeak(old(k.Abs()), n, None) && NoLeak(n, k.Abs(), None)
    ensures r.Done? ==> (x in k.reg <==> x in old(k.reg))
    ensures Present(old(k.pte), x) && Present(old(k.pte), u) ==> r.Done?
  {
    ghost var m := k.Abs();
    if Present(k.pte, x) && Present(k.pte, u) { MoveReady(m, Touched(k.Clk(), k.pte[u].num), x, u); }
    var mapped := MemMap(k, u, x, perm);
    n := k.Abs();
    if mapped.Panic? {
      return Panic(mapped.reason), n;
    }
    MapLeaves(m, n, x, u, perm);
    NotDoubled(m, n, u, x);
    UnmapCopy(k, u, x);
    SwappableKept(m, n, u, x, k.reg);
    r := Done(());
  }

  /** cow_entry for the page x of a write fault.  UCOW is not in use before and after; the
      frame of x is not registered in between if x was not. */
  method CowFault(k: Kernel, x: Slot, j: nat) returns (r: Outcome<Ret>)
    requires k.Valid() && Inv(k.Abs(), None) && CowInv(k.Abs()) && x.pgdir in k.asid && j < k.tlb.Length
    requires UTEMP <= x.vpn < UTOP && x.vpn != UCOW && Slot(x.pgdir, UCOW) !in k.pte
    modifies k.Repr()
    ensures k.Valid()
    ensures r == Done(Inval) <==> !(Present(old(k.pte), x) && old(k.pte)[x].perm.cow)
    ensures r == Done(Inval) ==> k.Abs() == old(k.Abs())
    ensures r == Done(Ok) ==> Inv(k.Abs(), None) && CowInv(k.Abs()) && Copied(old(k.Abs()), k.Abs(), x)
    ensures r == Done(Ok) ==> Slot(x.pgdir, UCOW) !in k.pte && (x in k.reg <==> x in old(k.reg))
    ensures r == Done(Ok) ==> x in k.pte && GaveBack(old(k.pte)[x].perm, k.pte[x].perm)
    ensures Plenty(old(k.Abs()), x) && old(k.pte)[x].perm.cow ==> r == Done(Ok)
  {
    if !(x in k.pte && k.pte[x].valid && k.pte[x].perm.cow) {
      return Done(Inval);
    }
    ghost var s := k.Abs();
    var u, perm := Slot(x.pgdir, UCOW), FaultPerm(k.pte[x].perm);
    var step;
    ghost var a, n;
    step, a := MakeCopy(k, x, u, perm, j);
    if step.Panic? {
      return Panic(step.reason);
    }
    ghost var m := k.Abs();
    step, n := MoveCopy(k, x, u, perm);
    if step.Panic? {
      return Panic(step.reason);
    }
    FaultDone(s, a, m, n, k.Abs(), x, u, perm);
    CowPrivate(s, k.Abs(), x, Contained(s, Where(s.pte[x])).value, perm);
    r := Done(Ok);
  }

  // ------------------------------------------------------------ faults after a fork

  /** A fault undoes what fork did to a page: in parent and child a private writable page that fork
      has split is copy-on-write, so a fault on it is not refused while it is in memory, and
      afterwards the page reads as before the fork, with the permissions of that time, and is
      nobody else's.  u is any later state in which the page has not been touched. */
  lemma FaultUndoesFork(s: Vm, t: Vm, a: nat, b: nat, w: nat, u: Vm, z: Slot)
    requires CowInv(s) && Forked(s, t, a, b, USTACKTOP) && UTEMP <= w < USTACKTOP && (z == Slot(a, w) || z == Slot(b, w))
    requires Slot(a, w) in s.pte && s.pte[Slot(a, w)].perm.d && !s.pte[Slot(a, w)].perm.library && ViewAt(u, z) == ViewAt(t, z)
    ensures z in u.pte && u.pte[z].perm.cow
    ensures forall v :: Copied(u, v, z) ==>
      ViewAt(v, z) == ViewAt(s, Slot(a, w)) && forall y :: Shares(v, z, y) ==> y == z
  {
    assert ViewAt(t, z) == DupView(ViewAt(s, Slot(a, w)));
  }

  /** A private page that has faulted and is given to another child is again out of the reach of
      everybody else's stores: s to m is the fault, m to f the duppage, and g any later state in
      which neither page has been touched. */
  lemma FaultThenFork(s: Vm, m: Vm, f: Vm, g: Vm, t: Vm, x: Slot, y: Slot, z: Slot, c: Contents)
    requires Copied(s, m, x) && !s.pte[x].perm.library && CowInv(m) && Duped(m, f, x, y) && CowInv(g)
    requires ViewAt(g, x) == ViewAt(f, x) && ViewAt(g, y) == ViewAt(f, y)
    requires z in g.pte && g.pte[z].perm.d && Stored(g, t, z, c)
    ensures z != x && ViewAt(t, x) == ViewAt(g, x) && z != y && ViewAt(t, y) == ViewAt(g, y)
    ensures ViewAt(t, x).Mapped? && ViewAt(t, x).contents == Contained(s, Where(s.pte[x]))
  {
    StoreIsolated(g, t, z, c);
  }
}
