/** The memory system calls of kern/syscall_all.c and the fault path of kern/tlbex.c.
    Interrupts are off in the kernel, so each call is one step. */
module Syscalls {
  import opened Prelude
  import opened VmState
  import opened VmClock
  import opened VmSteps
  import opened VmEvict
  import opened VmOps
  import opened VmLookup
  import opened VmShare
  import opened Kernels

  datatype Ret = Ok | Inval

  predicate IllegalVa(vpn: nat) { vpn < UTEMP || vpn >= UTOP }

  /** What a call that gives x a zeroed page of its own has done. */
  ghost predicate GotPage(s: Vm, t: Vm, x: Slot, perm: Perm) {
    && SameBut(s, t, {x}) && Private(t, x, ZeroPage(), perm)
    && t.asid == s.asid && t.owner == s.owner && TlbShrinks(s.tlb, t.tlb) && NoLeak(s, t, None)
  }

  // --------------------------------------------------------------- fresh pages

  /** page_alloc takes a frame that was free, or one that it has evicted. */
  lemma TakenFrame(s: Vm, m: Vm, ev: seq<nat>)
    requires Inv(s, None) && Inv(m, None) && Recycled(s, m, ev) && m.free != []
    ensures m.free[0] < |s.kind| && !Unaccounted(s.kind[m.free[0]])
  {
    FreeHead(m);
    EvictedAreData(s, ev);
  }

  lemma FrameFresh(s: Vm, m: Vm, ev: seq<nat>)
    requires Inv(s, None) && Inv(m, None) && Recycled(s, m, ev) && m.free != []
    ensures m.free[0] < |m.ram| && m.free[0] < |s.kind| && !Unaccounted(s.kind[m.free[0]])
    ensures var t, p := Allocate(m), m.free[0];
      && Inv(t, None) && Fresh(t, p) && SameMemory(s, t) && t.asid == s.asid && t.owner == s.owner && TlbShrinks(s.tlb, t.tlb)
      && NoLeak(s, t, Some(p)) && t.pte.Keys == s.pte.Keys && t.reg == s.reg
  {
    AllocatedFresh(s, m, ev);
    TakenFrame(s, m, ev);
  }

  /** page_alloc as callers see it. */
  method FreshFrame(k: Kernel) returns (r: Outcome<nat>, ghost ev: seq<nat>)
    requires k.Valid() && Inv(k.Abs(), None)
    modifies k.Repr()
    ensures k.Valid()
    ensures r.Panic? <==> OutOfMemory(old(k.Abs()))
    ensures r.Panic? ==> r.reason == NoFrame || r.reason == DiskFull
    ensures r.Done? ==> Inv(k.Abs(), None) && Fresh(k.Abs(), r.value) && SameMemory(old(k.Abs()), k.Abs())
    ensures r.Done? ==> k.asid == old(k.asid) && k.owner == old(k.owner) && TlbShrinks(old(k.tlb[..]), k.tlb[..])
    ensures r.Done? ==> r.value < |old(k.kind)| && !Unaccounted(old(k.kind)[r.value])
    ensures r.Done? ==> NoLeak(old(k.Abs()), k.Abs(), Some(r.value)) && k.pte.Keys == old(k.pte).Keys && k.reg == old(k.reg)
    ensures r.Done? ==> FrameTaken(old(k.Abs()), k.Abs(), ev) && Distinct(ev)
  {
    ghost var s, c := k.Abs(), k.Clk();
    var gone;
    ghost var m;
    r, gone, m := k.PageAlloc();
    ev := gone;
    if r.Done? {
      FrameFresh(s, m, ev);
      RecycledTaken(s, c, m, ev);
    }
  }

  /** What mapping a fresh frame p at x has done; it is registered if it is swappable. */
  ghost predicate MappedFresh(s: Vm, t: Vm, x: Slot, p: nat, perm: Perm, swappable: bool) {
    && GotPage(s, t, x, perm) && x in t.pte && t.pte[x] == Pte(true, false, p, perm) && p < |t.kind| && t.kind[p] == Data
    && (x in t.reg <==> swappable) && t.reg - {x} == s.reg - {x}
  }

  lemma FreshRest(s: Vm, g: Vm, x: Slot, p: nat, perm: Perm, ev: seq<nat>)
    requires Removed(s, g, x, ev) && ShapeOk(g) && x !in g.pte && p < |g.ref|
    ensures var t := MapPage(g, x, p, perm);
      && t.asid == s.asid && t.owner == s.owner && TlbShrinks(s.tlb, t.tlb) && NoLeak(s, t, None)
      && x !in t.reg && t.reg - {x} == s.reg - {x}
  {}

  lemma FreshGot(s: Vm, g: Vm, x: Slot, p: nat, perm: Perm, ev: seq<nat>)
    requires Inserted(s, g, x, p, ev) && Fresh(s, p)
    ensures MappedFresh(s, MapPage(g, x, p, perm), x, p, perm, false)
  {
    FreshRest(s, g, x, p, perm, ev);
    FreshMapped(s, g, x, p, perm, ev);
  }

  lemma FreshGotRegistered(s: Vm, g: Vm, x: Slot, p: nat, perm: Perm)
    requires ShapeOk(g) && p < |g.ste| && g.pool != [] && g.pool[0] < |g.info| && x.pgdir in g.asid
    requires p < |g.ref| && MappedFresh(s, MapPage(g, x, p, perm), x, p, perm, false)
    ensures MappedFresh(s, Register(MapPage(g, x, p, perm), x, p, g.asid[x.pgdir]), x, p, perm, true)
  {
    var t := MapPage(g, x, p, perm);
    RegisterSame(s, t, x, p, {x});
    RegisterPrivate(t, x, p, ZeroPage(), perm);
  }

  /** swap_register: one record goes from the pool to the frame's list. */
  method EnterRecord(k: Kernel, x: Slot, p: nat) returns (r: Outcome<()>)
    requires k.Valid() && x.pgdir in k.asid && p < |k.ste| && ShapeOk(k.Abs()) && (k.pool != [] ==> k.pool[0] < |k.info|)
    modifies k`queue, k`pool, k`info, k`ste, k`loc, k`reg
    ensures k.Valid()
    ensures r.Panic? ==> r.reason == NoSwapInfo
    ensures r.Panic? <==> old(k.pool) == []
    ensures r.Done? ==> k.pool == old(k.pool)[1..]
    ensures k.pte == old(k.pte) && k.free == old(k.free)
    ensures r.Done? ==> k.Abs() == Register(old(k.Abs()), x, p, old(k.asid)[x.pgdir])
  {
    r := k.SwapRegister(p, x, k.asid[x.pgdir]);
  }

  /** swap_register for a fresh frame that has just been mapped. */
  method RegisterFresh(k: Kernel, x: Slot, p: nat, perm: Perm, ghost s: Vm, ghost g: Vm, ghost ev: seq<nat>)
    returns (r: Outcome<()>)
    requires k.Valid() && Inserted(s, g, x, p, ev) && Fresh(s, p) && ShapeOk(g) && k.Abs() == MapPage(g, x, p, perm)
    requires x.pgdir in k.asid && MappedFresh(s, k.Abs(), x, p, perm, false)
    modifies k`queue, k`pool, k`info, k`ste, k`loc, k`reg
    ensures k.Valid()
    ensures r.Panic? ==> r.reason == NoSwapInfo
    ensures r.Panic? <==> old(k.pool) == []
    ensures k.pte == old(k.pte)
    ensures r.Done? ==> Inv(k.Abs(), None) && MappedFresh(s, k.Abs(), x, p, perm, true)
  {
    ghost var t := k.Abs();
    if k.pool != [] { RegisterReady(g, x); }
    r := EnterRecord(k, x, p);
    assert k.pte == t.pte;
    if r.Done? {
      FreshGotRegistered(s, g, x, p, perm);
      InsertedRegisters(s, g, x, p, perm, ev);
    }
  }

  /** If y was in memory, nothing has happened to it. */
  ghost predicate Untouched(before: map<Slot, Pte>, after: map<Slot, Pte>, y: Slot) {
    y in before && before[y].valid ==> y in after && after[y] == before[y]
  }

  ghost predicate KeptPages(before: map<Slot, Pte>, after: map<Slot, Pte>, x: Slot) {
    forall y :: y != x ==> Untouched(before, after, y)
  }

  /** The page_insert of a fresh frame: it never takes the frame itself. */
  lemma FreshInsert(a: Vm, c: Clock, x: Slot, p: nat, ins: Outcome<()>)
    requires Inv(a, None) && Fresh(a, p) && InsertStops(ins, NeedsFrame(a, x), a, ToEvictIn(a, c), p, a.ref[p] >= MAX_REF)
    ensures ins.Panic? <==> NeedsFrame(a, x) && OutOfMemory(a)
    ensures ins.Panic? ==> OutOfFrames(ins)
  {
    EvictCount(a, c);
  }

  lemma InsertedKept(s: Vm, g: Vm, x: Slot, p: nat, perm: Perm, ev: seq<nat>)
    requires Inserted(s, g, x, p, ev) && ShapeOk(g) && s.free != []
    ensures KeptPages(s.pte, MapPage(g, x, p, perm).pte, x)
  {}

  /** A fresh frame is mapped at x, and registered if the page is to be swappable. */
  method MapFresh(k: Kernel, x: Slot, p: nat, perm: Perm, swappable: bool) returns (r: Outcome<()>)
    requires k.Valid() && Inv(k.Abs(), None) && x.pgdir in k.asid && x.vpn < UTOP && Fresh(k.Abs(), p)
    modifies k.Repr()
    ensures k.Valid()
    ensures r.Panic? ==> r.reason == NoFrame || r.reason == DiskFull || r.reason == NoSwapInfo
    ensures r.Panic? <==> (NeedsFrame(old(k.Abs()), x) && OutOfMemory(old(k.Abs()))) || (swappable && Returned(old(k.Abs()), x) == [])
    ensures r.Done? ==> Inv(k.Abs(), None) && MappedFresh(old(k.Abs()), k.Abs(), x, p, perm, swappable)
    ensures r.Done? && old(k.free) != [] ==> KeptPages(old(k.pte), k.pte, x)
  {
    ghost var s := k.Abs();
    var ins;
    ghost var ev, g;
    ins, ev, g := PutFresh(k, x, p, perm);
    if ins.Panic? {
      return Panic(ins.reason);
    }
    ghost var mapped := k.pte;
    r := Done(());
    if swappable {
      r := RegisterFresh(k, x, p, perm, s, g, ev);
    }
    assert k.pte == mapped;
  }

  /** page_insert of the fresh frame p. */
  method PutFresh(k: Kernel, x: Slot, p: nat, perm: Perm) returns (r: Outcome<()>, ghost ev: seq<nat>, ghost g: Vm)
    requires k.Valid() && Inv(k.Abs(), None) && x.pgdir in k.asid && x.vpn < UTOP && Fresh(k.Abs(), p)
    modifies k.Repr()
    ensures k.Valid()
    ensures r.Panic? <==> NeedsFrame(old(k.Abs()), x) && OutOfMemory(old(k.Abs()))
    ensures r.Panic? ==> OutOfFrames(r)
    ensures r.Done? ==> Inserted(old(k.Abs()), g, x, p, ev) && ShapeOk(g) && k.Abs() == MapPage(g, x, p, perm)
    ensures r.Done? ==> Inv(k.Abs(), None) && MappedFresh(old(k.Abs()), k.Abs(), x, p, perm, false) && x.pgdir in k.asid
    ensures r.Done? ==> k.pool == Returned(old(k.Abs()), x) && (old(k.free) != [] ==> KeptPages(old(k.pte), k.pte, x))
  {
    ghost var s, c := k.Abs(), k.Clk();
    var gone;
    r, gone, g := k.PageInsert(x, p, perm);
    ev := gone;
    FreshInsert(s, c, x, p, r);
    if r.Done? {
      PutDone(s, g, x, p, perm, ev);
    }
  }

  lemma PutDone(s: Vm, g: Vm, x: Slot, p: nat, perm: Perm, ev: seq<nat>)
    requires Inserted(s, g, x, p, ev) && Fresh(s, p) && ShapeOk(g) && p < |g.ref| && x.pgdir in s.asid
    ensures var t := MapPage(g, x, p, perm);
      Inv(t, None) && MappedFresh(s, t, x, p, perm, false) && x.pgdir in t.asid && (s.free != [] ==> KeptPages(s.pte, t.pte, x))
  {
    FreshGot(s, g, x, p, perm, ev);
    FreshMapped(s, g, x, p, perm, ev);
    if s.free != [] { InsertedKept(s, g, x, p, perm, ev); }
  }

  /** x has got a zeroed page of its own since s. */
  ghost predicate GotFresh(s: Vm, t: Vm, x: Slot, perm: Perm, swappable: bool) {
    x in t.pte && MappedFresh(s, t, x, t.pte[x].num, perm, swappable)
  }

  lemma FreshAfter(s: Vm, a: Vm, t: Vm, x: Slot, p: nat, perm: Perm, swappable: bool)
    requires SameMemory(s, a) && a.asid == s.asid && a.owner == s.owner && TlbShrinks(s.tlb, a.tlb) && a.reg == s.reg
    requires NoLeak(s, a, Some(p)) && MappedFresh(a, t, x, p, perm, swappable)
    ensures GotFresh(s, t, x, perm, swappable)
  {
    SameWiden(s, a, {}, {x});
    SameTrans(s, a, t, {x});
  }

  /** swap_register will find a SwapInfo record for x: one is free, or that of the page that x
      loses is. */
  ghost predicate RecordFor(s: Vm, x: Slot) { s.pool != [] || x in s.reg }

  lemma NewPageReady(s: Vm, a: Vm, x: Slot, ev: seq<nat>)
    requires FrameTaken(s, a, ev) && Distinct(ev) && Distinct(s.queue) && !OutOfMemory(s)
    ensures TwoFrames(s, x) <==> !(NeedsFrame(a, x) && OutOfMemory(a))
    ensures RecordFor(s, x) <==> Returned(a, x) != []
    ensures |s.free| >= 2 ==> a.free != []
  {
    TakenTwo(s, a, x, ev);
  }

  lemma TakenKept(s: Vm, a: Vm, pte: map<Slot, Pte>, x: Slot, ev: seq<nat>)
    requires FrameTaken(s, a, ev) && |s.free| >= 2 && KeptPages(a.pte, pte, x)
    ensures KeptPages(s.pte, pte, x)
  {
    forall y | y != x ensures Untouched(s.pte, pte, y) { assert Untouched(a.pte, pte, y); }
  }

  /** page_alloc, page_insert and, for a swappable page, swap_register. */
  method NewPage(k: Kernel, x: Slot, perm: Perm, swappable: bool) returns (r: Outcome<()>)
    requires k.Valid() && Inv(k.Abs(), None) && x.pgdir in k.asid && x.vpn < UTOP
    modifies k.Repr()
    ensures k.Valid()
    ensures r.Panic? ==> r.reason == NoFrame || r.reason == DiskFull || r.reason == NoSwapInfo
    ensures r.Done? <==> TwoFrames(old(k.Abs()), x) && (swappable ==> RecordFor(old(k.Abs()), x))
    ensures r.Done? ==> Inv(k.Abs(), None) && GotFresh(old(k.Abs()), k.Abs(), x, perm, swappable)
    ensures r.Done? && |old(k.free)| >= 2 ==> KeptPages(old(k.pte), k.pte, x)
  {
    ghost var s := k.Abs();
    var pa;
    ghost var ev;
    pa, ev := FreshFrame(k);
    if pa.Panic? {
      return Panic(pa.reason);
    }
    ghost var a := k.Abs();
    NewPageReady(s, a, x, ev);
    r := MapFresh(k, x, pa.value, perm, swappable);
    if r.Done? {
      if |s.free| >= 2 { TakenKept(s, a, k.pte, x, ev); }
      FreshAfter(s, a, k.Abs(), x, pa.value, perm, swappable);
    }
  }

  /** sys_mem_alloc for a permitted target: x gets a zeroed, swappable page of its own. */
  method MemAlloc(k: Kernel, x: Slot, perm: Perm) returns (r: Outcome<Ret>)
    requires k.Valid() && Inv(k.Abs(), None) && x.pgdir in k.asid
    modifies k.Repr()
    ensures k.Valid()
    ensures r == Done(Inval) <==> IllegalVa(x.vpn)
    ensures r == Done(Inval) ==> k.Abs() == old(k.Abs())
    ensures r == Done(Ok) ==> Inv(k.Abs(), None) && GotFresh(old(k.Abs()), k.Abs(), x, perm, true)
    ensures r == Done(Ok) <==> !IllegalVa(x.vpn) && TwoFrames(old(k.Abs()), x) && RecordFor(old(k.Abs()), x)
    ensures r == Done(Ok) && |old(k.free)| >= 2 ==> KeptPages(old(k.pte), k.pte, x)
    ensures r.Panic? ==> r.reason == NoFrame || r.reason == DiskFull || r.reason == NoSwapInfo
  {
    if IllegalVa(x.vpn) {
      return Done(Inval);
    }
    var made := NewPage(k, x, perm, true);
    r := if made.Panic? then Panic(made.reason) else Done(Ok);
  }

  const UVPT := 0x7fc00
  const WRITABLE := Perm(true, false, false, false)

  /** The process may store to the page at once; it is neither copy-on-write nor a library page. */
  ghost predicate PlainWritable(p: Perm) { p.d && !p.cow && !p.library && !p.dirty }

  /** Where passive_alloc gives out no page. */
  predicate Forbidden(vpn: nat) {
    vpn < UTEMP || vpn == USTACKTOP || vpn >= UTOP
  }

  /** passive_alloc below the self-map: a zeroed writable page, swappable below the top of
      the stack. */
  method PassiveAlloc(k: Kernel, x: Slot) returns (r: Outcome<()>)
    requires k.Valid() && Inv(k.Abs(), None) && x.pgdir in k.asid && x.vpn < UVPT
    modifies k.Repr()
    ensures k.Valid()
    ensures r == Panic(BadAddress) <==> Forbidden(x.vpn)
    ensures r.Done? ==> Inv(k.Abs(), None) && GotFresh(old(k.Abs()), k.Abs(), x, WRITABLE, x.vpn < USTACKTOP - 1)
    ensures r.Done? ==> x in k.pte && PlainWritable(k.pte[x].perm)
    ensures r.Done? <==> !Forbidden(x.vpn) && TwoFrames(old(k.Abs()), x) && (x.vpn < USTACKTOP - 1 ==> RecordFor(old(k.Abs()), x))
    ensures r.Panic? ==> r.reason == BadAddress || r.reason == NoFrame || r.reason == DiskFull || r.reason == NoSwapInfo
  {
    if x.vpn < UTEMP || x.vpn == USTACKTOP || x.vpn >= UTOP {
      return Panic(BadAddress);
    }
    r := NewPage(k, x, WRITABLE, x.vpn < USTACKTOP - 1);
  }

  // ------------------------------------------------------------------- unmapping

  /** sys_mem_unmap for a permitted target. */
  method MemUnmap(k: Kernel, x: Slot) returns (r: Outcome<Ret>)
    requires k.Valid() && Inv(k.Abs(), None)
    modifies k.Repr()
    ensures k.Valid()
    ensures IllegalVa(x.vpn) ==> r == Done(Inval) && k.Abs() == old(k.Abs())
    ensures !IllegalVa(x.vpn) ==> r != Done(Inval)
    ensures r == Done(Ok) ==> Inv(k.Abs(), None) && exists ev :: Removed(old(k.Abs()), k.Abs(), x, ev)
    ensures r == Done(Ok) <==> !IllegalVa(x.vpn) && (x !in old(k.pte) || old(k.pte)[x].valid || !OutOfMemory(old(k.Abs())))
    ensures r.Panic? ==> r.reason == NoFrame || r.reason == DiskFull
  {
    if IllegalVa(x.vpn) {
      return Done(Inval);
    }
    var gone, ev := k.PageRemove(x);
    r := if gone.Panic? then Panic(gone.reason) else Done(Ok);
  }

  // -------------------------------------------------------------------- mapping

  /** What mapping dst costs as long as a frame is free: at most one frame, for a page table, and
      no other page is touched. */
  ghost predicate Spends(s: Vm, t: Vm, src: Slot, dst: Slot) {
    && KeptPages(s.pte, t.pte, dst)
    && (Shares(s, src, dst) ==> t.free == s.free)
    && (dst !in s.pte ==> t.free == FreeAfter(s, TableOf(dst)))
  }

  lemma WroteSpends(m: Vm, g: Vm, t: Vm, src: Slot, dst: Slot, p: nat, perm: Perm, ev: seq<nat>)
    requires Wrote(m, g, t, src, dst, p, perm, ev) && (m.free != [] || Shares(m, src, dst)) && src in m.pte && Where(m.pte[src]) == Ram(p)
    requires dst !in m.pte && m.free != [] ==> t.free == FreeAfter(m, TableOf(dst))
    ensures Spends(m, t, src, dst)
  {
    if !Shares(m, src, dst) { InsertedKept(m, g, dst, p, perm, ev); }
  }

  /** swap_register if wanted, after the page_insert of sys_mem_map. */
  method RegisterMapped(k: Kernel, ghost how: Via, src: Slot, dst: Slot, p: nat, perm: Perm, swappable: bool,
                        ghost m: Vm, ghost g: Vm, ghost ev: seq<nat>) returns (r: Outcome<()>)
    requires k.Valid() && Inv(m, None) && src in m.pte && Where(m.pte[src]) == Ram(p) && dst.pgdir in k.asid
    requires Wrote(m, g, k.Abs(), src, dst, p, perm, ev) && (swappable <==> Registers(how, m, src, dst))
    requires p < |k.ste| && ShapeOk(k.Abs()) && (k.pool != [] ==> k.pool[0] < |k.info|)
    modifies k`queue, k`pool, k`info, k`ste, k`loc, k`reg
    ensures k.Valid()
    ensures r.Panic? ==> r.reason == NoSwapInfo
    ensures r.Panic? <==> swappable && old(k.pool) == []
    ensures r.Done? ==> MapDone(how, m, k.Abs(), src, dst, perm)
    ensures k.pte == old(k.pte) && k.free == old(k.free)
    ensures r.Done? ==> k.pool == if swappable then old(k.pool)[1..] else old(k.pool)
  {
    ghost var t := k.Abs();
    r := Done(());
    if swappable {
      r := EnterRecord(k, dst, p);
    }
    assert k.pte == t.pte && k.free == t.free;
    if r.Done? {
      WroteDone(how, m, g, t, k.Abs(), src, dst, p, perm, ev);
    }
  }

  lemma WroteDone(how: Via, m: Vm, g: Vm, t: Vm, u: Vm, src: Slot, dst: Slot, p: nat, perm: Perm, ev: seq<nat>)
    requires Inv(m, None) && src in m.pte && Where(m.pte[src]) == Ram(p) && dst.pgdir in t.asid
    requires Wrote(m, g, t, src, dst, p, perm, ev) && p < |t.ste| && ShapeOk(t) && (t.pool != [] ==> t.pool[0] < |t.info|)
    requires if Registers(how, m, src, dst) then t.pool != [] && u == Register(t, dst, p, t.asid[dst.pgdir]) else u == t
    ensures MapDone(how, m, u, src, dst, perm)
  {
    if Registers(how, m, src, dst) {
      WroteRegistered(how, m, g, t, src, dst, p, perm, ev);
    } else {
      WroteUnregistered(how, m, g, t, src, dst, p, perm, ev);
    }
  }

  /** Nothing stops the page_insert of the two calls: the page table or the page under dst needs
      no frame, or gets one without losing the source's, and the count of that is not full. */
  ghost predicate Maps(s: Vm, c: Clock, src: Slot, dst: Slot) {
    && src in s.pte
    && (NeedsFrame(s, dst) ==> !OutOfMemory(s) && s.pte[src].num !in ToEvictIn(s, c))
    && (Shares(s, src, dst) || |Users(s.pte, Where(s.pte[src]))| < MAX_REF)
  }

  lemma InsertMaps(m: Vm, c: Clock, src: Slot, dst: Slot, p: nat, ins: Outcome<()>)
    requires src in m.pte && Where(m.pte[src]) == Ram(p) && p < |m.ref| && m.ref[p] == |Users(m.pte, Ram(p))|
    requires if dst in m.pte && Where(m.pte[dst]) == Ram(p) then ins.Done?
             else InsertStops(ins, NeedsFrame(m, dst), m, ToEvictIn(m, c), p, m.ref[p] >= MAX_REF)
    ensures ins == Panic(SourceEvicted) <==> LostNow(m, c, src, dst)
    ensures ins.Done? <==> Maps(m, c, src, dst)
    ensures ins != Panic(BadAddress)
  {
    assert Shares(m, src, dst) <==> dst in m.pte && Where(m.pte[dst]) == Ram(p);
    if Shares(m, src, dst) { assert !NeedsFrame(m, dst); }
  }

  lemma SourceReady(m: Vm, src: Slot, p: nat)
    requires Inv(m, None) && src in m.pte && m.pte[src].valid && m.pte[src].num == p
    ensures p < |m.ram| && p < |m.ste| && p < |m.ref| && p < |m.kind|
    ensures m.kind[p] == Data && m.ref[p] == |Users(m.pte, Ram(p))|
  {
    MappedFacts(m, src);
    SourceIsData(m, src, p);
  }

  /** The page_insert of the two calls. */
  method InsertSource(k: Kernel, src: Slot, dst: Slot, p: nat, perm: Perm)
    returns (r: Outcome<()>, ev: seq<nat>, ghost g: Vm)
    requires k.Valid() && Inv(k.Abs(), None) && src in k.pte && k.pte[src].valid && k.pte[src].num == p
    requires dst.pgdir in k.asid && dst.vpn < UTOP
    modifies k.Repr()
    ensures k.Valid()
    ensures r == Panic(SourceEvicted) <==> LostNow(old(k.Abs()), old(k.Clk()), src, dst)
    ensures r.Done? <==> Maps(old(k.Abs()), old(k.Clk()), src, dst)
    ensures r != Panic(BadAddress)
    ensures r.Done? ==> Wrote(old(k.Abs()), g, k.Abs(), src, dst, p, perm, ev)
    ensures r.Done? && !Shares(old(k.Abs()), src, dst) ==> k.pool == Returned(old(k.Abs()), dst)
    ensures r.Done? && (old(k.free) != [] || Shares(old(k.Abs()), src, dst)) ==> Spends(old(k.Abs()), k.Abs(), src, dst)
  {
    ghost var m, c := k.Abs(), k.Clk();
    SourceReady(m, src, p);
    r, ev, g := k.PageInsert(dst, p, perm);
    InsertMaps(m, c, src, dst, p, r);
    if r.Done? && (m.free != [] || Shares(m, src, dst)) { WroteSpends(m, g, k.Abs(), src, dst, p, perm, ev); }
  }

  /** The record pool after the call: the record of the old page at dst comes back, the one of the
      new page is taken. */
  ghost function PoolAfter(s: Vm, src: Slot, dst: Slot, swappable: bool): seq<nat> {
    var left := if Shares(s, src, dst) then s.pool else Returned(s, dst);
    if swappable && left != [] then left[1..] else left
  }

  /** The second half of the two calls, once src's frame p is in memory. */
  method MapInto(k: Kernel, ghost how: Via, src: Slot, dst: Slot, p: nat, perm: Perm, swappable: bool) returns (r: Outcome<()>)
    requires k.Valid() && Inv(k.Abs(), None) && src in k.pte && k.pte[src].valid && k.pte[src].num == p
    requires dst.pgdir in k.asid && dst.vpn < UTOP && (swappable <==> Registers(how, k.Abs(), src, dst))
    modifies k.Repr()
    ensures k.Valid()
    ensures r.Done? ==> MapDone(how, old(k.Abs()), k.Abs(), src, dst, perm)
    ensures r == Panic(SourceEvicted) <==> LostNow(old(k.Abs()), old(k.Clk()), src, dst)
    ensures r.Done? <==> Maps(old(k.Abs()), old(k.Clk()), src, dst) && (swappable ==> RecordLeft(old(k.Abs()), src, dst))
    ensures r != Panic(BadAddress)
    ensures r.Done? && (old(k.free) != [] || Shares(old(k.Abs()), src, dst)) ==> Spends(old(k.Abs()), k.Abs(), src, dst)
    ensures r.Done? ==> k.pool == PoolAfter(old(k.Abs()), src, dst, swappable)
  {
    ghost var m := k.Abs();
    var ins, ev;
    ghost var g;
    ins, ev, g := InsertSource(k, src, dst, p, perm);
    if ins.Panic? {
      return Panic(ins.reason);
    }
    SourceReady(m, src, p);
    WroteReady(m, g, k.Abs(), src, dst, p, perm, ev);
    ghost var t := k.Abs();
    r := RegisterMapped(k, how, src, dst, p, perm, swappable, m, g, ev);
    if r.Done? && (m.free != [] || Shares(m, src, dst)) { SpendsOn(m, t, k.Abs(), src, dst); }
  }

  lemma SpendsOn(m: Vm, t: Vm, u: Vm, src: Slot, dst: Slot)
    requires Spends(m, t, src, dst) && u.pte == t.pte && u.free == t.free
    ensures Spends(m, u, src, dst)
  {}

  /** !LIST_EMPTY(page2ste(p)) for the frame of a page just looked up. */
  method IsSwappable(k: Kernel, x: Slot, p: nat) returns (b: bool)
    requires k.Valid() && Inv(k.Abs(), None) && x in k.pte && k.pte[x].valid && k.pte[x].num == p
    ensures b <==> x in k.reg
  {
    QueuedIffRegistered(k.Abs(), x);
    b := k.ste[p] != [];
  }

  /** page_lookup as its callers here see it. */
  method LookPage(k: Kernel, x: Slot) returns (r: Outcome<Option<nat>>, ghost ev: seq<nat>)
    requires k.Valid() && Inv(k.Abs(), None)
    modifies k.Repr()
    ensures k.Valid()
    ensures r.Panic? <==> x in old(k.pte) && !old(k.pte)[x].valid && OutOfMemory(old(k.Abs()))
    ensures r.Panic? ==> r.reason == NoFrame || r.reason == DiskFull
    ensures r.Done? ==> Inv(k.Abs(), None) && Calm(old(k.Abs()), k.Abs()) && k.pool == old(k.pool)
    ensures r.Done? ==> (r.value.Some? <==> x in old(k.pte)) && LookedUp(old(k.Abs()), old(k.Clk()), k.Abs(), k.Clk(), x, ev)
    ensures r.Done? && r.value.Some? ==> x in k.pte && k.pte[x].valid && k.pte[x].num == r.value.value
    ensures x !in old(k.pte) || old(k.pte)[x].valid ==> k.Abs() == old(k.Abs())
    ensures old(k.free) != [] ==> r.Done? && |k.free| >= |old(k.free)| - 1
  {
    ghost var s, c := k.Abs(), k.Clk();
    var gone;
    r, gone := k.PageLookup(x);
    ev := gone;
    if r.Done? && s.free != [] { LookupCosts(s, c, k.Abs(), k.Clk(), x, ev); }
  }

  /** Memory enough for the two calls whatever is on the disk: three free frames, a record, and room
      in the reference count of the source. */
  ghost predicate Room(s: Vm, src: Slot) {
    |s.free| >= 3 && s.pool != [] && src in s.pte && |Users(s.pte, Where(s.pte[src]))| < MAX_REF
  }

  /** The mapping goes through after the lookups. */
  lemma RoomMaps(s: Vm, m: Vm, c: Clock, src: Slot, dst: Slot)
    requires Room(s, src) && Calm(s, m) && |m.free| >= |s.free| - 2 && m.pool == s.pool
    ensures Maps(m, c, src, dst) && RecordLeft(m, src, dst)
  {
    forall y ensures y in Users(m.pte, Where(m.pte[src])) <==> y in Users(s.pte, Where(s.pte[src])) {
      assert Shares(m, src, y) <==> Shares(s, src, y);
    }
    assert Users(m.pte, Where(m.pte[src])) == Users(s.pte, Where(s.pte[src]));
  }

  /** After the second lookup it is decided whether the source's frame will be lost. */
  lemma SourceDecided(m: Vm, c: Clock, t: Vm, d: Clock, src: Slot, dst: Slot, ev: seq<nat>, r: Outcome<Option<nat>>)
    requires Inv(m, None) && (dst in m.pte ==> m.pte[dst].valid)
    requires r.Panic? <==> src in m.pte && !m.pte[src].valid && OutOfMemory(m)
    requires r.Done? ==> Inv(t, None) && SameMemory(m, t) && LookedUp(m, c, t, d, src, ev) && (r.value.Some? <==> src in m.pte)
    ensures SourceLost(m, c, src, dst) <==> r.Done? && r.value.Some? && LostNow(t, d, src, dst)
  {
    if r.Panic? {
      NotLost(m, c, src, src, dst);
    } else if r.value.Some? {
      LostAfter(m, c, t, d, src, dst, ev);
    }
  }

  /** The second lookup of sys_mem_map, and its decision whether dst is to be registered. */
  method FindSource(k: Kernel, src: Slot, dst: Slot, orgSwappable: bool) returns (r: Outcome<Option<nat>>, swappable: bool)
    requires k.Valid() && Inv(k.Abs(), None) && (dst in k.pte ==> k.pte[dst].valid) && (orgSwappable <==> dst in k.reg)
    modifies k.Repr()
    ensures k.Valid()
    ensures r.Done? ==> Inv(k.Abs(), None) && Calm(old(k.Abs()), k.Abs()) && k.pool == old(k.pool)
    ensures r.Done? ==> (r.value.Some? <==> src in old(k.pte))
    ensures r.Done? && r.value.Some? ==> src in k.pte && k.pte[src].valid && k.pte[src].num == r.value.value
    ensures r.Done? && r.value.Some? ==> (swappable <==> Registers(ByMap, k.Abs(), src, dst))
    ensures r.Panic? ==> r.reason == NoFrame || r.reason == DiskFull
    ensures SourceLost(old(k.Abs()), old(k.Clk()), src, dst) <==>
      r.Done? && r.value.Some? && LostNow(k.Abs(), k.Clk(), src, dst)
    ensures Present(old(k.pte), src) ==> r.Done? && k.Abs() == old(k.Abs()) && k.Clk() == Touched(old(k.Clk()), k.pte[src].num)
    ensures old(k.free) != [] ==> r.Done? && |k.free| >= |old(k.free)| - 1
  {
    ghost var m, c := k.Abs(), k.Clk();
    ghost var ev;
    r, ev := LookPage(k, src);
    swappable := false;
    SourceDecided(m, c, k.Abs(), k.Clk(), src, dst, ev, r);
    if r.Done? && r.value.Some? {
      var srcSwappable := IsSwappable(k, src, r.value.value);
      swappable := src != dst && (if src.vpn == UCOW then orgSwappable else srcSwappable);
    }
  }

  /** The two lookups of sys_mem_map: the frame of src if it is mapped, and whether dst is to
      be registered. */
  method FindPages(k: Kernel, src: Slot, dst: Slot) returns (r: Outcome<Option<nat>>, swappable: bool)
    requires k.Valid() && Inv(k.Abs(), None)
    modifies k.Repr()
    ensures k.Valid()
    ensures r.Done? ==> Inv(k.Abs(), None) && Calm(old(k.Abs()), k.Abs()) && k.pool == old(k.pool)
    ensures r.Done? ==> (r.value.Some? <==> src in old(k.pte))
    ensures r.Done? && r.value.Some? ==> src in k.pte && k.pte[src].valid && k.pte[src].num == r.value.value
    ensures r.Done? && r.value.Some? ==> (swappable <==> Registers(ByMap, k.Abs(), src, dst))
    ensures r.Panic? ==> r.reason == NoFrame || r.reason == DiskFull
    ensures SourceLost(old(k.Abs()), old(k.Clk()), src, dst) <==>
      r.Done? && r.value.Some? && LostNow(k.Abs(), k.Clk(), src, dst)
    ensures Near(old(k.pte), src, dst) ==> r.Done? && k.Abs() == old(k.Abs())
    ensures Near(old(k.pte), src, dst) && dst !in k.pte ==> k.Clk() == Touched(old(k.Clk()), k.pte[src].num)
    ensures |old(k.free)| >= 2 ==> r.Done? && |k.free| >= |old(k.free)| - 2
  {
    ghost var s, c := k.Abs(), k.Clk();
    var orgSwappable := false;
    var org;
    ghost var ev;
    org, ev := LookPage(k, dst);
    if org.Panic? {
      NotLost(s, c, dst, src, dst);
      return Panic(org.reason), false;
    }
    ghost var m := k.Abs();
    LostBefore(s, c, m, k.Clk(), src, dst, ev);
    if org.value.Some? {
      orgSwappable := IsSwappable(k, dst, org.value.value);
    }
    r, swappable := FindSource(k, src, dst, orgSwappable);
    if r.Done? {
      CalmCalm(s, m, k.Abs());
    }
  }

  /** The source is in memory, and so is the destination if it is mapped. */
  ghost predicate Near(pte: map<Slot, Pte>, src: Slot, dst: Slot) {
    Present(pte, src) && (dst in pte ==> pte[dst].valid)
  }

  ghost predicate Present(pte: map<Slot, Pte>, x: Slot) {
    x in pte && pte[x].valid
  }

  /** sys_mem_map for permitted environments.  Inval leaves the invariant and everything user
      programs see alone.  A successful call gives dst the memory of src; MapDone also says
      exactly when the records are in order afterwards. */
  method MemMap(k: Kernel, src: Slot, dst: Slot, perm: Perm) returns (r: Outcome<Ret>)
    requires k.Valid() && Inv(k.Abs(), None) && src.pgdir in k.asid && dst.pgdir in k.asid
    modifies k.Repr()
    ensures k.Valid()
    ensures IllegalVa(src.vpn) || IllegalVa(dst.vpn) ==> r == Done(Inval)
    ensures r.Done? && !IllegalVa(src.vpn) && !IllegalVa(dst.vpn) ==> (r.value.Ok? <==> src in old(k.pte))
    ensures r == Done(Inval) ==> Inv(k.Abs(), None) && Calm(old(k.Abs()), k.Abs())
    ensures r == Done(Ok) ==> MapDone(ByMap, old(k.Abs()), k.Abs(), src, dst, perm)
    ensures r == Panic(SourceEvicted) <==>
      !IllegalVa(src.vpn) && !IllegalVa(dst.vpn) && SourceLost(old(k.Abs()), old(k.Clk()), src, dst)
    ensures !IllegalVa(src.vpn) && !IllegalVa(dst.vpn) && Near(old(k.pte), src, dst) ==>
      (r == Done(Ok) <==> Maps(old(k.Abs()), Touched(old(k.Clk()), old(k.pte)[src].num), src, dst)
                          && (Registers(ByMap, old(k.Abs()), src, dst) ==> RecordLeft(old(k.Abs()), src, dst)))
    ensures r != Panic(BadAddress)
    ensures !IllegalVa(src.vpn) && !IllegalVa(dst.vpn) && Room(old(k.Abs()), src) ==> r == Done(Ok)
    ensures r == Done(Ok) && Near(old(k.pte), src, dst) && (old(k.free) != [] || Shares(old(k.Abs()), src, dst)) ==>
      Spends(old(k.Abs()), k.Abs(), src, dst)
    ensures r == Done(Ok) && Near(old(k.pte), src, dst) ==>
      k.pool == PoolAfter(old(k.Abs()), src, dst, Registers(ByMap, old(k.Abs()), src, dst))
  {
    if IllegalVa(src.vpn) || IllegalVa(dst.vpn) {
      return Done(Inval);
    }
    ghost var s := k.Abs();
    var found, swappable := FindPages(k, src, dst);
    if found.Panic? {
      return Panic(found.reason);
    }
    if found.value.None? {
      return Done(Inval);
    }
    ghost var m := k.Abs();
    if Room(s, src) { RoomMaps(s, m, k.Clk(), src, dst); }
    var done := MapInto(k, ByMap, src, dst, found.value.value, perm, swappable);
    if done.Done? {
      MapDoneAfter(ByMap, s, m, k.Abs(), src, dst, perm);
    }
    r := if done.Panic? then Panic(done.reason) else Done(Ok);
  }

  // ------------------------------------------------------------------ sending a page

  /** The lookup of sys_ipc_try_send, and its decision whether dst is to be registered. */
  method FindSent(k: Kernel, src: Slot, dst: Slot) returns (r: Outcome<Option<nat>>, swappable: bool)
    requires k.Valid() && Inv(k.Abs(), None)
    modifies k.Repr()
    ensures k.Valid()
    ensures r.Done? ==> Inv(k.Abs(), None) && Calm(old(k.Abs()), k.Abs()) && (r.value.Some? <==> src in old(k.pte))
    ensures r == Done(None) ==> k.Abs() == old(k.Abs())
    ensures r.Done? && r.value.Some? ==> src in k.pte && k.pte[src].valid && k.pte[src].num == r.value.value
    ensures r.Done? && r.value.Some? ==> (swappable <==> Registers(BySend, k.Abs(), src, dst))
    ensures SendLost(old(k.Abs()), old(k.Clk()), src, dst) <==>
      r.Done? && r.value.Some? && LostNow(k.Abs(), k.Clk(), src, dst)
    ensures Present(old(k.pte), src) ==> r.Done? && k.Abs() == old(k.Abs()) && k.Clk() == Touched(old(k.Clk()), k.pte[src].num)
    ensures r.Panic? ==> r.reason == NoFrame || r.reason == DiskFull
    ensures old(k.free) != [] ==> r.Done? && |k.free| >= |old(k.free)| - 1
    ensures r.Done? ==> k.pool == old(k.pool)
  {
    ghost var s, c := k.Abs(), k.Clk();
    ghost var ev;
    r, ev := LookPage(k, src);
    swappable := false;
    if r.Panic? {
      SendNotLost(s, c, src, dst);
    } else if r.value.Some? {
      SendLostAfter(s, c, k.Abs(), k.Clk(), src, dst, ev);
      var registered := IsSwappable(k, src, r.value.value);
      swappable := registered && src != dst;
    }
  }

  /** The page part of sys_ipc_try_send: src is the sender's page, dst the receiver's address,
      which is legal or zero. */
  method SendPage(k: Kernel, src: Slot, dst: Slot, perm: Perm) returns (r: Outcome<Ret>)
    requires k.Valid() && Inv(k.Abs(), None) && src.pgdir in k.asid && dst.pgdir in k.asid
    requires !IllegalVa(src.vpn) && (dst.vpn == 0 || !IllegalVa(dst.vpn))
    modifies k.Repr()
    ensures k.Valid()
    ensures r.Done? ==> (r.value.Ok? <==> src in old(k.pte))
    ensures r == Done(Inval) ==> k.Abs() == old(k.Abs())
    ensures r == Done(Ok) ==> MapDone(BySend, old(k.Abs()), k.Abs(), src, dst, perm)
    ensures r == Panic(SourceEvicted) <==> SendLost(old(k.Abs()), old(k.Clk()), src, dst)
    ensures Present(old(k.pte), src) ==>
      (r == Done(Ok) <==> Maps(old(k.Abs()), Touched(old(k.Clk()), old(k.pte)[src].num), src, dst)
                          && (Registers(BySend, old(k.Abs()), src, dst) ==> RecordLeft(old(k.Abs()), src, dst)))
    ensures Room(old(k.Abs()), src) ==> r == Done(Ok)
    ensures r != Panic(BadAddress)
  {
    ghost var s := k.Abs();
    var found, swappable := FindSent(k, src, dst);
    if found.Panic? {
      return Panic(found.reason);
    }
    if found.value.None? {
      return Done(Inval);
    }
    ghost var m := k.Abs();
    if Room(s, src) { RoomMaps(s, m, k.Clk(), src, dst); }
    var done := MapInto(k, BySend, src, dst, found.value.value, perm, swappable);
    if done.Done? {
      MapDoneAfter(BySend, s, m, k.Abs(), src, dst, perm);
    }
    r := if done.Panic? then Panic(done.reason) else Done(Ok);
  }

  // -------------------------------------------------------------------- TLB refill

  /** A refill for x succeeds: the page is in memory, or there is a frame to bring it back to, or
      it may be made and there are the frames and the record for that. */
  ghost predicate Refills(s: Vm, x: Slot) {
    if x in s.pte then s.pte[x].valid || !OutOfMemory(s)
    else !Forbidden(x.vpn) && TwoFrames(s, x) && (x.vpn < USTACKTOP - 1 ==> RecordFor(s, x))
  }

  /** x has been found since state s, if need be after it has been made. */
  ghost predicate FoundSince(s: Vm, t: Vm, x: Slot) {
    && Inv(t, None) && Present(t.pte, x) && t.asid == s.asid && TlbShrinks(s.tlb, t.tlb)
    && if x in s.pte then Calm(s, t) else GotFresh(s, t, x, WRITABLE, x.vpn < USTACKTOP - 1)
  }

  /** page_lookup as the refill sees it. */
  method Look(k: Kernel, x: Slot) returns (found: Outcome<Option<nat>>)
    requires k.Valid() && Inv(k.Abs(), None)
    modifies k.Repr()
    ensures k.Valid()
    ensures found == Done(None) <==> x !in old(k.pte)
    ensures found == Done(None) || Present(old(k.pte), x) ==> k.Abs() == old(k.Abs())
    ensures found.Panic? <==> x in old(k.pte) && !Refills(old(k.Abs()), x)
    ensures found.Panic? ==> found.reason != BadAddress
    ensures found.Done? && found.value.Some? ==> FoundSince(old(k.Abs()), k.Abs(), x)
  {
    var ev;
    found, ev := k.PageLookup(x);
  }

  /** passive_alloc and the lookup after it, which finds the page. */
  method MakeAndLook(k: Kernel, x: Slot) returns (found: Outcome<Option<nat>>)
    requires k.Valid() && Inv(k.Abs(), None) && x.pgdir in k.asid && x.vpn < UVPT && x !in k.pte
    modifies k.Repr()
    ensures k.Valid() && found != Done(None)
    ensures found.Done? <==> Refills(old(k.Abs()), x)
    ensures found == Panic(BadAddress) <==> Forbidden(x.vpn)
    ensures found.Done? ==> FoundSince(old(k.Abs()), k.Abs(), x)
  {
    var made := PassiveAlloc(k, x);
    if made.Panic? {
      return Panic(made.reason);
    }
    found := Look(k, x);
  }

  /** page_lookup, with passive_alloc as long as it finds nothing. */
  method FindOrAlloc(k: Kernel, x: Slot) returns (r: Outcome<()>)
    requires k.Valid() && Inv(k.Abs(), None) && x.pgdir in k.asid && x.vpn < UVPT
    modifies k.Repr()
    ensures k.Valid()
    ensures r.Done? ==> FoundSince(old(k.Abs()), k.Abs(), x)
    ensures r == Panic(BadAddress) <==> x !in old(k.pte) && Forbidden(x.vpn)
    ensures r.Done? <==> Refills(old(k.Abs()), x)
    ensures Present(old(k.pte), x) ==> k.Abs() == old(k.Abs())
  {
    ghost var s := k.Abs();
    var found := Look(k, x);
    while found == Done(None)
      invariant k.Valid() && (found.Done? && found.value.Some? ==> FoundSince(s, k.Abs(), x))
      invariant found == Done(None) ==> k.Abs() == s && x !in s.pte
      invariant found != Done(None) ==> (found.Done? <==> Refills(s, x)) && (found == Panic(BadAddress) <==> x !in s.pte && Forbidden(x.vpn))
      invariant Present(s.pte, x) ==> k.Abs() == s
      decreases found == Done(None)
    {
      found := MakeAndLook(k, x);
    }
    r := if found.Panic? then Panic(found.reason) else Done(());
  }

  lemma RefillsFlushed(s: Vm, x: Slot)
    requires x.pgdir in s.asid
    ensures Refills(FlushState(s, x), x) <==> Refills(s, x)
  {}

  /** The TLB entry as the last step of the refill. */
  lemma RefillEnd(s: Vm, f: Vm, t: Vm, x: Slot, j: nat)
    requires x.pgdir in s.asid && f == FlushState(s, x) && FoundSince(f, t, x) && x.vpn < UTOP && j < |t.tlb|
    ensures x.pgdir in t.asid
    ensures var u := t.(tlb := t.tlb[j := Pair(t, x.pgdir, x.vpn)]);
      && Refilled(s, u, x, j) && (x !in s.pte ==> x in u.pte && PlainWritable(u.pte[x].perm))
      && (Inv(u, None) <==> x.vpn >= 2 || s.asid[x.pgdir] != 0)
  {
    RefillDone(s, f, t, x, j);
    RefillOrder(s, f, t, x, j);
  }

  lemma RefillReady(s: Vm, f: Vm, t: Vm, x: Slot)
    requires x.pgdir in s.asid && f == FlushState(s, x) && TlbShrinks(f.tlb, t.tlb) && t.asid == s.asid && HiOf(x, s.asid[x.pgdir]) != Hi(0, 0)
    ensures forall i :: 0 <= i < |t.tlb| ==> t.tlb[i].hi != HiOf(x, t.asid[x.pgdir])
  {}

  lemma RefillOrder(s: Vm, f: Vm, t: Vm, x: Slot, j: nat)
    requires Inv(t, None) && x.pgdir in s.asid && f == FlushState(s, x) && TlbShrinks(f.tlb, t.tlb) && t.asid == s.asid
    requires Present(t.pte, x) && j < |t.tlb|
    ensures Inv(t.(tlb := t.tlb[j := Pair(t, x.pgdir, x.vpn)]), None) <==> x.vpn >= 2 || s.asid[x.pgdir] != 0
  {
    if x.vpn >= 2 || s.asid[x.pgdir] != 0 {
      RefillReady(s, f, t, x);
    }
    RefillIff(t, x.pgdir, x.vpn, j);
  }

  /** Neither the flush nor the new TLB entry changes what user programs see. */
  lemma RefillSeen(s: Vm, f: Vm, t: Vm, x: Slot, j: nat)
    requires x.pgdir in s.asid && f == FlushState(s, x) && x.pgdir in t.asid && j < |t.tlb|
    requires if x in s.pte then Steady(f, t) else SameBut(f, t, {x}) && Private(t, x, ZeroPage(), WRITABLE)
    ensures var u := t.(tlb := t.tlb[j := Pair(t, x.pgdir, x.vpn)]);
      if x in s.pte then Steady(s, u) else SameBut(s, u, {x}) && Private(u, x, ZeroPage(), WRITABLE)
  {
    var u := t.(tlb := t.tlb[j := Pair(t, x.pgdir, x.vpn)]);
    var but := if x in s.pte then {} else {x};
    SameInvisible(s, f);
    SameWiden(s, f, {}, but);
    SameTrans(s, f, t, but);
    SameInvisible(t, u);
    SameWiden(t, u, {}, but);
    SameTrans(s, t, u, but);
    if x !in s.pte {
      forall y | Shares(u, x, y) ensures y == x { assert Shares(t, x, y); }
    }
  }

  /** The pair of entries that holds x is written to TLB entry j. */
  method WriteTlb(k: Kernel, x: Slot, j: nat)
    requires k.Valid() && x.pgdir in k.asid && j < k.tlb.Length
    modifies k.tlb
    ensures k.Valid() && k.Abs() == old(k.Abs()).(tlb := old(k.tlb[..])[j := Pair(old(k.Abs()), x.pgdir, x.vpn)])
  {
    var even := Slot(x.pgdir, x.vpn / 2 * 2);
    var odd := Slot(x.pgdir, x.vpn / 2 * 2 + 1);
    var lo0 := if even in k.pte then Hard(k.pte[even]) else Lo(0, false, false);
    var lo1 := if odd in k.pte then Hard(k.pte[odd]) else Lo(0, false, false);
    k.tlb[j] := TlbEntry(Hi(x.vpn / 2, k.asid[x.pgdir]), lo0, lo1);
  }

  /** The TLB entry for x after a refill that began in state s. */
  ghost predicate Refilled(s: Vm, u: Vm, x: Slot, j: nat) {
    && Present(u.pte, x) && x.pgdir in u.asid && j < |u.tlb| && u.tlb[j] == Pair(u, x.pgdir, x.vpn)
    && (if x in s.pte then Steady(s, u) else SameBut(s, u, {x}) && Private(u, x, ZeroPage(), WRITABLE))
    && u.asid == s.asid && NoLeak(s, u, None)
  }

  lemma RefillDone(s: Vm, f: Vm, t: Vm, x: Slot, j: nat)
    requires x.pgdir in s.asid && f == FlushState(s, x) && TlbShrinks(f.tlb, t.tlb) && t.asid == s.asid
    requires if x in s.pte then Steady(f, t) else SameBut(f, t, {x}) && Private(t, x, ZeroPage(), WRITABLE)
    requires Present(t.pte, x) && j < |t.tlb| && NoLeak(f, t, None)
    ensures Refilled(s, t.(tlb := t.tlb[j := Pair(t, x.pgdir, x.vpn)]), x, j)
  {
    RefillSeen(s, f, t, x, j);
  }

  /** _do_tlb_refill and the tlbwr after it, which overwrites an arbitrary entry j.  The TLB stays
      in order exactly unless the page is one of the first two in the space with id 0.  No page
      is mapped there by the allocating calls, but sys_ipc_try_send maps one at address 0 if
      the receiver has passed 0 and the sender a page. */
  method TlbRefill(k: Kernel, x: Slot, j: nat) returns (r: Outcome<()>)
    requires k.Valid() && Inv(k.Abs(), None) && x.pgdir in k.asid && x.vpn < UTOP && j < k.tlb.Length
    modifies k.Repr()
    ensures k.Valid()
    ensures r.Done? ==> Refilled(old(k.Abs()), k.Abs(), x, j)
    ensures r.Done? && x !in old(k.pte) ==> PlainWritable(k.pte[x].perm)
    ensures r.Done? ==> (Inv(k.Abs(), None) <==> x.vpn >= 2 || old(k.asid)[x.pgdir] != 0)
    ensures r == Panic(BadAddress) <==> x !in old(k.pte) && Forbidden(x.vpn)
    ensures r.Done? <==> Refills(old(k.Abs()), x)
    ensures Present(old(k.pte), x) ==> k.Abs() == old(k.Abs()).(tlb := k.tlb[..])
  {
    ghost var s := k.Abs();
    k.FlushEntry(x);
    ghost var f := k.Abs();
    RefillsFlushed(s, x);
    r := FindOrAlloc(k, x);
    if r.Done? {
      RefillEnd(s, f, k.Abs(), x, j);
      WriteTlb(k, x, j);
    }
  }
}
