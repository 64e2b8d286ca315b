/** What sys_mem_map means: the destination joins the pages that share the source's memory.
    And when it leaves the records of swappable pages as they should be. */
module VmShare {
  import opened Prelude
  import opened VmState
  import opened VmSteps
  import opened VmEvict
  import opened VmOps

  /** dst reads as src did, with its own permissions; it shares with exactly the pages that
      shared with src; nothing else is seen to change. */
  ghost predicate GotMapping(s: Vm, t: Vm, src: Slot, dst: Slot, perm: Perm) {
    && SameBut(s, t, {dst}) && src in s.pte
    && ViewAt(t, dst) == Mapped(Contained(s, Where(s.pte[src])), perm)
    && (forall y :: y != dst ==> (Shares(t, dst, y) <==> Shares(s, src, y)))
  }

  /** Two SwapInfo records on the list of x's frame name x. */
  ghost predicate TwoRecords(s: Vm, x: Slot) {
    x in s.pte && s.pte[x].valid && s.pte[x].num < |s.ste| &&
    exists i, j :: i != j && i in s.ste[s.pte[x].num] && j in s.ste[s.pte[x].num]
                   && i < |s.info| && j < |s.info| && s.info[i].slot == x && s.info[j].slot == x
  }

  /** A twice-registered page breaks the invariant, whatever the bookkeeping says. */
  lemma NeverTwoRecords(s: Vm, x: Slot, odd: Option<nat>)
    requires Inv(s, odd)
    ensures !TwoRecords(s, x)
  {
    if x in s.pte && s.pte[x].valid && s.pte[x].num < |s.ste| {
      var list := s.ste[s.pte[x].num];
      assert Lists(list, s.loc, Ram(s.pte[x].num));
      forall i, j | i in list && j in list && i < |s.info| && j < |s.info| && s.info[i].slot == x && s.info[j].slot == x
        ensures i == j
      {
        assert s.reg[x] == i && s.reg[x] == j;
      }
    }
  }

  /** A page's frame is queued iff the page is registered. */
  lemma QueuedIffRegistered(s: Vm, x: Slot)
    requires Inv(s, None) && x in s.pte && s.pte[x].valid
    ensures s.pte[x].num < |s.ste|
    ensures s.ste[s.pte[x].num] != [] <==> x in s.reg
    ensures s.pte[x].num in s.queue <==> x in s.reg
  {
    MappedFacts(s, x);
    var p := s.pte[x].num;
    if x in s.reg { RegisteredIsQueued(s, x, p); }
  }

  // ---------------------------------------------------------- what user programs see

  lemma EntrySeen(m: Vm, g: Vm, src: Slot, dst: Slot, p: nat, perm: Perm)
    requires ShapeOk(g) && p < |g.ref| && SameBut(m, g, {dst}) && dst !in g.pte && src != dst
    requires src in m.pte && src in g.pte && g.pte[src] == m.pte[src] && Where(m.pte[src]) == Ram(p)
    ensures GotMapping(m, MapPage(g, dst, p, perm), src, dst, perm)
  {
    var t := MapPage(g, dst, p, perm);
    MapLocal(g, dst, p, perm);
    SameTrans(m, g, t, {dst});
    assert ViewAt(g, src) == ViewAt(m, src);
    forall y | y != dst ensures Shares(t, dst, y) <==> Shares(m, src, y) {
      assert Shares(g, src, y) <==> Shares(m, src, y);
      assert y in t.pte ==> t.pte[y] == g.pte[y];
    }
  }

  /** The new entry at dst, as seen by user programs. */
  lemma InsertedSeen(m: Vm, g: Vm, src: Slot, dst: Slot, p: nat, perm: Perm, ev: seq<nat>)
    requires Inserted(m, g, dst, p, ev) && src in m.pte && m.pte[src].valid && m.pte[src].num == p
    ensures src != dst && GotMapping(m, MapPage(g, dst, p, perm), src, dst, perm)
  {
    EntrySeen(m, g, src, dst, p, perm);
  }

  lemma RemappedSeen(m: Vm, src: Slot, dst: Slot, perm: Perm)
    requires src in m.pte && dst in m.pte && Where(m.pte[src]) == Where(m.pte[dst]) && dst.pgdir in m.asid
    ensures GotMapping(m, RemapState(m, dst, perm), src, dst, perm)
  {
    RemapLocal(m, dst, perm);
  }

  /** Earlier paging and a later registration do not change what the call means. */
  lemma MappingAround(s: Vm, m: Vm, t: Vm, u: Vm, src: Slot, dst: Slot, perm: Perm)
    requires SameMemory(s, m) && GotMapping(m, t, src, dst, perm) && u.pte == t.pte && u.ram == t.ram && u.disk == t.disk
    ensures GotMapping(s, u, src, dst, perm)
  {
    assert ViewAt(s, src) == ViewAt(m, src);
    assert SameBut(s, u, {dst}) by {
      SameWiden(s, m, {}, {dst});
      SameTrans(s, m, t, {dst});
      SameInvisible(t, u);
      SameWiden(t, u, {}, {dst});
      SameTrans(s, t, u, {dst});
    }
    forall y | y != dst ensures Shares(u, dst, y) <==> Shares(s, src, y) {
      assert Shares(t, dst, y) <==> Shares(m, src, y);
      assert Shares(m, src, y) <==> Shares(s, src, y);
    }
  }

  // ------------------------------------------------------------------- the records

  /** The two calls that share a page: sys_mem_map and sys_ipc_try_send. */
  datatype Via = ByMap | BySend

  /** The call registers the destination: it decides by the source, sys_mem_map by the old
      destination if the source address is UCOW. */
  ghost predicate Registers(how: Via, s: Vm, src: Slot, dst: Slot) {
    src != dst && if how == ByMap && src.vpn == UCOW then dst in s.reg else src in s.reg
  }

  /** The destination is a registered page that shares the source's memory already: it gets
      a second record. */
  ghost predicate Doubled(s: Vm, src: Slot, dst: Slot) {
    src != dst && Shares(s, src, dst) && dst in s.reg
  }

  /** All mappings of the source's frame, or none, are registered afterwards. */
  ghost predicate Balanced(how: Via, s: Vm, src: Slot, dst: Slot) {
    Shares(s, src, dst) || how == BySend || src.vpn != UCOW || (src in s.reg <==> dst in s.reg)
  }

  /** What the call leaves of the invariant: exactly the case Doubled breaks it, and exactly
      the unbalanced cases leave one frame partly registered. */
  ghost predicate RecordsAfter(how: Via, s: Vm, u: Vm, src: Slot, dst: Slot) {
    dst in u.pte && u.pte[dst].valid &&
    if Doubled(s, src, dst) then TwoRecords(u, dst)
    else Inv(u, Some(u.pte[dst].num)) && (Inv(u, None) <==> Balanced(how, s, src, dst))
  }

  lemma Weaken(s: Vm, p: nat)
    requires Inv(s, None)
    ensures Inv(s, Some(p))
  {}

  /** Sharing pages are registered together. */
  lemma SharedRegistered(m: Vm, src: Slot, dst: Slot)
    requires Inv(m, None) && src in m.pte && m.pte[src].valid && Shares(m, src, dst)
    ensures src in m.reg <==> dst in m.reg
  {
    QueuedIffRegistered(m, src);
    QueuedIffRegistered(m, dst);
  }

  lemma RemapRecordsAfter(how: Via, m: Vm, src: Slot, dst: Slot, perm: Perm)
    requires Inv(m, None) && src in m.pte && m.pte[src].valid && Shares(m, src, dst) && dst.pgdir in m.asid
    requires !Registers(how, m, src, dst)
    ensures RecordsAfter(how, m, RemapState(m, dst, perm), src, dst)
  {
    SharedRegistered(m, src, dst);
    RemapStateKeeps(m, dst, perm);
    Weaken(RemapState(m, dst, perm), m.pte[dst].num);
  }

  lemma Twice(t: Vm, x: Slot, p: nat)
    requires ShapeOk(t) && ListsOk(t) && RegOk(t) && p < |t.ste| && t.pool != [] && t.pool[0] < |t.info|
    requires t.loc[t.pool[0]] == Pool && x in t.reg && x in t.pte && Where(t.pte[x]) == Ram(p) && x.pgdir in t.asid
    ensures TwoRecords(Register(t, x, p, t.asid[x.pgdir]), x)
  {
    var u := Register(t, x, p, t.asid[x.pgdir]);
    assert Lists(t.ste[p], t.loc, Ram(p));
    assert t.reg[x] in t.ste[p] && t.reg[x] != t.pool[0];
    assert t.pool[0] in u.ste[p] && t.reg[x] in u.ste[p];
  }

  lemma DoubledRecordsAfter(how: Via, m: Vm, src: Slot, dst: Slot, perm: Perm, p: nat)
    requires Inv(m, None) && src in m.pte && Where(m.pte[src]) == Ram(p) && Shares(m, src, dst) && dst.pgdir in m.asid
    requires ShapeOk(m) && Registers(how, m, src, dst) && m.pool != [] && m.pool[0] < |m.info| && p < |m.ste|
    ensures RecordsAfter(how, m, Register(RemapState(m, dst, perm), dst, p, m.asid[dst.pgdir]), src, dst)
  {
    assert Doubled(m, src, dst) by { SharedRegistered(m, src, dst); }
    var t := RemapState(m, dst, perm);
    assert TwoRecords(Register(t, dst, p, m.asid[dst.pgdir]), dst) by {
      PoolHead(m);
      RemapStateKeeps(m, dst, perm);
      Twice(t, dst, p);
    }
  }

  /** A queued frame with an unregistered mapping is what the invariant excludes. */
  lemma Unregistered(u: Vm, x: Slot)
    requires x in u.pte && u.pte[x].valid && u.pte[x].num in u.queue && x !in u.reg
    ensures !Inv(u, None)
  {}

  /** What the records depend on when dst is about to be mapped to src's frame p: m is the
      state before page_insert, g the one in which the entry is written. */
  ghost predicate Ready(m: Vm, g: Vm, src: Slot, dst: Slot, p: nat) {
    && dst !in g.pte && TableOf(dst) in g.tables
    && p < |g.ref| && p < |g.kind| && g.ref[p] < MAX_REF && g.kind[p] == Data && (p in g.queue <==> src in m.reg)
    && src in g.pte && g.pte[src].valid && g.pte[src].num == p && (src in g.reg <==> src in m.reg)
    && !Shares(m, src, dst)
  }

  lemma InsertedReady(m: Vm, g: Vm, src: Slot, dst: Slot, p: nat, ev: seq<nat>)
    requires Inserted(m, g, dst, p, ev) && m.kind[p] == Data && (p in m.queue <==> src in m.reg)
    requires src in m.pte && m.pte[src].valid && m.pte[src].num == p
    ensures Ready(m, g, src, dst, p)
  {
    assert m.kind[p] != Free && p !in ev;
  }

  lemma InsertRecordsAfter(how: Via, m: Vm, g: Vm, src: Slot, dst: Slot, p: nat, perm: Perm)
    requires Inv(g, None) && Ready(m, g, src, dst, p) && !Registers(how, m, src, dst) && ShapeOk(g)
    ensures RecordsAfter(how, m, MapPage(g, dst, p, perm), src, dst)
  {
    var u := MapPage(g, dst, p, perm);
    InsertKeeps(g, dst, p, perm);
    if src in m.reg {
      assert dst !in u.reg by { assert RegOk(g); }
      Unregistered(u, dst);
    } else {
      FreshComplete(u, p);
    }
  }

  lemma InsertRegisteredAfter(how: Via, m: Vm, g: Vm, src: Slot, dst: Slot, p: nat, perm: Perm)
    requires Inv(g, None) && Ready(m, g, src, dst, p) && Registers(how, m, src, dst) && g.pool != []
    requires ShapeOk(g) && p < |g.ste| && g.pool[0] < |g.info| && dst.pgdir in g.asid
    ensures RecordsAfter(how, m, Register(MapPage(g, dst, p, perm), dst, p, g.asid[dst.pgdir]), src, dst)
  {
    if src in m.reg {
      MapRegisters(g, dst, p, perm);
      Weaken(Register(MapPage(g, dst, p, perm), dst, p, g.asid[dst.pgdir]), p);
    } else {
      RegisteredAlone(g, src, dst, p, perm);
    }
  }

  lemma UnmappedUnregistered(g: Vm, x: Slot)
    requires RegOk(g) && x !in g.pte
    ensures x !in g.reg
  {}

  /** Registering only the new mapping of an unregistered frame leaves the old one behind. */
  lemma RegisteredAlone(g: Vm, src: Slot, dst: Slot, p: nat, perm: Perm)
    requires Inv(g, None) && dst !in g.pte && TableOf(dst) in g.tables && g.pool != []
    requires p < |g.ref| && g.ref[p] < MAX_REF && g.kind[p] == Data && p !in g.queue
    requires ShapeOk(g) && p < |g.ste| && g.pool[0] < |g.info| && dst.pgdir in g.asid
    requires src in g.pte && g.pte[src].valid && g.pte[src].num == p && src !in g.reg
    ensures var u := Register(MapPage(g, dst, p, perm), dst, p, g.asid[dst.pgdir]); Inv(u, Some(p)) && !Inv(u, None)
  {
    var t := MapPage(g, dst, p, perm);
    MapKeeps(g, dst, p, perm);
    UnmappedUnregistered(g, dst);
    RegisterOdd(t, dst, p, Some(p));
    Unregistered(Register(t, dst, p, g.asid[dst.pgdir]), src);
  }

  // ----------------------------------------------------------- the call as a whole

  /** What paging leaves alone, without saying which frames it used. */
  ghost predicate Steady(s: Vm, t: Vm) {
    && SameMemory(s, t) && t.asid == s.asid && t.owner == s.owner && t.reg == s.reg && t.pte.Keys == s.pte.Keys
    && NoLeak(s, t, None)
  }

  ghost predicate Calm(s: Vm, t: Vm) {
    Steady(s, t) && TlbShrinks(s.tlb, t.tlb)
  }

  lemma CalmCalm(s: Vm, m: Vm, t: Vm)
    requires Calm(s, m) && Calm(m, t)
    ensures Calm(s, t)
  {
    SameTrans(s, m, t, {});
  }

  /** The destination is swappable afterwards if the call registers it, or if it was swappable
      and shared the source's memory already. */
  ghost predicate SwappableAfter(how: Via, s: Vm, u: Vm, src: Slot, dst: Slot) {
    dst in u.reg <==> Registers(how, s, src, dst) || (dst in s.reg && Shares(s, src, dst))
  }

  /** The call has mapped dst to src's memory. */
  ghost predicate MapDone(how: Via, s: Vm, u: Vm, src: Slot, dst: Slot, perm: Perm) {
    && GotMapping(s, u, src, dst, perm) && RecordsAfter(how, s, u, src, dst) && Aside(s, u, dst)
    && SwappableAfter(how, s, u, src, dst)
  }

  /** The page_insert of sys_mem_map is done; g is the state in which it wrote the entry. */
  ghost predicate Wrote(m: Vm, g: Vm, t: Vm, src: Slot, dst: Slot, p: nat, perm: Perm, ev: seq<nat>) {
    if Shares(m, src, dst) then dst.pgdir in m.asid && t == RemapState(m, dst, perm)
    else Inserted(m, g, dst, p, ev) && ShapeOk(g) && t == MapPage(g, dst, p, perm)
  }

  lemma WroteSeen(m: Vm, g: Vm, t: Vm, src: Slot, dst: Slot, p: nat, perm: Perm, ev: seq<nat>)
    requires Wrote(m, g, t, src, dst, p, perm, ev) && src in m.pte && Where(m.pte[src]) == Ram(p)
    ensures GotMapping(m, t, src, dst, perm)
  {
    if Shares(m, src, dst) {
      RemappedSeen(m, src, dst, perm);
    } else {
      InsertedSeen(m, g, src, dst, p, perm, ev);
    }
  }

  /** What a mapping call at dst leaves alone. */
  ghost predicate Aside(m: Vm, t: Vm, dst: Slot) {
    && t.asid == m.asid && t.owner == m.owner && t.reg - {dst} == m.reg - {dst} && t.pte.Keys == m.pte.Keys + {dst}
    && TlbShrinks(m.tlb, t.tlb) && NoLeak(m, t, None)
  }

  lemma AsideInserted(m: Vm, g: Vm, dst: Slot, p: nat, perm: Perm, ev: seq<nat>)
    requires Removed(m, g, dst, ev) && ShapeOk(g) && p < |g.ref|
    ensures Aside(m, MapPage(g, dst, p, perm), dst)
  {
    var t := MapPage(g, dst, p, perm);
    assert t.reg - {dst} == m.reg - {dst};
    assert t.pte.Keys == g.pte.Keys + {dst};
  }

  lemma AsideRemapped(m: Vm, dst: Slot, perm: Perm)
    requires dst in m.pte && dst.pgdir in m.asid
    ensures Aside(m, RemapState(m, dst, perm), dst)
  {
    assert RemapState(m, dst, perm).pte.Keys == m.pte.Keys;
  }

  lemma WroteRest(m: Vm, g: Vm, t: Vm, src: Slot, dst: Slot, p: nat, perm: Perm, ev: seq<nat>)
    requires Wrote(m, g, t, src, dst, p, perm, ev)
    ensures Aside(m, t, dst)
  {
    if Shares(m, src, dst) {
      AsideRemapped(m, dst, perm);
    } else {
      AsideInserted(m, g, dst, p, perm, ev);
    }
  }

  lemma AsideRegistered(m: Vm, t: Vm, dst: Slot, p: nat)
    requires Aside(m, t, dst) && t.pool != [] && p < |t.ste| && ShapeOk(t) && t.pool[0] < |t.info| && dst.pgdir in t.asid
    ensures Aside(m, Register(t, dst, p, t.asid[dst.pgdir]), dst)
  {
    assert Register(t, dst, p, t.asid[dst.pgdir]).reg - {dst} == t.reg - {dst};
  }

  lemma WroteUnregistered(how: Via, m: Vm, g: Vm, t: Vm, src: Slot, dst: Slot, p: nat, perm: Perm, ev: seq<nat>)
    requires Inv(m, None) && Wrote(m, g, t, src, dst, p, perm, ev) && src in m.pte && Where(m.pte[src]) == Ram(p)
    requires !Registers(how, m, src, dst)
    ensures MapDone(how, m, t, src, dst, perm)
  {
    WroteSeen(m, g, t, src, dst, p, perm, ev);
    WroteRest(m, g, t, src, dst, p, perm, ev);
    assert SwappableAfter(how, m, t, src, dst) by { WroteReg(m, g, t, src, dst, p, perm, ev); }
    assert RecordsAfter(how, m, t, src, dst) by {
      if Shares(m, src, dst) {
        RemapRecordsAfter(how, m, src, dst, perm);
      } else {
        SourceIsData(m, src, p);
        InsertedReady(m, g, src, dst, p, ev);
        InsertRecordsAfter(how, m, g, src, dst, p, perm);
      }
    }
  }

  /** page_insert by itself leaves dst registered only where it just changes permissions. */
  lemma WroteReg(m: Vm, g: Vm, t: Vm, src: Slot, dst: Slot, p: nat, perm: Perm, ev: seq<nat>)
    requires Wrote(m, g, t, src, dst, p, perm, ev)
    ensures dst in t.reg <==> dst in m.reg && Shares(m, src, dst)
  {
    if !Shares(m, src, dst) { assert g.reg == m.reg - {dst}; }
  }

  lemma SourceIsData(m: Vm, src: Slot, p: nat)
    requires Inv(m, None) && src in m.pte && Where(m.pte[src]) == Ram(p)
    ensures p < |m.kind| && m.kind[p] == Data && (p in m.queue <==> src in m.reg)
  {
    MappedFacts(m, src);
    QueuedIffRegistered(m, src);
  }

  lemma WroteRegistered(how: Via, m: Vm, g: Vm, t: Vm, src: Slot, dst: Slot, p: nat, perm: Perm, ev: seq<nat>)
    requires Inv(m, None) && Wrote(m, g, t, src, dst, p, perm, ev) && src in m.pte && Where(m.pte[src]) == Ram(p)
    requires Registers(how, m, src, dst) && t.pool != [] && p < |t.ste| && ShapeOk(t) && t.pool[0] < |t.info| && dst.pgdir in t.asid
    ensures MapDone(how, m, Register(t, dst, p, t.asid[dst.pgdir]), src, dst, perm)
  {
    var u := Register(t, dst, p, t.asid[dst.pgdir]);
    assert GotMapping(m, u, src, dst, perm) by {
      WroteSeen(m, g, t, src, dst, p, perm, ev);
      SameInvisible(m, m);
      MappingAround(m, m, t, u, src, dst, perm);
    }
    assert Aside(m, u, dst) by {
      WroteRest(m, g, t, src, dst, p, perm, ev);
      AsideRegistered(m, t, dst, p);
    }
    assert SwappableAfter(how, m, u, src, dst);
    assert RecordsAfter(how, m, u, src, dst) by { WroteRecords(how, m, g, t, src, dst, p, perm, ev); }
  }

  lemma WroteRecords(how: Via, m: Vm, g: Vm, t: Vm, src: Slot, dst: Slot, p: nat, perm: Perm, ev: seq<nat>)
    requires Inv(m, None) && Wrote(m, g, t, src, dst, p, perm, ev) && src in m.pte && Where(m.pte[src]) == Ram(p)
    requires Registers(how, m, src, dst) && t.pool != [] && p < |t.ste| && ShapeOk(t) && t.pool[0] < |t.info| && dst.pgdir in t.asid
    ensures RecordsAfter(how, m, Register(t, dst, p, t.asid[dst.pgdir]), src, dst)
  {
    if Shares(m, src, dst) {
      DoubledRecordsAfter(how, m, src, dst, perm, p);
    } else {
      SourceIsData(m, src, p);
      InsertedReady(m, g, src, dst, p, ev);
      InsertRegisteredAfter(how, m, g, src, dst, p, perm);
    }
  }

  lemma SameCases(how: Via, s: Vm, m: Vm, src: Slot, dst: Slot)
    requires SameMemory(s, m) && m.reg == s.reg
    ensures Doubled(s, src, dst) <==> Doubled(m, src, dst)
    ensures Balanced(how, s, src, dst) <==> Balanced(how, m, src, dst)
  {
    assert Shares(s, src, dst) <==> Shares(m, src, dst);
  }

  lemma RecordsAfterCalm(how: Via, s: Vm, m: Vm, u: Vm, src: Slot, dst: Slot)
    requires SameMemory(s, m) && m.reg == s.reg && RecordsAfter(how, m, u, src, dst)
    ensures RecordsAfter(how, s, u, src, dst)
  {
    SameCases(how, s, m, src, dst);
  }

  /** There is a record to register dst with. */
  ghost predicate RecordLeft(s: Vm, src: Slot, dst: Slot) {
    s.pool != [] || (dst in s.reg && !Shares(s, src, dst))
  }

  /** swap_register can follow the page_insert. */
  lemma WroteReady(m: Vm, g: Vm, t: Vm, src: Slot, dst: Slot, p: nat, perm: Perm, ev: seq<nat>)
    requires Inv(m, None) && Wrote(m, g, t, src, dst, p, perm, ev) && p < |m.ste| && dst.pgdir in m.asid
    requires !Shares(m, src, dst) ==> t.pool == Returned(m, dst)
    ensures ShapeOk(t) && p < |t.ste| && dst.pgdir in t.asid && (t.pool != [] ==> t.pool[0] < |t.info|)
    ensures t.pool != [] <==> RecordLeft(m, src, dst)
  {
    if Shares(m, src, dst) {
      if m.pool != [] { PoolHead(m); }
    } else {
      if g.pool != [] { PoolHead(g); }
    }
  }

  /** What the call means does not depend on the paging before it. */
  lemma MapDoneAfter(how: Via, s: Vm, m: Vm, u: Vm, src: Slot, dst: Slot, perm: Perm)
    requires Calm(s, m) && MapDone(how, m, u, src, dst, perm)
    ensures MapDone(how, s, u, src, dst, perm)
  {
    assert GotMapping(s, u, src, dst, perm) by { MappingAround(s, m, u, u, src, dst, perm); }
    assert RecordsAfter(how, s, u, src, dst) by { RecordsAfterCalm(how, s, m, u, src, dst); }
    assert Aside(s, u, dst) by { AsideCalm(s, m, u, dst); }
    assert SwappableAfter(how, s, u, src, dst) by { SwappableCalm(how, s, m, u, src, dst); }
  }

  lemma SwappableCalm(how: Via, s: Vm, m: Vm, u: Vm, src: Slot, dst: Slot)
    requires SameMemory(s, m) && m.reg == s.reg && SwappableAfter(how, m, u, src, dst)
    ensures SwappableAfter(how, s, u, src, dst)
  {
    assert Shares(s, src, dst) <==> Shares(m, src, dst);
  }

  lemma AsideCalm(s: Vm, m: Vm, u: Vm, dst: Slot)
    requires Calm(s, m) && Aside(m, u, dst)
    ensures Aside(s, u, dst)
  {}

  lemma MappedShares(s: Vm, u: Vm, src: Slot, dst: Slot, perm: Perm)
    requires GotMapping(s, u, src, dst, perm) && Aside(s, u, dst) && src != dst && src in s.reg
    ensures src in u.reg && Shares(u, dst, src)
  {
    assert src in u.reg by { assert src in s.reg - {dst}; }
    assert Shares(u, dst, src) by { assert Shares(s, src, src); }
  }

  /** How the case Doubled comes about: a registered page is mapped at one destination, which
      leaves the invariant intact, and then mapped there again. */
  lemma SecondMapDoubles(how: Via, s: Vm, u: Vm, src: Slot, dst: Slot, perm: Perm)
    requires MapDone(how, s, u, src, dst, perm) && !Doubled(s, src, dst)
    requires src != dst && src in s.reg && !(how == ByMap && src.vpn == UCOW)
    ensures Inv(u, None) && Doubled(u, src, dst)
  {
    MappedShares(s, u, src, dst, perm);
    SharedRegistered(u, dst, src);
  }
}
