/** The memory manager of kern/pmap.c: its tables as arrays that are updated in place. */
module Kernels {
  import opened Prelude
  import opened VmState
  import opened VmClock
  import opened VmSteps
  import opened VmEvict
  import opened VmOps
  import opened VmLookup

  class Kernel {
    const ram: array<Contents>        // physical memory, by frame
    const disk: array<Contents>       // the swap disk, by block
    const bitmap: array<bool>         // sd_bitmap
    const tlb: array<TlbEntry>
    var ref: seq<nat>                 // pages[].pp_ref
    var accessed: seq<bool>           // pages[].accessed
    var free: seq<nat>                // page_free_list
    var queue: seq<nat>               // page_swap_queue
    var ste: seq<seq<nat>>            // swap_tbl
    var bste: seq<seq<nat>>           // bno_tbl
    var info: seq<SwapInfo>           // swapInfos
    var pool: seq<nat>                // swapInfo_free_list
    var hand: Option<nat>             // last_next
    var asid: map<nat, nat>           // live page directories
    var tables: map<TableKey, nat>    // valid page-directory entries
    var pte: map<Slot, Pte>           // page-table entries that are not zero
    ghost var loc: seq<Loc>
    ghost var kind: seq<Kind>
    ghost var reg: map<Slot, nat>
    ghost var owner: map<nat, nat>

    ghost function Repr(): set<object> {
      {this, ram, disk, bitmap, tlb}
    }

    /** The state as a value. */
    ghost function Abs(): (s: Vm)
      reads this, ram, disk, bitmap, tlb
    {
      Vm(ram[..], ref, free, disk[..], bitmap[..], queue, ste, bste, info, pool,
         asid, tables, pte, tlb[..], loc, kind, reg, owner)
    }

    ghost function Clk(): Clock
      reads `accessed, `hand
    {
      Clock(accessed, hand)
    }

    /** The frames that the next page_alloc evicts. */
    ghost function ToEvict(): seq<nat>
      reads `free, `queue, `accessed, `hand
    {
      if free == [] then Victims(queue, Clk(), NSWAP) else []
    }

    ghost predicate Valid()
      reads `hand, `accessed, `ref, `ste, `bste
    {
      && ram != disk
      && |accessed| == |ref| == |ste| == ram.Length
      && disk.Length == bitmap.Length == |bste| == SD_NBLK
      && (hand.Some? ==> hand.value < ram.Length)
    }

    /** mips_vm_init and page_init: frames below nboot hold the kernel; every other frame,
        every swap block and every SwapInfo record is free; no address space exists. */
    constructor (npage: nat, nboot: nat, ntlb: nat)
      requires nboot <= npage
      ensures Valid() && Abs() == BootState(npage, nboot, ntlb)
    {
      var frames := InsertAll(nboot, npage);
      var records := InsertAll(0, MAX_SWAPINFO);
      ram := new Contents[npage](_ => []);
      disk := new Contents[SD_NBLK](_ => []);
      bitmap := new bool[SD_NBLK](_ => false);
      tlb := new TlbEntry[ntlb](_ => EMPTY);
      accessed, hand, queue := Const(npage, false), None, [];
      ref := Const(nboot, 1) + Const(npage - nboot, 0);
      free, pool := frames, records;
      ste, bste, info := Const(npage, []), Const(SD_NBLK, []), Const(MAX_SWAPINFO, SwapInfo(Slot(0, 0), 0));
      asid, tables, pte := map[], map[], map[];
      loc := Const(MAX_SWAPINFO, Pool);
      kind := Const(nboot, Reserved) + Const(npage - nboot, Free);
      reg, owner := map[], map[];
    }

    // ------------------------------------------------------------- the swap disk

    /** sd_block_alloc: the lowest free block. */
    method SdBlockAlloc() returns (r: Outcome<nat>)
      requires Valid()
      modifies bitmap
      ensures Valid()
      ensures r.Panic? <==> forall b :: 0 <= b < bitmap.Length ==> old(bitmap[b])
      ensures r.Panic? ==> r.reason == DiskFull && bitmap[..] == old(bitmap[..])
      ensures r.Done? ==> r.value < bitmap.Length && !old(bitmap[r.value])
      ensures r.Done? ==> forall b :: 0 <= b < r.value ==> old(bitmap[b])
      ensures r.Done? ==> Abs() == old(Abs()).(bitmap := old(bitmap[..])[r.value := true])
    {
      for bno := 0 to SD_NBLK
        invariant forall b :: 0 <= b < bno ==> bitmap[b]
        invariant bitmap[..] == old(bitmap[..])
      {
        if !bitmap[bno] {
          bitmap[bno] := true;
          return Done(bno);
        }
      }
      return Panic(DiskFull);
    }

    // ------------------------------------------------------------------- the TLB

    /** tlb_out: probe for the entry and clear it. */
    method TlbOut(hi: Hi)
      requires TlbUnique(tlb[..])
      modifies tlb
      ensures tlb[..] == Flushed(old(tlb[..]), hi) && TlbUnique(tlb[..])
    {
      var j := 0;
      while j < tlb.Length && tlb[j].hi != hi
        invariant 0 <= j <= tlb.Length
        invariant forall i :: 0 <= i < j ==> tlb[i].hi != hi
      {
        j := j + 1;
      }
      ghost var was := tlb[..];
      if j < tlb.Length {
        tlb[j] := EMPTY;
      }
      forall i | 0 <= i < tlb.Length ensures tlb[i] == Cleared(was[i], hi) {
        if i > j && was[i].hi == hi {
          assert was[j].hi == was[i].hi;
        }
      }
    }

    // ------------------------------------------------------------ the clock (swap)

    ghost function Marked(): set<nat>
      reads `accessed, `queue
    {
      MarkedIn(queue, accessed)
    }

    /** The second-chance loop: it ends after at most (queued frames with accessed set) +
        NSWAP steps with a member of the queue, wherever the hand has been left. */
    method Turn(start: nat) returns (pp: nat, ghost steps: nat)
      requires Valid() && queue != [] && start < ram.Length && forall q :: q in queue ==> q < ram.Length
      modifies `accessed
      ensures Valid() && pp in queue && pp < ram.Length
      ensures steps <= old(|Marked()|) + NSWAP
      ensures (pp, accessed) == Sweep(queue, old(accessed), start, start, NSWAP)
    {
      var max := NSWAP;
      pp, steps := start, 0;
      while true
        invariant Valid() && pp < ram.Length && max >= 1
        invariant Sweep(queue, accessed, start, pp, max) == Sweep(queue, old(accessed), start, start, NSWAP)
        invariant steps + |Marked()| + max <= old(|Marked()|) + NSWAP
        decreases |Marked()| + max
      {
        pp := After(queue, pp);
        steps := steps + 1;
        if pp == start {
          break;
        }
        if accessed[pp] {
          Unmark(queue, accessed, pp);
          accessed := accessed[pp := false];
        } else {
          max := max - 1;
          if max <= 0 {
            break;
          }
        }
      }
    }

    /** The clock of swap(): the victim, by the rule of the second chance, and the next hand are
        queued. */
    method PickVictim() returns (victim: nat, ghost steps: nat)
      requires Valid() && queue != [] && Distinct(queue) && forall q :: q in queue ==> q < ram.Length
      modifies `accessed, `hand
      ensures Valid() && victim in queue && victim < ram.Length && Abs() == old(Abs())
      ensures hand.Some? && hand.value in queue
      ensures (victim, Clk()) == Chosen(queue, old(Clk()))
      ensures RightVictim(queue, old(Clk()), victim, Clk())
      ensures steps <= old(|Marked()|) + NSWAP
    {
      var start: nat;
      if hand.Some? {
        start := hand.value;
      } else {
        assert queue[0] in queue;
        start := queue[0];
      }
      ChosenRight(queue, Clk());
      victim, steps := Turn(start);
      hand := Some(After(queue, victim));
    }

    // --------------------------------------------------- the list walks of swap()

    /** LIST_FOREACH over the records of frame p: check and rewrite the entry, flush the TLB,
        count the frame down.  The kernel's two checks on the entry never fire. */
    method AimRecordsAtBlock(p: nat, b: nat)
      requires p < |ste| && p < |ref| && |ste[p]| <= ref[p] && TlbUnique(tlb[..])
      requires ChecksOk(info, pte, tables, ste[p], Ram(p), Disk(b))
      modifies `pte, `ref, tlb
      ensures Abs() == old(Abs()).(pte := Walk(info, old(pte), ste[p], Disk(b)),
                                   tlb := WalkTlb(info, old(tlb[..]), ste[p]), ref := old(ref)[p := old(ref[p]) - |ste[p]|])
    {
      ghost var recs, start, tlb0, ref0 := info, pte, tlb[..], ref;
      var ids := ste[p];
      for k := 0 to |ids|
        invariant pte == Walk(recs, start, ids[..k], Disk(b))
        invariant tlb[..] == WalkTlb(recs, tlb0, ids[..k]) && TlbUnique(tlb[..])
        invariant ref == ref0[p := ref0[p] - k]
      {
        assert CheckOk(recs, start, tables, ids, k, Ram(p), Disk(b));
        assert ids[..k + 1][..k] == ids[..k];
        var sinfo := info[ids[k]];
        var x := sinfo.slot;
        assert TableOf(x) in tables;
        assert pte[x].valid && !pte[x].swapped;
        pte := pte[x := Aim(pte[x], Disk(b))];
        TlbOut(HiOf(x, sinfo.asid));
        ref := ref[p := ref[p] - 1];
      }
      assert ids[..|ids|] == ids;
    }

    // ---------------------------------------------- the list walks of swap_back()

    /** LIST_FOREACH over the records of block b: check and rewrite the entry, count the
        frame up; no TLB entry is touched.  The kernel's two checks never fire. */
    method AimRecordsAtFrame(b: nat, p: nat)
      requires b < |bste| && p < |ref| && ref[p] == 0
      requires ChecksOk(info, pte, tables, bste[b], Disk(b), Ram(p))
      modifies `pte, `ref
      ensures Abs() == old(Abs()).(pte := Walk(info, old(pte), bste[b], Ram(p)), ref := old(ref)[p := |bste[b]|])
    {
      ghost var recs, start, tlb0, ref0 := info, pte, tlb[..], ref;
      var ids := bste[b];
      for k := 0 to |ids|
        invariant pte == Walk(recs, start, ids[..k], Ram(p))
        invariant ref == ref0[p := k]
      {
        assert CheckOk(recs, start, tables, ids, k, Disk(b), Ram(p));
        assert ids[..k + 1][..k] == ids[..k];
        var x := info[ids[k]].slot;
        assert TableOf(x) in tables;
        assert !pte[x].valid && pte[x].swapped;
        pte := pte[x := Aim(pte[x], Ram(p))];
        ref := ref[p := ref[p] + 1];
      }
      assert ids[..|ids|] == ids;
    }

    // ------------------------------------------------------- swap and page_alloc

    /** The middle of swap(): the pages of frame p are pointed at block b, which inherits the
        records. */
    method HandOver(p: nat, b: nat)
      requires Valid() && p < |ste| && b < |bste| && |ste[p]| == ref[p] && TlbUnique(tlb[..])
      requires ChecksOk(info, pte, tables, ste[p], Ram(p), Disk(b)) && bste[b] == []
      modifies `pte, `ref, tlb, `ste, `bste
      ensures Valid()
      ensures Abs() == old(Abs()).(pte := Walk(info, old(pte), old(ste[p]), Disk(b)),
                                   tlb := WalkTlb(info, old(tlb[..]), old(ste[p])), ref := old(ref)[p := 0],
                                   ste := old(ste)[p := []], bste := old(bste)[b := Reverse(old(ste[p]))])
    {
      AimRecordsAtBlock(p, b);
      assert ref[p] == 0;
      var moved := MoveRecords(ste[p]);
      ste, bste := ste[p := []], bste[b := moved];
    }

    /** The end of swap(): frame p leaves the queue and becomes free. */
    method Release(p: nat, b: nat)
      requires Valid() && p in queue && p < |kind|
      modifies `queue, `free, `kind, `loc
      ensures Valid()
      ensures Abs() == old(Abs()).(queue := Without(old(queue), p), free := [p] + old(free),
                                   kind := old(kind)[p := Free], loc := Relocated(old(loc), Ram(p), Disk(b)))
    {
      queue := Without(queue, p);
      free := [p] + free;
      kind := kind[p := Free];
      loc := Relocated(loc, Ram(p), Disk(b));
    }

    /** The body of swap() once victim and block are chosen. */
    method EvictTo(p: nat, b: nat)
      requires Valid() && p in queue && p < |ste| && p < |kind| && b < |bste|
      requires |ste[p]| == ref[p] && TlbUnique(tlb[..]) && bste[b] == []
      requires ChecksOk(info, pte, tables, ste[p], Ram(p), Disk(b))
      requires p < |Abs().kind|
      modifies `pte, `ref, tlb, `ste, `bste, disk, `queue, `free, `kind, `loc
      ensures Valid() && Abs() == EvictState(old(Abs()), p, b)
    {
      disk[b] := ram[p];
      HandOver(p, b);
      Release(p, b);
    }

    /** swap() once the clock has chosen its victim. */
    method EvictVictim(pp: nat) returns (r: Outcome<()>, ghost block: nat)
      requires Valid() && Inv(Abs(), None) && pp in queue
      modifies Repr() - {this}, `pte, `ref, `ste, `bste, `queue, `free, `kind, `loc
      ensures Valid()
      ensures r.Panic? <==> forall c :: 0 <= c < bitmap.Length ==> old(bitmap[c])
      ensures r.Panic? ==> r.reason == DiskFull
      ensures r.Done? ==> block < bitmap.Length && !old(bitmap[block]) && Evicts(old(Abs()), Abs(), pp, block)
    {
      ghost var s := Abs();
      block := 0;
      var bno := SdBlockAlloc();
      if bno.Panic? {
        return Panic(bno.reason), 0;
      }
      block := bno.value;
      OutReady(s, pp, block);
      QueuedCounts(s, pp);
      EvictTo(pp, bno.value);
      r := Done(());
    }

    /** swap(): evicts one queued frame to the lowest free block; user programs cannot tell.
        An empty queue is left alone; a full disk halts the machine.  The kernel's checks on
        entries and counts never fire. */
    method Swap() returns (r: Outcome<Option<nat>>, ghost block: nat)
      requires Valid() && Inv(Abs(), None)
      modifies Repr()
      ensures Valid()
      ensures r.Panic? <==> old(queue) != [] && forall c :: 0 <= c < bitmap.Length ==> old(bitmap[c])
      ensures r.Panic? ==> r.reason == DiskFull
      ensures r == Done(None) <==> old(queue) == []
      ensures r == Done(None) ==> Abs() == old(Abs()) && Clk() == old(Clk())
      ensures r.Done? && r.value.Some? ==>
        r.value.value in old(queue) && block < bitmap.Length && !old(bitmap[block]) &&
        Evicts(old(Abs()), Abs(), r.value.value, block)
      ensures r.Done? && r.value.Some? ==> (r.value.value, Clk()) == Chosen(old(queue), old(Clk()))
    {
      block := 0;
      if queue == [] {
        return Done(None), 0;
      }
      assert forall q :: q in Abs().queue ==> q < |Abs().ste|;
      var pp, _ := PickVictim();
      var gone;
      gone, block := EvictVictim(pp);
      r := if gone.Panic? then Panic(gone.reason) else Done(Some(pp));
    }

    /** One more eviction of a run that began in state s with the clock c. */
    method SwapStep(ghost s: Vm, ghost c: Clock, evicted: seq<nat>, ghost trace: seq<(seq<nat>, Clock)>)
      returns (r: Outcome<seq<nat>>, ghost longer: seq<(seq<nat>, Clock)>)
      requires Valid() && Inv(Abs(), None) && Evicting(s, c, Abs(), Clk(), evicted, trace)
      modifies Repr()
      ensures Valid()
      ensures r.Panic? ==> r.reason == DiskFull && FreeBlocks(s.bitmap) == |evicted| < |s.queue|
      ensures r.Done? ==> Inv(Abs(), None) && Evicting(s, c, Abs(), Clk(), r.value, longer)
      ensures r.Done? ==> |r.value| == Min(|evicted| + 1, |s.queue|)
    {
      longer := trace;
      ghost var m, clock := Abs(), Clk();
      var sw, block := Swap();
      match sw {
        case Panic(reason) =>
          RecycledFull(s, m, evicted);
          r := Panic(reason);
        case Done(None) =>
          r := Done(evicted);
        case Done(Some(p)) =>
          longer := EvictingMore(s, c, m, clock, Abs(), Clk(), evicted, trace, p, block);
          r := Done(evicted + [p]);
      }
    }

    /** page_alloc's loop on an empty free list: up to NSWAP evictions. */
    method SwapMany() returns (r: Outcome<()>, evicted: seq<nat>)
      requires Valid() && Inv(Abs(), None)
      modifies Repr()
      ensures Valid()
      ensures r.Panic? <==> FreeBlocks(old(bitmap[..])) < Min(NSWAP, |old(queue)|)
      ensures r.Panic? ==> r.reason == DiskFull
      ensures r.Done? ==> Inv(Abs(), None) && Recycled(old(Abs()), Abs(), evicted)
      ensures r.Done? ==> evicted == Victims(old(queue), old(Clk()), NSWAP) && |evicted| == Min(NSWAP, |old(queue)|)
    {
      ghost var s, c, trace := Abs(), Clk(), [(queue, Clk())];
      evicted := [];
      RecycledNothing(s);
      for i := 0 to NSWAP
        invariant Valid() && Inv(Abs(), None) && Evicting(s, c, Abs(), Clk(), evicted, trace)
        invariant |evicted| == Min(i, |s.queue|)
      {
        var sw;
        sw, trace := SwapStep(s, c, evicted, trace);
        if sw.Panic? {
          return Panic(sw.reason), evicted;
        }
        evicted := sw.value;
      }
      EvictingEnd(s, c, Abs(), Clk(), evicted, trace);
      r := Done(());
    }

    /** LIST_REMOVE of the first free frame, which is zeroed. */
    method TakeFrame() returns (pp: nat)
      requires Valid() && Inv(Abs(), None) && free != [] && free[0] < ram.Length
      modifies ram, `free, `accessed, `kind
      ensures Valid() && pp == old(free)[0] && Abs() == Allocate(old(Abs()))
      ensures pp < ram.Length && accessed == old(accessed)[pp := false]
    {
      pp := free[0];
      free := free[1..];
      ram[pp] := ZeroPage();
      accessed := accessed[pp := false];
      kind := kind[pp := Held];
    }

    /** page_alloc: the first free frame, zeroed, after evictions if there was none.  It fails
        exactly when the free list is empty and either no frame is queued or the swap disk
        cannot take all the pages that NSWAP evictions write.  m is the state in which the
        frame is taken. */
    method PageAlloc() returns (r: Outcome<nat>, evicted: seq<nat>, ghost m: Vm)
      requires Valid() && Inv(Abs(), None)
      modifies Repr()
      ensures Valid()
      ensures r.Panic? <==> OutOfMemory(old(Abs()))
      ensures r.Panic? ==> r.reason == NoFrame || r.reason == DiskFull
      ensures r.Done? ==> Inv(m, None) && Recycled(old(Abs()), m, evicted)
      ensures r.Done? ==> m.free != [] && m.free[0] < |m.ram| && r.value == m.free[0] && Abs() == Allocate(m)
      ensures r.Done? ==> evicted == old(ToEvict())
      ensures r.Done? && old(free) != [] ==> m == old(Abs()) && Taken(old(Clk()), Clk(), r.value)
    {
      evicted, m := [], Abs();
      RecycledNothing(m);
      if free == [] {
        var sw;
        sw, evicted := SwapMany();
        if sw.Panic? {
          return Panic(sw.reason), evicted, m;
        }
        if free == [] {
          return Panic(NoFrame), evicted, m;
        }
        m := Abs();
      }
      FreeHead(m);
      var pp := TakeFrame();
      r := Done(pp);
    }

    // ------------------------------------------------------------------ swap_back

    /** read_page and sd_block_free, then the walk over the records. */
    method ReadBlock(b: nat, p: nat)
      requires Valid() && b < |bste| && p < ram.Length && ref[p] == 0
      requires ChecksOk(info, pte, tables, bste[b], Disk(b), Ram(p))
      modifies ram, bitmap, `pte, `ref
      ensures Valid()
      ensures Abs() == old(Abs()).(ram := old(ram[..])[p := disk[b]], bitmap := old(bitmap[..])[b := false],
                                   pte := Walk(info, old(pte), bste[b], Ram(p)), ref := old(ref)[p := |bste[b]|])
    {
      ram[p] := disk[b];
      bitmap[b] := false;
      AimRecordsAtFrame(b, p);
    }

    /** The body of swap_back() once it holds the zeroed frame p. */
    method BringTo(b: nat, p: nat)
      requires Valid() && b < |bste| && p < ram.Length && p < |kind| && ref[p] == 0 && ste[p] == []
      requires ChecksOk(info, pte, tables, bste[b], Disk(b), Ram(p))
      modifies ram, bitmap, `pte, `ref, `queue, `ste, `bste, `loc, `kind
      ensures Valid() && Abs() == BringState(old(Abs()), b, p)
    {
      ReadBlock(b, p);
      Enqueue(b, p);
    }

    /** The end of swap_back(): frame p is queued and inherits the records of block b. */
    method Enqueue(b: nat, p: nat)
      requires Valid() && b < |bste| && p < |ste| && p < |kind|
      modifies `queue, `ste, `bste, `loc, `kind
      ensures Valid()
      ensures Abs() == old(Abs()).(queue := old(queue) + [p], ste := old(ste)[p := Reverse(old(bste)[b])], bste := old(bste)[b := []],
                                   loc := Relocated(old(loc), Disk(b), Ram(p)), kind := old(kind)[p := Data])
    {
      var moved := MoveRecords(bste[b]);
      queue, ste, bste := queue + [p], ste[p := moved], bste[b := []];
      loc, kind := Relocated(loc, Disk(b), Ram(p)), kind[p := Data];
    }

    /** swap_back(): the pages of block b return to a frame.  The block survives whatever its
        own page_alloc evicts: it is still in use, with its records, when the frame is at hand. */
    method SwapBack(b: nat) returns (r: Outcome<nat>, evicted: seq<nat>, ghost m: Vm)
      requires Valid() && Inv(Abs(), None) && b < SD_NBLK && bitmap[b]
      modifies Repr()
      ensures Valid()
      ensures r.Panic? <==> OutOfMemory(old(Abs()))
      ensures r.Panic? ==> r.reason == NoFrame || r.reason == DiskFull
      ensures r.Done? ==> Inv(m, None) && Recycled(old(Abs()), m, evicted) && evicted == old(ToEvict())
      ensures r.Done? && old(free) != [] ==> m == old(Abs()) && Taken(old(Clk()), Clk(), r.value)
      ensures r.Done? ==> b < |m.bitmap| == |m.bste| && m.bitmap[b] && m.bste[b] != []
      ensures r.Done? ==> Brought(m, Abs(), b) && r.value == m.free[0]
    {
      var pa;
      ghost var s := Abs();
      pa, evicted, m := PageAlloc();
      if pa.Panic? {
        return Panic(pa.reason), evicted, m;
      }
      BackReady(s, m, evicted, b);
      BringTo(b, pa.value);
      r := pa;
    }

    // ---------------------------------------------------- lookup, insert, remove

    /** The swapped page x is brought back. */
    method BringPage(x: Slot) returns (r: Outcome<()>, evicted: seq<nat>)
      requires Valid() && Inv(Abs(), None) && x in pte && !pte[x].valid
      modifies Repr()
      ensures Valid()
      ensures r.Done? ==> Inv(Abs(), None) && Paged(old(Abs()), Abs(), evicted) && tables == old(tables)
      ensures r.Done? ==> x in pte && pte[x].valid && pte[x].perm == old(pte)[x].perm
      ensures r.Panic? <==> OutOfMemory(old(Abs()))
      ensures r.Panic? ==> r.reason == NoFrame || r.reason == DiskFull
      ensures r.Done? ==> Looked(old(Abs()), old(Clk()), Abs(), Touched(Clk(), pte[x].num), x, pte[x].num, evicted)
    {
      ghost var s, b, c := Abs(), pte[x].num, Clk();
      MappedFacts(s, x);
      var back;
      ghost var m;
      back, evicted, m := SwapBack(pte[x].num);
      if back.Panic? {
        return Panic(back.reason), evicted;
      }
      BackPaged(s, m, Abs(), evicted, b);
      BackLooked(s, c, m, Abs(), Clk(), x, evicted);
      r := Done(());
    }

    /** Marks a frame as accessed; the clock is all that cares. */
    method Touch(p: nat)
      requires Valid() && p < |accessed|
      modifies `accessed
      ensures Valid() && Abs() == old(Abs()) && Clk() == Touched(old(Clk()), p)
    {
      accessed := accessed[p := true];
    }

    /** page_lookup: the frame x is mapped to, brought back from the disk if need be. */
    method PageLookup(x: Slot) returns (r: Outcome<Option<nat>>, evicted: seq<nat>)
      requires Valid() && Inv(Abs(), None)
      modifies Repr()
      ensures Valid()
      ensures r.Done? ==> Inv(Abs(), None) && Paged(old(Abs()), Abs(), evicted) && tables == old(tables)
      ensures r.Done? ==> (r.value.Some? <==> x in old(pte))
      ensures r.Done? && r.value.Some? ==> x in pte && pte[x].valid && pte[x].num == r.value.value && pte[x].perm == old(pte)[x].perm
      ensures x !in old(pte) || old(pte)[x].valid ==> r.Done? && evicted == [] && Abs() == old(Abs())
      ensures r.Panic? ==> r.reason == NoFrame || r.reason == DiskFull
      ensures r.Panic? <==> x in old(pte) && !old(pte)[x].valid && OutOfMemory(old(Abs()))
      ensures r.Done? ==> LookedUp(old(Abs()), old(Clk()), Abs(), Clk(), x, evicted)
    {
      evicted := [];
      PagedNothing(Abs());
      if x !in pte {
        return Done(None), evicted;
      }
      if !pte[x].valid {
        var back;
        back, evicted := BringPage(x);
        if back.Panic? {
          return Panic(back.reason), evicted;
        }
      }
      MappedFacts(Abs(), x);
      Touch(pte[x].num);
      r := Done(Some(pte[x].num));
    }

    /** page_decref. */
    method PageDecref(p: nat)
      requires Valid() && p < |ref| && ref[p] > 0 && p < |kind|
      modifies `ref, `free, `kind
      ensures Valid()
      ensures Abs() == old(Abs()).(ref := old(ref)[p := old(ref[p]) - 1],
                                   free := if old(ref[p]) == 1 then [p] + old(free) else old(free),
                                   kind := if old(ref[p]) == 1 then old(kind)[p := Free] else old(kind))
    {
      ref := ref[p := ref[p] - 1];
      if ref[p] == 0 {
        free := [p] + free;
        kind := kind[p := Free];
      }
    }

    /** A free SwapInfo record is filled in and put on the list of frame p. */
    method LinkRecord(p: nat, x: Slot, as_: nat)
      requires Valid() && p < |ste| && pool != [] && pool[0] < |info| && ShapeOk(Abs())
      modifies `pool, `info, `ste
      ensures Valid() && Abs() == Register(old(Abs()), x, p, as_).(queue := queue, loc := loc, reg := reg)
    {
      var sinfo := pool[0];
      pool, info, ste := pool[1..], info[sinfo := SwapInfo(x, as_)], ste[p := [sinfo] + ste[p]];
    }

    /** swap_register; it panics exactly when no SwapInfo record is left. */
    method SwapRegister(p: nat, x: Slot, as_: nat) returns (r: Outcome<()>)
      requires Valid() && p < |ste| && (pool != [] ==> pool[0] < |info|) && ShapeOk(Abs())
      modifies `queue, `pool, `info, `ste, `loc, `reg
      ensures Valid()
      ensures r.Panic? <==> old(pool) == []
      ensures r.Panic? ==> r.reason == NoSwapInfo
      ensures r.Done? ==> Abs() == Register(old(Abs()), x, p, as_)
      ensures queue == if old(ste[p]) == [] then old(queue) + [p] else old(queue)
    {
      queue := if ste[p] == [] then queue + [p] else queue;
      if pool == [] {
        return Panic(NoSwapInfo);
      }
      ghost var sinfo := pool[0];
      LinkRecord(p, x, as_);
      loc, reg := loc[sinfo := Ram(p)], reg[x := sinfo];
      r := Done(());
    }

    /** LIST_FOREACH of swap_unregister: the first record of the list that names x. */
    method FindRecord(list: seq<nat>, x: Slot, as_: nat) returns (r: Option<nat>)
      requires Records(info, list)
      ensures r.Some? ==> r.value in list && r.value < |info| && info[r.value] == SwapInfo(x, as_)
      ensures r.None? ==> forall i :: i in list ==> i < |info| && info[i] != SwapInfo(x, as_)
    {
      for k := 0 to |list|
        invariant forall j :: 0 <= j < k ==> info[list[j]] != SwapInfo(x, as_)
      {
        if info[list[k]].slot.pgdir == x.pgdir && info[list[k]].asid == as_ && info[list[k]].slot.vpn == x.vpn {
          return Some(list[k]);
        }
      }
      return None;
    }

    /** The record of x leaves the list of frame p, and p the queue with its last record. */
    method UnlinkRecord(p: nat, x: Slot, sinfo: nat)
      requires Valid() && p < |ste| && ShapeOk(Abs()) && x in reg && sinfo == reg[x] && sinfo < |loc|
      modifies `queue, `pool, `ste
      ensures Valid() && Abs() == Unregister(old(Abs()), x, p).(loc := loc, reg := reg)
    {
      var list := Without(ste[p], sinfo);
      ste, pool := ste[p := list], [sinfo] + pool;
      queue := if list == [] then Without(queue, p) else queue;
    }

    /** swap_unregister: a registered mapping of p loses its record, and p leaves the queue
        with its last one; any other mapping is left alone. */
    method SwapUnregister(p: nat, x: Slot, as_: nat)
      requires Valid() && p < |ste| && ShapeOk(Abs()) && RecordOf(info, ste[p], reg, x, as_)
      modifies `queue, `pool, `ste, `loc, `reg
      ensures Valid()
      ensures x in old(reg) ==> Abs() == Unregister(old(Abs()), x, p)
      ensures x !in old(reg) ==> Abs() == old(Abs())
    {
      var found := FindRecord(ste[p], x, as_);
      if found.Some? {
        UnlinkRecord(p, x, found.value);
        loc, reg := loc[found.value := Pool], reg - {x};
      }
    }

    /** page_remove after its lookup: x is valid and mapped to p. */
    method RemoveMapped(x: Slot, p: nat)
      requires Valid() && ShapeOk(Abs()) && p < |ref| && ref[p] > 0 && x.pgdir in asid && (x in reg ==> reg[x] < |loc|)
      requires RecordOf(info, ste[p], reg, x, asid[x.pgdir]) && TlbUnique(tlb[..])
      modifies `ref, `free, `kind, `queue, `pool, `ste, `loc, `reg, `pte, tlb
      ensures Valid() && Abs() == RemoveState(old(Abs()), x, p)
    {
      PageDecref(p);
      SwapUnregister(p, x, asid[x.pgdir]);
      pte := pte - {x};
      TlbOut(HiOf(x, asid[x.pgdir]));
    }

    /** page_remove of a page that has been brought to memory since state s. */
    method RemovePresent(x: Slot, ghost s: Vm, ghost evicted: seq<nat>)
      requires Valid() && Inv(s, None) && Inv(Abs(), None) && Paged(s, Abs(), evicted) && x in pte && pte[x].valid
      modifies `ref, `free, `kind, `queue, `pool, `ste, `loc, `reg, `pte, tlb
      ensures Valid() && Inv(Abs(), None) && x !in pte && Removed(s, Abs(), x, evicted)
      ensures pool == Returned(s, x)
    {
      ghost var m := Abs();
      MappedFacts(m, x);
      RecordFound(m, x, pte[x].num);
      RemoveKeeps(m, x, None);
      RemovedAfterPaging(s, m, x, evicted);
      RemoveMapped(x, pte[x].num);
    }

    /** page_remove after its lookup in state s: nothing to do, or a page in memory to unmap. */
    method RemoveFound(x: Slot, found: Option<nat>, ghost s: Vm, ghost evicted: seq<nat>)
      requires Valid() && Inv(s, None) && Inv(Abs(), None) && (found.Some? ==> Paged(s, Abs(), evicted) && x in pte && pte[x].valid)
      requires found.None? ==> Abs() == s && x !in pte && evicted == []
      modifies `ref, `free, `kind, `queue, `pool, `ste, `loc, `reg, `pte, tlb
      ensures Valid() && Inv(Abs(), None) && x !in pte && Removed(s, Abs(), x, evicted)
    {
      if found.Some? {
        RemovePresent(x, s, evicted);
      } else {
        RemovedSame(s, x);
      }
    }

    /** The lookup of page_remove, and what RemoveFound has to know about it. */
    method FindToRemove(x: Slot) returns (r: Outcome<Option<nat>>, evicted: seq<nat>)
      requires Valid() && Inv(Abs(), None)
      modifies Repr()
      ensures Valid()
      ensures r.Done? ==> Inv(Abs(), None) && tables == old(tables)
      ensures r.Done? && r.value.Some? ==> Paged(old(Abs()), Abs(), evicted) && x in pte && pte[x].valid
      ensures r.Done? && r.value.None? ==> Abs() == old(Abs()) && x !in pte && evicted == []
      ensures x !in old(pte) || old(pte)[x].valid ==> r.Done? && evicted == []
      ensures r.Panic? <==> x in old(pte) && !old(pte)[x].valid && OutOfMemory(old(Abs()))
      ensures r.Panic? ==> r.reason == NoFrame || r.reason == DiskFull
    {
      r, evicted := PageLookup(x);
    }

    /** page_remove: x is unmapped, whether it was in memory or on the disk. */
    method PageRemove(x: Slot) returns (r: Outcome<()>, evicted: seq<nat>)
      requires Valid() && Inv(Abs(), None)
      modifies Repr()
      ensures Valid()
      ensures r.Done? ==> Inv(Abs(), None) && x !in pte && Removed(old(Abs()), Abs(), x, evicted) && tables == old(tables)
      ensures x !in old(pte) || old(pte)[x].valid ==> r.Done? && evicted == []
      ensures r.Panic? <==> x in old(pte) && !old(pte)[x].valid && OutOfMemory(old(Abs()))
      ensures r.Panic? ==> r.reason == NoFrame || r.reason == DiskFull
    {
      ghost var s := Abs();
      var found;
      found, evicted := FindToRemove(x);
      if found.Panic? {
        return Panic(found.reason), evicted;
      }
      RemoveFound(x, found.value, s, evicted);
      r := Done(());
    }

    /** pgdir_walk with create set: the page table exists afterwards. */
    method WalkCreate(k: TableKey) returns (r: Outcome<()>, evicted: seq<nat>)
      requires Valid() && Inv(Abs(), None) && k.pgdir in asid && k.pdx < UTOP / NPTE
      modifies Repr()
      ensures Valid()
      ensures r.Panic? <==> k !in old(tables) && OutOfMemory(old(Abs()))
      ensures r.Panic? ==> r.reason == NoFrame || r.reason == DiskFull
      ensures r.Done? ==> Inv(Abs(), None) && Paged(old(Abs()), Abs(), evicted) && k in tables
      ensures r.Done? ==> evicted == if k in old(tables) then [] else old(ToEvict())
      ensures k in old(tables) ==> r.Done? && evicted == [] && Abs() == old(Abs())
      ensures r.Done? && old(free) != [] ==> free == FreeAfter(old(Abs()), k)
    {
      ghost var s := Abs();
      evicted := [];
      if k in tables {
        PagedNothing(s);
        return Done(()), evicted;
      }
      var pa;
      ghost var m;
      pa, evicted, m := PageAlloc();
      if pa.Panic? {
        return Panic(pa.reason), evicted;
      }
      TableAdded(s, m, evicted, k);
      HeldUncounted(m);
      TableFrame(k, pa.value);
      r := Done(());
    }

    /** The new page table is counted and entered in the page directory. */
    method TableFrame(k: TableKey, p: nat)
      requires Valid() && ShapeOk(Abs()) && p < |ref| && ref[p] == 0 && p < |kind|
      modifies `ref, `tables, `kind
      ensures Valid() && Abs() == AddTable(old(Abs()), k, p)
    {
      ref := ref[p := ref[p] + 1];
      tables := tables[k := p];
      kind := kind[p := Table(k)];
    }

    /** The new entry is written and its frame counted. */
    method WriteEntry(x: Slot, p: nat, perm: Perm)
      requires Valid() && ShapeOk(Abs()) && p < |ref|
      modifies `pte, `ref, `accessed, `kind
      ensures Valid() && Abs() == MapPage(old(Abs()), x, p, perm) && p < |accessed| && accessed[p]
    {
      pte := pte[x := Pte(true, false, p, perm)];
      ref := ref[p := ref[p] + 1];
      accessed := accessed[p := true];
      kind := kind[p := Data];
    }

    /** tlb_invalidate: invisible, and nothing but the TLB changes. */
    method FlushEntry(x: Slot)
      requires Valid() && Inv(Abs(), None) && x.pgdir in asid
      modifies tlb
      ensures Valid() && Abs() == FlushState(old(Abs()), x)
      ensures Inv(Abs(), None) && Paged(old(Abs()), Abs(), [])
    {
      ghost var s := Abs();
      FlushPaged(s, x);
      FlushKeeps(s, HiOf(x, asid[x.pgdir]), None);
      TlbOut(HiOf(x, asid[x.pgdir]));
    }

    /** The end of page_insert, on a page table that has been created since state s. */
    method MapSource(x: Slot, p: nat, perm: Perm, ghost s: Vm, evicted: seq<nat>) returns (r: Outcome<()>)
      requires Valid() && Inv(s, None) && Inv(Abs(), None) && Paged(s, Abs(), evicted) && x !in s.pte && TableOf(x) in tables
      requires p < |ref| && p < |s.kind|
      modifies `pte, `ref, `accessed, `kind
      ensures Valid()
      ensures r.Done? ==> Inserted(s, old(Abs()), x, p, evicted) && Abs() == MapPage(old(Abs()), x, p, perm)
      ensures r.Panic? <==> p in evicted || old(ref)[p] >= MAX_REF
      ensures r.Panic? ==> r.reason == if p in evicted then SourceEvicted else RefOverflow
      ensures r.Done? ==> p < |accessed| && accessed[p]
    {
      if p in evicted {
        return Panic(SourceEvicted);
      }
      if ref[p] >= MAX_REF {
        return Panic(RefOverflow);
      }
      RemovedNothing(s, Abs(), x, evicted);
      WriteEntry(x, p, perm);
      r := Done(());
    }

    /** Steps 2 and 3 of page_insert: the TLB is flushed, the page table exists afterwards. */
    method FlushAndWalk(x: Slot) returns (r: Outcome<()>, evicted: seq<nat>)
      requires Valid() && Inv(Abs(), None) && x.pgdir in asid && x.vpn < UTOP
      modifies Repr()
      ensures Valid()
      ensures r.Panic? <==> TableOf(x) !in old(tables) && OutOfMemory(old(Abs()))
      ensures r.Panic? ==> OutOfFrames(r)
      ensures r.Done? ==> Inv(Abs(), None) && Paged(old(Abs()), Abs(), evicted) && TableOf(x) in tables
      ensures r.Done? ==> evicted == if TableOf(x) in old(tables) then [] else old(ToEvict())
      ensures TableOf(x) in old(tables) ==> evicted == [] && Abs() == FlushState(old(Abs()), x)
      ensures r.Done? && old(free) != [] ==> free == FreeAfter(old(Abs()), TableOf(x))
    {
      ghost var s := Abs();
      FlushEntry(x);
      ghost var f := Abs();
      r, evicted := WalkCreate(TableOf(x));
      if r.Done? {
        PagedTrans(s, f, Abs(), evicted);
      }
    }

    /** page_insert where x is not mapped.  Its own page_alloc may evict the very frame p;
        the model stops there.  g is the state in which the entry is written. */
    method InsertFresh(x: Slot, p: nat, perm: Perm) returns (r: Outcome<()>, evicted: seq<nat>, ghost g: Vm)
      requires Valid() && Inv(Abs(), None) && x !in pte && x.pgdir in asid && x.vpn < UTOP
      requires p < ram.Length && p < |kind| && (kind[p] == Held || kind[p] == Data)
      modifies Repr()
      ensures Valid()
      ensures r.Done? ==> Inserted(old(Abs()), g, x, p, evicted) && Paged(old(Abs()), g, evicted) && Abs() == MapPage(g, x, p, perm)
      ensures InsertStops(r, TableOf(x) !in old(tables), old(Abs()), old(ToEvict()), p, old(ref)[p] >= MAX_REF)
      ensures TableOf(x) in old(tables) ==> evicted == [] && g == FlushState(old(Abs()), x)
      ensures r.Done? && old(free) != [] ==> free == FreeAfter(old(Abs()), TableOf(x))
      ensures r.Done? ==> p < |accessed| && accessed[p]
    {
      ghost var s := Abs();
      var walk;
      walk, evicted := FlushAndWalk(x);
      g, r := Abs(), walk;
      if walk.Done? {
        r := MapSource(x, p, perm, s, evicted);
      }
      FreshStops(s, g, x, p, evicted, old(ToEvict()), walk, r);
    }

    /** The start of page_insert over another mapping of x: a page on the disk is brought back,
        which may evict the very frame p; the model stops there. */
    method BringOver(x: Slot, p: nat) returns (r: Outcome<()>, evicted: seq<nat>)
      requires Valid() && Inv(Abs(), None) && x in pte
      modifies Repr()
      ensures Valid()
      ensures r.Done? ==> Inv(Abs(), None) && Paged(old(Abs()), Abs(), evicted) && x in pte && pte[x].valid && p !in evicted
      ensures InsertStops(r, !old(pte)[x].valid, old(Abs()), old(ToEvict()), p, false)
    {
      ghost var s := Abs();
      var back;
      if pte[x].valid {
        PagedNothing(s);
        back, evicted := Done(()), [];
      } else {
        back, evicted := BringPage(x);
      }
      r := if back.Done? && p in evicted then Panic(SourceEvicted) else back;
      BackStops(s, !s.pte[x].valid, p, evicted, old(ToEvict()), back, r);
    }

    /** The first half of page_insert over another mapping of x: that one is brought to memory
        and removed. */
    method ClearPage(x: Slot, p: nat) returns (r: Outcome<()>, evicted: seq<nat>)
      requires Valid() && Inv(Abs(), None) && x in pte && Where(pte[x]) != Ram(p)
      requires p < ram.Length && p < |kind| && (kind[p] == Held || kind[p] == Data)
      modifies Repr()
      ensures Valid()
      ensures r.Done? ==> Inv(Abs(), None) && x !in pte && Removed(old(Abs()), Abs(), x, evicted) && p !in evicted
      ensures r.Done? ==> TableOf(x) in tables && x.pgdir in asid && x.vpn < UTOP && pool == Returned(old(Abs()), x)
      ensures r.Done? ==> p < |kind| && kind[p] == old(kind)[p] && ref[p] == old(ref)[p]
      ensures InsertStops(r, !old(pte)[x].valid, old(Abs()), old(ToEvict()), p, false)
    {
      ghost var s := Abs();
      MappedFacts(s, x);
      r, evicted := BringOver(x, p);
      if r.Done? {
        RemovePresent(x, s, evicted);
        SourceKept(s, Abs(), x, p, evicted);
      }
    }

    /** page_insert where x is mapped to another frame, or lies on the disk: the old mapping
        goes first. */
    method InsertOver(x: Slot, p: nat, perm: Perm) returns (r: Outcome<()>, evicted: seq<nat>, ghost g: Vm)
      requires Valid() && Inv(Abs(), None) && x in pte && Where(pte[x]) != Ram(p)
      requires p < ram.Length && p < |kind| && (kind[p] == Held || kind[p] == Data)
      modifies Repr()
      ensures Valid()
      ensures r.Done? ==> Inserted(old(Abs()), g, x, p, evicted) && Abs() == MapPage(g, x, p, perm)
      ensures r.Done? ==> pool == Returned(old(Abs()), x) && p < |accessed| && accessed[p]
      ensures InsertStops(r, !old(pte)[x].valid, old(Abs()), old(ToEvict()), p, old(ref)[p] >= MAX_REF)
    {
      ghost var s := Abs();
      r, evicted := ClearPage(x, p);
      g := Abs();
      if r.Done? {
        r, g := InsertCleared(x, p, perm, s, evicted);
      }
    }

    /** The rest of page_insert over another mapping of x, which has been removed since s. */
    method InsertCleared(x: Slot, p: nat, perm: Perm, ghost s: Vm, ghost evicted: seq<nat>)
      returns (r: Outcome<()>, ghost g: Vm)
      requires Valid() && Inv(Abs(), None) && x !in pte && x.pgdir in asid && x.vpn < UTOP && TableOf(x) in tables
      requires Removed(s, Abs(), x, evicted) && !(x in s.pte && Where(s.pte[x]) == Ram(p)) && p !in evicted
      requires p < ram.Length && p < |kind| && (kind[p] == Held || kind[p] == Data)
      modifies Repr()
      ensures Valid()
      ensures r.Done? ==> Inserted(s, g, x, p, evicted) && Abs() == MapPage(g, x, p, perm) && pool == old(pool)
      ensures r.Done? ==> p < |accessed| && accessed[p]
      ensures r.Panic? <==> old(ref)[p] >= MAX_REF
      ensures r.Panic? ==> r.reason == RefOverflow
    {
      ghost var cleared := Abs();
      var none;
      r, none, g := InsertFresh(x, p, perm);
      NothingNeeded(r, cleared, old(ToEvict()), p, cleared.ref[p] >= MAX_REF);
      if r.Done? {
        InsertedOver(s, cleared, x, p, evicted);
      }
    }

    /** page_insert's short way: the TLB is flushed and the permissions are replaced. */
    method RemapEntry(x: Slot, perm: Perm)
      requires Valid() && TlbUnique(tlb[..]) && x in pte && x.pgdir in asid
      modifies `pte, tlb
      ensures Valid() && Abs() == RemapState(old(Abs()), x, perm)
    {
      TlbOut(HiOf(x, asid[x.pgdir]));
      pte := pte[x := pte[x].(perm := perm)];
    }

    /** page_insert: x is mapped to frame p with the given permissions, whatever it was mapped
        to before.  If x is mapped to p already only the permissions change.  InsertStops says
        exactly when the call does not return; SourceEvicted means that its own page_alloc has
        evicted p. */
    method PageInsert(x: Slot, p: nat, perm: Perm) returns (r: Outcome<()>, evicted: seq<nat>, ghost g: Vm)
      requires Valid() && Inv(Abs(), None) && x.pgdir in asid && x.vpn < UTOP
      requires p < ram.Length && p < |kind| && (kind[p] == Held || kind[p] == Data)
      modifies Repr()
      ensures Valid()
      ensures x in old(pte) && Where(old(pte)[x]) == Ram(p) ==>
        r.Done? && evicted == [] && Abs() == RemapState(old(Abs()), x, perm)
      ensures r.Done? && !(x in old(pte) && Where(old(pte)[x]) == Ram(p)) ==>
        Inserted(old(Abs()), g, x, p, evicted) && Abs() == MapPage(g, x, p, perm) && pool == Returned(old(Abs()), x)
      ensures !(x in old(pte) && Where(old(pte)[x]) == Ram(p)) ==>
        InsertStops(r, NeedsFrame(old(Abs()), x), old(Abs()), old(ToEvict()), p, old(ref)[p] >= MAX_REF)
      ensures r.Done? && x !in old(pte) && old(free) != [] ==> free == FreeAfter(old(Abs()), TableOf(x))
      ensures r.Done? && !(x in old(pte) && Where(old(pte)[x]) == Ram(p)) ==> p < |accessed| && accessed[p]
    {
      if x !in pte {
        r, evicted, g := InsertFresh(x, p, perm);
      } else if pte[x].valid && pte[x].num == p {
        RemapEntry(x, perm);
        r, evicted, g := Done(()), [], Abs();
      } else {
        r, evicted, g := InsertOver(x, p, perm);
      }
    }

  }

  /** Moves the records of a list to an empty one: each is taken from the head and inserted
      at the head. */
  method MoveRecords(list: seq<nat>) returns (moved: seq<nat>)
    ensures moved == Reverse(list)
  {
    var rest := list;
    moved := [];
    ghost var gone := [];
    while rest != []
      invariant list == gone + rest && moved == Reverse(gone)
      decreases |rest|
    {
      var sinfo := rest[0];
      ReverseAppend(gone, sinfo);
      rest, moved := rest[1..], [sinfo] + moved;
      gone := gone + [sinfo];
    }
    assert gone == list;
  }

  /** LIST_INSERT_HEAD of lo, lo + 1, ..., hi - 1 into an empty list. */
  method InsertAll(lo: nat, hi: nat) returns (list: seq<nat>)
    requires lo <= hi
    ensures list == Descending(lo, hi)
  {
    list := [];
    for p := lo to hi
      invariant list == Descending(lo, p)
    {
      list := [p] + list;
    }
  }
}
