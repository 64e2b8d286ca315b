/** The state of the memory manager of kern/pmap.c as one value, what it denotes to
    user programs, and the invariant that ties its redundant structures together. */
module VmState {
  import opened Prelude

  type Contents = seq<bv8>

  const PAGE_SIZE := 4096

  const NPTE := 1024            // entries of a page table
  const NASID := 256
  const NSWAP := 100            // evictions run when the free list is empty
  const SD_NBLK := 2048         // blocks of the swap disk
  const MAX_SWAPINFO := 0x15000
  const MAX_REF := 0xFFFF       // pp_ref is a u_short

  // Virtual page numbers of the memory layout in include/mmu.h.
  const UTEMP := 0x3fe
  const UCOW := 0x3ff
  const USTACKTOP := 0x7f3fe
  const UTOP := 0x7f400

  /** A user virtual page: the frame of its page directory and its page number. */
  datatype Slot = Slot(pgdir: nat, vpn: nat)

  /** The permission bits that mapping calls choose. */
  datatype Perm = Perm(d: bool, cow: bool, library: bool, dirty: bool)

  /** A page-table entry; num is a frame number if valid, a swap block if swapped. */
  datatype Pte = Pte(valid: bool, swapped: bool, num: nat, perm: Perm)

  datatype SwapInfo = SwapInfo(slot: Slot, asid: nat)

  /** Where a page lives, and which list a SwapInfo record is on. */
  datatype Loc = Pool | Ram(num: nat) | Disk(num: nat)

  datatype TableKey = TableKey(pgdir: nat, pdx: nat)

  /** What a physical frame is used for. */
  datatype Kind = Reserved | Free | Held | Data | Dir | Table(key: TableKey)

  datatype Hi = Hi(vpn2: nat, asid: nat)
  datatype Lo = Lo(pfn: nat, d: bool, v: bool)
  datatype TlbEntry = TlbEntry(hi: Hi, lo0: Lo, lo1: Lo)

  const EMPTY := TlbEntry(Hi(0, 0), Lo(0, false, false), Lo(0, false, false))

  datatype Vm = Vm(
    ram: seq<Contents>,           // physical frames
    ref: seq<nat>,                // pp_ref
    free: seq<nat>,               // page_free_list
    disk: seq<Contents>,          // swap blocks
    bitmap: seq<bool>,            // sd_bitmap
    queue: seq<nat>,              // page_swap_queue
    ste: seq<seq<nat>>,           // swap_tbl: SwapInfo records by frame
    bste: seq<seq<nat>>,          // bno_tbl: SwapInfo records by block
    info: seq<SwapInfo>,          // swapInfos
    pool: seq<nat>,               // swapInfo_free_list
    asid: map<nat, nat>,          // live page directories and their address-space ids
    tables: map<TableKey, nat>,   // valid page-directory entries
    pte: map<Slot, Pte>,          // entries with V or SWAPPED set; all others are zero
    tlb: seq<TlbEntry>,
    // Bookkeeping of the proof: every record's list, every frame's use, every
    // registered page's record, every address-space id's owner.
    loc: seq<Loc>, kind: seq<Kind>, reg: map<Slot, nat>, owner: map<nat, nat>)

  function ZeroPage(): Contents { seq(PAGE_SIZE, _ => 0) }

  function TableOf(x: Slot): TableKey { TableKey(x.pgdir, x.vpn / NPTE) }

  function Where(e: Pte): Loc { if e.valid then Ram(e.num) else Disk(e.num) }

  /** The entry pointed at another place: what swap and swap_back write. */
  function Aim(e: Pte, l: Loc): Pte
    requires l != Pool
  {
    Pte(l.Ram?, l.Disk?, l.num, e.perm)
  }

  /** The pages that live at l. */
  ghost function Users(pte: map<Slot, Pte>, l: Loc): set<Slot> {
    set x | x in pte && Where(pte[x]) == l
  }

  function Hard(e: Pte): Lo { Lo(e.num, e.perm.d, e.valid) }

  // ---------------------------------------------------------------- denotation

  ghost function Contained(s: Vm, l: Loc): Option<Contents> {
    match l
    case Pool => None
    case Ram(p) => if p < |s.ram| then Some(s.ram[p]) else None
    case Disk(b) => if b < |s.disk| then Some(s.disk[b]) else None
  }

  /** What user code finds at x: contents and permissions, or nothing. */
  datatype View = Unmapped | Mapped(contents: Option<Contents>, perm: Perm)

  ghost function ViewAt(s: Vm, x: Slot): View {
    if x in s.pte then Mapped(Contained(s, Where(s.pte[x])), s.pte[x].perm) else Unmapped
  }

  /** A store at x is seen at y. */
  ghost predicate Shares(s: Vm, x: Slot, y: Slot) {
    x in s.pte && y in s.pte && Where(s.pte[x]) == Where(s.pte[y])
  }

  /** No user program can tell s from t by looking outside the set but. */
  ghost predicate SameBut(s: Vm, t: Vm, but: set<Slot>) {
    && (forall x :: x !in but ==> ViewAt(s, x) == ViewAt(t, x))
    && (forall x, y :: x !in but && y !in but ==> (Shares(s, x, y) <==> Shares(t, x, y)))
  }

  ghost predicate SameMemory(s: Vm, t: Vm) { SameBut(s, t, {}) }

  // ----------------------------------------------------------------- invariant

  ghost predicate ShapeOk(s: Vm) {
    && |s.ram| == |s.ref| == |s.ste| == |s.kind|
    && |s.disk| == |s.bitmap| == |s.bste|
    && |s.info| == |s.loc|
  }

  /** The free list holds exactly the free frames. */
  ghost predicate FreeOk(s: Vm) {
    && Distinct(s.free)
    && (forall p: nat :: p in s.free <==> p < |s.kind| && s.kind[p] == Free)
  }

  ghost predicate RefOk(s: Vm, p: nat)
    requires p < |s.ref| && p < |s.kind|
  {
    match s.kind[p]
    case Reserved => s.ref[p] > 0
    case Free => s.ref[p] == 0
    case Held => s.ref[p] == 0
    case Data => s.ref[p] == |Users(s.pte, Ram(p))| && s.ref[p] > 0
    case Dir => s.ref[p] == 1 && p in s.asid
    case Table(k) => s.ref[p] == 1 && k in s.tables && s.tables[k] == p
  }

  ghost predicate RefsOk(s: Vm) {
    |s.ref| == |s.kind| && forall p :: 0 <= p < |s.ref| ==> RefOk(s, p)
  }

  /** pp_ref fits its 16 bits, also for the pages that wait on the disk. */
  ghost predicate SharersOk(s: Vm) {
    forall l: Loc :: |Users(s.pte, l)| <= MAX_REF
  }

  ghost predicate SpacesOk(s: Vm) {
    && (forall d :: d in s.asid ==> d < |s.kind| && s.kind[d] == Dir && s.asid[d] < NASID
                                    && s.asid[d] in s.owner && s.owner[s.asid[d]] == d)
    && (forall a :: a in s.owner ==> s.owner[a] in s.asid && s.asid[s.owner[a]] == a)
    && (forall k :: k in s.tables ==> s.tables[k] < |s.kind| && s.kind[s.tables[k]] == Table(k)
                                      && k.pgdir in s.asid && k.pdx < UTOP / NPTE)
  }

  ghost predicate PteOk(s: Vm, x: Slot)
    requires x in s.pte
  {
    var e := s.pte[x];
    && TableOf(x) in s.tables
    && e.valid == !e.swapped
    && (e.valid ==> e.num < |s.kind| && s.kind[e.num] == Data)
    && (e.swapped ==> e.num < |s.bitmap| && s.bitmap[e.num] && x in s.reg)
  }

  ghost predicate PtesOk(s: Vm) {
    forall x :: x in s.pte ==> PteOk(s, x)
  }

  /** The list holds exactly the records whose place is at, each once. */
  ghost predicate Lists(list: seq<nat>, loc: seq<Loc>, at: Loc) {
    Distinct(list) && forall i: nat :: i in list <==> i < |loc| && loc[i] == at
  }

  /** The SwapInfo records are partitioned into the pool and the lists of the two tables. */
  ghost predicate ListsOk(s: Vm) {
    && Lists(s.pool, s.loc, Pool)
    && (forall p :: 0 <= p < |s.ste| ==> Lists(s.ste[p], s.loc, Ram(p)))
    && (forall b :: 0 <= b < |s.bste| ==> Lists(s.bste[b], s.loc, Disk(b)))
    && (forall i :: 0 <= i < |s.loc| ==> match s.loc[i]
                                         case Pool => true
                                         case Ram(p) => p < |s.ste|
                                         case Disk(b) => b < |s.bste|)
  }

  /** A record on a table's list names a page that lives at that frame or block, and no
      page is named by two records. */
  ghost predicate RegOk(s: Vm) {
    && |s.info| == |s.loc|
    && (forall i :: 0 <= i < |s.loc| && s.loc[i] != Pool ==> s.info[i].slot in s.reg && s.reg[s.info[i].slot] == i)
    && (forall x :: x in s.reg ==>
          && s.reg[x] < |s.loc| && s.info[s.reg[x]].slot == x
          && x in s.pte && s.loc[s.reg[x]] == Where(s.pte[x])
          && x.pgdir in s.asid && s.info[s.reg[x]].asid == s.asid[x.pgdir])
  }

  /** A frame is queued iff its list is not empty, a swap bit is set iff its list is not. */
  ghost predicate QueueOk(s: Vm) {
    && |s.bitmap| == |s.bste|
    && Distinct(s.queue)
    && (forall p: nat :: p in s.queue <==> p < |s.ste| && s.ste[p] != [])
    && (forall b :: 0 <= b < |s.bitmap| ==> (s.bitmap[b] <==> s.bste[b] != []))
  }

  /** Every mapping of a queued frame, except of the frame odd, is registered. */
  ghost predicate CompleteOk(s: Vm, odd: Option<nat>) {
    forall x :: x in s.pte && s.pte[x].valid && s.pte[x].num in s.queue && odd != Some(s.pte[x].num) ==> x in s.reg
  }

  function HiOf(x: Slot, asid: nat): Hi { Hi(x.vpn / 2, asid) }

  /** Two entries never match the same address; cleared entries translate nothing. */
  ghost predicate TlbUnique(tlb: seq<TlbEntry>) {
    && (forall i, j :: 0 <= i < j < |tlb| && tlb[i].hi == tlb[j].hi ==> tlb[i].hi == Hi(0, 0))
    && (forall i :: 0 <= i < |tlb| && tlb[i].hi == Hi(0, 0) ==> tlb[i] == EMPTY)
  }

  /** A half with V set is the hardware part of the page-table entry of its space. */
  ghost predicate HalfOk(s: Vm, asid: nat, vpn: nat, lo: Lo) {
    lo.v ==> asid in s.owner && Slot(s.owner[asid], vpn) in s.pte && lo == Hard(s.pte[Slot(s.owner[asid], vpn)])
  }

  ghost predicate EntryOk(s: Vm, e: TlbEntry) {
    && HalfOk(s, e.hi.asid, 2 * e.hi.vpn2, e.lo0)
    && HalfOk(s, e.hi.asid, 2 * e.hi.vpn2 + 1, e.lo1)
  }

  ghost predicate TlbOk(s: Vm) {
    TlbUnique(s.tlb) && forall j :: 0 <= j < |s.tlb| ==> EntryOk(s, s.tlb[j])
  }

  ghost predicate Inv(s: Vm, odd: Option<nat>) {
    && ShapeOk(s) && FreeOk(s) && RefsOk(s) && SharersOk(s) && SpacesOk(s) && PtesOk(s)
    && ListsOk(s) && RegOk(s) && QueueOk(s) && CompleteOk(s, odd) && TlbOk(s)
  }
}
