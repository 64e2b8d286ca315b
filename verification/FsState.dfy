/** Block ownership on the disk of fs/fs.c, as a value: the bitmap, the block cache, and the
    files' slots. */
module FsState {
  import opened Prelude

  datatype Error = NotFound | NoDisk | NoMem | Inval

  datatype Result<+T> = Ok(value: T) | Err(error: Error)

  const NDIRECT := 10
  const NINDIRECT := 1024
  const BLOCK_SIZE := 4096
  const MAX_FILE_SIZE := NINDIRECT * BLOCK_SIZE

  /** The block fields of struct File. */
  datatype File = File(size: nat, direct: seq<nat>, indirect: nat)

  /** A place that can name a block: slot i of a file, or its indirect pointer. */
  datatype Place = Slot(file: nat, i: nat) | Indirect(file: nat)

  /** bitmap has a bit set for a free block; words is what a block reads as, from the cache if
      it is cached.  The last two belong to the proof: the place that names each block in use,
      and the blocks of the super block and the bitmap. */
  datatype State = State(bitmap: seq<bool>, cached: seq<bool>, words: seq<seq<nat>>, files: seq<File>,
                         owner: map<nat, Place>, reserved: set<nat>)

  function Zeros(): (z: seq<nat>)
    ensures |z| == NINDIRECT && forall i :: 0 <= i < NINDIRECT ==> z[i] == 0
  {
    seq(NINDIRECT, _ => 0)
  }

  function NoBlocks(): (z: seq<nat>)
    ensures |z| == NDIRECT && forall i :: 0 <= i < NDIRECT ==> z[i] == 0
  {
    seq(NDIRECT, _ => 0)
  }

  ghost predicate ShapeOk(s: State) {
    && |s.cached| == |s.words| == |s.bitmap|
    && (forall b :: 0 <= b < |s.words| ==> |s.words[b]| == NINDIRECT)
    && (forall f :: 0 <= f < |s.files| ==> |s.files[f].direct| == NDIRECT && s.files[f].indirect < |s.bitmap|)
  }

  predicate IsPlace(s: State, p: Place) {
    p.file < |s.files| && (p.Slot? ==> p.i < NINDIRECT)
  }

  /** The block named by slot i of file f, or 0. */
  function SlotAt(s: State, f: nat, i: nat): nat
    requires ShapeOk(s) && f < |s.files| && i < NINDIRECT
  {
    if i < NDIRECT then s.files[f].direct[i]
    else if s.files[f].indirect == 0 then 0
    else s.words[s.files[f].indirect][i]
  }

  function BlockAt(s: State, p: Place): nat
    requires ShapeOk(s) && IsPlace(s, p)
  {
    match p
    case Slot(f, i) => SlotAt(s, f, i)
    case Indirect(f) => s.files[f].indirect
  }

  /** Every block in use is reserved or named by exactly one place, and places name only
      blocks in use. */
  ghost predicate Own(s: State) {
    && ShapeOk(s) && 0 in s.reserved && (forall b :: b in s.reserved ==> b < |s.bitmap| && !s.bitmap[b])
    && (forall b: nat :: b in s.owner <==> b < |s.bitmap| && !s.bitmap[b] && b !in s.reserved)
    && (forall b :: b in s.owner ==> IsPlace(s, s.owner[b]) && BlockAt(s, s.owner[b]) == b)
    && (forall p :: IsPlace(s, p) && BlockAt(s, p) != 0 ==> BlockAt(s, p) in s.owner && s.owner[BlockAt(s, p)] == p)
  }

  /** No two places name the same block. */
  lemma OwnDistinct(s: State, p: Place, q: Place)
    requires Own(s) && IsPlace(s, p) && IsPlace(s, q) && BlockAt(s, p) != 0 && p != q
    ensures BlockAt(s, p) != BlockAt(s, q) && BlockAt(s, p) < |s.bitmap| && !s.bitmap[BlockAt(s, p)]
  {}

  ghost function FreeBlocks(s: State): set<nat> {
    set b: nat | b < |s.bitmap| && s.bitmap[b]
  }

  /** The blocks are partitioned into free, owned and reserved ones. */
  lemma Conservation(s: State)
    requires Own(s)
    ensures |FreeBlocks(s)| + |s.owner.Keys| + |s.reserved| == |s.bitmap|
  {
    assert Below(|s.bitmap|) == FreeBlocks(s) + s.owner.Keys + s.reserved;
  }

  /** The numbers below n. */
  function Below(n: nat): (r: set<nat>)
    ensures |r| == n && forall b: nat :: b in r <==> b < n
  {
    if n == 0 then {} else Below(n - 1) + {n - 1}
  }

  function Blocks(size: nat): nat { (size + BLOCK_SIZE - 1) / BLOCK_SIZE }

  /** Block i is one of the first Blocks(size) exactly if it holds a byte below size. */
  lemma BlocksHold(size: nat, i: nat)
    ensures i < Blocks(size) <==> i * BLOCK_SIZE < size
  {}

  /** No slot past the size is used. */
  ghost predicate TailZero(s: State, f: nat)
    requires ShapeOk(s) && f < |s.files|
  {
    s.files[f].size <= MAX_FILE_SIZE && forall i :: Blocks(s.files[f].size) <= i < NINDIRECT ==> SlotAt(s, f, i) == 0
  }

  /** Moreover a file of more than ten blocks has an indirect block. */
  ghost predicate Tight(s: State, f: nat)
    requires ShapeOk(s) && f < |s.files|
  {
    TailZero(s, f) && (Blocks(s.files[f].size) > NDIRECT ==> s.files[f].indirect != 0)
  }

  // ------------------------------------------------------------------- the changes

  /** alloc_block takes b: a block that is not cached gets a zeroed page, a cached one keeps
      what it last held. */
  function Taken(s: State, b: nat): State
    requires b < |s.bitmap| && b < |s.cached| && b < |s.words|
  {
    s.(bitmap := s.bitmap[b := false], cached := s.cached[b := true],
       words := if s.cached[b] then s.words else s.words[b := Zeros()])
  }

  function WithIndirect(s: State, f: nat, b: nat): State
    requires f < |s.files|
  {
    s.(files := s.files[f := s.files[f].(indirect := b)])
  }

  function WithSlot(s: State, f: nat, i: nat, v: nat): State
    requires ShapeOk(s) && f < |s.files| && i < NINDIRECT
  {
    if i < NDIRECT then
      var direct: seq<nat> := s.files[f].direct[i := v];
      s.(files := s.files[f := s.files[f].(direct := direct)])
    else
      var ind := s.files[f].indirect;
      var block: seq<nat> := s.words[ind][i := v];
      s.(words := s.words[ind := block])
  }

  /** File f gets the indirect block b. */
  function NewIndirect(s: State, f: nat, b: nat): State
    requires ShapeOk(s) && f < |s.files| && b < |s.bitmap|
  {
    WithIndirect(Taken(s, b), f, b).(owner := s.owner[b := Indirect(f)])
  }

  /** Slot i of file f gets the block b. */
  function NewSlot(s: State, f: nat, i: nat, b: nat): State
    requires ShapeOk(s) && f < |s.files| && i < NINDIRECT && b < |s.bitmap|
  {
    WithSlot(Taken(s, b), f, i, b).(owner := s.owner[b := Slot(f, i)])
  }

  /** Slot i of file f gives its block back. */
  function ClearSlot(s: State, f: nat, i: nat): State
    requires ShapeOk(s) && f < |s.files| && i < NINDIRECT && SlotAt(s, f, i) < |s.bitmap|
  {
    var v := SlotAt(s, f, i);
    if v == 0 then s else WithSlot(s, f, i, 0).(bitmap := s.bitmap[v := true], owner := s.owner - {v})
  }

  function DropIndirect(s: State, f: nat): State
    requires ShapeOk(s) && f < |s.files|
  {
    var v := s.files[f].indirect;
    if v == 0 then s else WithIndirect(s, f, 0).(bitmap := s.bitmap[v := true], owner := s.owner - {v})
  }

  // --------------------------------------------------------------- what they keep

  lemma TakenSlots(s: State, b: nat)
    requires Own(s) && b < |s.bitmap| && s.bitmap[b]
    ensures ShapeOk(Taken(s, b))
    ensures forall p :: IsPlace(s, p) ==> BlockAt(Taken(s, b), p) == BlockAt(s, p)
  {
    forall p | IsPlace(s, p) ensures BlockAt(Taken(s, b), p) == BlockAt(s, p) {
      assert IsPlace(s, Indirect(p.file));
      if s.files[p.file].indirect != 0 { assert BlockAt(s, Indirect(p.file)) in s.owner; }
    }
  }

  /** A block read into the cache. */
  function Cached(s: State, b: nat): State
    requires b < |s.cached|
  {
    s.(cached := s.cached[b := true])
  }

  lemma CachedKeeps(s: State, b: nat)
    requires Own(s) && b < |s.cached|
    ensures Own(Cached(s, b))
    ensures forall f, i :: 0 <= f < |s.files| && 0 <= i < NINDIRECT ==> SlotAt(Cached(s, b), f, i) == SlotAt(s, f, i)
  {
    var t := Cached(s, b);
    assert forall p :: IsPlace(s, p) ==> BlockAt(t, p) == BlockAt(s, p);
  }

  /** Writing one slot changes that slot only. */
  lemma SlotWritten(s: State, f: nat, i: nat, v: nat)
    requires ShapeOk(s) && f < |s.files| && i < NINDIRECT && (i >= NDIRECT ==> s.files[f].indirect != 0)
    requires forall g :: 0 <= g < |s.files| && g != f && s.files[f].indirect != 0 ==> s.files[g].indirect != s.files[f].indirect
    ensures ShapeOk(WithSlot(s, f, i, v))
    ensures forall p :: IsPlace(s, p) ==> BlockAt(WithSlot(s, f, i, v), p) == if p == Slot(f, i) then v else BlockAt(s, p)
  {
    var t := WithSlot(s, f, i, v);
    forall p | IsPlace(s, p) ensures BlockAt(t, p) == if p == Slot(f, i) then v else BlockAt(s, p) {
      if p.Slot? && p.file != f { assert s.files[p.file].indirect == t.files[p.file].indirect; }
    }
  }

  lemma OneIndirect(s: State, f: nat)
    requires Own(s) && f < |s.files|
    ensures forall g :: 0 <= g < |s.files| && g != f && s.files[f].indirect != 0 ==> s.files[g].indirect != s.files[f].indirect
  {
    forall g | 0 <= g < |s.files| && g != f && s.files[f].indirect != 0 ensures s.files[g].indirect != s.files[f].indirect {
      assert IsPlace(s, Indirect(f)) && IsPlace(s, Indirect(g));
      assert BlockAt(s, Indirect(f)) in s.owner;
      assert s.files[g].indirect != 0 ==> s.owner[BlockAt(s, Indirect(g))] == Indirect(g);
    }
  }

  /** Giving a free block to an empty place. */
  lemma OwnMore(s: State, t: State, b: nat, q: Place)
    requires Own(s) && b < |s.bitmap| && s.bitmap[b] && IsPlace(s, q) && BlockAt(s, q) == 0
    requires ShapeOk(t) && t.bitmap == s.bitmap[b := false] && |t.files| == |s.files| && t.reserved == s.reserved
    requires t.owner == s.owner[b := q] && forall p :: IsPlace(s, p) ==> BlockAt(t, p) == if p == q then b else BlockAt(s, p)
    ensures Own(t)
  {
    assert b !in s.reserved && b !in s.owner;
    forall p | IsPlace(t, p) && BlockAt(t, p) != 0 ensures BlockAt(t, p) in t.owner && t.owner[BlockAt(t, p)] == p {
      assert IsPlace(s, p);
    }
    forall c | c in t.owner ensures IsPlace(t, t.owner[c]) && BlockAt(t, t.owner[c]) == c {
      if c != b { assert IsPlace(s, s.owner[c]) && s.owner[c] != q; }
    }
  }

  /** Taking the block of a place back. */
  lemma OwnLess(s: State, t: State, b: nat, q: Place)
    requires Own(s) && IsPlace(s, q) && BlockAt(s, q) == b && b != 0
    requires ShapeOk(t) && b < |s.bitmap| && t.bitmap == s.bitmap[b := true] && |t.files| == |s.files| && t.reserved == s.reserved
    requires t.owner == s.owner - {b} && forall p :: IsPlace(s, p) ==> BlockAt(t, p) == if p == q then 0 else BlockAt(s, p)
    ensures Own(t)
  {
    assert b in s.owner && s.owner[b] == q;
    forall p | IsPlace(t, p) && BlockAt(t, p) != 0 ensures BlockAt(t, p) in t.owner && t.owner[BlockAt(t, p)] == p {
      assert IsPlace(s, p) && s.owner[BlockAt(s, p)] == p;
    }
    forall c | c in t.owner ensures IsPlace(t, t.owner[c]) && BlockAt(t, t.owner[c]) == c {
      assert IsPlace(s, s.owner[c]) && BlockAt(s, s.owner[c]) == c;
    }
  }

  lemma NewSlotKeeps(s: State, f: nat, i: nat, b: nat)
    requires Own(s) && f < |s.files| && i < NINDIRECT && (i >= NDIRECT ==> s.files[f].indirect != 0)
    requires SlotAt(s, f, i) == 0 && b < |s.bitmap| && s.bitmap[b]
    ensures Own(NewSlot(s, f, i, b))
    ensures forall p :: IsPlace(s, p) ==> BlockAt(NewSlot(s, f, i, b), p) == if p == Slot(f, i) then b else BlockAt(s, p)
  {
    TakenSlots(s, b);
    OneIndirect(s, f);
    SlotWritten(Taken(s, b), f, i, b);
    assert forall p :: IsPlace(s, p) <==> IsPlace(Taken(s, b), p);
    OwnMore(s, NewSlot(s, f, i, b), b, Slot(f, i));
  }

  lemma ClearSlotKeeps(s: State, f: nat, i: nat)
    requires Own(s) && f < |s.files| && i < NINDIRECT
    ensures SlotAt(s, f, i) < |s.bitmap| && Own(ClearSlot(s, f, i))
    ensures forall p :: IsPlace(s, p) ==> BlockAt(ClearSlot(s, f, i), p) == if p == Slot(f, i) then 0 else BlockAt(s, p)
  {
    assert IsPlace(s, Slot(f, i));
    var v := SlotAt(s, f, i);
    assert v != 0 ==> BlockAt(s, Slot(f, i)) in s.owner;
    if v != 0 {
      OneIndirect(s, f);
      SlotWritten(s, f, i, 0);
      OwnLess(s, ClearSlot(s, f, i), v, Slot(f, i));
    }
  }

  /** The places of a file whose indirect pointer changes. */
  lemma IndirectWritten(s: State, f: nat, b: nat)
    requires ShapeOk(s) && f < |s.files| && b < |s.bitmap|
    ensures ShapeOk(WithIndirect(s, f, b))
    ensures forall p :: IsPlace(s, p) && p != Indirect(f) && !(p.Slot? && p.file == f && p.i >= NDIRECT) ==>
              BlockAt(WithIndirect(s, f, b), p) == BlockAt(s, p)
  {}

  ghost predicate TailEmpty(s: State, f: nat)
    requires ShapeOk(s) && f < |s.files|
  {
    forall i :: NDIRECT <= i < NINDIRECT ==> SlotAt(s, f, i) == 0
  }

  /** Dropping an indirect block whose slots are empty. */
  lemma DropIndirectKeeps(s: State, f: nat)
    requires Own(s) && f < |s.files| && TailEmpty(s, f)
    ensures Own(DropIndirect(s, f))
    ensures forall p :: IsPlace(s, p) ==> BlockAt(DropIndirect(s, f), p) == if p == Indirect(f) then 0 else BlockAt(s, p)
  {
    var v := s.files[f].indirect;
    if v != 0 {
      assert IsPlace(s, Indirect(f));
      IndirectWritten(s, f, 0);
      OwnLess(s, DropIndirect(s, f), v, Indirect(f));
    }
  }

  /** A new indirect block that reads as zero is in order. */
  lemma NewIndirectKeeps(s: State, f: nat, b: nat)
    requires Own(s) && f < |s.files| && s.files[f].indirect == 0 && b < |s.bitmap| && s.bitmap[b]
    requires forall i :: NDIRECT <= i < NINDIRECT ==> Taken(s, b).words[b][i] == 0
    ensures Own(NewIndirect(s, f, b))
    ensures forall p :: IsPlace(s, p) ==> BlockAt(NewIndirect(s, f, b), p) == if p == Indirect(f) then b else BlockAt(s, p)
  {
    TakenSlots(s, b);
    IndirectWritten(Taken(s, b), f, b);
    assert IsPlace(s, Indirect(f));
    OwnMore(s, NewIndirect(s, f, b), b, Indirect(f));
  }

  /** The places of s are named as before in t, but file f has got the free block b as its
      indirect block, in which word k is not zero, and perhaps another free block at slot i. */
  ghost predicate Stale(s: State, t: State, f: nat, b: nat, k: nat, i: Option<nat>) {
    && ShapeOk(s) && ShapeOk(t) && |t.files| == |s.files| && t.reserved == s.reserved && |t.bitmap| == |s.bitmap|
    && f < |s.files| && s.files[f].indirect == 0 && t.files[f].indirect == b && b < |s.bitmap| && s.bitmap[b]
    && NDIRECT <= k < NINDIRECT && SlotAt(t, f, k) != 0 && (i.Some? ==> i.value < NINDIRECT && i.value != k && SlotAt(s, f, i.value) == 0)
    && (forall p :: IsPlace(s, p) && BlockAt(s, p) != 0 ==> BlockAt(t, p) == BlockAt(s, p))
    && (forall c :: 0 <= c < |s.bitmap| && s.bitmap[c] && !t.bitmap[c] ==> c == b || (i.Some? && c == SlotAt(t, f, i.value)))
  }

  /** Whatever the stale word names, no assignment of owners is right: the block is free, or
      belongs elsewhere, or does not exist. */
  lemma StaleBreaks(s: State, t: State, f: nat, b: nat, k: nat, i: Option<nat>)
    requires Own(s) && Stale(s, t, f, b, k, i)
    ensures !Own(t)
  {
    var w := SlotAt(t, f, k);
    assert IsPlace(t, Slot(f, k)) && BlockAt(t, Slot(f, k)) == w;
    assert IsPlace(t, Indirect(f)) && BlockAt(t, Indirect(f)) == b && b != 0;
    if i.Some? { assert IsPlace(t, Slot(f, i.value)) && BlockAt(t, Slot(f, i.value)) == SlotAt(t, f, i.value); }
    if w in s.owner {
      var p := s.owner[w];
      assert IsPlace(s, p) && BlockAt(s, p) == w && IsPlace(t, p) && BlockAt(t, p) == w && p != Slot(f, k);
    }
  }

  /** A new indirect block that reads as anything but zero breaks ownership for good. */
  lemma StaleIndirect(s: State, f: nat, b: nat, k: nat, owner: map<nat, Place>)
    requires Own(s) && f < |s.files| && s.files[f].indirect == 0 && b < |s.bitmap| && s.bitmap[b]
    requires NDIRECT <= k < NINDIRECT && Taken(s, b).words[b][k] != 0
    ensures !Own(NewIndirect(s, f, b).(owner := owner))
  {
    var t := NewIndirect(s, f, b).(owner := owner);
    TakenSlots(s, b);
    IndirectWritten(Taken(s, b), f, b);
    assert b != 0;
    assert Stale(s, t, f, b, k, None);
    StaleBreaks(s, t, f, b, k, None);
  }

  // ------------------------------------------------------------------ truncation

  function WithSize(s: State, f: nat, size: nat): State
    requires f < |s.files|
  {
    s.(files := s.files[f := s.files[f].(size := size)])
  }

  lemma SizeKeeps(s: State, f: nat, size: nat)
    requires Own(s) && f < |s.files|
    ensures Own(WithSize(s, f, size))
    ensures forall p :: IsPlace(s, p) ==> BlockAt(WithSize(s, f, size), p) == BlockAt(s, p)
  {
    var t := WithSize(s, f, size);
    assert forall p :: IsPlace(s, p) ==> BlockAt(t, p) == BlockAt(s, p);
  }

  /** file_clear_block for a slot that exists: its indirect block is read first. */
  function ClearOne(s: State, f: nat, i: nat): State
    requires ShapeOk(s) && f < |s.files| && i < NINDIRECT
  {
    var r := if i < NDIRECT then s else Cached(s, s.files[f].indirect);
    if SlotAt(r, f, i) < |r.bitmap| then ClearSlot(r, f, i) else r
  }

  lemma ClearOneKeeps(s: State, f: nat, i: nat)
    requires Own(s) && f < |s.files| && i < NINDIRECT
    ensures Own(ClearOne(s, f, i)) && |ClearOne(s, f, i).files| == |s.files|
    ensures forall p :: IsPlace(s, p) ==> BlockAt(ClearOne(s, f, i), p) == if p == Slot(f, i) then 0 else BlockAt(s, p)
    ensures forall g :: 0 <= g < |s.files| ==> ClearOne(s, f, i).files[g].size == s.files[g].size
  {
    var r := if i < NDIRECT then s else Cached(s, s.files[f].indirect);
    if i >= NDIRECT { CachedKeeps(s, s.files[f].indirect); }
    assert forall p :: IsPlace(s, p) ==> BlockAt(r, p) == BlockAt(s, p);
    ClearSlotKeeps(r, f, i);
  }

  /** t is s with the slots of f from lo to hi emptied and their blocks freed. */
  ghost predicate Emptied(s: State, t: State, f: nat, lo: nat, hi: nat)
    requires ShapeOk(s) && ShapeOk(t)
  {
    && |t.files| == |s.files| && t.reserved == s.reserved && |t.bitmap| == |s.bitmap|
    && (forall p :: IsPlace(s, p) ==> BlockAt(t, p) == if p.Slot? && p.file == f && lo <= p.i < hi then 0 else BlockAt(s, p))
    && (forall g :: 0 <= g < |s.files| ==> t.files[g].size == s.files[g].size)
  }

  lemma EmptiedMore(s: State, t: State, f: nat, lo: nat, hi: nat)
    requires Own(s) && Own(t) && Emptied(s, t, f, lo, hi) && f < |s.files| && lo <= hi < NINDIRECT
    ensures Own(ClearOne(t, f, hi)) && Emptied(s, ClearOne(t, f, hi), f, lo, hi + 1)
  {
    ClearOneKeeps(t, f, hi);
    assert forall p :: IsPlace(s, p) ==> IsPlace(t, p);
  }

  /** file_truncate panics when a slot that it has to clear cannot be reached. */
  predicate TruncatePanics(s: State, f: nat, size: nat)
    requires f < |s.files|
  {
    var had := Blocks(s.files[f].size);
    Blocks(size) < had && (had > NINDIRECT || (had > NDIRECT && s.files[f].indirect == 0))
  }

  /** What file_truncate leaves: the slots below the new size, the indirect block only if they
      need it, other files as they were. */
  ghost predicate Truncated(s: State, t: State, f: nat, size: nat)
    requires ShapeOk(s) && ShapeOk(t) && f < |s.files|
  {
    var keep := Blocks(size);
    && |t.files| == |s.files| && t.reserved == s.reserved && |t.bitmap| == |s.bitmap| && t.files[f].size == size
    && (forall g :: 0 <= g < |s.files| && g != f ==> t.files[g].size == s.files[g].size)
    && (forall p :: IsPlace(s, p) && p.file != f ==> BlockAt(t, p) == BlockAt(s, p))
    && (forall i :: 0 <= i < NINDIRECT ==> SlotAt(t, f, i) == if i < keep then SlotAt(s, f, i) else 0)
    && t.files[f].indirect == (if keep <= NDIRECT then 0 else s.files[f].indirect)
  }

  /** Every block that holds a byte below the new size keeps its slot; all other slots are empty. */
  ghost predicate BytesKept(s: State, t: State, f: nat, size: nat)
    requires ShapeOk(s) && ShapeOk(t) && f < |s.files| && f < |t.files|
  {
    forall i :: 0 <= i < NINDIRECT ==> SlotAt(t, f, i) == if i * BLOCK_SIZE < size then SlotAt(s, f, i) else 0
  }

  lemma TruncatedBytes(s: State, t: State, f: nat, size: nat)
    requires ShapeOk(s) && ShapeOk(t) && f < |s.files| && Truncated(s, t, f, size)
    ensures BytesKept(s, t, f, size)
  {
    forall i | 0 <= i < NINDIRECT ensures SlotAt(t, f, i) == if i * BLOCK_SIZE < size then SlotAt(s, f, i) else 0 {
      BlocksHold(size, i);
    }
  }

  lemma TruncatedEnd(s: State, u: State, f: nat, size: nat)
    requires Own(s) && f < |s.files| && TailZero(s, f) && size <= s.files[f].size
    requires Own(u) && Emptied(s, u, f, Blocks(size), Blocks(s.files[f].size))
    ensures var v := if Blocks(size) <= NDIRECT then DropIndirect(u, f) else u;
      var t := WithSize(v, f, size); Own(t) && Truncated(s, t, f, size) && TailZero(t, f) && (Tight(s, f) ==> Tight(t, f))
  {
    forall i | Blocks(size) <= i < NINDIRECT ensures SlotAt(u, f, i) == 0 {
      assert IsPlace(s, Slot(f, i)) && BlockAt(s, Slot(f, i)) == SlotAt(s, f, i) && BlockAt(u, Slot(f, i)) == SlotAt(u, f, i);
    }
    var v := if Blocks(size) <= NDIRECT then DropIndirect(u, f) else u;
    if Blocks(size) <= NDIRECT { DropIndirectKeeps(u, f); }
    SizeKeeps(v, f, size);
    TruncatedPlaces(s, u, v, f, size);
  }

  lemma TruncatedPlaces(s: State, u: State, v: State, f: nat, size: nat)
    requires ShapeOk(s) && ShapeOk(u) && ShapeOk(v) && f < |s.files| && size <= s.files[f].size && TailZero(s, f)
    requires Emptied(s, u, f, Blocks(size), Blocks(s.files[f].size)) && |v.files| == |u.files|
    requires forall p :: IsPlace(u, p) ==> BlockAt(v, p) == if p == Indirect(f) && Blocks(size) <= NDIRECT then 0 else BlockAt(u, p)
    requires v.reserved == u.reserved && |v.bitmap| == |u.bitmap| && forall g :: 0 <= g < |u.files| ==> v.files[g].size == u.files[g].size
    requires ShapeOk(WithSize(v, f, size)) && forall p :: IsPlace(v, p) ==> BlockAt(WithSize(v, f, size), p) == BlockAt(v, p)
    ensures Truncated(s, WithSize(v, f, size), f, size) && TailZero(WithSize(v, f, size), f)
    ensures Tight(s, f) ==> Tight(WithSize(v, f, size), f)
  {
    var t := WithSize(v, f, size);
    forall p | IsPlace(s, p) ensures IsPlace(u, p) && IsPlace(v, p) && IsPlace(t, p) {}
    forall i | 0 <= i < NINDIRECT ensures SlotAt(t, f, i) == if i < Blocks(size) then SlotAt(s, f, i) else 0 {
      var p := Slot(f, i);
      assert IsPlace(s, p) && BlockAt(t, p) == BlockAt(v, p) && BlockAt(v, p) == BlockAt(u, p);
    }
    assert IsPlace(s, Indirect(f)) && BlockAt(t, Indirect(f)) == t.files[f].indirect;
  }

  /** A truncation frees exactly the blocks of the places it has emptied. */
  lemma FreedExactly(s: State, t: State, b: nat)
    requires Own(s) && Own(t) && t.reserved == s.reserved && |t.bitmap| == |s.bitmap| && |t.files| == |s.files| && b < |s.bitmap|
    requires forall p :: IsPlace(s, p) ==> BlockAt(t, p) == BlockAt(s, p) || BlockAt(t, p) == 0
    ensures t.bitmap[b] <==> s.bitmap[b] || (b in s.owner && BlockAt(t, s.owner[b]) == 0)
  {
    if b in t.owner { assert IsPlace(s, t.owner[b]) && BlockAt(t, t.owner[b]) == b; }
    if b in s.owner {
      var p := s.owner[b];
      assert IsPlace(s, p) && IsPlace(t, p) && BlockAt(s, p) == b && b != 0;
    }
  }

  // ------------------------------------------------------------- mapping file blocks

  /** The block b, once taken, reads as zero where an indirect block has slots. */
  ghost predicate Clean(s: State, b: nat)
    requires ShapeOk(s) && b < |s.bitmap|
  {
    forall i :: NDIRECT <= i < NINDIRECT ==> Taken(s, b).words[b][i] == 0
  }

  lemma NewIndirectIff(s: State, f: nat, b: nat)
    requires Own(s) && f < |s.files| && s.files[f].indirect == 0 && b < |s.bitmap| && s.bitmap[b]
    ensures Own(NewIndirect(s, f, b)) <==> Clean(s, b)
    ensures Clean(s, b) ==> forall p :: IsPlace(s, p) ==> BlockAt(NewIndirect(s, f, b), p) == if p == Indirect(f) then b else BlockAt(s, p)
  {
    if Clean(s, b) {
      NewIndirectKeeps(s, f, b);
    } else {
      var k :| NDIRECT <= k < NINDIRECT && Taken(s, b).words[b][k] != 0;
      StaleIndirect(s, f, b, k, s.owner[b := Indirect(f)]);
    }
  }

  /** The lowest free block from b on. */
  function LowestFree(bitmap: seq<bool>, b: nat): (r: Option<nat>)
    ensures r.Some? ==> b <= r.value < |bitmap| && bitmap[r.value] && forall c :: b <= c < r.value ==> !bitmap[c]
    ensures r.None? ==> forall c :: b <= c < |bitmap| ==> !bitmap[c]
    decreases |bitmap| - b
  {
    if b >= |bitmap| then None else if bitmap[b] then Some(b) else LowestFree(bitmap, b + 1)
  }

  /** Mapping slot i of f needs a new indirect block, and there is one: it is this block. */
  function IndirectAhead(s: State, f: nat, i: nat, alloc: bool): Option<nat>
    requires f < |s.files|
  {
    if alloc && NDIRECT <= i < NINDIRECT && s.files[f].indirect == 0 then LowestFree(s.bitmap, 3) else None
  }

  /** Mapping slot i of f would use a new indirect block that does not read as zero. */
  ghost predicate StaleAhead(s: State, f: nat, i: nat, alloc: bool)
    requires ShapeOk(s) && f < |s.files|
  {
    var b := IndirectAhead(s, f, i, alloc);
    b.Some? && !Clean(s, b.value)
  }

  /** What alloc_block answers if blocks below from are in use. */
  function AllocAnswer(s: State, from: nat, memOk: bool): Result<nat>
    requires |s.cached| == |s.bitmap|
  {
    match LowestFree(s.bitmap, from)
    case None => Err(NoDisk)
    case Some(b) => if s.cached[b] || memOk then Ok(b) else Err(NoMem)
  }

  /** What file_map_block answers for a slot that holds v, if blocks below from are in use. */
  function SlotAnswer(s: State, v: nat, from: nat, alloc: bool, memOk: bool): Result<nat>
    requires |s.cached| == |s.bitmap|
  {
    if v != 0 then Ok(v) else if alloc then AllocAnswer(s, from, memOk) else Err(NotFound)
  }

  /** The answer of file_map_block. */
  function MapAnswer(s: State, f: nat, i: nat, alloc: bool, memOk: bool): Result<nat>
    requires ShapeOk(s) && f < |s.files|
  {
    if i >= NINDIRECT then Err(Inval)
    else if i < NDIRECT || s.files[f].indirect != 0 then SlotAnswer(s, SlotAt(s, f, i), 3, alloc, memOk)
    else if !alloc then Err(NotFound)
    else
      var b := AllocAnswer(s, 3, memOk);
      if b.Err? then b else SlotAnswer(s, Taken(s, b.value).words[b.value][i], b.value + 1, alloc, memOk)
  }

  /** What the answers of file_map_block mean: the block of a used slot; a block that was free if
      one is wanted for an empty slot; and each error only for its reason. */
  ghost predicate MapMeans(s: State, f: nat, i: nat, alloc: bool, memOk: bool, r: Result<nat>)
    requires ShapeOk(s) && f < |s.files|
  {
    && (r == Err(Inval) <==> i >= NINDIRECT)
    && (i < NINDIRECT && SlotAt(s, f, i) != 0 ==> r == Ok(SlotAt(s, f, i)))
    && (i < NINDIRECT && SlotAt(s, f, i) == 0 ==> (r == Err(NotFound) <==> !alloc))
    && (r == Err(NoMem) ==> !memOk)
    && (r == Err(NoDisk) ==> alloc && forall b, c :: 3 <= b < |s.bitmap| && 3 <= c < |s.bitmap| && s.bitmap[b] && s.bitmap[c] ==> b == c)
  }

  lemma MapAnswerMeans(s: State, f: nat, i: nat, alloc: bool, memOk: bool)
    requires ShapeOk(s) && f < |s.files|
    ensures MapMeans(s, f, i, alloc, memOk, MapAnswer(s, f, i, alloc, memOk))
  {
    var a := LowestFree(s.bitmap, 3);
    if a.Some? {
      var b := LowestFree(s.bitmap, a.value + 1);
    }
  }

  lemma LowestAfter(bitmap: seq<bool>, b: nat)
    requires LowestFree(bitmap, 3) == Some(b)
    ensures LowestFree(bitmap[b := false], 3) == LowestFree(bitmap, b + 1)
  {
    var rest := bitmap[b := false];
    var x, y := LowestFree(rest, 3), LowestFree(bitmap, b + 1);
    if x.Some? { assert bitmap[x.value] && x.value != b; }
    if y.Some? { assert rest[y.value]; }
  }

  /** After the walk to the slot, with or without a new indirect block. */
  ghost predicate AfterWalk(s: State, m: State, f: nat, i: nat, alloc: bool)
    requires ShapeOk(s) && f < |s.files|
  {
    var added := IndirectAhead(s, f, i, alloc);
    && i < NINDIRECT && (i >= NDIRECT && s.files[f].indirect == 0 ==> added.Some?)
    && m == if added.Some? then NewIndirect(s, f, added.value) else if i < NDIRECT then s else Cached(s, s.files[f].indirect)
  }

  /** The answer of file_map_block is the one for the slot that the walk has reached. */
  lemma MapAnswered(s: State, m: State, f: nat, i: nat, alloc: bool, memOk: bool)
    requires Own(s) && f < |s.files| && AfterWalk(s, m, f, i, alloc) && ShapeOk(m)
    requires IndirectAhead(s, f, i, alloc).Some? ==> AllocAnswer(s, 3, memOk).Ok?
    ensures SlotAnswer(m, SlotAt(m, f, i), 3, alloc, memOk) == MapAnswer(s, f, i, alloc, memOk)
  {
    var added := IndirectAhead(s, f, i, alloc);
    if added.Some? {
      LowestAfter(s.bitmap, added.value);
      assert added.value != 0;
    } else if i >= NDIRECT {
      assert IsPlace(s, Indirect(f)) && BlockAt(s, Indirect(f)) in s.owner;
    }
  }

  /** Ownership after the slot has been filled, or not. */
  lemma MapOwns(s: State, m: State, t: State, f: nat, i: nat, alloc: bool, b: Option<nat>)
    requires Own(s) && f < |s.files| && AfterWalk(s, m, f, i, alloc) && ShapeOk(m) && |m.files| == |s.files|
    requires Own(m) <==> !StaleAhead(s, f, i, alloc)
    requires Own(m) ==> Walked(s, m, f, IndirectAhead(s, f, i, alloc))
    requires b.Some? ==> b.value < |m.bitmap| && m.bitmap[b.value] && SlotAt(m, f, i) == 0
    requires t == if b.Some? then NewSlot(m, f, i, b.value) else m
    ensures Own(t) <==> !StaleAhead(s, f, i, alloc)
    ensures Own(t) && b.Some? ==> MappedTo(s, t, f, i, b.value, IndirectAhead(s, f, i, alloc))
  {
    var added := IndirectAhead(s, f, i, alloc);
    if b.Some? {
      if StaleAhead(s, f, i, alloc) {
        StaleFilled(s, f, added.value, i, b.value);
      } else {
        SlotMapped(s, m, f, i, b.value, added);
      }
    }
  }

  /** Filling a slot next to a stale word does not help. */
  lemma StaleFilled(s: State, f: nat, b: nat, i: nat, c: nat)
    requires Own(s) && f < |s.files| && s.files[f].indirect == 0 && b < |s.bitmap| && s.bitmap[b] && !Clean(s, b)
    requires NDIRECT <= i < NINDIRECT && Taken(s, b).words[b][i] == 0 && c < |s.bitmap| && c != b && s.bitmap[c]
    ensures !Own(NewSlot(NewIndirect(s, f, b), f, i, c))
  {
    var m := NewIndirect(s, f, b);
    var t := NewSlot(m, f, i, c);
    var k :| NDIRECT <= k < NINDIRECT && Taken(s, b).words[b][k] != 0;
    assert b != 0;
    StaleSlots(s, f, b, i, c);
    forall p | IsPlace(s, p) && BlockAt(s, p) != 0 ensures BlockAt(t, p) == BlockAt(s, p) {
      StalePlaces(s, f, b, i, c, p);
    }
    assert Stale(s, t, f, b, k, Some(i));
    StaleBreaks(s, t, f, b, k, Some(i));
  }

  lemma StaleSlots(s: State, f: nat, b: nat, i: nat, c: nat)
    requires Own(s) && f < |s.files| && s.files[f].indirect == 0 && b < |s.bitmap| && s.bitmap[b]
    requires NDIRECT <= i < NINDIRECT && Taken(s, b).words[b][i] == 0 && c < |s.bitmap| && c != b && s.bitmap[c]
    ensures var t := NewSlot(NewIndirect(s, f, b), f, i, c);
      && ShapeOk(t) && t.files[f].indirect == b && SlotAt(t, f, i) == c
      && (forall k :: NDIRECT <= k < NINDIRECT && k != i ==> SlotAt(t, f, k) == Taken(s, b).words[b][k])
  {}

  lemma StalePlaces(s: State, f: nat, b: nat, i: nat, c: nat, p: Place)
    requires Own(s) && f < |s.files| && s.files[f].indirect == 0 && b < |s.bitmap| && s.bitmap[b]
    requires NDIRECT <= i < NINDIRECT && Taken(s, b).words[b][i] == 0 && c < |s.bitmap| && c != b && s.bitmap[c]
    requires IsPlace(s, p) && BlockAt(s, p) != 0
    ensures var t := NewSlot(NewIndirect(s, f, b), f, i, c); ShapeOk(t) && IsPlace(t, p) && BlockAt(t, p) == BlockAt(s, p)
  {
    var m := NewIndirect(s, f, b);
    AloneIndirect(s, b);
    AloneIndirect(s, c);
    IndirectWritten(Taken(s, b), f, b);
    SlotWritten(Taken(m, c), f, i, c);
    assert IsPlace(Taken(m, c), p) && m.files[p.file].indirect != c;
    assert BlockAt(m, p) == BlockAt(Taken(s, b), p) == BlockAt(s, p);
  }

  /** A free block is no file's indirect block, and taking it changes no slot. */
  lemma AloneIndirect(s: State, b: nat)
    requires Own(s) && b < |s.bitmap| && s.bitmap[b]
    ensures forall g :: 0 <= g < |s.files| ==> s.files[g].indirect != b
    ensures ShapeOk(Taken(s, b)) && forall p :: IsPlace(s, p) ==> BlockAt(Taken(s, b), p) == BlockAt(s, p)
  {
    TakenSlots(s, b);
    forall g | 0 <= g < |s.files| ensures s.files[g].indirect != b {
      assert IsPlace(s, Indirect(g)) && BlockAt(s, Indirect(g)) == s.files[g].indirect;
    }
  }

  // --------------------------------------------------- how a stale block comes about

  /** Data is stored in block b, which is in the cache. */
  function Stored(s: State, b: nat, data: seq<nat>): State
    requires b < |s.words|
  {
    s.(words := s.words[b := data])
  }

  /** A data block that is written and then freed by emptying its slot is the stale block of
      a later mapping unless all the words were zero in which an indirect block has slots. */
  lemma StaleArises(s: State, f: nat, i: nat, data: seq<nat>)
    requires Own(s) && f < |s.files| && i < NINDIRECT && SlotAt(s, f, i) != 0 && |data| == NINDIRECT
    requires SlotAt(s, f, i) < |s.bitmap| && s.cached[SlotAt(s, f, i)]
    ensures var b, w := SlotAt(s, f, i), Stored(s, SlotAt(s, f, i), data);
      ShapeOk(w) && SlotAt(w, f, i) == b && Own(w) && Own(ClearSlot(w, f, i)) && ClearSlot(w, f, i).bitmap[b] &&
      (Clean(ClearSlot(w, f, i), b) <==> forall k :: NDIRECT <= k < NINDIRECT ==> data[k] == 0)
  {
    var b, w := SlotAt(s, f, i), Stored(s, SlotAt(s, f, i), data);
    forall p | IsPlace(s, p) ensures BlockAt(w, p) == BlockAt(s, p) {
      assert IsPlace(s, Slot(f, i)) && IsPlace(s, Indirect(p.file)) && BlockAt(s, Slot(f, i)) == b;
      if s.files[p.file].indirect != 0 { OwnDistinct(s, Indirect(p.file), Slot(f, i)); }
    }
    assert IsPlace(s, Slot(f, i));
    ClearSlotKeeps(w, f, i);
    ClearedWords(w, f, i);
    var t := ClearSlot(w, f, i);
    assert t.cached[b] && Taken(t, b).words[b] == data;
  }

  lemma ClearedWords(w: State, f: nat, i: nat)
    requires Own(w) && f < |w.files| && i < NINDIRECT && SlotAt(w, f, i) != 0 && SlotAt(w, f, i) < |w.bitmap|
    ensures ClearSlot(w, f, i).words[SlotAt(w, f, i)] == w.words[SlotAt(w, f, i)]
  {
    assert IsPlace(w, Slot(f, i)) && IsPlace(w, Indirect(f)) && BlockAt(w, Slot(f, i)) == SlotAt(w, f, i);
    if i >= NDIRECT { OwnDistinct(w, Indirect(f), Slot(f, i)); }
  }

  /** The smallest example: block 3 of four is free, in the cache, and full of ones. */
  lemma StaleExample()
    ensures var s := State([false, false, false, true], [true, true, true, true], [Zeros(), Zeros(), Zeros(), seq(NINDIRECT, _ => 1)],
                           [File(0, NoBlocks(), 0)], map[], {0, 1, 2});
      Own(s) && StaleAhead(s, 0, NDIRECT, true) && !Own(NewIndirect(s, 0, 3))
  {
    var s := State([false, false, false, true], [true, true, true, true], [Zeros(), Zeros(), Zeros(), seq(NINDIRECT, _ => 1)],
                   [File(0, NoBlocks(), 0)], map[], {0, 1, 2});
    assert Own(s) by {
      forall p | IsPlace(s, p) ensures BlockAt(s, p) == 0 {}
    }
    assert LowestFree(s.bitmap, 3) == Some(3);
    assert !Clean(s, 3) by { assert Taken(s, 3).words[3][NDIRECT] == 1; }
    NewIndirectIff(s, 0, 3);
  }

  /** Places as they were, except that f may have got the indirect block added. */
  ghost predicate Walked(s: State, t: State, f: nat, added: Option<nat>)
    requires ShapeOk(s) && ShapeOk(t)
  {
    && |t.files| == |s.files| && t.reserved == s.reserved && |t.bitmap| == |s.bitmap|
    && (forall g :: 0 <= g < |s.files| ==> t.files[g].size == s.files[g].size)
    && (forall p :: IsPlace(s, p) ==> BlockAt(t, p) == if p == Indirect(f) && added.Some? then added.value else BlockAt(s, p))
  }

  /** Slot i of f names b; other places are as they were, but for a added indirect block. */
  ghost predicate MappedTo(s: State, t: State, f: nat, i: nat, b: nat, added: Option<nat>)
    requires ShapeOk(s) && ShapeOk(t)
  {
    && |t.files| == |s.files| && t.reserved == s.reserved && |t.bitmap| == |s.bitmap|
    && (forall g :: 0 <= g < |s.files| ==> t.files[g].size == s.files[g].size)
    && (forall p :: IsPlace(s, p) ==> BlockAt(t, p) == if p == Slot(f, i) then b else
                                                       if p == Indirect(f) && added.Some? then added.value else BlockAt(s, p))
  }

  lemma SlotMapped(s: State, m: State, f: nat, i: nat, b: nat, added: Option<nat>)
    requires Own(s) && Own(m) && Walked(s, m, f, added) && f < |s.files| && i < NINDIRECT && (i >= NDIRECT ==> m.files[f].indirect != 0)
    requires SlotAt(m, f, i) == 0 && b < |m.bitmap| && m.bitmap[b]
    ensures Own(NewSlot(m, f, i, b)) && MappedTo(s, NewSlot(m, f, i, b), f, i, b, added)
  {
    NewSlotKeeps(m, f, i, b);
    assert forall p :: IsPlace(s, p) ==> IsPlace(m, p);
  }

  /** Mapping a block below the size keeps a file tight. */
  lemma MappedTight(s: State, t: State, f: nat, i: nat, b: nat, added: Option<nat>)
    requires ShapeOk(s) && ShapeOk(t) && f < |s.files| && MappedTo(s, t, f, i, b, added) && Tight(s, f) && i < Blocks(s.files[f].size)
    requires added.Some? ==> added.value != 0
    ensures Tight(t, f)
  {
    assert IsPlace(s, Indirect(f)) && BlockAt(t, Indirect(f)) == t.files[f].indirect;
    forall j | Blocks(s.files[f].size) <= j < NINDIRECT ensures SlotAt(t, f, j) == 0 {
      assert IsPlace(s, Slot(f, j)) && BlockAt(t, Slot(f, j)) == SlotAt(t, f, j);
    }
  }

  lemma GrownTail(s: State, f: nat, size: nat)
    requires Own(s) && f < |s.files| && TailZero(s, f)
    ensures s.files[f].size <= size <= MAX_FILE_SIZE ==> ShapeOk(WithSize(s, f, size)) && TailZero(WithSize(s, f, size), f)
  {
    if s.files[f].size <= size <= MAX_FILE_SIZE {
      SizeKeeps(s, f, size);
      forall i | Blocks(size) <= i < NINDIRECT ensures SlotAt(WithSize(s, f, size), f, i) == 0 {
        assert IsPlace(s, Slot(f, i)) && BlockAt(s, Slot(f, i)) == BlockAt(WithSize(s, f, size), Slot(f, i));
      }
    }
  }

  /** Growing a file keeps it tight exactly if it has an indirect block whenever it needs one. */
  lemma GrowTight(s: State, f: nat, size: nat)
    requires Own(s) && f < |s.files| && Tight(s, f) && s.files[f].size <= size <= MAX_FILE_SIZE
    ensures ShapeOk(WithSize(s, f, size))
    ensures Tight(WithSize(s, f, size), f) <==> Blocks(size) <= NDIRECT || s.files[f].indirect != 0
  {
    GrownTail(s, f, size);
  }
}
