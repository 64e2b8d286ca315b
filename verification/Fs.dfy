/** Blocks of files in fs/fs.c: allocation, the walk from file blocks to disk blocks, and
    truncation, on a bitmap and tables that are updated in place. */
module Fs {
  import opened Prelude
  import opened FsState

  class FileSystem {
    const bitmap: array<bool>         // a set bit is a free block
    const cached: array<bool>         // block_is_mapped
    const files: array<File>
    var words: seq<seq<nat>>          // the blocks as arrays of words
    ghost var owner: map<nat, Place>
    ghost const reserved: set<nat>

    ghost function Repr(): set<object> { {this, bitmap, cached, files} }

    ghost function Abs(): State
      reads this, bitmap, cached, files
    {
      State(bitmap[..], cached[..], words, files[..], owner, reserved)
    }

    ghost predicate Valid()
      reads this, bitmap, cached, files
    {
      bitmap != cached && ShapeOk(Abs()) && bitmap.Length >= 3
    }

    /** free_block: an invalid number is ignored. */
    method FreeBlock(b: nat)
      requires Valid()
      modifies bitmap
      ensures Valid()
      ensures Abs() == old(Abs()).(bitmap := if b == 0 || b >= |old(bitmap[..])| then old(bitmap[..]) else old(bitmap[..])[b := true])
    {
      if b == 0 || b >= bitmap.Length {
        return;
      }
      bitmap[b] := true;
    }

    /** alloc_block_num: the lowest free block from 3 on. */
    method AllocBlockNum() returns (r: Option<nat>)
      requires Valid()
      modifies bitmap
      ensures Valid()
      ensures r == LowestFree(old(bitmap[..]), 3)
      ensures r.None? ==> Abs() == old(Abs())
      ensures r.Some? ==> Abs() == old(Abs()).(bitmap := old(bitmap[..])[r.value := false])
    {
      for b := 3 to bitmap.Length
        invariant Valid() && Abs() == old(Abs())
        invariant LowestFree(bitmap[..], 3) == LowestFree(bitmap[..], b)
      {
        if bitmap[b] {
          bitmap[b] := false;
          return Some(b);
        }
      }
      return None;
    }

    /** map_block: a block that is cached already keeps its contents. */
    method MapBlock(b: nat, memOk: bool) returns (ok: bool)
      requires Valid() && b < cached.Length
      modifies cached, this`words
      ensures Valid()
      ensures ok <==> old(cached[b]) || memOk
      ensures !ok ==> Abs() == old(Abs())
      ensures ok ==> Abs() == old(Abs()).(cached := old(cached[..])[b := true], words := if old(cached[b]) then old(words) else old(words)[b := Zeros()])
    {
      if cached[b] {
        return true;
      }
      if !memOk {
        return false;
      }
      cached[b] := true;
      words := words[b := Zeros()];
      return true;
    }

    /** alloc_block; when the page cannot be had the block is given back. */
    method AllocBlock(memOk: bool) returns (r: Result<nat>)
      requires Valid()
      modifies bitmap, cached, this`words
      ensures Valid()
      ensures r == AllocAnswer(old(Abs()), 3, memOk)
      ensures r == Err(NoDisk) <==> forall b :: 3 <= b < bitmap.Length ==> !old(bitmap[b])
      ensures r.Err? && r.error != NoDisk ==> r == Err(NoMem) && !memOk
      ensures r.Err? ==> Abs() == old(Abs())
      ensures r.Ok? ==> 3 <= r.value < bitmap.Length && old(bitmap[r.value]) && Abs() == Taken(old(Abs()), r.value)
      ensures r.Ok? ==> (old(cached[r.value]) || memOk) && forall b :: 3 <= b < r.value ==> !old(bitmap[b])
    {
      ghost var s := Abs();
      var b := AllocBlockNum();
      if b.None? {
        return Err(NoDisk);
      }
      var ok := MapBlock(b.value, memOk);
      if !ok {
        FreeBlock(b.value);
        assert Abs() == s;
        return Err(NoMem);
      }
      r := Ok(b.value);
    }

    /** read_block of a block in use: its two panics do not fire. */
    method ReadBlock(b: nat)
      requires Valid() && b < bitmap.Length && !bitmap[b]
      modifies cached
      ensures Valid() && Abs() == Cached(old(Abs()), b)
    {
      cached[b] := true;
    }

    /** The indirect block of f is allocated if it does not exist. */
    method EnsureIndirect(f: nat, alloc: bool, memOk: bool) returns (r: Result<()>, ghost added: Option<nat>)
      requires Valid() && Own(Abs()) && f < files.Length
      modifies bitmap, cached, files, this`words, this`owner
      ensures Valid()
      ensures r == if old(files[f]).indirect != 0 then Ok(()) else if !alloc then Err(NotFound)
                   else if AllocAnswer(old(Abs()), 3, memOk).Err? then Err(AllocAnswer(old(Abs()), 3, memOk).error) else Ok(())
      ensures added == if r.Ok? && old(files[f]).indirect == 0 then LowestFree(old(bitmap[..]), 3) else None
      ensures Abs() == if added.Some? then NewIndirect(old(Abs()), f, added.value) else old(Abs())
    {
      added := None;
      if files[f].indirect != 0 {
        return Ok(()), added;
      }
      if !alloc {
        return Err(NotFound), added;
      }
      var b := AllocBlock(memOk);
      if b.Err? {
        return Err(b.error), added;
      }
      files[f] := files[f].(indirect := b.value);
      owner := owner[b.value := Indirect(f)];
      r, added := Ok(()), Some(b.value);
    }

    /** file_block_walk: afterwards slot filebno of f can be reached.  Ownership is kept exactly
        unless the lowest free block is to be the indirect block and reads as something. */
    method FileBlockWalk(f: nat, filebno: nat, alloc: bool, memOk: bool) returns (r: Result<()>, ghost added: Option<nat>)
      requires Valid() && Own(Abs()) && f < files.Length
      modifies bitmap, cached, files, this`words, this`owner
      ensures Valid()
      ensures r == if filebno >= NINDIRECT then Err(Inval)
                   else if filebno < NDIRECT || old(files[f]).indirect != 0 then Ok(())
                   else if !alloc then Err(NotFound)
                   else if AllocAnswer(old(Abs()), 3, memOk).Err? then Err(AllocAnswer(old(Abs()), 3, memOk).error) else Ok(())
      ensures r.Err? ==> Abs() == old(Abs())
      ensures added == if r.Ok? then IndirectAhead(old(Abs()), f, filebno, alloc) else None
      ensures Own(Abs()) <==> !StaleAhead(old(Abs()), f, filebno, alloc)
      ensures added.Some? ==> AllocAnswer(old(Abs()), 3, memOk).Ok? && added.value != 0
      ensures Own(Abs()) ==> Walked(old(Abs()), Abs(), f, added)
      ensures r.Ok? && filebno >= NDIRECT ==> files[f].indirect != 0
      ensures r.Ok? ==> AfterWalk(old(Abs()), Abs(), f, filebno, alloc)
    {
      ghost var s := Abs();
      added := None;
      if filebno < NDIRECT {
        return Ok(()), added;
      }
      if filebno >= NINDIRECT {
        return Err(Inval), added;
      }
      r, added := EnsureIndirect(f, alloc, memOk);
      if r.Ok? {
        if added.Some? {
          NewIndirectIff(s, f, added.value);
        } else {
          assert IsPlace(s, Indirect(f)) && BlockAt(s, Indirect(f)) in s.owner;
          CachedKeeps(s, files[f].indirect);
        }
        ReadBlock(files[f].indirect);
        assert added.Some? ==> Abs() == NewIndirect(s, f, added.value);
      }
    }

    /** Writing *ppdiskbno. */
    method SetSlot(f: nat, i: nat, v: nat)
      requires Valid() && f < files.Length && i < NINDIRECT
      modifies files, this`words
      ensures Abs() == WithSlot(old(Abs()), f, i, v)
    {
      if i < NDIRECT {
        files[f] := files[f].(direct := files[f].direct[i := v]);
      } else {
        var block: seq<nat> := words[files[f].indirect][i := v];
        words := words[files[f].indirect := block];
      }
    }

    /** The word that *ppdiskbno points at. */
    method GetSlot(f: nat, i: nat) returns (v: nat)
      requires Valid() && f < files.Length && i < NINDIRECT && (i >= NDIRECT ==> files[f].indirect != 0)
      ensures v == SlotAt(Abs(), f, i)
    {
      v := if i < NDIRECT then files[f].direct[i] else words[files[f].indirect][i];
    }

    /** The second half of file_map_block: an empty slot gets a block. */
    method FillSlot(f: nat, i: nat, memOk: bool) returns (r: Result<nat>)
      requires Valid() && f < files.Length && i < NINDIRECT
      modifies bitmap, cached, files, this`words, this`owner
      ensures Valid()
      ensures r == AllocAnswer(old(Abs()), 3, memOk)
      ensures r.Err? ==> Abs() == old(Abs())
      ensures r.Ok? ==> 3 <= r.value < bitmap.Length && old(bitmap[r.value]) && Abs() == NewSlot(old(Abs()), f, i, r.value)
    {
      r := AllocBlock(memOk);
      if r.Ok? {
        SetSlot(f, i, r.value);
        owner := owner[r.value := Slot(f, i)];
      }
    }

    /** file_map_block: the disk block of file block filebno, which is allocated if need be.
        Ownership is kept exactly unless a stale block becomes the indirect block. */
    method FileMapBlock(f: nat, filebno: nat, alloc: bool, memOk: bool) returns (r: Result<nat>, ghost added: Option<nat>)
      requires Valid() && Own(Abs()) && f < files.Length
      modifies bitmap, cached, files, this`words, this`owner
      ensures Valid()
      ensures r == MapAnswer(old(Abs()), f, filebno, alloc, memOk)
      ensures MapMeans(old(Abs()), f, filebno, alloc, memOk, r)
      ensures added == None || added == IndirectAhead(old(Abs()), f, filebno, alloc)
      ensures Own(Abs()) <==> !StaleAhead(old(Abs()), f, filebno, alloc)
      ensures Own(Abs()) && r.Ok? ==> MappedTo(old(Abs()), Abs(), f, filebno, r.value, added) && r.value != 0
    {
      ghost var s := Abs();
      MapAnswerMeans(s, f, filebno, alloc, memOk);
      var walk;
      walk, added := FileBlockWalk(f, filebno, alloc, memOk);
      if walk.Err? {
        return Err(walk.error), added;
      }
      ghost var m := Abs();
      assert IsPlace(s, Slot(f, filebno));
      MapAnswered(s, m, f, filebno, alloc, memOk);
      var b := GetSlot(f, filebno);
      if b != 0 {
        return Ok(b), added;
      }
      if !alloc {
        return Err(NotFound), added;
      }
      r := FillSlot(f, filebno, memOk);
      MapOwns(s, m, Abs(), f, filebno, alloc, if r.Ok? then Some(r.value) else None);
    }

    /** free_block(*ptr); *ptr = 0, if the slot is used. */
    method EmptySlot(f: nat, i: nat)
      requires Valid() && Own(Abs()) && f < files.Length && i < NINDIRECT && (i >= NDIRECT ==> files[f].indirect != 0)
      modifies bitmap, files, this`words, this`owner
      ensures Valid() && SlotAt(old(Abs()), f, i) < |old(Abs()).bitmap| && Abs() == ClearSlot(old(Abs()), f, i)
    {
      ClearSlotKeeps(Abs(), f, i);
      var b := GetSlot(f, i);
      if b != 0 {
        FreeBlock(b);
        SetSlot(f, i, 0);
        owner := owner - {b};
      }
    }

    /** file_clear_block. */
    method FileClearBlock(f: nat, filebno: nat) returns (r: Result<()>)
      requires Valid() && Own(Abs()) && f < files.Length
      modifies bitmap, cached, files, this`words, this`owner
      ensures Valid() && Own(Abs())
      ensures r == Err(Inval) <==> filebno >= NINDIRECT
      ensures r == Err(NotFound) <==> NDIRECT <= filebno < NINDIRECT && old(files[f]).indirect == 0
      ensures r.Err? ==> Abs() == old(Abs()) && r.error != NoDisk && r.error != NoMem
      ensures r.Ok? ==> Abs() == ClearOne(old(Abs()), f, filebno)
    {
      ghost var s := Abs();
      var walk, added := FileBlockWalk(f, filebno, false, true);
      if walk.Err? {
        return Err(walk.error);
      }
      ClearOneKeeps(s, f, filebno);
      EmptySlot(f, filebno);
      r := Ok(());
    }

    /** The loop of file_truncate; a block that cannot be cleared stops the server. */
    method ClearBlocks(f: nat, lo: nat, hi: nat) returns (ok: bool)
      requires Valid() && Own(Abs()) && f < files.Length
      modifies bitmap, cached, files, this`words, this`owner
      ensures Valid() && Own(Abs())
      ensures !ok <==> lo < hi && (hi > NINDIRECT || (hi > NDIRECT && old(files[f]).indirect == 0))
      ensures ok ==> Emptied(old(Abs()), Abs(), f, lo, if lo < hi then hi else lo)
    {
      ghost var s := Abs();
      var bno := lo;
      while bno < hi
        invariant lo <= bno && (bno <= hi || bno == lo) && Valid() && Own(Abs()) && Emptied(s, Abs(), f, lo, bno)
        invariant bno > lo ==> bno <= NINDIRECT && (bno > NDIRECT ==> s.files[f].indirect != 0)
      {
        assert IsPlace(s, Indirect(f)) && BlockAt(Abs(), Indirect(f)) == s.files[f].indirect;
        ghost var m := Abs();
        var r := FileClearBlock(f, bno);
        if r.Err? {
          return false;
        }
        EmptiedMore(s, m, f, lo, bno);
        bno := bno + 1;
      }
      return true;
    }

    /** free_block(f->f_indirect); f->f_indirect = 0, if there is one. */
    method RemoveIndirect(f: nat)
      requires Valid() && Own(Abs()) && f < files.Length
      modifies bitmap, files, this`owner
      ensures Valid() && Abs() == DropIndirect(old(Abs()), f)
    {
      if files[f].indirect != 0 {
        FreeBlock(files[f].indirect);
        owner := owner - {files[f].indirect};
        files[f] := files[f].(indirect := 0);
      }
    }

    method StoreSize(f: nat, size: nat)
      requires Valid() && f < files.Length
      modifies files
      ensures Valid() && Abs() == WithSize(old(Abs()), f, size)
    {
      files[f] := files[f].(size := size);
    }

    /** file_truncate of a file to at most its size: the server stops exactly if a block past
        the tenth is to be cleared and there is no indirect block.  Otherwise exactly the slots
        past the new size are emptied and their blocks freed. */
    method FileTruncate(f: nat, size: nat) returns (ok: bool)
      requires Valid() && Own(Abs()) && f < files.Length && size <= files[f].size && TailZero(Abs(), f)
      modifies bitmap, cached, files, this`words, this`owner
      ensures Valid() && Own(Abs())
      ensures !ok <==> TruncatePanics(old(Abs()), f, size)
      ensures ok ==> Truncated(old(Abs()), Abs(), f, size) && TailZero(Abs(), f) && (Tight(old(Abs()), f) ==> Tight(Abs(), f))
      ensures ok ==> BytesKept(old(Abs()), Abs(), f, size)
    {
      ghost var s := Abs();
      ok := ClearBlocks(f, Blocks(size), Blocks(files[f].size));
      if ok {
        TruncatedEnd(s, Abs(), f, size);
        if Blocks(size) <= NDIRECT {
          RemoveIndirect(f);
        }
        StoreSize(f, size);
        TruncatedBytes(s, Abs(), f, size);
      }
    }

    /** file_set_size without the flush.  A file that grows past ten blocks in this way has no
        indirect block yet: making it smaller again stops the server. */
    method FileSetSize(f: nat, size: nat) returns (ok: bool)
      requires Valid() && Own(Abs()) && f < files.Length && TailZero(Abs(), f)
      modifies bitmap, cached, files, this`words, this`owner
      ensures Valid() && Own(Abs())
      ensures !ok <==> size < old(files[f]).size && TruncatePanics(old(Abs()), f, size)
      ensures ok && size < old(files[f]).size ==> Truncated(old(Abs()), Abs(), f, size) && BytesKept(old(Abs()), Abs(), f, size)
      ensures ok && size >= old(files[f]).size ==> Abs() == WithSize(old(Abs()), f, size)
      ensures ok && size >= old(files[f]).size && size <= MAX_FILE_SIZE ==> TailZero(Abs(), f)
    {
      ghost var s := Abs();
      ok := true;
      if files[f].size > size {
        ok := FileTruncate(f, size);
      }
      if ok {
        SizeKeeps(Abs(), f, size);
        GrownTail(s, f, size);
        StoreSize(f, size);
      }
    }

    /** A formatted disk: the first three blocks are in use, and every file is empty. */
    constructor (nblocks: nat, nfiles: nat)
      requires nblocks >= 3
      ensures Valid() && Own(Abs()) && files.Length == nfiles && forall f :: 0 <= f < nfiles ==> Tight(Abs(), f)
    {
      bitmap := new bool[nblocks](b => b >= 3);
      cached := new bool[nblocks](_ => false);
      files := new File[nfiles](_ => File(0, NoBlocks(), 0));
      words := seq(nblocks, _ => Zeros());
      owner, reserved := map[], {0, 1, 2};
    }
  }
}
