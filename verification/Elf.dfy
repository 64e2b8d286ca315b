/** Loading one ELF segment: elf_load_seg of lib/elfloader.c with the page mapper
    load_icode_mapper of kern/env.c. */
module Elf {
  import opened Prelude

  const PAGE := 4096

  type Bytes = seq<bv8>

  /** One call of the mapper: a zeroed page for va, with src copied to offset. */
  datatype Call = Call(va: nat, offset: nat, src: Bytes)

  function Zeros(n: nat): (z: Bytes)
    ensures |z| == n && forall i :: 0 <= i < n ==> z[i] == 0
  {
    seq(n, _ => 0)
  }

  predicate CallOk(c: Call) { c.offset + |c.src| <= PAGE }

  /** The page that a call maps. */
  function Content(c: Call): (p: Bytes)
    requires CallOk(c)
    ensures |p| == PAGE
    ensures forall k :: 0 <= k < PAGE ==> p[k] == if c.offset <= k < c.offset + |c.src| then c.src[k - c.offset] else 0
  {
    Zeros(c.offset) + c.src + Zeros(PAGE - c.offset - |c.src|)
  }

  /** The address space after the calls, by page number; a page mapped twice is replaced. */
  function Image(calls: seq<Call>): map<nat, Bytes>
    requires forall c :: c in calls ==> CallOk(c)
  {
    if calls == [] then map[]
    else var last := calls[|calls| - 1]; Image(calls[..|calls| - 1])[last.va / PAGE := Content(last)]
  }

  // ------------------------------------------------------------- the calls it makes

  function FirstCall(va: nat, file: Bytes): seq<Call> {
    var offset := va % PAGE;
    if offset == 0 then [] else [Call(va, offset, file[..Min(|file|, PAGE - offset)])]
  }

  /** Where the loop over the file begins. */
  function Begin(va: nat, file: Bytes): nat {
    if va % PAGE == 0 then 0 else Min(|file|, PAGE - va % PAGE)
  }

  /** The calls for zero bytes from i on. */
  function ZeroCalls(va: nat, i: nat, memsz: nat): seq<Call>
    decreases memsz - i
  {
    if i >= memsz then [] else [Call(va + i, 0, [])] + ZeroCalls(va, i + PAGE, memsz)
  }

  /** The calls for file bytes from i on, and then for zero bytes. */
  function RestCalls(va: nat, file: Bytes, memsz: nat, i: nat): seq<Call>
    decreases |file| - i
  {
    if i >= |file| then ZeroCalls(va, i, memsz)
    else [Call(va + i, 0, file[i..Min(i + PAGE, |file|)])] + RestCalls(va, file, memsz, i + PAGE)
  }

  function Calls(va: nat, file: Bytes, memsz: nat): seq<Call> {
    FirstCall(va, file) + RestCalls(va, file, memsz, Begin(va, file))
  }

  lemma Shift<T>(a: seq<T>, c: T, r: seq<T>)
    ensures a + ([c] + r) == (a + [c]) + r
  {}

  /** elf_load_seg, with a mapper that fails at its call number budget: it makes these calls,
      or as many of them as succeed. */
  method ElfLoadSeg(va: nat, file: Bytes, memsz: nat, budget: nat) returns (ok: bool, calls: seq<Call>)
    ensures ok <==> |Calls(va, file, memsz)| <= budget
    ensures calls == if ok then Calls(va, file, memsz) else Calls(va, file, memsz)[..budget]
  {
    var offset := va % PAGE;
    calls := [];
    ghost var all := Calls(va, file, memsz);
    if offset != 0 {
      if budget == 0 {
        LongerThan(all, calls, FirstCall(va, file) + RestCalls(va, file, memsz, Begin(va, file)));
        return false, calls;
      }
      calls := [Call(va, offset, file[..Min(|file|, PAGE - offset)])];
    }
    var i: nat := if offset != 0 then Min(|file|, PAGE - offset) else 0;
    while i < |file|
      invariant |calls| <= budget && all == calls + RestCalls(va, file, memsz, i)
      decreases |file| - i
    {
      if |calls| == budget {
        LongerThan(all, calls, RestCalls(va, file, memsz, i));
        return false, calls;
      }
      var c := Call(va + i, 0, file[i..Min(i + PAGE, |file|)]);
      Shift(calls, c, RestCalls(va, file, memsz, i + PAGE));
      calls := calls + [c];
      i := i + PAGE;
    }
    while i < memsz
      invariant |calls| <= budget && all == calls + ZeroCalls(va, i, memsz)
      decreases memsz - i
    {
      if |calls| == budget {
        LongerThan(all, calls, ZeroCalls(va, i, memsz));
        return false, calls;
      }
      Shift(calls, Call(va + i, 0, []), ZeroCalls(va, i + PAGE, memsz));
      calls := calls + [Call(va + i, 0, [])];
      i := i + PAGE;
    }
    ok := true;
  }

  lemma LongerThan<T>(all: seq<T>, done: seq<T>, rest: seq<T>)
    requires all == done + rest && rest != []
    ensures |all| > |done| && all[..|done|] == done
  {}

  // ------------------------------------------------------------------ what they load

  /** What the segment asks of page p: file bytes at their addresses, zero elsewhere. */
  function Want(va: nat, file: Bytes, p: nat): (w: Bytes)
    ensures |w| == PAGE && forall k :: 0 <= k < PAGE ==> w[k] == WantByte(va, file, p * PAGE + k)
  {
    seq(PAGE, k requires 0 <= k < PAGE => WantByte(va, file, p * PAGE + k))
  }

  function WantByte(va: nat, file: Bytes, a: nat): bv8 {
    if va <= a < va + |file| then file[a - va] else 0
  }

  /** Pages from the one of va to the one of the last byte. */
  function Cover(va: nat, memsz: nat): nat {
    (va + memsz + PAGE - 1) / PAGE - va / PAGE
  }

  /** The segment begins on a page, or its file part fills the first page, or it has no part
      that is not in the file. */
  predicate Good(va: nat, file: Bytes, memsz: nat) {
    va % PAGE == 0 || |file| >= PAGE - va % PAGE || memsz == |file|
  }

  lemma FirstRight(va: nat, file: Bytes)
    requires va % PAGE != 0
    ensures CallOk(FirstCall(va, file)[0]) && Content(FirstCall(va, file)[0]) == Want(va, file, va / PAGE)
  {
    var c := FirstCall(va, file)[0];
    assert va == va / PAGE * PAGE + va % PAGE;
    forall k | 0 <= k < PAGE ensures Content(c)[k] == Want(va, file, va / PAGE)[k] {}
  }

  lemma FileRight(va: nat, file: Bytes, i: nat)
    requires (va + i) % PAGE == 0 && i < |file|
    ensures var c := Call(va + i, 0, file[i..Min(i + PAGE, |file|)]);
      CallOk(c) && Content(c) == Want(va, file, c.va / PAGE)
  {
    var c := Call(va + i, 0, file[i..Min(i + PAGE, |file|)]);
    assert c.va / PAGE * PAGE == va + i;
    forall k | 0 <= k < PAGE ensures Content(c)[k] == Want(va, file, c.va / PAGE)[k] {}
  }

  lemma ZeroRight(va: nat, file: Bytes, i: nat)
    requires (va + i) % PAGE == 0 && i >= |file|
    ensures Content(Call(va + i, 0, [])) == Want(va, file, (va + i) / PAGE)
  {
    var c := Call(va + i, 0, []);
    assert c.va / PAGE * PAGE == va + i;
    forall k | 0 <= k < PAGE ensures Content(c)[k] == Want(va, file, c.va / PAGE)[k] {}
  }

  /** Calls that map consecutive pages, from the one of a on, with what they should hold. */
  ghost predicate Right(va: nat, file: Bytes, calls: seq<Call>, a: nat, n: nat) {
    && |calls| == n
    && forall k :: 0 <= k < n ==> calls[k].va / PAGE == a / PAGE + k && CallOk(calls[k]) && Content(calls[k]) == Want(va, file, a / PAGE + k)
  }

  function Pages(size: int): nat { if size > 0 then (size + PAGE - 1) / PAGE else 0 }

  lemma PagesStep(size: int)
    requires size > 0
    ensures Pages(size) == Pages(size - PAGE) + 1
  {}

  lemma RightMore(va: nat, file: Bytes, c: Call, calls: seq<Call>, a: nat, n: nat)
    requires Right(va, file, calls, a + PAGE, n) && c.va / PAGE == a / PAGE && CallOk(c) && Content(c) == Want(va, file, a / PAGE)
    ensures Right(va, file, [c] + calls, a, n + 1)
  {
    assert (a + PAGE) / PAGE == a / PAGE + 1;
  }

  lemma {:induction false} ZerosRight(va: nat, file: Bytes, i: nat, memsz: nat)
    requires (va + i) % PAGE == 0 && i >= |file|
    ensures Right(va, file, ZeroCalls(va, i, memsz), va + i, Pages(memsz - i))
    decreases memsz - i
  {
    if i < memsz {
      PagesStep(memsz - i);
      ZerosRight(va, file, i + PAGE, memsz);
      ZeroRight(va, file, i);
      RightMore(va, file, Call(va + i, 0, []), ZeroCalls(va, i + PAGE, memsz), va + i, Pages(memsz - i - PAGE));
    }
  }

  lemma {:induction false} RestRight(va: nat, file: Bytes, memsz: nat, i: nat)
    requires (va + i) % PAGE == 0 && |file| <= memsz
    ensures Right(va, file, RestCalls(va, file, memsz, i), va + i, Pages(memsz - i))
    decreases |file| - i
  {
    if i >= |file| {
      ZerosRight(va, file, i, memsz);
    } else {
      PagesStep(memsz - i);
      RestRight(va, file, memsz, i + PAGE);
      FileRight(va, file, i);
      RightMore(va, file, Call(va + i, 0, file[i..Min(i + PAGE, |file|)]), RestCalls(va, file, memsz, i + PAGE),
                va + i, Pages(memsz - i - PAGE));
    }
  }

  lemma FilledFirst(va: nat, file: Bytes, memsz: nat)
    requires |file| <= memsz && va % PAGE != 0 && |file| >= PAGE - va % PAGE
    requires CallOk(FirstCall(va, file)[0]) && Content(FirstCall(va, file)[0]) == Want(va, file, va / PAGE)
    ensures Right(va, file, Calls(va, file, memsz), va, Cover(va, memsz))
  {
    var b := Begin(va, file);
    RestRight(va, file, memsz, b);
    assert (va + b) / PAGE == va / PAGE + 1 == (va + PAGE) / PAGE;
    RightMore(va, file, FirstCall(va, file)[0], RestCalls(va, file, memsz, b), va, Pages(memsz - b));
    assert Pages(memsz - b) + 1 == Cover(va, memsz);
  }

  lemma AlignedCover(va: nat, memsz: nat)
    requires va % PAGE == 0
    ensures Pages(memsz) == Cover(va, memsz)
  {}

  lemma SmallCover(va: nat, memsz: nat)
    requires va % PAGE != 0 && memsz < PAGE - va % PAGE
    ensures Cover(va, memsz) == 1
  {}

  lemma SmallFirst(va: nat, file: Bytes)
    requires va % PAGE != 0 && |file| < PAGE - va % PAGE
    requires CallOk(FirstCall(va, file)[0]) && Content(FirstCall(va, file)[0]) == Want(va, file, va / PAGE)
    ensures Right(va, file, Calls(va, file, |file|), va, Cover(va, |file|))
  {
    SmallCover(va, |file|);
    assert RestCalls(va, file, |file|, Begin(va, file)) == [];
    assert Calls(va, file, |file|) == FirstCall(va, file);
  }

  lemma InCover(va: nat, memsz: nat, p: nat, k: nat)
    requires k < PAGE && va <= p * PAGE + k < va + memsz
    ensures va / PAGE <= p < va / PAGE + Cover(va, memsz)
  {}

  /** In the good cases each page of the segment is mapped exactly once, with the right bytes. */
  lemma GoodLoads(va: nat, file: Bytes, memsz: nat)
    requires |file| <= memsz && Good(va, file, memsz)
    ensures Right(va, file, Calls(va, file, memsz), va, Cover(va, memsz))
  {
    var offset := va % PAGE;
    if offset == 0 {
      AlignedCover(va, memsz);
      RestRight(va, file, memsz, 0);
      assert Calls(va, file, memsz) == RestCalls(va, file, memsz, 0);
    } else {
      FirstRight(va, file);
      if |file| >= PAGE - offset {
        FilledFirst(va, file, memsz);
      } else {
        SmallFirst(va, file);
      }
    }
  }

  /** In all other cases the first page is mapped twice. */
  lemma OthersLose(va: nat, file: Bytes, memsz: nat)
    requires |file| <= memsz && !Good(va, file, memsz)
    ensures var calls := Calls(va, file, memsz);
      |calls| >= 2 && calls[0].va / PAGE == calls[1].va / PAGE == va / PAGE && calls[1].src == []
  {
    var b := Begin(va, file);
    assert b == |file| && RestCalls(va, file, memsz, b) == ZeroCalls(va, b, memsz);
    assert (va + b) / PAGE == va / PAGE;
  }

  lemma AllOk(va: nat, file: Bytes, calls: seq<Call>, n: nat)
    requires Right(va, file, calls, va, n)
    ensures forall c :: c in calls ==> CallOk(c)
  {
    forall c | c in calls ensures CallOk(c) { var k :| 0 <= k < |calls| && calls[k] == c; }
  }

  lemma {:induction false} ImageOf(va: nat, file: Bytes, calls: seq<Call>, n: nat, p: nat)
    requires Right(va, file, calls, va, n) && (forall c :: c in calls ==> CallOk(c)) && va / PAGE <= p < va / PAGE + n
    ensures p in Image(calls) && Image(calls)[p] == Want(va, file, p)
    decreases n
  {
    var last := calls[n - 1];
    assert Image(calls) == Image(calls[..n - 1])[last.va / PAGE := Content(last)];
    if p < va / PAGE + n - 1 { ImageOf(va, file, calls[..n - 1], n - 1, p); }
  }

  /** The System V ABI (chapter 5, section Program Header): the file bytes lie at p_vaddr and the
      rest of the segment reads as zero; byte k of page p is the one at p * PAGE + k. */
  lemma SegmentLoaded(va: nat, file: Bytes, memsz: nat, p: nat, k: nat)
    requires |file| <= memsz && Good(va, file, memsz) && k < PAGE && va <= p * PAGE + k < va + memsz
    ensures forall c :: c in Calls(va, file, memsz) ==> CallOk(c)
    ensures p in Image(Calls(va, file, memsz)) && |Image(Calls(va, file, memsz))[p]| == PAGE
    ensures Image(Calls(va, file, memsz))[p][k] == if p * PAGE + k < va + |file| then file[p * PAGE + k - va] else 0
  {
    var calls, n := Calls(va, file, memsz), Cover(va, memsz);
    GoodLoads(va, file, memsz);
    AllOk(va, file, calls, n);
    InCover(va, memsz, p, k);
    ImageOf(va, file, calls, n, p);
  }

  /** Each page is mapped once exactly in the good cases. */
  lemma MappedOnceIff(va: nat, file: Bytes, memsz: nat)
    requires |file| <= memsz
    ensures Good(va, file, memsz) <==>
      forall i, j :: 0 <= i < j < |Calls(va, file, memsz)| ==> Calls(va, file, memsz)[i].va / PAGE != Calls(va, file, memsz)[j].va / PAGE
  {
    if Good(va, file, memsz) {
      GoodLoads(va, file, memsz);
    } else {
      OthersLose(va, file, memsz);
    }
  }

  // ------------------------------------------------------ what the other cases load

  lemma {:induction false} ZeroCallsAre(va: nat, i: nat, memsz: nat)
    ensures |ZeroCalls(va, i, memsz)| == Pages(memsz - i)
    ensures forall k :: 0 <= k < Pages(memsz - i) ==> ZeroCalls(va, i, memsz)[k] == Call(va + i + k * PAGE, 0, [])
    decreases memsz - i
  {
    if i < memsz {
      PagesStep(memsz - i);
      ZeroCallsAre(va, i + PAGE, memsz);
    }
  }

  /** A first call whose page is mapped again, and zero pages from there on. */
  ghost predicate Overwritten(calls: seq<Call>, base: nat, n: nat) {
    && |calls| == n + 1 && CallOk(calls[0]) && calls[0].va / PAGE == base
    && forall k :: 1 <= k <= n ==> calls[k].va / PAGE == base + k - 1 && calls[k].offset == 0 && calls[k].src == []
  }

  lemma {:induction false} OverwrittenImage(calls: seq<Call>, base: nat, n: nat)
    requires Overwritten(calls, base, n) && n >= 1
    ensures forall c :: c in calls ==> CallOk(c)
    ensures forall p :: p in Image(calls) <==> base <= p < base + n
    ensures forall p :: p in Image(calls) ==> Image(calls)[p] == Zeros(PAGE)
    decreases n
  {
    forall c | c in calls ensures CallOk(c) { var k :| 0 <= k < |calls| && calls[k] == c; }
    var last, before := calls[n], calls[..n];
    assert Content(last) == Zeros(PAGE);
    if n == 1 {
      assert before == [calls[0]] && before[..0] == [];
      assert Image(before) == map[][base := Content(calls[0])];
    } else {
      OverwrittenImage(before, base, n - 1);
    }
    assert Image(calls) == Image(before)[last.va / PAGE := Content(last)];
  }

  lemma PageOf(va: nat, size: nat, k: nat)
    requires va % PAGE + size < PAGE
    ensures (va + size + k * PAGE) / PAGE == va / PAGE + k
  {
    assert va + size + k * PAGE == (va / PAGE + k) * PAGE + (va % PAGE + size);
  }

  /** In all other cases the first page ends up zero, whatever the file bytes are, and the
      pages from there on are mapped as long as zero bytes remain to be loaded. */
  lemma OthersImage(va: nat, file: Bytes, memsz: nat)
    requires |file| <= memsz && !Good(va, file, memsz)
    ensures forall c :: c in Calls(va, file, memsz) ==> CallOk(c)
    ensures var image := Image(Calls(va, file, memsz));
      && (forall p :: p in image <==> va / PAGE <= p < va / PAGE + Pages(memsz - |file|))
      && (forall p :: p in image ==> image[p] == Zeros(PAGE))
      && va / PAGE in image
  {
    var calls, n := Calls(va, file, memsz), Pages(memsz - |file|);
    OthersLose(va, file, memsz);
    assert RestCalls(va, file, memsz, |file|) == ZeroCalls(va, |file|, memsz);
    ZeroCallsAre(va, |file|, memsz);
    forall k | 1 <= k <= n ensures calls[k].va / PAGE == va / PAGE + k - 1 && calls[k].offset == 0 && calls[k].src == [] {
      assert calls[k] == ZeroCalls(va, |file|, memsz)[k - 1];
      PageOf(va, |file|, k - 1);
    }
    OverwrittenImage(calls, va / PAGE, n);
  }

  /** The byte of address a is there and is what the segment asks for. */
  ghost predicate ByteRight(image: map<nat, Bytes>, va: nat, file: Bytes, a: nat) {
    a / PAGE in image && |image[a / PAGE]| == PAGE && image[a / PAGE][a % PAGE] == WantByte(va, file, a)
  }

  /** Every byte of the segment is loaded right. */
  ghost predicate Loaded(va: nat, file: Bytes, memsz: nat) {
    && (forall c :: c in Calls(va, file, memsz) ==> CallOk(c))
    && forall a :: va <= a < va + memsz ==> ByteRight(Image(Calls(va, file, memsz)), va, file, a)
  }

  /** The zero pages of a segment that is not Good reach its last byte. */
  predicate LastReached(va: nat, file: Bytes, memsz: nat) {
    (va % PAGE + memsz - 1) / PAGE < Pages(memsz - |file|)
  }

  /** The page of an address is counted from the page of va. */
  lemma PageFrom(va: nat, a: nat)
    requires va <= a
    ensures a / PAGE == va / PAGE + (va % PAGE + (a - va)) / PAGE
  {
    assert a == va / PAGE * PAGE + (va % PAGE + (a - va));
  }

  lemma GoodLoaded(va: nat, file: Bytes, memsz: nat)
    requires |file| <= memsz && Good(va, file, memsz)
    ensures Loaded(va, file, memsz)
  {
    GoodLoads(va, file, memsz);
    AllOk(va, file, Calls(va, file, memsz), Cover(va, memsz));
    forall a | va <= a < va + memsz ensures ByteRight(Image(Calls(va, file, memsz)), va, file, a) {
      assert a == a / PAGE * PAGE + a % PAGE;
      SegmentLoaded(va, file, memsz, a / PAGE, a % PAGE);
    }
  }

  lemma OthersLoaded(va: nat, file: Bytes, memsz: nat)
    requires |file| <= memsz && !Good(va, file, memsz)
    ensures Loaded(va, file, memsz) <==> (forall i :: 0 <= i < |file| ==> file[i] == 0) && LastReached(va, file, memsz)
  {
    OthersImage(va, file, memsz);
    var image := Image(Calls(va, file, memsz));
    if Loaded(va, file, memsz) {
      forall i | 0 <= i < |file| ensures file[i] == 0 { assert ByteRight(image, va, file, va + i); }
      assert ByteRight(image, va, file, va + memsz - 1);
      PageFrom(va, va + memsz - 1);
    }
    if LastReached(va, file, memsz) && forall i :: 0 <= i < |file| ==> file[i] == 0 {
      forall a | va <= a < va + memsz ensures ByteRight(image, va, file, a) { PageFrom(va, a); }
    }
  }

  /** A segment is loaded right exactly in the good cases, and in the others if its file part
      is zero and the zero pages, which are counted from the end of the file part, happen to
      reach the last byte. */
  lemma LoadedIff(va: nat, file: Bytes, memsz: nat)
    requires |file| <= memsz
    ensures Loaded(va, file, memsz) <==>
      Good(va, file, memsz) || ((forall i :: 0 <= i < |file| ==> file[i] == 0) && LastReached(va, file, memsz))
  {
    if Good(va, file, memsz) {
      GoodLoaded(va, file, memsz);
    } else {
      OthersLoaded(va, file, memsz);
    }
  }
}
