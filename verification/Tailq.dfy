/** The intrusive tail queue of include/queue.h, at the level of its pointers.

    Elements are numbers below a fixed bound (indices of struct Page or struct Env).
    A back link is the address of the pointer that points at the element: the head's
    tqh_first or the tqe_next of the element before it.  The ghost field items is the
    sequence the pointers represent. */
module Tailqs {
  import opened Prelude

  datatype Link = Head | NextOf(elem: nat)

  /** All pointers of a queue: the head's two and every element's two. */
  datatype Links = Links(first: Option<nat>, last: Link, next: seq<Option<nat>>, prev: seq<Option<Link>>)

  /** The pointer that names position k of the queue. */
  function LinkTo(items: seq<nat>, k: nat): Link
    requires k <= |items|
  {
    if k == 0 then Head else NextOf(items[k - 1])
  }

  function ElemAt(items: seq<nat>, k: nat): Option<nat> {
    if k < |items| then Some(items[k]) else None
  }

  /** The pointers of l represent the sequence items. */
  ghost predicate Represents(l: Links, items: seq<nat>) {
    && |l.next| == |l.prev|
    && Distinct(items)
    && (forall k :: 0 <= k < |items| ==> items[k] < |l.next|)
    && l.first == ElemAt(items, 0)
    && l.last == LinkTo(items, |items|)
    && (forall k :: 0 <= k < |items| ==> l.next[items[k]] == ElemAt(items, k + 1))
    && (forall k :: 0 <= k < |items| ==> l.prev[items[k]] == Some(LinkTo(items, k)))
  }

  /** Writing v through the pointer p. */
  function Write(l: Links, p: Link, v: Option<nat>): Links
    requires p.NextOf? ==> p.elem < |l.next|
  {
    match p
    case Head => l.(first := v)
    case NextOf(e) => l.(next := l.next[e := v])
  }

  function WritePrev(l: Links, e: nat, p: Link): Links
    requires e < |l.prev|
  {
    l.(prev := l.prev[e := Some(p)])
  }

  /** The pointers after TAILQ_INSERT_TAIL. */
  function LinkedBack(l: Links, e: nat): Links
    requires e < |l.next| == |l.prev| && (l.last.NextOf? ==> l.last.elem < |l.next|)
  {
    var m := l.(next := l.next[e := None], prev := l.prev[e := Some(l.last)]);
    Write(m, l.last, Some(e)).(last := NextOf(e))
  }

  lemma AppendedNext(next: seq<Option<nat>>, items: seq<nat>, e: nat, r: seq<Option<nat>>)
    requires Distinct(items) && e !in items && e < |next| && forall k :: 0 <= k < |items| ==> items[k] < |next|
    requires forall k :: 0 <= k < |items| ==> next[items[k]] == ElemAt(items, k + 1)
    requires r == if items == [] then next[e := None] else next[e := None][items[|items| - 1] := Some(e)]
    ensures forall k :: 0 <= k < |items| + 1 ==> (items + [e])[k] < |r| && r[(items + [e])[k]] == ElemAt(items + [e], k + 1)
  {
    var n := |items|;
    forall k | 0 <= k < n ensures items[k] != e && r[items[k]] == ElemAt(items + [e], k + 1) {
      if k < n - 1 { assert items[k] != items[n - 1] && r[items[k]] == next[items[k]]; }
    }
    assert n > 0 ==> items[n - 1] != e;
  }

  lemma AppendedPrev(prev: seq<Option<Link>>, items: seq<nat>, e: nat, last: Link)
    requires e !in items && e < |prev| && last == LinkTo(items, |items|)
    requires forall k :: 0 <= k < |items| ==> items[k] < |prev| && prev[items[k]] == Some(LinkTo(items, k))
    ensures forall k :: 0 <= k < |items| + 1 ==> prev[e := Some(last)][(items + [e])[k]] == Some(LinkTo(items + [e], k))
  {
    forall k | 0 <= k < |items| ensures items[k] != e && LinkTo(items + [e], k) == LinkTo(items, k) {}
    assert LinkTo(items + [e], |items|) == last;
  }

  lemma TailInserted(l: Links, items: seq<nat>, e: nat)
    requires Represents(l, items) && e < |l.next| && e !in items
    ensures l.last.NextOf? ==> l.last.elem < |l.next|
    ensures Represents(LinkedBack(l, e), items + [e])
  {
    var n := |items|;
    assert n > 0 ==> l.last == NextOf(items[n - 1]) && items[n - 1] < |l.next|;
    var r, q := LinkedBack(l, e), items + [e];
    AppendedPrev(l.prev, items, e, l.last);
    AppendedNext(l.next, items, e, r.next);
    assert r.first == ElemAt(q, 0) by { assert l.first == ElemAt(items, 0); }
    assert Distinct(q);
  }

  /** The pointers after TAILQ_INSERT_HEAD. */
  function LinkedFront(l: Links, e: nat): Links
    requires e < |l.next| == |l.prev| && (l.first.Some? ==> l.first.value < |l.prev|)
  {
    var m := l.(next := l.next[e := l.first]);
    var r := if l.first.Some? then WritePrev(m, l.first.value, NextOf(e)) else m.(last := NextOf(e));
    WritePrev(r.(first := Some(e)), e, Head)
  }

  lemma HeadInserted(l: Links, items: seq<nat>, e: nat)
    requires Represents(l, items) && e < |l.next| && e !in items
    ensures l.first.Some? ==> l.first.value < |l.prev|
    ensures Represents(LinkedFront(l, e), [e] + items)
  {
    var t := LinkedFront(l, e);
    var q: seq<nat> := [e] + items;
    assert l.first == ElemAt(items, 0) && (l.first.Some? ==> l.first.value != e);
    assert t.next == l.next[e := l.first];
    assert t.prev == (if l.first.Some? then l.prev[l.first.value := Some(NextOf(e))] else l.prev)[e := Some(Head)];
    forall k | 0 <= k < |q|
      ensures q[k] < |t.next| && t.next[q[k]] == ElemAt(q, k + 1) && t.prev[q[k]] == Some(LinkTo(q, k))
    {
      if k > 0 {
        assert q[k] == items[k - 1] && q[k] != e;
        assert l.next[items[k - 1]] == ElemAt(items, k) == ElemAt(q, k + 1);
        HeadInsertedPrev(l, items, e, k - 1);
      }
    }
  }

  lemma HeadInsertedPrev(l: Links, items: seq<nat>, e: nat, k: nat)
    requires Represents(l, items) && e < |l.next| && e !in items && k < |items|
    ensures items[k] < |LinkedFront(l, e).prev| && LinkedFront(l, e).prev[items[k]] == Some(LinkTo([e] + items, k + 1))
  {
    assert l.prev[items[k]] == Some(LinkTo(items, k)) && l.first == Some(items[0]);
    assert items[k] != e && (k > 0 ==> items[k] != items[0] && ([e] + items)[k] == items[k - 1]);
  }

  /** e's links describe position k of a queue that does not contain it. */
  ghost predicate Gap(l: Links, items: seq<nat>, e: nat, k: nat) {
    && e < |l.next| == |l.prev| && e !in items && k <= |items|
    && l.prev[e] == Some(LinkTo(items, k)) && l.next[e] == ElemAt(items, k)
  }

  /** The pointers after TAILQ_REMOVE. */
  function Unlink(l: Links, e: nat): Links
    requires e < |l.next| == |l.prev| && l.prev[e].Some?
    requires l.next[e].Some? ==> l.next[e].value < |l.prev|
    requires l.prev[e].value.NextOf? ==> l.prev[e].value.elem < |l.next|
  {
    var m := if l.next[e].Some? then WritePrev(l, l.next[e].value, l.prev[e].value)
             else l.(last := l.prev[e].value);
    Write(m, l.prev[e].value, l.next[e])
  }

  ghost predicate Linked(l: Links, e: nat) {
    && e < |l.next| == |l.prev| && l.prev[e].Some?
    && (l.next[e].Some? ==> l.next[e].value < |l.prev|)
    && (l.prev[e].value.NextOf? ==> l.prev[e].value.elem < |l.next|)
  }

  /** What TAILQ_REMOVE writes when the links describe position k of items. */
  lemma UnlinkWrites(l: Links, items: seq<nat>, k: nat)
    requires Represents(l, items) && k < |items|
    ensures Linked(l, items[k])
    ensures var r := Unlink(l, items[k]);
      && r.next == (if k == 0 then l.next else l.next[items[k - 1] := ElemAt(items, k + 1)])
      && r.prev == (if k + 1 < |items| then l.prev[items[k + 1] := Some(LinkTo(items, k))] else l.prev)
      && r.first == (if k == 0 then ElemAt(items, 1) else l.first)
      && r.last == (if k + 1 < |items| then l.last else LinkTo(items, k))
  {
    assert l.next[items[k]] == ElemAt(items, k + 1) && l.prev[items[k]] == Some(LinkTo(items, k));
  }

  lemma UnlinkedNext(next: seq<Option<nat>>, items: seq<nat>, k: nat, r: seq<Option<nat>>)
    requires Distinct(items) && k < |items|
    requires forall j :: 0 <= j < |items| ==> items[j] < |next| && next[items[j]] == ElemAt(items, j + 1)
    requires r == if k == 0 then next else next[items[k - 1] := ElemAt(items, k + 1)]
    ensures var q := items[..k] + items[k + 1..];
      forall j :: 0 <= j < |q| ==> q[j] < |r| && r[q[j]] == ElemAt(q, j + 1)
  {
    var q := items[..k] + items[k + 1..];
    forall j | 0 <= j < |q|
      ensures q[j] < |r| && r[q[j]] == ElemAt(q, j + 1)
    {
      var i := if j < k then j else j + 1;
      assert q[j] == items[i] && (j + 1 < |q| ==> q[j + 1] == items[if j + 1 < k then j + 1 else j + 2]);
      if k > 0 && j != k - 1 {
        assert items[i] != items[k - 1];
      }
    }
  }

  lemma UnlinkedPrev(prev: seq<Option<Link>>, items: seq<nat>, k: nat, r: seq<Option<Link>>)
    requires Distinct(items) && k < |items|
    requires forall j :: 0 <= j < |items| ==> items[j] < |prev| && prev[items[j]] == Some(LinkTo(items, j))
    requires r == if k + 1 < |items| then prev[items[k + 1] := Some(LinkTo(items, k))] else prev
    ensures var q := items[..k] + items[k + 1..];
      forall j :: 0 <= j < |q| ==> q[j] < |r| && r[q[j]] == Some(LinkTo(q, j))
  {
    var q := items[..k] + items[k + 1..];
    forall j | 0 <= j < |q|
      ensures q[j] < |r| && r[q[j]] == Some(LinkTo(q, j))
    {
      var i := if j < k then j else j + 1;
      assert q[j] == items[i] && (j > 0 ==> q[j - 1] == items[if j <= k then j - 1 else j]);
      if j == k {
        assert LinkTo(q, j) == LinkTo(items, k);
      } else {
        assert LinkTo(q, j) == LinkTo(items, i) && (k + 1 < |items| ==> items[i] != items[k + 1]);
      }
    }
  }

  lemma UnlinkedRepresents(l: Links, items: seq<nat>, k: nat)
    requires Represents(l, items) && k < |items|
    ensures Linked(l, items[k])
    ensures Represents(Unlink(l, items[k]), Without(items, items[k]))
  {
    UnlinkWrites(l, items, k);
    var r := Unlink(l, items[k]);
    UnlinkedNext(l.next, items, k, r.next);
    UnlinkedPrev(l.prev, items, k, r.prev);
    WithoutAt(items, k);
    WithoutKeeps(items, items[k]);
    UnlinkedEnds(l, items, k, r);
  }

  lemma UnlinkedEnds(l: Links, items: seq<nat>, k: nat, r: Links)
    requires k < |items|
    requires r.first == if k == 0 then ElemAt(items, 1) else ElemAt(items, 0)
    requires r.last == if k + 1 < |items| then LinkTo(items, |items|) else LinkTo(items, k)
    ensures var q := items[..k] + items[k + 1..];
      r.first == ElemAt(q, 0) && r.last == LinkTo(q, |q|)
  {}

  lemma UnlinkedGap(l: Links, items: seq<nat>, k: nat)
    requires Represents(l, items) && k < |items|
    ensures Linked(l, items[k])
    ensures Gap(Unlink(l, items[k]), items[..k] + items[k + 1..], items[k], k)
  {
    UnlinkWrites(l, items, k);
    var q, r := items[..k] + items[k + 1..], Unlink(l, items[k]);
    assert l.next[items[k]] == ElemAt(items, k + 1) && l.prev[items[k]] == Some(LinkTo(items, k));
    assert r.prev[items[k]] == l.prev[items[k]] && r.next[items[k]] == l.next[items[k]];
    assert ElemAt(q, k) == ElemAt(items, k + 1) && LinkTo(q, k) == LinkTo(items, k);
    WithoutAt(items, k);
    WithoutKeeps(items, items[k]);
  }

  /** Unlinking an element twice with nothing in between changes no pointer. */
  lemma UnlinkIdempotent(l: Links, items: seq<nat>, e: nat, k: nat)
    requires Represents(l, items) && Gap(l, items, e, k)
    ensures Linked(l, e) && Unlink(l, e) == l
  {
    if k < |items| {
      assert l.prev[items[k]] == Some(LinkTo(items, k));
    }
    if k > 0 {
      assert l.next[items[k - 1]] == ElemAt(items, k);
    }
  }

  ghost predicate Stale(l: Links, items: seq<nat>, e: nat) {
    exists k :: Gap(l, items, e, k)
  }

  /** TAILQ_REMOVE on a member, or on an element that has just been removed. */
  lemma Unlinks(l: Links, items: seq<nat>, e: nat)
    requires Represents(l, items) && (e in items || Stale(l, items, e))
    ensures Linked(l, e) && Represents(Unlink(l, e), Without(items, e))
    ensures Stale(Unlink(l, e), Without(items, e), e)
    ensures e !in items ==> Unlink(l, e) == l
  {
    if e in items {
      var k :| 0 <= k < |items| && items[k] == e;
      UnlinkedRepresents(l, items, k);
      UnlinkedGap(l, items, k);
      WithoutAt(items, k);
      assert Gap(Unlink(l, e), Without(items, e), e, k);
    } else {
      var k :| Gap(l, items, e, k);
      UnlinkIdempotent(l, items, e, k);
      WithoutAbsent(items, e);
    }
  }

  /** What TAILQ_REMOVE writes through the old links of an element outside the queue is what
      stands there already, or stands at no member. */
  ghost predicate Harmless(l: Links, items: seq<nat>, e: nat)
    requires Linked(l, e)
  {
    && (match l.next[e]
        case Some(n) => n in items ==> l.prev[n] == l.prev[e]
        case None => l.last == l.prev[e].value)
    && (match l.prev[e].value
        case Head => l.first == l.next[e]
        case NextOf(p) => p in items ==> l.next[p] == l.next[e])
  }

  /** The queue survives TAILQ_REMOVE on an element outside it exactly in that case. */
  lemma UnlinkIff(l: Links, items: seq<nat>, e: nat)
    requires Represents(l, items) && e !in items && Linked(l, e)
    ensures Represents(Unlink(l, e), items) <==> Harmless(l, items, e)
  {
    if Represents(Unlink(l, e), items) {
      UnlinkOnly(l, items, e);
    }
    if Harmless(l, items, e) {
      HarmlessKeeps(l, items, e);
    }
  }

  /** At its members and its head a queue determines the pointers. */
  lemma UnlinkOnly(l: Links, items: seq<nat>, e: nat)
    requires Represents(l, items) && e !in items && Linked(l, e) && Represents(Unlink(l, e), items)
    ensures Harmless(l, items, e)
  {
    var r := Unlink(l, e);
    forall x | x in items ensures r.next[x] == l.next[x] && r.prev[x] == l.prev[x] {
      var k :| 0 <= k < |items| && items[k] == x;
    }
  }

  lemma HarmlessKeeps(l: Links, items: seq<nat>, e: nat)
    requires Represents(l, items) && e !in items && Linked(l, e) && Harmless(l, items, e)
    ensures Represents(Unlink(l, e), items)
  {
    var r := Unlink(l, e);
    assert r.first == l.first && r.last == l.last;
    forall k | 0 <= k < |items| ensures r.next[items[k]] == l.next[items[k]] && r.prev[items[k]] == l.prev[items[k]] {
      assert items[k] in items;
    }
  }

  lemma JustRemovedHarmless(l: Links, items: seq<nat>, e: nat)
    requires Represents(l, items) && Stale(l, items, e)
    ensures Linked(l, e) && Harmless(l, items, e)
  {
    var k :| Gap(l, items, e, k);
    UnlinkIdempotent(l, items, e, k);
    UnlinkIff(l, items, e);
  }

  /** Otherwise members are lost: if c was appended after the last element e was removed, then
      removing e again takes c off the queue. */
  lemma SecondRemovalLoses(l: Links, items: seq<nat>, e: nat, c: nat)
    requires Represents(l, items + [e]) && c < |l.next| && c !in items && c != e
    ensures Linked(l, e) && Represents(Unlink(l, e), items)
    ensures var m := LinkedBack(Unlink(l, e), c);
      Represents(m, items + [c]) && Linked(m, e) && Represents(Unlink(m, e), items)
  {
    LastRemoved(l, items, e);
    var u := Unlink(l, e);
    TailInserted(u, items, c);
    var m := LinkedBack(u, c);
    SameLinks(u, items, e, c);
    LastRemoved(m, items, c);
    assert Unlink(m, e) == Unlink(m, c);
  }

  lemma LastRemoved(l: Links, items: seq<nat>, e: nat)
    requires Represents(l, items + [e])
    ensures Linked(l, e) && Represents(Unlink(l, e), items)
    ensures Unlink(l, e).next[e] == None && Unlink(l, e).prev[e] == Some(LinkTo(items, |items|))
  {
    var q, k := items + [e], |items|;
    assert q[k] == e && LinkTo(q, k) == LinkTo(items, k);
    UnlinkedRepresents(l, q, k);
    UnlinkWrites(l, q, k);
    WithoutAt(q, k);
    assert q[..k] + q[k + 1..] == items;
    assert l.next[q[k]] == None && l.prev[q[k]] == Some(LinkTo(q, k));
  }

  /** c, appended where e was, has the links that e still has. */
  lemma SameLinks(u: Links, items: seq<nat>, e: nat, c: nat)
    requires Represents(u, items) && c < |u.next| && e < |u.next| && c != e && e !in items && c !in items
    requires u.next[e] == None && u.prev[e] == Some(LinkTo(items, |items|))
    ensures u.last.NextOf? ==> u.last.elem < |u.next|
    ensures var m := LinkedBack(u, c); m.next[e] == m.next[c] == None && m.prev[e] == m.prev[c]
  {
    assert u.last == LinkTo(items, |items|) && (items != [] ==> items[|items| - 1] in items);
  }

  /** No pointer of e leads out of the table of elements. */
  ghost predicate Within(l: Links, e: nat)
    requires e < |l.next| == |l.prev|
  {
    && (l.next[e].Some? ==> l.next[e].value < |l.next|)
    && (l.prev[e].Some? && l.prev[e].value.NextOf? ==> l.prev[e].value.elem < |l.next|)
  }

  ghost predicate InRange(l: Links) {
    |l.next| == |l.prev| && forall e :: 0 <= e < |l.next| ==> Within(l, e)
  }

  lemma UnlinkedInRange(l: Links, e: nat)
    requires InRange(l) && e < |l.next| && l.prev[e].Some?
    ensures Linked(l, e) && InRange(Unlink(l, e))
  {
    assert Within(l, e);
    forall x | 0 <= x < |l.next| ensures Within(Unlink(l, e), x) { assert Within(l, x); }
  }

  lemma ClearedKeeps(l: Links, items: seq<nat>, e: nat)
    requires Represents(l, items) && InRange(l) && e < |l.next| && e !in items
    ensures var r := l.(next := l.next[e := None], prev := l.prev[e := None]);
      Represents(r, items) && InRange(r)
  {
    var r := l.(next := l.next[e := None], prev := l.prev[e := None]);
    forall x | 0 <= x < |l.next| ensures Within(r, x) { assert Within(l, x); }
  }

  lemma LinkedInRange(l: Links, items: seq<nat>, e: nat)
    requires Represents(l, items) && InRange(l) && e < |l.next| && e !in items
    ensures (l.last.NextOf? ==> l.last.elem < |l.next|) && InRange(LinkedBack(l, e))
    ensures (l.first.Some? ==> l.first.value < |l.prev|) && InRange(LinkedFront(l, e))
  {
    forall x | 0 <= x < |l.next| ensures Within(LinkedBack(l, e), x) && Within(LinkedFront(l, e), x) { assert Within(l, x); }
  }

  /** The same with ranges. */
  lemma Removes(l: Links, items: seq<nat>, e: nat)
    requires Represents(l, items) && InRange(l) && (e in items || Stale(l, items, e))
    ensures Linked(l, e) && Represents(Unlink(l, e), Without(items, e)) && InRange(Unlink(l, e))
    ensures Stale(Unlink(l, e), Without(items, e), e)
    ensures e !in items ==> Unlink(l, e) == l
  {
    Unlinks(l, items, e);
    UnlinkedInRange(l, e);
  }

  /** TAILQ_REMOVE on any element that has been in the queue. */
  lemma RemovesIff(l: Links, items: seq<nat>, e: nat)
    requires Represents(l, items) && InRange(l) && e < |l.next| && l.prev[e].Some?
    ensures Linked(l, e) && InRange(Unlink(l, e))
    ensures Represents(Unlink(l, e), Without(items, e)) <==> e in items || Harmless(l, items, e)
  {
    UnlinkedInRange(l, e);
    if e in items {
      Unlinks(l, items, e);
    } else {
      UnlinkIff(l, items, e);
      WithoutAbsent(items, e);
    }
  }

  /** TAILQ_REMOVE writes only to members of the queue. */
  lemma RemovedOthers(l: Links, items: seq<nat>, k: nat, x: nat)
    requires Represents(l, items) && k < |items| && x < |l.next| && x !in items
    ensures Linked(l, items[k])
    ensures Unlink(l, items[k]).next[x] == l.next[x] && Unlink(l, items[k]).prev[x] == l.prev[x]
  {
    UnlinkWrites(l, items, k);
  }

  /** The element after e, if e is a member and not the last one. */
  function Successor(items: seq<nat>, e: nat): (r: Option<nat>)
    ensures r.Some? ==> r.value in items
  {
    if |items| < 2 then None
    else if items[0] == e then Some(items[1])
    else Successor(items[1..], e)
  }

  lemma {:induction false} SuccessorAt(items: seq<nat>, k: nat)
    requires Distinct(items) && k < |items|
    ensures Successor(items, items[k]) == ElemAt(items, k + 1)
  {
    if k == 0 {
      if |items| >= 2 { SuccessorAbsent(items[1..], items[0]); }
    } else {
      SuccessorAt(items[1..], k - 1);
    }
  }

  lemma {:induction false} SuccessorAbsent(items: seq<nat>, e: nat)
    requires e !in items
    ensures Successor(items, e) == None
  {
    if |items| >= 2 { SuccessorAbsent(items[1..], e); }
  }

  /** Elements outside the queue have null links. */
  ghost predicate NullOutside(l: Links, items: seq<nat>) {
    |l.next| == |l.prev| && forall e :: 0 <= e < |l.next| && e !in items ==> l.next[e] == None && l.prev[e] == None
  }

  lemma HeadNull(l: Links, items: seq<nat>, e: nat)
    requires Represents(l, items) && NullOutside(l, items) && e < |l.next|
    ensures (l.first.Some? ==> l.first.value < |l.prev|) && NullOutside(LinkedFront(l, e), [e] + items)
  {
    assert l.first == ElemAt(items, 0) && (items != [] ==> items[0] in items);
  }

  lemma TailNull(l: Links, items: seq<nat>, e: nat)
    requires Represents(l, items) && NullOutside(l, items) && e < |l.next|
    ensures (l.last.NextOf? ==> l.last.elem < |l.next|) && NullOutside(LinkedBack(l, e), items + [e])
  {
    assert l.last == LinkTo(items, |items|) && (items != [] ==> items[|items| - 1] in items);
  }

  class Tailq {
    var first: Option<nat>
    var last: Link
    const next: array<Option<nat>>
    const prev: array<Option<Link>>
    ghost var items: seq<nat>
    ghost const Repr: set<object>

    ghost function Pointers(): Links
      reads this, next, prev
    {
      Links(first, last, next[..], prev[..])
    }

    ghost predicate Valid()
      reads this, next, prev
    {
      Repr == {this, next, prev} && Represents(Pointers(), items) && InRange(Pointers())
    }

    ghost predicate Clean()
      reads this, next, prev
    {
      NullOutside(Pointers(), items)
    }

    /** e left the queue and nothing has changed since. */
    ghost predicate JustRemoved(e: nat)
      reads this, next, prev
    {
      Stale(Pointers(), items, e)
    }

    /** e, outside the queue, may be removed again. */
    ghost predicate LinksHarmless(e: nat)
      requires Valid() && e < next.Length && prev[e].Some?
      reads this, next, prev
    {
      assert Within(Pointers(), e);
      Harmless(Pointers(), items, e)
    }

    /** TAILQ_NEXT of a member is its successor; of any other element it is null. */
    method NextPointer(e: nat) returns (r: Option<nat>)
      requires Valid() && Clean() && e < next.Length
      ensures r == Successor(items, e)
    {
      if e in items {
        ghost var k :| 0 <= k < |items| && items[k] == e;
        SuccessorAt(items, k);
        assert next[items[k]] == ElemAt(items, k + 1);
      } else {
        SuccessorAbsent(items, e);
      }
      r := next[e];
    }

    constructor (n: nat)
      ensures Valid() && Clean() && fresh(Repr)
      ensures items == [] && next.Length == n
    {
      next := new Option<nat>[n](_ => None);
      prev := new Option<Link>[n](_ => None);
      first, last, items := None, Head, [];
      Repr := {this, next, prev};
    }

    /** Writes through a pointer to a next pointer. */
    method Store(p: Link, v: Option<nat>)
      requires p.NextOf? ==> p.elem < next.Length
      modifies this`first, next
      ensures Pointers() == Write(old(Pointers()), p, v)
    {
      match p {
        case Head => first := v;
        case NextOf(e) => next[e] := v;
      }
    }

    method InsertTail(e: nat)
      requires Valid() && e < next.Length && e !in items
      modifies this, next, prev
      ensures Valid() && items == old(items) + [e]
      ensures old(Clean()) ==> Clean()
    {
      TailInserted(Pointers(), items, e);
      LinkedInRange(Pointers(), items, e);
      if Clean() { TailNull(Pointers(), items, e); }
      LinkBack(e);
      items := items + [e];
    }

    /** The pointer writes of TAILQ_INSERT_TAIL. */
    method LinkBack(e: nat)
      requires e < next.Length == prev.Length && (last.NextOf? ==> last.elem < next.Length)
      modifies this`first, this`last, next, prev
      ensures Pointers() == LinkedBack(old(Pointers()), e)
    {
      next[e] := None;
      prev[e] := Some(last);
      Store(last, Some(e));
      last := NextOf(e);
    }

    method InsertHead(e: nat)
      requires Valid() && e < next.Length && e !in items
      modifies this, next, prev
      ensures Valid() && items == [e] + old(items)
      ensures old(Clean()) ==> Clean()
    {
      HeadInserted(Pointers(), items, e);
      LinkedInRange(Pointers(), items, e);
      if Clean() { HeadNull(Pointers(), items, e); }
      LinkFront(e);
      items := [e] + items;
    }

    /** The pointer writes of TAILQ_INSERT_HEAD. */
    method LinkFront(e: nat)
      requires e < next.Length == prev.Length && (first.Some? ==> first.value < prev.Length)
      modifies this`first, this`last, next, prev
      ensures Pointers() == LinkedFront(old(Pointers()), e)
    {
      next[e] := first;
      if first.Some? {
        prev[first.value] := Some(NextOf(e));
      } else {
        last := NextOf(e);
      }
      first := Some(e);
      prev[e] := Some(Head);
    }

    /** The macro on a member unlinks it; on an element that has just been removed it
        changes no pointer at all.  Afterwards e counts as just removed. */
    method Remove(e: nat)
      requires Valid() && (e in items || JustRemoved(e))
      modifies this, next, prev
      ensures Valid() && items == Without(old(items), e) && JustRemoved(e)
      ensures Linked(old(Pointers()), e) && Pointers() == Unlink(old(Pointers()), e)
      ensures old(e !in items) ==> Pointers() == old(Pointers())
    {
      Removes(Pointers(), items, e);
      WriteAround(e);
      items := Without(items, e);
    }

    /** The macro on any element that has been in the queue: outside it, the queue is kept
        exactly if the old links are harmless. */
    method RemoveAny(e: nat)
      requires Valid() && e < next.Length && prev[e].Some?
      modifies this`first, this`last, this`items, next, prev
      ensures items == Without(old(items), e)
      ensures Linked(old(Pointers()), e) && Pointers() == Unlink(old(Pointers()), e)
      ensures Valid() <==> old(e in items || LinksHarmless(e))
    {
      RemovesIff(Pointers(), items, e);
      WriteAround(e);
      items := Without(items, e);
    }

    /** The pointer writes of TAILQ_REMOVE. */
    method WriteAround(e: nat)
      requires Linked(Pointers(), e)
      modifies this`first, this`last, next, prev
      ensures Pointers() == Unlink(old(Pointers()), e)
    {
      if next[e].Some? {
        prev[next[e].value] := prev[e];
      } else {
        last := prev[e].value;
      }
      Store(prev[e].value, next[e]);
    }

    /** Unlinks a member and nulls its two links, as the swapper does. */
    method RemoveAndClear(e: nat)
      requires Valid() && Clean() && e in items
      modifies this, next, prev
      ensures Valid() && Clean() && items == Without(old(items), e)
    {
      ghost var l, was := Pointers(), items;
      ghost var k :| 0 <= k < |items| && items[k] == e;
      forall x | 0 <= x < next.Length && x !in items
        ensures Linked(l, e) && Unlink(l, e).next[x] == None && Unlink(l, e).prev[x] == None
      {
        RemovedOthers(l, items, k, x);
      }
      WithoutKeeps(items, e);
      Remove(e);
      ClearLinks(e);
    }

    /** Nulls the two links of an element that is outside the queue. */
    method ClearLinks(e: nat)
      requires Valid() && e < next.Length && e !in items
      requires forall x :: 0 <= x < next.Length && x !in items && x != e ==> next[x] == None && prev[x] == None
      modifies next, prev
      ensures Valid() && Clean() && items == old(items)
    {
      ClearedKeeps(Pointers(), items, e);
      next[e] := None;
      prev[e] := None;
    }
  }
}
