/** The loop of fork with steps of other processes, and faults and stores of the parent,
    between its rounds. */
module ForkRun {
  import opened VmState
  import opened VmUser
  import opened Cow

  /** A step that is not a round of the loop: any change of pages that are not the child's
      (a fault, an allocation, an unmapping, the end of a process, or, with no page changed,
      an eviction), or a store by another process than the child.  Each keeps isolation. */
  ghost predicate Elsewhere(s: Vm, t: Vm, child: nat) {
    && CowInv(t)
    && ((exists but: set<Slot> :: SameBut(s, t, but) && forall x :: x in but ==> x.pgdir != child)
        || (exists x: Slot, c :: x.pgdir != child && x in s.pte && s.pte[x].perm.d && Stored(s, t, x, c)))
  }

  datatype Event = Round(vpn: nat) | Other

  /** A run from the making of child b on, in which a treats every page at most once. */
  ghost predicate Run(trace: seq<Vm>, events: seq<Event>, a: nat, b: nat) {
    && a != b && |trace| == |events| + 1 && CowInv(trace[0]) && (forall x :: x in trace[0].pte ==> x.pgdir != b)
    && (forall i, j :: 0 <= i < j < |events| && events[i].Round? ==> events[j] != events[i])
    && (forall i :: 0 <= i < |events| ==> StepOk(trace, events, a, b, i))
  }

  ghost predicate StepOk(trace: seq<Vm>, events: seq<Event>, a: nat, b: nat, i: nat)
    requires i < |events| && |trace| == |events| + 1
  {
    match events[i]
    case Round(v) => Cow.Round(trace[i], trace[i + 1], Slot(a, v), Slot(b, v)) && CowInv(trace[i + 1])
    case Other => Elsewhere(trace[i], trace[i + 1], b)
  }

  /** What a view of a library page keeps while others store to it. */
  ghost predicate SameUse(u: View, v: View) {
    u == v || (u.Mapped? && v.Mapped? && u.perm == v.perm && u.perm.library)
  }

  lemma ElsewhereKeeps(s: Vm, t: Vm, y: Slot)
    requires CowInv(s) && Elsewhere(s, t, y.pgdir)
    ensures SameUse(ViewAt(s, y), ViewAt(t, y))
  {
    if x: Slot, c :| x.pgdir != y.pgdir && x in s.pte && s.pte[x].perm.d && Stored(s, t, x, c) {
      StoreIsolated(s, t, x, c);
    }
  }

  lemma {:induction false} Isolated(trace: seq<Vm>, events: seq<Event>, a: nat, b: nat, i: nat)
    requires Run(trace, events, a, b) && i < |trace|
    ensures CowInv(trace[i])
  {
    if i > 0 { assert StepOk(trace, events, a, b, i - 1); }
  }

  /** A step leaves a page of the child alone unless it is the round of that page. */
  lemma OneStep(trace: seq<Vm>, events: seq<Event>, a: nat, b: nat, i: nat, v: nat)
    requires Run(trace, events, a, b) && i < |events| && events[i] != Round(v)
    ensures SameUse(ViewAt(trace[i], Slot(b, v)), ViewAt(trace[i + 1], Slot(b, v)))
  {
    Isolated(trace, events, a, b, i);
    assert StepOk(trace, events, a, b, i);
    if events[i] == Other {
      ElsewhereKeeps(trace[i], trace[i + 1], Slot(b, v));
    }
  }

  /** Before its round a page of the child is unmapped. */
  lemma {:induction false} StillEmpty(trace: seq<Vm>, events: seq<Event>, a: nat, b: nat, i: nat, v: nat)
    requires Run(trace, events, a, b) && i < |trace| && forall j :: 0 <= j < i ==> events[j] != Round(v)
    ensures ViewAt(trace[i], Slot(b, v)) == Unmapped
    decreases i
  {
    if i > 0 {
      StillEmpty(trace, events, a, b, i - 1, v);
      OneStep(trace, events, a, b, i - 1, v);
    }
  }

  /** From its round on, whatever happens in between, a page of the child reads as the parent's
      page read at that moment; a library page keeps its permissions and may be stored to. */
  lemma {:induction false} ChildKeeps(trace: seq<Vm>, events: seq<Event>, a: nat, b: nat, i: nat, j: nat)
    requires Run(trace, events, a, b) && i < j <= |events| && events[i].Round?
    ensures var v := events[i].vpn; SameUse(DupView(ViewAt(trace[i], Slot(a, v))), ViewAt(trace[j], Slot(b, v)))
    decreases j
  {
    var v := events[i].vpn;
    if j == i + 1 {
      assert StepOk(trace, events, a, b, i);
      StillEmpty(trace, events, a, b, i, v);
    } else {
      ChildKeeps(trace, events, a, b, i, j - 1);
      OneStep(trace, events, a, b, j - 1, v);
    }
  }
}
