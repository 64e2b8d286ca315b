/** Which frames the second-chance clock of swap() chooses, as a function of the queue, the
    accessed flags and the place where the hand was left. */
module VmClock {
  import opened Prelude
  import opened Tailqs
  import opened VmState

  /** pages[].accessed and last_next. */
  datatype Clock = Clock(accessed: seq<bool>, hand: Option<nat>)

  /** TAILQ_NEXT, or the first frame at the end; a frame outside the queue has a null next
      pointer (Tailqs.NextPointer). */
  function After(queue: seq<nat>, p: nat): (q: nat)
    requires queue != []
    ensures q in queue
  {
    match Successor(queue, p)
    case Some(q) => q
    case None => queue[0]
  }

  ghost function MarkedIn(items: seq<nat>, accessed: seq<bool>): set<nat> {
    set q | q in items && q < |accessed| && accessed[q]
  }

  lemma Unmark(items: seq<nat>, accessed: seq<bool>, p: nat)
    requires p in items && p < |accessed| && accessed[p]
    ensures |MarkedIn(items, accessed[p := false])| == |MarkedIn(items, accessed)| - 1
  {
    var cleared := accessed[p := false];
    assert p in MarkedIn(items, accessed);
    assert MarkedIn(items, cleared) == MarkedIn(items, accessed) - {p};
  }

  /** The loop of the clock from pp on: the frame it stops at and the flags it leaves. */
  ghost function Sweep(queue: seq<nat>, accessed: seq<bool>, start: nat, pp: nat, max: nat): (r: (nat, seq<bool>))
    requires queue != []
    ensures r.0 in queue && |r.1| == |accessed|
    decreases |MarkedIn(queue, accessed)| + max
  {
    var q := After(queue, pp);
    if q == start then (q, accessed)
    else if q < |accessed| && accessed[q] then
      Unmark(queue, accessed, q);
      Sweep(queue, accessed[q := false], start, q, max)
    else if max <= 1 then (q, accessed)
    else Sweep(queue, accessed, start, q, max - 1)
  }

  ghost function Start(queue: seq<nat>, clock: Clock): nat
    requires queue != []
  {
    if clock.hand.Some? then clock.hand.value else queue[0]
  }

  /** The victim of one call of swap(), and the clock after it. */
  ghost function Chosen(queue: seq<nat>, clock: Clock): (r: (nat, Clock))
    requires queue != []
    ensures r.0 in queue
  {
    var r := Sweep(queue, clock.accessed, Start(queue, clock), Start(queue, clock), NSWAP);
    (r.0, Clock(r.1, Some(After(queue, r.0))))
  }

  // ------------------------------------------------------------- what the clock means

  /** The place after the hand: one past start, or the head if start has left the queue. */
  ghost function Place(queue: seq<nat>, start: nat): (k: nat)
    ensures k <= |queue| && (k > 0 ==> queue[k - 1] == start) && (k == 0 ==> start !in queue)
  {
    if start in queue then (var k: nat :| k < |queue| && queue[k] == start; k + 1) else 0
  }

  /** The queue in the order in which the hand goes around. */
  ghost function Circle(queue: seq<nat>, start: nat): (c: seq<nat>)
    ensures |c| == |queue|
  {
    var k := Place(queue, start);
    queue[k..] + queue[..k]
  }

  /** The frame that the hand reaches in step i, counted from 0. */
  ghost function Reached(queue: seq<nat>, start: nat, i: nat): nat
    requires queue != []
  {
    if i < |queue| then Circle(queue, start)[i] else Reached(queue, start, i - |queue|)
  }

  /** Step i finds a clear flag: it was clear, or the hand has been there before. */
  ghost predicate FindsClear(queue: seq<nat>, accessed: seq<bool>, start: nat, i: nat)
    requires queue != []
  {
    i >= |queue| || Reached(queue, start, i) >= |accessed| || !accessed[Reached(queue, start, i)]
  }

  /** How many of the first n steps find a clear flag. */
  ghost function ClearSteps(queue: seq<nat>, accessed: seq<bool>, start: nat, n: nat): nat
    requires queue != []
  {
    if n == 0 then 0 else ClearSteps(queue, accessed, start, n - 1) + (if FindsClear(queue, accessed, start, n - 1) then 1 else 0)
  }

  /** One of the first n steps reaches q. */
  ghost predicate Passed(queue: seq<nat>, start: nat, n: nat, q: nat)
    requires queue != []
  {
    exists i :: 0 <= i < n && Reached(queue, start, i) == q
  }

  /** The flags after n steps: the frames passed have lost theirs, the others are as before. */
  ghost predicate FlagsAfter(queue: seq<nat>, accessed: seq<bool>, start: nat, n: nat, flags: seq<bool>)
    requires queue != []
  {
    && |flags| == |accessed|
    && forall q :: 0 <= q < |flags| ==> (flags[q] <==> accessed[q] && !Passed(queue, start, n, q))
  }

  /** Step i is not the last one. */
  ghost predicate GoesOn(queue: seq<nat>, accessed: seq<bool>, start: nat, i: nat)
    requires queue != []
  {
    Reached(queue, start, i) != start && ClearSteps(queue, accessed, start, i + 1) < NSWAP
  }

  /** The victim of the second-chance clock, reached after n steps: the hand comes back to start,
      or the frame is the NSWAP-th whose flag is found clear.  It is the first such frame, and
      exactly the frames passed before it lose their flags. */
  ghost predicate SecondChance(queue: seq<nat>, accessed: seq<bool>, start: nat, victim: nat, flags: seq<bool>, n: nat) {
    && queue != [] && n >= 1 && victim == Reached(queue, start, n - 1)
    && (forall i :: 0 <= i < n - 1 ==> GoesOn(queue, accessed, start, i))
    && (victim == start || (FindsClear(queue, accessed, start, n - 1) && ClearSteps(queue, accessed, start, n) == NSWAP))
    && FlagsAfter(queue, accessed, start, n - 1, flags)
  }

  lemma AfterAt(queue: seq<nat>, k: nat)
    requires Distinct(queue) && k < |queue|
    ensures After(queue, queue[k]) == queue[if k + 1 < |queue| then k + 1 else 0]
  {
    SuccessorAt(queue, k);
  }

  /** Where the loop stands after i steps. */
  ghost function HandAt(queue: seq<nat>, start: nat, i: nat): nat
    requires queue != []
  {
    if i == 0 then start else Reached(queue, start, i - 1)
  }

  /** The places of the queue in the order of the circle. */
  ghost function At(queue: seq<nat>, start: nat, i: nat): nat
    requires i < |queue|
  {
    var k := Place(queue, start);
    if k + i < |queue| then k + i else k + i - |queue|
  }

  lemma CircleAt(queue: seq<nat>, start: nat, i: nat)
    requires i < |queue|
    ensures At(queue, start, i) < |queue| && Circle(queue, start)[i] == queue[At(queue, start, i)]
  {}

  lemma AtNext(queue: seq<nat>, start: nat, i: nat)
    requires i < |queue|
    ensures var a := At(queue, start, i);
      At(queue, start, if i + 1 < |queue| then i + 1 else 0) == if a + 1 < |queue| then a + 1 else 0
  {}

  lemma CircleNext(queue: seq<nat>, start: nat, i: nat)
    requires Distinct(queue) && i < |queue|
    ensures After(queue, Circle(queue, start)[i]) == Circle(queue, start)[if i + 1 < |queue| then i + 1 else 0]
  {
    var j := if i + 1 < |queue| then i + 1 else 0;
    CircleAt(queue, start, i);
    CircleAt(queue, start, j);
    AfterAt(queue, At(queue, start, i));
    AtNext(queue, start, i);
  }

  lemma CircleDistinct(queue: seq<nat>, start: nat)
    requires Distinct(queue)
    ensures Distinct(Circle(queue, start))
  {
    forall i, j | 0 <= i < j < |queue| ensures Circle(queue, start)[i] != Circle(queue, start)[j] {
      CircleAt(queue, start, i);
      CircleAt(queue, start, j);
    }
  }

  lemma {:induction false} AfterHand(queue: seq<nat>, start: nat, i: nat)
    requires Distinct(queue) && queue != []
    ensures After(queue, HandAt(queue, start, i)) == Reached(queue, start, i)
    decreases i
  {
    if i == 0 {
      FirstStep(queue, start);
    } else if i <= |queue| {
      CircleNext(queue, start, i - 1);
    } else {
      AfterHand(queue, start, i - |queue|);
    }
  }

  lemma FirstStep(queue: seq<nat>, start: nat)
    requires Distinct(queue) && queue != []
    ensures After(queue, start) == Circle(queue, start)[0]
  {
    var k := Place(queue, start);
    CircleAt(queue, start, 0);
    if k > 0 {
      AfterAt(queue, k - 1);
    } else {
      SuccessorAbsent(queue, start);
    }
  }

  lemma PassedMore(queue: seq<nat>, start: nat, n: nat, q: nat)
    requires queue != []
    ensures Passed(queue, start, n + 1, q) <==> Passed(queue, start, n, q) || Reached(queue, start, n) == q
  {
    if Passed(queue, start, n, q) {
      var i :| 0 <= i < n && Reached(queue, start, i) == q;
      assert i < n + 1;
    }
  }

  /** In the first round the hand reaches every frame for the first time. */
  lemma PassedBefore(queue: seq<nat>, start: nat, i: nat)
    requires Distinct(queue) && queue != []
    ensures Passed(queue, start, i, Reached(queue, start, i)) <==> i >= |queue|
  {
    var q := Reached(queue, start, i);
    if i >= |queue| {
      assert Reached(queue, start, i - |queue|) == q;
    } else {
      CircleDistinct(queue, start);
    }
  }

  /** The flag that the loop finds in step i. */
  lemma FlagFound(queue: seq<nat>, accessed: seq<bool>, start: nat, i: nat, flags: seq<bool>)
    requires Distinct(queue) && queue != [] && FlagsAfter(queue, accessed, start, i, flags)
    ensures var q := Reached(queue, start, i); q < |flags| && flags[q] <==> !FindsClear(queue, accessed, start, i)
  {
    PassedBefore(queue, start, i);
  }

  lemma FlagsMore(queue: seq<nat>, accessed: seq<bool>, start: nat, i: nat, flags: seq<bool>)
    requires queue != [] && FlagsAfter(queue, accessed, start, i, flags)
    ensures var q := Reached(queue, start, i);
      FlagsAfter(queue, accessed, start, i + 1, if q < |flags| && flags[q] then flags[q := false] else flags)
  {
    forall p | 0 <= p < |flags| ensures Passed(queue, start, i + 1, p) <==> Passed(queue, start, i, p) || Reached(queue, start, i) == p {
      PassedMore(queue, start, i, p);
    }
  }

  /** The loop from its state after i steps: its result is the victim of the clock. */
  lemma {:induction false} SweepMeans(queue: seq<nat>, accessed: seq<bool>, start: nat, i: nat, flags: seq<bool>, max: nat) returns (n: nat)
    requires Distinct(queue) && queue != [] && FlagsAfter(queue, accessed, start, i, flags)
    requires max == NSWAP - ClearSteps(queue, accessed, start, i) >= 1
    requires forall j :: 0 <= j < i ==> GoesOn(queue, accessed, start, j)
    ensures var r := Sweep(queue, flags, start, HandAt(queue, start, i), max); SecondChance(queue, accessed, start, r.0, r.1, n)
    decreases |MarkedIn(queue, flags)| + max
  {
    var q := Reached(queue, start, i);
    AfterHand(queue, start, i);
    FlagFound(queue, accessed, start, i, flags);
    n := i + 1;
    if q != start && q < |flags| && flags[q] {
      Unmark(queue, flags, q);
      FlagsMore(queue, accessed, start, i, flags);
      n := SweepMeans(queue, accessed, start, i + 1, flags[q := false], max);
    } else if q != start && max > 1 {
      FlagsMore(queue, accessed, start, i, flags);
      n := SweepMeans(queue, accessed, start, i + 1, flags, max - 1);
    }
  }

  /** As long as the hand is in the queue, the clock goes around at most once, so no frame is
      reached twice. */
  lemma OneRound(queue: seq<nat>, accessed: seq<bool>, start: nat, victim: nat, flags: seq<bool>, n: nat)
    requires SecondChance(queue, accessed, start, victim, flags, n) && start in queue
    ensures n <= |queue|
  {
    var k := Place(queue, start);
    CircleAt(queue, start, |queue| - 1);
    assert Reached(queue, start, |queue| - 1) == start;
    assert !GoesOn(queue, accessed, start, |queue| - 1);
  }

  /** One call of the clock, from the hand or else the head of the queue, takes the victim of the
      second chance.  Unless the hand has come full circle that is no frame used since the hand
      last passed it; no flag is set; the new hand is the frame after the victim. */
  ghost predicate RightVictim(queue: seq<nat>, before: Clock, victim: nat, after: Clock)
    requires queue != []
  {
    var start := if before.hand.Some? then before.hand.value else queue[0];
    && (exists n :: SecondChance(queue, before.accessed, start, victim, after.accessed, n))
    && (victim != start && victim < |after.accessed| ==> !after.accessed[victim])
    && (forall q :: 0 <= q < |after.accessed| && after.accessed[q] ==> before.accessed[q])
    && after.hand == Some(After(queue, victim))
  }

  lemma ChosenRight(queue: seq<nat>, clock: Clock)
    requires Distinct(queue) && queue != []
    ensures RightVictim(queue, clock, Chosen(queue, clock).0, Chosen(queue, clock).1)
  {
    var start, r := Start(queue, clock), Chosen(queue, clock);
    var n := SweepMeans(queue, clock.accessed, start, 0, clock.accessed, NSWAP);
    assert SecondChance(queue, clock.accessed, start, r.0, r.1.accessed, n);
    if r.0 != start {
      PassedBefore(queue, start, n - 1);
    }
  }

  /** The frames done, followed by the ones that are picked from the queue and leave it when
      this is done n times; pick also sees a state that it updates. */
  ghost function Picks<S>(pick: (seq<nat>, S) -> (nat, S), done: seq<nat>, queue: seq<nat>, s: S, n: nat): seq<nat>
    decreases n
  {
    if n == 0 || queue == [] then done
    else
      var r := pick(queue, s);
      Picks(pick, done + [r.0], Without(queue, r.0), r.1, n - 1)
  }

  ghost function Choice(): (seq<nat>, Clock) -> (nat, Clock) {
    (queue, clock) => if queue == [] then (0, clock) else Chosen(queue, clock)
  }

  /** The victims of n calls of swap(). */
  ghost function Victims(queue: seq<nat>, clock: Clock, n: nat): seq<nat> {
    Picks(Choice(), [], queue, clock, n)
  }

  /** Queue and clock before, between and after the evictions ev. */
  ghost predicate Clicks(trace: seq<(seq<nat>, Clock)>, ev: seq<nat>) {
    && |trace| == |ev| + 1
    && forall k :: 0 <= k < |ev| ==> trace[k].0 != [] && (ev[k], trace[k + 1].1) == Chosen(trace[k].0, trace[k].1)
                                     && trace[k + 1].0 == Without(trace[k].0, ev[k])
  }

  lemma ClicksMore(trace: seq<(seq<nat>, Clock)>, ev: seq<nat>, queue: seq<nat>, clock: Clock, r: (nat, Clock))
    requires Clicks(trace, ev) && trace[|ev|] == (queue, clock) && queue != [] && r == Chosen(queue, clock)
    ensures Clicks(trace + [(Without(queue, r.0), r.1)], ev + [r.0])
  {}

  lemma {:induction false} TracePicks<S>(pick: (seq<nat>, S) -> (nat, S), trace: seq<(seq<nat>, S)>, ev: seq<nat>, k: nat, n: nat)
    requires |trace| == |ev| + 1 && k <= |ev| <= n && (|ev| == n || trace[|ev|].0 == [])
    requires forall j :: 0 <= j < |ev| ==> trace[j].0 != [] && (ev[j], trace[j + 1].1) == pick(trace[j].0, trace[j].1)
                                           && trace[j + 1].0 == Without(trace[j].0, ev[j])
    ensures Picks(pick, ev[..k], trace[k].0, trace[k].1, n - k) == ev
    decreases |ev| - k
  {
    if k < |ev| {
      assert ev[..k + 1] == ev[..k] + [ev[k]];
      TracePicks(pick, trace, ev, k + 1, n);
    } else {
      assert ev[..k] == ev;
    }
  }

  lemma ClicksVictims(trace: seq<(seq<nat>, Clock)>, ev: seq<nat>, n: nat)
    requires Clicks(trace, ev) && |ev| <= n && (|ev| == n || trace[|ev|].0 == [])
    ensures ev == Victims(trace[0].0, trace[0].1, n)
  {
    TracePicks(Choice(), trace, ev, 0, n);
    assert ev[..0] == [];
  }

  /** Whether p is a member when q moves from the queue to the frames done. */
  lemma OneOut(done: seq<nat>, queue: seq<nat>, q: nat, p: nat)
    requires Distinct(queue) && q in queue
    ensures Distinct(Without(queue, q)) && |Without(queue, q)| == |queue| - 1 && |done + [q]| == |done| + 1
    ensures p in done + [q] <==> p in done || p == q
    ensures p in Without(queue, q) <==> p in queue && p != q
  {
    WithoutKeeps(queue, q);
  }

  lemma {:induction false} PickedOnes<S(!new)>(pick: (seq<nat>, S) -> (nat, S), done: seq<nat>, queue: seq<nat>, s: S, n: nat, p: nat)
    requires Distinct(queue) && forall q, c :: q != [] ==> pick(q, c).0 in q
    ensures var all := Picks(pick, done, queue, s, n);
      && |all| == |done| + Min(n, |queue|) && (p in done ==> p in all) && (p in all ==> p in done || p in queue)
      && (|queue| <= n && p in queue ==> p in all)
    decreases n
  {
    if n > 0 && queue != [] {
      var r := pick(queue, s);
      OneOut(done, queue, r.0, p);
      PickedOnes(pick, done + [r.0], Without(queue, r.0), r.1, n - 1, p);
    }
  }

  /** The victims are queued frames, and all of them if enough calls are made. */
  lemma VictimsQueued(queue: seq<nat>, clock: Clock, n: nat)
    requires Distinct(queue)
    ensures forall p :: p in Victims(queue, clock, n) ==> p in queue
    ensures |queue| <= n ==> forall p :: p in queue ==> p in Victims(queue, clock, n)
    ensures |Victims(queue, clock, n)| == Min(n, |queue|)
  {
    forall p: nat ensures p in Victims(queue, clock, n) ==> p in queue {
      PickedOnes(Choice(), [], queue, clock, n, p);
    }
    forall p: nat ensures |queue| <= n && p in queue ==> p in Victims(queue, clock, n) {
      PickedOnes(Choice(), [], queue, clock, n, p);
    }
    PickedOnes(Choice(), [], queue, clock, n, 0);
  }
}
