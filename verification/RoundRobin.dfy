/** Weighted round robin: what a run of timer ticks of schedule does to a fixed set of
    runnable environments with positive priorities. */
module RoundRobin {
  import opened Prelude
  import opened SchedState

  // ------------------------------------------------------------ the queue as it turns

  /** The run queue, whose head runs, and the slices the head has left after this one. */
  datatype Wheel = Wheel(list: seq<nat>, count: int)

  ghost predicate Turning(w: Wheel, pri: seq<nat>) {
    && w.list != [] && (forall i :: 0 <= i < |w.list| ==> w.list[i] < |pri| && pri[w.list[i]] >= 1)
    && 0 <= w.count < pri[w.list[0]]
  }

  /** The head has just been given all its slices. */
  ghost predicate Fresh(w: Wheel, pri: seq<nat>) {
    Turning(w, pri) && w.count == pri[w.list[0]] - 1
  }

  function RotateOnce(l: seq<nat>): seq<nat>
    requires l != []
  {
    l[1..] + [l[0]]
  }

  ghost function Turn(w: Wheel, pri: seq<nat>): (r: Wheel)
    requires Turning(w, pri)
    ensures Turning(r, pri)
  {
    if w.count > 0 then w.(count := w.count - 1)
    else var l := RotateOnce(w.list); Wheel(l, pri[l[0]] - 1)
  }

  ghost function After(w: Wheel, pri: seq<nat>, n: nat): (r: Wheel)
    requires Turning(w, pri)
    ensures Turning(r, pri)
  {
    if n == 0 then w else Turn(After(w, pri, n - 1), pri)
  }

  /** Who uses the processor between tick n and tick n + 1. */
  ghost function Who(w: Wheel, pri: seq<nat>, n: nat): nat
    requires Turning(w, pri)
  {
    After(w, pri, n).list[0]
  }

  /** The slices of the first i environments of the queue. */
  ghost function Slices(w: Wheel, pri: seq<nat>, i: nat): nat
    requires Turning(w, pri) && i <= |w.list|
  {
    if i == 0 then 0 else Slices(w, pri, i - 1) + pri[w.list[i - 1]]
  }

  /** One tick for every slice of every environment. */
  ghost function Period(w: Wheel, pri: seq<nat>): nat
    requires Turning(w, pri)
  {
    Slices(w, pri, |w.list|)
  }

  lemma {:induction false} AfterAdd(w: Wheel, pri: seq<nat>, m: nat, n: nat)
    requires Turning(w, pri)
    ensures After(w, pri, m + n) == After(After(w, pri, m), pri, n)
    decreases n
  {
    if n > 0 { AfterAdd(w, pri, m, n - 1); }
  }

  /** The head runs until its count is used up. */
  lemma {:induction false} Within(w: Wheel, pri: seq<nat>, k: nat)
    requires Turning(w, pri) && k <= w.count
    ensures After(w, pri, k) == Wheel(w.list, w.count - k)
    decreases k
  {
    if k > 0 { Within(w, pri, k - 1); }
  }

  lemma SliceEnds(w: Wheel, pri: seq<nat>)
    requires Fresh(w, pri)
    ensures var r := After(w, pri, pri[w.list[0]]); Fresh(r, pri) && r.list == RotateOnce(w.list)
  {
    Within(w, pri, w.count);
  }

  lemma RotateMore(l: seq<nat>, i: nat)
    requires 0 < i <= |l|
    ensures RotateOnce(l[i - 1..] + l[..i - 1]) == l[i..] + l[..i]
  {
    var r := l[i - 1..] + l[..i - 1];
    assert r[1..] == l[i..] + l[..i - 1] && r[0] == l[i - 1];
    assert l[..i] == l[..i - 1] + [l[i - 1]];
  }

  /** After the slices of the first i environments the queue has been rotated i times. */
  lemma {:induction false} Rotations(w: Wheel, pri: seq<nat>, i: nat)
    requires Fresh(w, pri) && i <= |w.list|
    ensures var r := After(w, pri, Slices(w, pri, i)); Fresh(r, pri) && r.list == w.list[i..] + w.list[..i]
    decreases i
  {
    if i > 0 {
      Rotations(w, pri, i - 1);
      var r := After(w, pri, Slices(w, pri, i - 1));
      SliceEnds(r, pri);
      AfterAdd(w, pri, Slices(w, pri, i - 1), pri[r.list[0]]);
      RotateMore(w.list, i);
    }
  }

  /** A cycle of the sum of the priorities brings the queue back. */
  lemma CycleReturns(w: Wheel, pri: seq<nat>)
    requires Fresh(w, pri)
    ensures After(w, pri, Period(w, pri)) == w
  {
    Rotations(w, pri, |w.list|);
    assert w.list[|w.list|..] + w.list[..|w.list|] == w.list;
  }

  /** Within a cycle the environment at place i runs exactly in its env_pri consecutive slices. */
  lemma CycleShares(w: Wheel, pri: seq<nat>, i: nat, m: nat)
    requires Fresh(w, pri) && i < |w.list| && m < pri[w.list[i]]
    ensures Who(w, pri, Slices(w, pri, i) + m) == w.list[i]
  {
    Rotations(w, pri, i);
    AfterAdd(w, pri, Slices(w, pri, i), m);
    Within(After(w, pri, Slices(w, pri, i)), pri, m);
  }

  lemma Periodic(w: Wheel, pri: seq<nat>, k: nat)
    requires Fresh(w, pri)
    ensures Who(w, pri, Period(w, pri) + k) == Who(w, pri, k)
  {
    CycleReturns(w, pri);
    AfterAdd(w, pri, Period(w, pri), k);
  }

  // ------------------------------------------------------------------ fair shares

  /** How many of the first n slices e gets. */
  ghost function Turns(w: Wheel, pri: seq<nat>, e: nat, n: nat): nat
    requires Turning(w, pri)
  {
    if n == 0 then 0 else Turns(w, pri, e, n - 1) + (if Who(w, pri, n - 1) == e then 1 else 0)
  }

  lemma {:induction false} TurnsWithin(w: Wheel, pri: seq<nat>, e: nat, i: nat, m: nat)
    requires Fresh(w, pri) && i < |w.list| && m <= pri[w.list[i]]
    ensures Turns(w, pri, e, Slices(w, pri, i) + m) == Turns(w, pri, e, Slices(w, pri, i)) + (if w.list[i] == e then m else 0)
    decreases m
  {
    if m > 0 {
      TurnsWithin(w, pri, e, i, m - 1);
      CycleShares(w, pri, i, m - 1);
    }
  }

  lemma InPrefix(l: seq<nat>, i: nat, e: nat)
    requires Distinct(l) && 0 < i <= |l|
    ensures e in l[..i] <==> e in l[..i - 1] || e == l[i - 1]
    ensures l[i - 1] !in l[..i - 1]
  {
    assert l[..i] == l[..i - 1] + [l[i - 1]];
  }

  lemma {:induction false} TurnsPrefix(w: Wheel, pri: seq<nat>, e: nat, i: nat)
    requires Fresh(w, pri) && Distinct(w.list) && i <= |w.list| && e < |pri|
    ensures Turns(w, pri, e, Slices(w, pri, i)) == if e in w.list[..i] then pri[e] else 0
    decreases i
  {
    if i > 0 {
      TurnsPrefix(w, pri, e, i - 1);
      TurnsWithin(w, pri, e, i - 1, pri[w.list[i - 1]]);
      InPrefix(w.list, i, e);
      assert Slices(w, pri, i) == Slices(w, pri, i - 1) + pri[w.list[i - 1]];
    }
  }

  /** In any window of one period, wherever it begins, every runnable environment runs exactly
      env_pri slices, so it never waits longer than the sum of the other priorities. */
  lemma {:induction false} FairWindow(w: Wheel, pri: seq<nat>, e: nat, k: nat)
    requires Fresh(w, pri) && Distinct(w.list) && e < |pri|
    ensures Turns(w, pri, e, k + Period(w, pri)) == Turns(w, pri, e, k) + (if e in w.list then pri[e] else 0)
    decreases k
  {
    if k == 0 {
      TurnsPrefix(w, pri, e, |w.list|);
      assert w.list[..|w.list|] == w.list;
    } else {
      FairWindow(w, pri, e, k - 1);
      Periodic(w, pri, k - 1);
      assert k + Period(w, pri) - 1 == Period(w, pri) + (k - 1);
    }
  }

  // --------------------------------------------------- schedule(0) turns the wheel

  ghost function Priorities(s: State): seq<nat> {
    seq(|s.envs|, e requires 0 <= e < |s.envs| => s.envs[e].pri)
  }

  ghost function WheelOf(s: State): Wheel { Wheel(s.list, s.count) }

  /** Between two ticks of a machine on which nothing else happens. */
  ghost predicate InCycle(s: State) {
    Inv(s) && Turning(WheelOf(s), Priorities(s)) && s.cur == Some(s.list[0])
  }

  /** The first dispatch after boot, or after the end of the running process, begins a cycle. */
  lemma CycleBegins(s: State, yield_: bool)
    requires Inv(s) && s.cur == None && s.list != [] && forall e :: e in s.list ==> s.envs[e].pri >= 1
    ensures Next(s, yield_) == Some(s.list[0]) && s.list[0] < |s.envs|
    ensures var t := Scheduled(s, yield_); InCycle(t) && Fresh(WheelOf(t), Priorities(t)) && t.list == s.list
  {
    assert s.list[0] in s.list;
    ScheduledKeeps(s, yield_);
    var t := Scheduled(s, yield_);
    forall i | 0 <= i < |t.list| ensures t.list[i] < NENV && t.envs[t.list[i]].pri >= 1 { assert t.list[i] in s.list; }
  }

  /** schedule(0) runs the same environment again, or moves it to the tail and starts the next. */
  lemma TickTurns(s: State)
    requires InCycle(s)
    ensures Next(s, false).Some? && Next(s, false).value < |s.envs|
    ensures var t := Scheduled(s, false);
      InCycle(t) && WheelOf(t) == Turn(WheelOf(s), Priorities(s)) && Priorities(t) == Priorities(s)
  {
    assert s.list[0] in s.list;
    HeadRotates(s);
    ScheduledKeeps(s, false);
    assert Priorities(Scheduled(s, false)) == Priorities(s);
  }

  lemma WithoutHead(l: seq<nat>)
    requires Distinct(l) && l != []
    ensures Without(l, l[0]) == l[1..]
  {
    WithoutAt(l, 0);
    assert l[..0] + l[1..] == l[1..];
  }

  lemma HeadRotates(s: State)
    requires ShapeOk(s) && Distinct(s.list) && s.list != [] && s.cur == Some(s.list[0]) && s.envs[s.list[0]].status == Runnable
    ensures Rotated(s) == RotateOnce(s.list)
  {
    WithoutHead(s.list);
  }

  /** n ticks of the clock. */
  ghost function Ticks(s: State, n: nat): (t: State)
    requires InCycle(s)
    ensures InCycle(t) && WheelOf(t) == After(WheelOf(s), Priorities(s), n) && Priorities(t) == Priorities(s)
  {
    if n == 0 then s else
      var m := Ticks(s, n - 1);
      TickTurns(m);
      Scheduled(m, false)
  }

  /** A cycle of the sum of the priorities returns the queue to the same order. */
  lemma CycleOrder(s: State)
    requires InCycle(s) && Fresh(WheelOf(s), Priorities(s))
    ensures var t := Ticks(s, Period(WheelOf(s), Priorities(s))); t.list == s.list && t.cur == s.cur && t.count == s.count
  {
    CycleReturns(WheelOf(s), Priorities(s));
  }

  /** Within a cycle the environment at place i runs exactly its env_pri consecutive slices. */
  lemma CycleSlices(s: State, i: nat, m: nat)
    requires InCycle(s) && Fresh(WheelOf(s), Priorities(s)) && i < |s.list| && m < Priorities(s)[s.list[i]]
    ensures Ticks(s, Slices(WheelOf(s), Priorities(s), i) + m).cur == Some(s.list[i])
  {
    CycleShares(WheelOf(s), Priorities(s), i, m);
  }

  /** Between ticks n and n + 1 the environment runs that the wheel says. */
  lemma TickOwner(s: State, n: nat)
    requires InCycle(s)
    ensures Ticks(s, n).cur == Some(Who(WheelOf(s), Priorities(s), n)) && Distinct(WheelOf(s).list)
  {}
}
