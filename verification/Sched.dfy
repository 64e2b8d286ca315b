/** Environments, the scheduler and message passing: the environment table of kern/env.c,
    schedule of kern/sched.c, and the environment system calls of kern/syscall_all.c. */
module SchedState {
  import opened Prelude

  const NENV := 1024

  datatype Status = Free | Runnable | NotRunnable

  /** The fields of struct Env that scheduling and messages use. */
  datatype Env = Env(id: nat, parent: nat, status: Status, pri: nat, runs: nat, recving: bool, value: int, from: nat)

  /** Where a process is in the library function ipc_recv: outside; at its system call; or
      after reading the sender. */
  datatype User = Outside | AtCall | HalfRead(from: nat)

  datatype Message = Message(value: int, from: nat)

  /** The last two are histories: the messages delivered to a process and those that its calls
      of ipc_recv have returned. */
  datatype State = State(
    list: seq<nat>,               // env_sched_list
    free: seq<nat>,               // env_free_list
    envs: seq<Env>,
    cur: Option<nat>,             // curenv
    count: int,                   // schedule's static count
    made: nat,                    // mkenvid's static counter
    user: seq<User>,
    sent: seq<seq<Message>>,
    got: seq<seq<Message>>)

  // ---------------------------------------------------------------- the invariant

  ghost predicate ShapeOk(s: State) {
    |s.envs| == |s.user| == |s.sent| == |s.got| == NENV && (s.cur.Some? ==> s.cur.value < NENV)
  }

  /** The run queue holds each runnable environment exactly once and nothing else. */
  ghost predicate Listed(s: State) {
    Distinct(s.list) && forall e: nat :: e in s.list <==> e < |s.envs| && s.envs[e].status == Runnable
  }

  ghost predicate FreeListed(s: State) {
    Distinct(s.free) && forall e: nat :: e in s.free <==> e < |s.envs| && s.envs[e].status == Free
  }

  /** What was returned, and what is still in the environment's fields, is what was sent. */
  ghost predicate MailOk(env: Env, user: User, sent: seq<Message>, got: seq<Message>) {
    && (env.recving ==> env.status == NotRunnable && user == AtCall)
    && (env.status == Free ==> user == Outside)
    && (user == Outside || env.recving ==> sent == got)
    && (user == AtCall && !env.recving ==> sent == got + [Message(env.value, env.from)])
    && (user.HalfRead? ==> sent == got + [Message(env.value, user.from)])
  }

  ghost predicate MailsOk(s: State)
    requires ShapeOk(s)
  {
    forall e :: 0 <= e < NENV ==> MailOk(s.envs[e], s.user[e], s.sent[e], s.got[e])
  }

  /** The id that mkenvid makes for e when its counter stands at n. */
  function IdOf(n: nat, e: nat): nat { n * (2 * NENV) + e }

  /** Ids carry the index of their environment, and none is as high as the next one to be made. */
  ghost predicate IdsOk(s: State) {
    forall e :: 0 <= e < |s.envs| ==>
      s.envs[e].id < IdOf(s.made + 1, 0) && (s.envs[e].status != Free ==> s.envs[e].id != 0 && s.envs[e].id % NENV == e)
  }

  ghost predicate CurOk(s: State)
    requires ShapeOk(s)
  {
    s.cur.Some? ==> s.envs[s.cur.value].status == Runnable
  }

  ghost predicate Inv(s: State) {
    ShapeOk(s) && Listed(s) && FreeListed(s) && MailsOk(s) && IdsOk(s) && CurOk(s)
  }

  // ------------------------------------------------------------------- schedule

  /** schedule picks a new environment. */
  predicate Switches(s: State, yield_: bool)
    requires ShapeOk(s)
  {
    yield_ || s.count == 0 || s.cur == None || s.envs[s.cur.value].status != Runnable
  }

  /** The run queue after curenv has been moved to its tail or taken off it. */
  function Rotated(s: State): seq<nat>
    requires ShapeOk(s)
  {
    match s.cur
    case None => s.list
    case Some(c) => Without(s.list, c) + (if s.envs[c].status == Runnable then [c] else [])
  }

  /** env_run. */
  function Ran(s: State, e: nat): State
    requires e < |s.envs|
  {
    s.(cur := Some(e), envs := s.envs[e := s.envs[e].(runs := s.envs[e].runs + 1)])
  }

  /** The environment that schedule runs. */
  function Next(s: State, yield_: bool): Option<nat>
    requires ShapeOk(s)
  {
    if Switches(s, yield_) then (if Rotated(s) == [] then None else Some(Rotated(s)[0])) else s.cur
  }

  /** The state in which schedule calls env_run. */
  function Picked(s: State, yield_: bool): State
    requires ShapeOk(s)
  {
    if Switches(s, yield_) then
      var l := Rotated(s);
      s.(list := l, count := if l != [] && l[0] < |s.envs| then s.envs[l[0]].pri - 1 else s.count)
    else
      s.(count := s.count - 1)
  }

  lemma PickedNew(s: State, yield_: bool, e: Option<nat>)
    requires ShapeOk(s) && Switches(s, yield_) && e == (if Rotated(s) == [] then None else Some(Rotated(s)[0]))
    requires e.Some? ==> e.value < |s.envs|
    ensures e == Next(s, yield_)
    ensures Picked(s, yield_) == s.(list := Rotated(s), count := if e.Some? then s.envs[e.value].pri - 1 else s.count)
  {}

  lemma PickedOld(s: State, yield_: bool)
    requires ShapeOk(s) && !Switches(s, yield_)
    ensures Next(s, yield_) == s.cur && Picked(s, yield_) == s.(count := s.count - 1)
  {}

  function Scheduled(s: State, yield_: bool): State
    requires ShapeOk(s) && Next(s, yield_).Some? && Next(s, yield_).value < |s.envs|
  {
    Ran(Picked(s, yield_), Next(s, yield_).value)
  }

  lemma RotatedKeeps(s: State)
    requires ShapeOk(s) && Listed(s)
    ensures Distinct(Rotated(s))
    ensures forall e :: e in Rotated(s) <==> e in s.list
  {
    if s.cur.Some? { WithoutKeeps(s.list, s.cur.value); }
  }

  ghost predicate NothingRunnable(s: State) {
    forall e :: 0 <= e < |s.envs| ==> s.envs[e].status != Runnable
  }

  /** Something is runnable exactly if the rotated queue is not empty. */
  lemma RotatedEmpty(s: State)
    requires ShapeOk(s) && Listed(s)
    ensures Rotated(s) == [] <==> NothingRunnable(s)
    ensures Rotated(s) != [] ==> Rotated(s)[0] < |s.envs| && s.envs[Rotated(s)[0]].status == Runnable
  {
    RotatedKeeps(s);
    if Rotated(s) != [] { assert Rotated(s)[0] in Rotated(s); }
  }

  /** Everything but the claim that curenv is runnable: what holds inside a system call. */
  ghost predicate InCall(s: State) {
    ShapeOk(s) && Listed(s) && FreeListed(s) && MailsOk(s) && IdsOk(s)
  }

  lemma ScheduledKeeps(s: State, yield_: bool)
    requires InCall(s) && Next(s, yield_).Some?
    ensures Next(s, yield_).value < |s.envs| && Inv(Scheduled(s, yield_))
  {
    RotatedKeeps(s);
    RotatedEmpty(s);
  }

  ghost predicate RunnableIn(s: State, e: nat) { e < |s.envs| && s.envs[e].status == Runnable }

  /** What schedule promises.  A runnable curenv that has slices left and does not yield goes on,
      with one slice less.  Otherwise a runnable curenv goes to the tail of the run queue, where
      the others keep their order, and the head runs and gets its env_pri slices.  In particular
      a curenv that yields is not scheduled again unless it is the only runnable environment. */
  ghost predicate Turned(s: State, t: State, e: nat, yield_: bool) {
    && RunnableIn(s, e) && t.cur == Some(e)
    && t == s.(list := t.list, count := t.count, cur := t.cur, envs := s.envs[e := s.envs[e].(runs := s.envs[e].runs + 1)])
    && (if s.cur.Some? && RunnableIn(s, s.cur.value) && s.count != 0 && !yield_ then
          Some(e) == s.cur && t.list == s.list && t.count == s.count - 1
        else
          && t.list != [] && e == t.list[0] && t.count == s.envs[e].pri - 1
          && if s.cur.Some? && RunnableIn(s, s.cur.value) then t.list == Without(s.list, s.cur.value) + [s.cur.value] else t.list == s.list)
    && (yield_ && Some(e) == s.cur ==> forall x: nat :: RunnableIn(s, x) ==> x == e)
  }

  lemma RotatedList(s: State)
    requires ShapeOk(s) && Listed(s)
    ensures Rotated(s) == if s.cur.Some? && RunnableIn(s, s.cur.value) then Without(s.list, s.cur.value) + [s.cur.value] else s.list
  {
    if s.cur.Some? && !RunnableIn(s, s.cur.value) { WithoutAbsent(s.list, s.cur.value); }
  }

  /** The head after the rotation is curenv only if nothing else is runnable. */
  lemma OnlyRunnable(s: State)
    requires ShapeOk(s) && Listed(s) && Rotated(s) != [] && s.cur == Some(Rotated(s)[0])
    ensures forall x: nat :: RunnableIn(s, x) ==> Some(x) == s.cur
  {
    var c := s.cur.value;
    WithoutKeeps(s.list, c);
    assert Without(s.list, c) == [];
    forall x: nat | RunnableIn(s, x) ensures x == c { assert x in s.list; }
  }

  lemma SwitchTurns(s: State, yield_: bool, e: nat)
    requires ShapeOk(s) && Listed(s) && Switches(s, yield_) && Rotated(s) != [] && Rotated(s)[0] == e && RunnableIn(s, e)
    ensures Turned(s, Ran(s.(list := Rotated(s), count := s.envs[e].pri - 1), e), e, yield_)
  {
    RotatedList(s);
    if s.cur == Some(e) { OnlyRunnable(s); }
  }

  lemma ScheduledTurns(s: State, yield_: bool)
    requires InCall(s) && Next(s, yield_).Some? && Next(s, yield_).value < |s.envs|
    ensures Turned(s, Scheduled(s, yield_), Next(s, yield_).value, yield_)
  {
    if Switches(s, yield_) {
      RotatedEmpty(s);
      PickedNew(s, yield_, Next(s, yield_));
      SwitchTurns(s, yield_, Next(s, yield_).value);
    } else {
      PickedOld(s, yield_);
    }
  }

  lemma Prepend(q: seq<nat>, x: nat)
    requires Distinct(q) && x !in q
    ensures Distinct([x] + q) && forall e :: e in [x] + q <==> e == x || e in q
  {}

  // ------------------------------------------------------------- the system calls

  /** envid2env; envid 0 is the caller, and permission means the caller or its child. */
  function EnvAt(s: State, envid: nat, check: bool): (r: Option<nat>)
    requires ShapeOk(s) && s.cur.Some?
    ensures r.Some? ==> r.value < NENV
  {
    var e := envid % NENV;
    if envid == 0 then s.cur
    else if s.envs[e].status == Free || s.envs[e].id != envid then None
    else if check && Some(e) != s.cur && s.envs[e].parent != s.envs[s.cur.value].id then None
    else Some(e)
  }

  /** The environment e is the one that envid means: the caller for 0, otherwise the live one
      with that id, if the caller may use it. */
  ghost predicate Means(s: State, envid: nat, check: bool, e: nat)
    requires ShapeOk(s) && s.cur.Some?
  {
    && e < NENV
    && if envid == 0 then s.cur == Some(e) else
         && s.envs[e].status != Free && s.envs[e].id == envid
         && (check ==> s.cur == Some(e) || s.envs[e].parent == s.envs[s.cur.value].id)
  }

  /** The index taken from an id is the only one that has to be looked at. */
  lemma EnvAtMeans(s: State, envid: nat, check: bool)
    requires Inv(s) && s.cur.Some?
    ensures forall e: nat :: EnvAt(s, envid, check) == Some(e) <==> Means(s, envid, check, e)
  {}

  /** No two live environments have the same id, and a new id is not the id of any
      environment, live or not. */
  lemma IdsUnique(s: State, e: nat, x: nat)
    requires Inv(s) && e < NENV && x < NENV && s.envs[e].status != Free
    ensures s.envs[x].status != Free && s.envs[x].id == s.envs[e].id ==> x == e
    ensures s.envs[x].id < IdOf(s.made + 1, e)
  {}

  /** A message reaches e, which waits for one. */
  function Delivered(s: State, e: nat, value: int, from: nat): State
    requires ShapeOk(s) && e < NENV
  {
    s.(envs := s.envs[e := s.envs[e].(status := Runnable, recving := false, value := value, from := from)],
       list := s.list + [e], sent := s.sent[e := s.sent[e] + [Message(value, from)]])
  }

  lemma DeliveredKeeps(s: State, e: nat, value: int, from: nat)
    requires Inv(s) && e < NENV && s.envs[e].recving
    ensures Inv(Delivered(s, e, value, from)) && e !in s.list
  {}

  /** Nothing about the other environments has changed. */
  ghost predicate OthersKept(s: State, t: State, e: nat) {
    && |t.envs| == |s.envs| && t.cur == s.cur && t.count == s.count && e < |s.envs|
    && forall x :: 0 <= x < |s.envs| && x != e ==> t.envs[x] == s.envs[x]
  }

  /** What a delivery means for e: the message is in its fields and it joins the run queue at the
      tail; who it is and its priority are as before. */
  ghost predicate Received(s: State, t: State, e: nat, value: int, from: nat) {
    && OthersKept(s, t, e) && t.list == s.list + [e] && t.free == s.free
    && var was, is_ := s.envs[e], t.envs[e];
       && is_.status == Runnable && !is_.recving && is_.value == value && is_.from == from
       && is_.id == was.id && is_.parent == was.parent && is_.pri == was.pri && is_.runs == was.runs
  }

  lemma DeliveredReceived(s: State, e: nat, value: int, from: nat)
    requires ShapeOk(s) && e < NENV
    ensures Received(s, Delivered(s, e, value, from), e, value, from)
  {}

  /** The caller blocks in sys_ipc_recv. */
  function Blocked(s: State, c: nat): State
    requires ShapeOk(s) && c < NENV
  {
    s.(envs := s.envs[c := s.envs[c].(status := NotRunnable, recving := true)], list := Without(s.list, c),
       user := s.user[c := AtCall])
  }

  lemma BlockedList(s: State, c: nat)
    requires ShapeOk(s) && Listed(s) && c in s.list && c < NENV
    ensures Listed(Blocked(s, c)) && (s.cur == Some(c) ==> Rotated(Blocked(s, c)) == Without(s.list, c))
  {
    WithoutKeeps(s.list, c);
    WithoutAbsent(Without(s.list, c), c);
  }

  lemma BlockedMail(s: State, c: nat)
    requires ShapeOk(s) && MailsOk(s) && IdsOk(s) && c < NENV && s.envs[c].status == Runnable && s.user[c] == Outside
    ensures ShapeOk(Blocked(s, c)) && MailsOk(Blocked(s, c)) && IdsOk(Blocked(s, c))
  {
    var t := Blocked(s, c);
    forall x | 0 <= x < NENV ensures MailOk(t.envs[x], t.user[x], t.sent[x], t.got[x]) {
      assert MailOk(s.envs[x], s.user[x], s.sent[x], s.got[x]);
    }
  }

  lemma BlockedKeeps(s: State, c: nat)
    requires Inv(s) && s.cur == Some(c) && s.user[c] == Outside
    ensures InCall(Blocked(s, c)) && c in s.list && Rotated(Blocked(s, c)) == Without(s.list, c)
  {
    BlockedList(s, c);
    BlockedMail(s, c);
  }

  function WithStatus(s: State, e: nat, status: Status): State
    requires ShapeOk(s) && e < NENV
  {
    s.(envs := s.envs[e := s.envs[e].(status := status)],
       list := if s.envs[e].status == status then s.list
               else if status == Runnable then [e] + s.list else Without(s.list, e))
  }

  /** What a change of status means: nothing else about e changes; it joins the run queue at the
      head, or leaves it, and the others keep their order. */
  ghost predicate Restated(s: State, t: State, e: nat, status: Status) {
    && OthersKept(s, t, e) && t.free == s.free && t.envs[e].status == status
    && t.envs[e].(status := s.envs[e].status) == s.envs[e]
    && (if s.envs[e].status == status then t.list == s.list
        else if status == Runnable then t.list == [e] + s.list
        else exists k :: 0 <= k < |s.list| && s.list[k] == e && t.list == s.list[..k] + s.list[k + 1..])
  }

  lemma WithStatusRestated(s: State, e: nat, status: Status)
    requires ShapeOk(s) && Listed(s) && e < NENV && status != Free && s.envs[e].status != Free
    ensures Restated(s, WithStatus(s, e, status), e, status)
  {
    if s.envs[e].status != status && status != Runnable {
      assert e in s.list;
      var k :| 0 <= k < |s.list| && s.list[k] == e;
      WithoutAt(s.list, k);
    }
  }

  /** A change of status that the invariant does not survive: the environment waits for a
      message, or the caller stops itself. */
  predicate Disturbs(s: State, e: nat, status: Status)
    requires ShapeOk(s) && e < NENV
  {
    s.envs[e].status != status && (s.envs[e].recving || (s.cur == Some(e) && status == NotRunnable))
  }

  lemma WithStatusListed(s: State, e: nat, status: Status)
    requires ShapeOk(s) && Listed(s) && e < NENV && status != Free && s.envs[e].status != Free
    ensures Listed(WithStatus(s, e, status))
  {
    if s.envs[e].status != status {
      if status == Runnable {
        Prepend(s.list, e);
      } else {
        WithoutKeeps(s.list, e);
      }
    }
  }

  lemma WithStatusRest(s: State, e: nat, status: Status)
    requires ShapeOk(s) && FreeListed(s) && IdsOk(s) && e < NENV && status != Free && s.envs[e].status != Free
    ensures ShapeOk(WithStatus(s, e, status)) && FreeListed(WithStatus(s, e, status)) && IdsOk(WithStatus(s, e, status))
  {}

  /** t is s with the new status: the invariant holds unless the change disturbs it, and all
      that schedule needs holds if it is the caller's own. */
  ghost predicate StatusSet(s: State, t: State, e: nat, status: Status)
    requires ShapeOk(s)
  {
    e < NENV && t == WithStatus(s, e, status) && (Inv(t) <==> !Disturbs(s, e, status)) && (s.cur == Some(e) ==> InCall(t))
  }

  /** The other changes keep it; a caller that stops itself may still call schedule. */
  lemma WithStatusIff(s: State, e: nat, status: Status)
    requires Inv(s) && e < NENV && status != Free && s.envs[e].status != Free
    ensures StatusSet(s, WithStatus(s, e, status), e, status)
  {
    var t := WithStatus(s, e, status);
    WithStatusListed(s, e, status);
    WithStatusRest(s, e, status);
    assert MailOk(s.envs[e], s.user[e], s.sent[e], s.got[e]);
    forall x | 0 <= x < NENV && x != e ensures MailOk(t.envs[x], t.user[x], t.sent[x], t.got[x]) {
      assert MailOk(s.envs[x], s.user[x], s.sent[x], s.got[x]);
    }
    if Disturbs(s, e, status) && s.envs[e].recving {
      assert !MailOk(t.envs[e], t.user[e], t.sent[e], t.got[e]);
    }
  }

  /** env_alloc takes the first free environment; what the callers set is status and pri. */
  function Allocated(s: State, parent: nat, status: Status, pri: nat): State
    requires ShapeOk(s)
  {
    if s.free == [] || s.free[0] >= NENV then s else
    var e := s.free[0];
    var env := s.envs[e].(id := IdOf(s.made + 1, e), parent := parent, status := status, pri := pri, runs := 0);
    s.(free := s.free[1..], made := s.made + 1, envs := s.envs[e := env],
       list := if status == Runnable then [e] + s.list else s.list)
  }

  /** What env_alloc and its callers promise: the first free environment has a new id, the given
      parent, status and priority and no slices so far; it is at the head of the run queue if it
      is runnable. */
  ghost predicate Born(s: State, t: State, parent: nat, status: Status, pri: nat) {
    && s.free != [] && t.free == s.free[1..]
    && var e := s.free[0];
       && OthersKept(s, t, e) && t.list == (if status == Runnable then [e] + s.list else s.list)
       && t.envs[e].parent == parent && t.envs[e].status == status && t.envs[e].pri == pri && t.envs[e].runs == 0
       && forall x :: 0 <= x < |s.envs| ==> s.envs[x].id < t.envs[e].id
  }

  lemma AllocatedBorn(s: State, parent: nat, status: Status, pri: nat)
    requires Inv(s) && s.free != []
    ensures Born(s, Allocated(s, parent, status, pri), parent, status, pri)
  {
    assert s.free[0] in s.free;
    NewId(s.made + 1, s.free[0]);
  }

  lemma NewId(n: nat, e: nat)
    requires e < NENV && n > 0
    ensures IdOf(n, e) != 0 && IdOf(n, e) % NENV == e && IdOf(n, 0) <= IdOf(n, e) < IdOf(n + 1, 0)
  {
    assert IdOf(n, e) == (2 * n) * NENV + e;
  }

  lemma AllocatedIds(s: State, parent: nat, status: Status, pri: nat)
    requires Inv(s) && s.free != [] && s.free[0] < NENV
    ensures IdsOk(Allocated(s, parent, status, pri))
  {
    var t := Allocated(s, parent, status, pri);
    NewId(s.made + 1, s.free[0]);
    forall x | 0 <= x < NENV && x != s.free[0] ensures t.envs[x] == s.envs[x] && t.envs[x].id < IdOf(t.made + 1, 0) {
      assert s.envs[x].id < IdOf(s.made + 1, 0);
    }
  }

  lemma AllocatedFree(s: State, parent: nat, status: Status, pri: nat)
    requires Inv(s) && s.free != [] && s.free[0] < NENV && status != Free
    ensures FreeListed(Allocated(s, parent, status, pri))
  {
    var e, t := s.free[0], Allocated(s, parent, status, pri);
    assert s.free == [e] + s.free[1..];
    forall x: nat ensures x in t.free <==> x < |t.envs| && t.envs[x].status == Free {
      assert x in s.free <==> x < |s.envs| && s.envs[x].status == Free;
    }
  }

  lemma AllocatedKeeps(s: State, parent: nat, status: Status, pri: nat)
    requires Inv(s) && s.free != [] && status != Free
    ensures s.free[0] < NENV && s.free[0] !in s.list && Inv(Allocated(s, parent, status, pri))
  {
    assert s.free[0] in s.free;
    assert IdsOk(Allocated(s, parent, status, pri)) by { AllocatedIds(s, parent, status, pri); }
    assert FreeListed(Allocated(s, parent, status, pri)) by { AllocatedFree(s, parent, status, pri); }
  }

  /** env_alloc without a free address-space id: the first free environment has got its id, but
      stays free. */
  function IdWasted(s: State): State
    requires ShapeOk(s)
  {
    if s.free == [] || s.free[0] >= NENV then s else
    var e := s.free[0];
    s.(made := s.made + 1, envs := s.envs[e := s.envs[e].(id := IdOf(s.made + 1, e))])
  }

  lemma IdWastedKeeps(s: State)
    requires Inv(s) && s.free != []
    ensures s.free[0] < NENV && Inv(IdWasted(s))
  {
    assert s.free[0] in s.free;
    NewId(s.made + 1, s.free[0]);
  }

  /** env_free: the environment goes back to the free list and leaves the run queue. */
  function Destroyed(s: State, e: nat): State
    requires ShapeOk(s) && e < NENV
  {
    s.(envs := s.envs[e := s.envs[e].(status := Free)], free := [e] + s.free, list := Without(s.list, e),
       cur := if s.cur == Some(e) then None else s.cur,
       user := s.user[e := Outside], sent := s.sent[e := []], got := s.got[e := []])
  }

  /** An environment that is destroyed while it waits for a message leaves env_ipc_recving set. */
  lemma DestroyedIff(s: State, e: nat)
    requires Inv(s) && e < NENV && s.envs[e].status != Free
    ensures Inv(Destroyed(s, e)) <==> !s.envs[e].recving
    ensures e in s.list <==> s.envs[e].status == Runnable
    ensures s.cur == Some(e) ==> !s.envs[e].recving
  {
    WithoutKeeps(s.list, e);
    DestroyedMail(s, e);
  }

  lemma DestroyedMail(s: State, e: nat)
    requires Inv(s) && e < NENV && s.envs[e].status != Free
    ensures ShapeOk(Destroyed(s, e)) && (MailsOk(Destroyed(s, e)) <==> !s.envs[e].recving)
    ensures s.cur == Some(e) ==> !s.envs[e].recving
  {
    var t := Destroyed(s, e);
    assert MailOk(s.envs[e], s.user[e], s.sent[e], s.got[e]);
    assert MailOk(t.envs[e], t.user[e], t.sent[e], t.got[e]) <==> !s.envs[e].recving;
    forall x | 0 <= x < NENV && x != e ensures MailOk(t.envs[x], t.user[x], t.sent[x], t.got[x]) {
      assert MailOk(s.envs[x], s.user[x], s.sent[x], s.got[x]);
    }
  }

  // ---------------------------------------------------------------- user-level ipc_recv

  /** The process c reads env_ipc_from after its system call has returned. */
  function FromRead(s: State, c: nat): State
    requires ShapeOk(s) && c < NENV
  {
    s.(user := s.user[c := HalfRead(s.envs[c].from)])
  }

  /** The process c reads env_ipc_value and returns. */
  function ValueRead(s: State, c: nat): State
    requires ShapeOk(s) && c < NENV && s.user[c].HalfRead?
  {
    s.(user := s.user[c := Outside], got := s.got[c := s.got[c] + [Message(s.envs[c].value, s.user[c].from)]])
  }

  lemma FromReadKeeps(s: State, c: nat)
    requires Inv(s) && s.cur == Some(c) && s.user[c] == AtCall
    ensures Inv(FromRead(s, c))
  {}

  lemma ValueReadKeeps(s: State, c: nat)
    requires Inv(s) && s.cur == Some(c) && s.user[c].HalfRead?
    ensures Inv(ValueRead(s, c)) && ValueRead(s, c).got[c] == s.sent[c]
  {}

  // -------------------------------------------------------------- exactly-once delivery

  /** In every state the messages returned to a process are the messages sent to it, in
      order, except that the last one may still be on its way; so a reader never sees half of
      one message and half of another. */
  lemma ExactlyOnce(s: State, e: nat)
    requires Inv(s) && e < NENV
    ensures s.got[e] <= s.sent[e] && |s.sent[e]| <= |s.got[e]| + 1
    ensures s.user[e] == Outside ==> s.got[e] == s.sent[e]
    ensures s.envs[e].recving ==> s.envs[e].status == NotRunnable && e !in s.list && s.got[e] == s.sent[e]
  {
    assert MailOk(s.envs[e], s.user[e], s.sent[e], s.got[e]);
  }
}

module Sched {
  import opened Prelude
  import opened Tailqs
  import opened SchedState

  /** schedule never returns: it runs an environment, or there is none. */
  datatype Switch = Runs(env: nat) | NoneRunnable

  datatype Ret = Ok | Inval | BadEnv | NotRecv

  /** The page argument of sys_ipc_try_send: zero, an illegal address, or the address of an
      unmapped or a mapped page. */
  datatype SrcPage = NoPage | Illegal | Unmapped | Mapped

  class Scheduler {
    const list: Tailq                 // env_sched_list
    const envs: array<Env>
    var free: seq<nat>                // env_free_list
    var cur: Option<nat>
    var count: int
    var made: nat
    var user: seq<User>
    ghost var sent: seq<seq<Message>>
    ghost var got: seq<seq<Message>>

    ghost function Repr(): set<object>
      reads list
    {
      {this, envs} + list.Repr
    }

    ghost function Abs(): State
      reads this, list, envs
    {
      State(list.items, free, envs[..], cur, count, made, user, sent, got)
    }

    /** The data structures are what they represent. */
    ghost predicate Linked()
      reads this, envs, list, list.next, list.prev
    {
      && list.Valid() && list.next.Length == NENV && envs.Length == NENV
      && this !in list.Repr && {envs} !! list.Repr && ShapeOk(Abs())
    }

    ghost predicate Valid()
      reads this, envs, list, list.next, list.prev
    {
      Linked() && Inv(Abs())
    }

    /** env_init. */
    constructor ()
      ensures Valid() && fresh(Repr()) && cur == None && list.items == []
    {
      list := new Tailq(NENV);
      envs := new Env[NENV](_ => Env(0, 0, Free, 0, 0, false, 0, 0));
      cur, count, made := None, 0, 0;
      free := [];
      user := seq(NENV, _ => Outside);
      sent, got := seq(NENV, _ => []), seq(NENV, _ => []);
      new;
      FillFree();
    }

    /** env_init's loop from the last environment to the first. */
    method FillFree()
      requires Linked() && free == [] && list.items == [] && cur == None
      requires forall e :: 0 <= e < NENV ==> envs[e].status == Free && !envs[e].recving && user[e] == Outside && sent[e] == got[e]
      requires IdsOk(Abs())
      modifies this`free
      ensures Valid() && cur == None && list.items == []
    {
      var i := NENV;
      while i > 0
        invariant 0 <= i <= NENV && Linked() && list.items == [] && cur == None && IdsOk(Abs())
        invariant forall e :: 0 <= e < NENV ==> envs[e].status == Free && !envs[e].recving && user[e] == Outside && sent[e] == got[e]
        invariant Distinct(free) && forall e: nat :: e in free <==> i <= e < NENV
      {
        i := i - 1;
        Prepend(free, i);
        free := [i] + free;
      }
    }

    /** schedule and env_run.  A curenv that is not runnable has just been removed from the
        queue: its second removal changes no pointer.  Without a runnable environment the
        kernel panics, or takes a null pointer for the next environment. */
    method Schedule(yield_: bool) returns (r: Switch)
      requires Linked() && InCall(Abs())
      requires cur.Some? && envs[cur.value].status != Runnable ==> list.JustRemoved(cur.value)
      modifies Repr()
      ensures r.NoneRunnable? <==> NothingRunnable(old(Abs()))
      ensures r.Runs? ==> Turned(old(Abs()), Abs(), r.env, yield_)
      ensures r.Runs? ==> old(Next(Abs(), yield_)) == Some(r.env) && r.env < NENV
      ensures r.Runs? ==> Valid() && Abs() == Scheduled(old(Abs()), yield_)
    {
      ghost var s := Abs();
      var e := Pick(yield_);
      RotatedEmpty(s);
      if e.None? {
        return NoneRunnable;
      }
      ScheduledKeeps(s, yield_);
      ScheduledTurns(s, yield_);
      RunEnv(e.value);
      r := Runs(e.value);
    }

    /** env_run. */
    method RunEnv(e: nat)
      requires Linked() && e < NENV
      modifies this`cur, envs
      ensures Linked() && Abs() == Ran(old(Abs()), e)
    {
      cur := Some(e);
      envs[e] := envs[e].(runs := envs[e].runs + 1);
    }

    /** schedule up to its call of env_run. */
    method Pick(yield_: bool) returns (e: Option<nat>)
      requires Linked() && Listed(Abs())
      requires cur.Some? && envs[cur.value].status != Runnable ==> list.JustRemoved(cur.value)
      modifies this`count, list.Repr
      ensures Linked() && e == Next(old(Abs()), yield_) && Abs() == Picked(old(Abs()), yield_)
    {
      ghost var s := Abs();
      if yield_ || count == 0 || cur == None || envs[cur.value].status != Runnable {
        e := PickNew();
        PickedNew(s, yield_, e);
      } else {
        e := KeepOn();
        PickedOld(s, yield_);
      }
    }

    /** curenv goes on with one slice less. */
    method KeepOn() returns (e: Option<nat>)
      requires Linked()
      modifies this`count
      ensures Linked() && e == cur && Abs() == old(Abs()).(count := old(count) - 1)
    {
      count := count - 1;
      e := cur;
    }

    /** schedule's switch to another environment. */
    method PickNew() returns (e: Option<nat>)
      requires Linked() && Listed(Abs())
      requires cur.Some? && envs[cur.value].status != Runnable ==> list.JustRemoved(cur.value)
      modifies this`count, list.Repr
      ensures Linked() && (e.Some? ==> e.value < NENV)
      ensures e == if Rotated(old(Abs())) == [] then None else Some(Rotated(old(Abs()))[0])
      ensures Abs() == old(Abs()).(list := Rotated(old(Abs())), count := if e.Some? then old(envs[e.value].pri) - 1 else old(count))
    {
      ghost var s := Abs();
      RotatedEmpty(s);
      Rotate();
      ghost var m := Abs();
      e := PickHead();
      assert m == s.(list := Rotated(s)) && e == ElemAt(m.list, 0);
    }

    /** TAILQ_FIRST and its time slices. */
    method PickHead() returns (e: Option<nat>)
      requires Linked() && (list.items != [] ==> list.items[0] < NENV)
      modifies this`count
      ensures Linked() && e == ElemAt(list.items, 0)
      ensures Abs() == old(Abs()).(count := if e.Some? then envs[e.value].pri - 1 else old(count))
    {
      assert list.first == ElemAt(list.items, 0);
      e := list.first;
      if e.Some? {
        count := envs[e.value].pri - 1;
      }
    }

    /** The queue operations of schedule. */
    method Rotate()
      requires Linked() && Listed(Abs())
      requires cur.Some? && envs[cur.value].status != Runnable ==> list.JustRemoved(cur.value)
      modifies list.Repr
      ensures Linked() && Abs() == old(Abs()).(list := Rotated(old(Abs())))
    {
      if cur.Some? {
        WithoutKeeps(list.items, cur.value);
        list.Remove(cur.value);
        if envs[cur.value].status == Runnable {
          list.InsertTail(cur.value);
        }
      }
    }

    // ------------------------------------------------------------- system calls

    /** env_alloc and what its two callers set: the first free environment. */
    method NewEnv(parent: nat, status: Status, pri: nat) returns (e: nat)
      requires Valid() && free != [] && status != Free
      modifies this`free, this`made, envs, list.Repr
      ensures Valid() && Abs() == Allocated(old(Abs()), parent, status, pri) && e == old(free)[0] && e < NENV
    {
      ghost var s := Abs();
      AllocatedKeeps(s, parent, status, pri);
      e := free[0];
      made, free := made + 1, free[1..];
      FillEnv(e, Env(IdOf(made, e), parent, status, pri, 0, envs[e].recving, envs[e].value, envs[e].from));
      if status == Runnable {
        PutFirst(e);
      }
      assert Abs() == Allocated(s, parent, status, pri);
    }

    method PutFirst(e: nat)
      requires Linked() && e < NENV && e !in list.items
      modifies list.Repr
      ensures Linked() && Abs() == old(Abs()).(list := [e] + old(list.items))
    {
      list.InsertHead(e);
    }

    method TakeOff(e: nat)
      requires Linked() && e in list.items
      modifies list.Repr
      ensures Linked() && Abs() == old(Abs()).(list := Without(old(list.items), e)) && list.JustRemoved(e)
    {
      list.Remove(e);
    }

    method FillEnv(e: nat, env: Env)
      requires Linked() && e < NENV
      modifies envs
      ensures Linked() && Abs() == old(Abs()).(envs := old(envs[..])[e := env])
    {
      envs[e] := env;
    }

    /** env_create, which is called at boot and does not expect env_alloc to fail. */
    method EnvCreate(pri: nat) returns (e: nat)
      requires Valid() && free != []
      modifies this`free, this`made, envs, list.Repr
      ensures Valid() && Abs() == Allocated(old(Abs()), 0, Runnable, pri) && e == old(free)[0]
      ensures Born(old(Abs()), Abs(), 0, Runnable, pri)
    {
      AllocatedBorn(Abs(), 0, Runnable, pri);
      e := NewEnv(0, Runnable, pri);
    }

    /** env_alloc up to the failure of asid_alloc. */
    method WasteId()
      requires Valid() && free != []
      modifies this`made, envs
      ensures Valid() && Abs() == IdWasted(old(Abs()))
    {
      IdWastedKeeps(Abs());
      made := made + 1;
      envs[free[0]] := envs[free[0]].(id := IdOf(made, free[0]));
    }

    /** sys_exofork; spaceOk says whether there is an address-space id for the child. */
    method Exofork(spaceOk: bool) returns (child: Option<nat>)
      requires Valid() && cur.Some?
      modifies this`free, this`made, envs, list.Repr
      ensures Valid()
      ensures child.None? <==> old(free) == [] || !spaceOk
      ensures old(free) == [] ==> Abs() == old(Abs())
      ensures child.None? && old(free) != [] ==> Abs() == IdWasted(old(Abs()))
      ensures child.Some? ==>
        child.value == old(free)[0] && Abs() == Allocated(old(Abs()), old(envs[cur.value].id), NotRunnable, old(envs[cur.value].pri))
      ensures child.Some? ==> Born(old(Abs()), Abs(), old(envs[cur.value].id), NotRunnable, old(envs[cur.value].pri))
    {
      if free == [] {
        return None;
      }
      if !spaceOk {
        WasteId();
        return None;
      }
      AllocatedBorn(Abs(), envs[cur.value].id, NotRunnable, envs[cur.value].pri);
      var e := NewEnv(envs[cur.value].id, NotRunnable, envs[cur.value].pri);
      child := Some(e);
    }

    /** envid2env: the environment that is meant, or none exactly if there is none. */
    method Lookup(envid: nat, check: bool) returns (e: Option<nat>)
      requires Valid() && cur.Some?
      ensures e == EnvAt(Abs(), envid, check)
      ensures forall x: nat :: e == Some(x) <==> Means(Abs(), envid, check, x)
    {
      EnvAtMeans(Abs(), envid, check);
      if envid == 0 {
        return cur;
      }
      var i := envid % NENV;
      if envs[i].status == Free || envs[i].id != envid {
        return None;
      }
      if check && !(Some(i) == cur || envs[i].parent == envs[cur.value].id) {
        return None;
      }
      e := Some(i);
    }

    /** sys_set_env_status.  The invariant is kept exactly unless the target waits for a message
        or the caller stops itself; in the latter case its second removal by a schedule that
        follows at once is harmless. */
    method SetEnvStatus(envid: nat, status: Status) returns (r: Ret)
      requires Valid() && cur.Some?
      modifies envs, list.Repr
      ensures Linked()
      ensures r == if status == Free then Inval else if old(EnvAt(Abs(), envid, true)).None? then BadEnv else Ok
      ensures r != Ok ==> Abs() == old(Abs())
      ensures var e := old(EnvAt(Abs(), envid, true));
        r == Ok ==> StatusSet(old(Abs()), Abs(), e.value, status) && Restated(old(Abs()), Abs(), e.value, status) &&
                    (e == cur && status == NotRunnable ==> list.JustRemoved(e.value))
    {
      if status == Free {
        return Inval;
      }
      var e := Lookup(envid, true);
      if e.None? {
        return BadEnv;
      }
      WithStatusIff(Abs(), e.value, status);
      WithStatusRestated(Abs(), e.value, status);
      assert e == cur ==> envs[e.value].status == Runnable;
      UpdateStatus(e.value, status);
      r := Ok;
    }

    method UpdateStatus(e: nat, status: Status)
      requires Linked() && e < NENV && status != Free && envs[e].status != Free
      requires e in list.items <==> envs[e].status == Runnable
      modifies envs, list.Repr
      ensures Linked() && Abs() == WithStatus(old(Abs()), e, status)
      ensures old(envs[e].status) == Runnable && status != Runnable ==> list.JustRemoved(e)
    {
      if envs[e].status != status {
        if status == Runnable {
          PutFirst(e);
        } else {
          TakeOff(e);
        }
      }
      FillEnv(e, envs[e].(status := status));
    }

    /** sys_ipc_recv of a process that is not in another ipc_recv: the process blocks and
        another one runs.  Its element is removed from the queue here and again in
        schedule.  blocked is the state in between. */
    method IpcRecv(dstOk: bool) returns (r: Option<Switch>, ghost blocked: State)
      requires Valid() && cur.Some? && user[cur.value] == Outside
      modifies Repr()
      ensures blocked == Blocked(old(Abs()), old(cur.value)) && InCall(blocked)
      ensures r.None? <==> !dstOk
      ensures r.None? ==> Abs() == old(Abs())
      ensures r == Some(NoneRunnable) <==> dstOk && NothingRunnable(blocked)
      ensures r.Some? && r.value.Runs? ==> Next(blocked, true) == Some(r.value.env) && r.value.env < NENV
      ensures r.Some? && r.value.Runs? ==> Valid() && Abs() == Scheduled(blocked, true) && Turned(blocked, Abs(), r.value.env, true)
    {
      if !dstOk {
        BlockedKeeps(Abs(), cur.value);
        return None, Blocked(Abs(), cur.value);
      }
      BlockedKeeps(Abs(), cur.value);
      Block();
      blocked := Abs();
      var run := Schedule(true);
      r := Some(run);
    }

    method Block()
      requires Linked() && cur.Some? && cur.value in list.items
      modifies this`user, envs, list.Repr
      ensures Linked() && list.JustRemoved(cur.value) && Abs() == Blocked(old(Abs()), cur.value)
    {
      var c := cur.value;
      envs[c] := envs[c].(recving := true, status := NotRunnable);
      user := user[c := AtCall];
      list.Remove(c);
    }

    /** sys_ipc_try_send.  Once the target waits, the message is delivered; the call then still
        fails if the page to be sent is not mapped. */
    method IpcTrySend(envid: nat, value: int, page: SrcPage) returns (r: Ret)
      requires Valid() && cur.Some?
      modifies envs, list.Repr, this`sent
      ensures Valid()
      ensures var e := old(EnvAt(Abs(), envid, false));
        if page == Illegal then r == Inval && Abs() == old(Abs())
        else if e.None? then r == BadEnv && Abs() == old(Abs())
        else if !old(envs[e.value]).recving then r == NotRecv && Abs() == old(Abs())
        else r == (if page == Unmapped then Inval else Ok) &&
             Abs() == Delivered(old(Abs()), e.value, value, old(envs[cur.value]).id) &&
             Received(old(Abs()), Abs(), e.value, value, old(envs[cur.value]).id)
    {
      if page == Illegal {
        return Inval;
      }
      var e := Lookup(envid, false);
      if e.None? {
        return BadEnv;
      }
      if !envs[e.value].recving {
        return NotRecv;
      }
      DeliveredKeeps(Abs(), e.value, value, envs[cur.value].id);
      DeliveredReceived(Abs(), e.value, value, envs[cur.value].id);
      Deliver(e.value, value, envs[cur.value].id);
      r := if page == Unmapped then Inval else Ok;
    }

    method Deliver(e: nat, value: int, from: nat)
      requires Linked() && e < NENV && e !in list.items
      modifies envs, list.Repr, this`sent
      ensures Linked() && Abs() == Delivered(old(Abs()), e, value, from)
    {
      envs[e] := envs[e].(value := value, from := from, recving := false, status := Runnable);
      list.InsertTail(e);
      sent := sent[e := sent[e] + [Message(value, from)]];
    }

    /** The environment tables survive the end of e: it is runnable, or it waits for no message
        and its old links in the run queue do no harm. */
    ghost predicate Survives(e: nat)
      requires Valid() && e < NENV && list.prev[e].Some?
      reads this, envs, list, list.next, list.prev
    {
      envs[e].status == Runnable || (!envs[e].recving && list.LinksHarmless(e))
    }

    /** env_destroy.  An environment that was never in the run queue has null links, through
        which env_free writes; if e is the caller, another one runs.  freed is the state in
        between. */
    method EnvDestroy(e: nat) returns (r: Outcome<Option<Switch>>, ghost freed: State)
      requires Valid() && e < NENV && envs[e].status != Free
      modifies Repr()
      ensures freed == Destroyed(old(Abs()), e) && ShapeOk(freed)
      ensures r.Panic? <==> old(list.prev[e]) == None
      ensures r.Panic? ==> r.reason == NullLink && old(envs[e].status) == NotRunnable
      ensures r.Done? ==> (r.value.None? <==> old(cur) != Some(e))
      ensures r.Done? && r.value.None? ==> Abs() == freed && (Valid() <==> old(Survives(e)))
      ensures old(cur) == Some(e) ==> r.Done? && InCall(freed) && (r.value == Some(NoneRunnable) <==> NothingRunnable(freed))
      ensures r.Done? && r.value.Some? && r.value.value.Runs? ==>
        Next(freed, true) == Some(r.value.value.env) && r.value.value.env < NENV && Valid() && Abs() == Scheduled(freed, true)
        && Turned(freed, Abs(), r.value.value.env, true)
    {
      var self := cur == Some(e);
      freed := Destroyed(Abs(), e);
      DestroyedIff(Abs(), e);
      assert e in list.items ==> list.prev[e].Some?;
      if list.prev[e] == None {
        return Panic(NullLink), freed;
      }
      FreeEnv(e);
      r := Done(None);
      if self {
        var run := Schedule(true);
        r := Done(Some(run));
      }
    }

    method FreeEnv(e: nat)
      requires Linked() && e < NENV && list.prev[e].Some?
      modifies this`free, this`cur, this`user, this`sent, this`got, envs, list.Repr
      ensures Abs() == Destroyed(old(Abs()), e)
      ensures Linked() <==> old(e in list.items || list.LinksHarmless(e))
    {
      FillEnv(e, envs[e].(status := Free));
      Forget(e);
      list.RemoveAny(e);
    }

    /** The environment is put on the free list and stops being curenv. */
    method Forget(e: nat)
      requires Linked() && e < NENV
      modifies this`free, this`cur, this`user, this`sent, this`got
      ensures Linked()
      ensures Abs() == old(Abs()).(free := [e] + old(free), cur := if old(cur) == Some(e) then None else old(cur),
                                   user := old(user)[e := Outside], sent := old(sent)[e := []], got := old(got)[e := []])
    {
      free := [e] + free;
      cur := if cur == Some(e) then None else cur;
      user := user[e := Outside];
      sent, got := sent[e := []], got[e := []];
    }

    // ----------------------------------------------------------- user-level ipc_recv

    /** The running process reads the sender; then, perhaps after having been preempted, the
        value. */
    method ReadFrom()
      requires Valid() && cur.Some? && user[cur.value] == AtCall
      modifies this`user
      ensures Valid() && Abs() == FromRead(old(Abs()), cur.value)
    {
      FromReadKeeps(Abs(), cur.value);
      user := user[cur.value := HalfRead(envs[cur.value].from)];
    }

    /** ipc_recv returns the message that was delivered last, whole. */
    method ReadValue() returns (m: Message)
      requires Valid() && cur.Some? && user[cur.value].HalfRead?
      modifies this`user, this`got
      ensures Valid() && Abs() == ValueRead(old(Abs()), cur.value)
      ensures got[cur.value] == old(got[cur.value]) + [m] == sent[cur.value]
    {
      ValueReadKeeps(Abs(), cur.value);
      var c := cur.value;
      m := Message(envs[c].value, user[c].from);
      user := user[c := Outside];
      got := got[c := got[c] + [m]];
    }
  }
}
