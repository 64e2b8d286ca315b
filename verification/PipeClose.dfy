/** When _pipe_is_closed of user/lib/pipe.c is right: reference counts read one after the other
    by a process that may be preempted, while others duplicate, close, fork and exit. */
module PipeClose {
  /** A file descriptor number of a process: a page for the descriptor and one for the pipe. */
  datatype Fd = Fd(env: nat, num: nat)

  datatype End = ReadEnd | WriteEnd

  /** What a process is in the middle of: dup, with the pipe page of new mapped and the
      descriptor page to come; close, with the descriptor page unmapped and the pipe page to
      come; or _pipe_is_closed, which has noted env_runs, and then the two counts. */
  datatype Doing =
    | Idle
    | Duping(source: Fd, target: Fd, end: End)
    | Closing(fd: Fd)
    | Noted(fd: Fd, runs: nat)
    | HasFd(fd: Fd, runs: nat, fdRef: nat)
    | HasBoth(fd: Fd, runs: nat, fdRef: nat, pipeRef: nat)

  /** Where the pipe page and the two descriptor pages are mapped; who runs, how often each
      process has been dispatched, and what it is doing. */
  datatype State = State(data: set<Fd>, rfd: set<Fd>, wfd: set<Fd>, running: nat, runs: map<nat, nat>, doing: map<nat, Doing>)

  function EndOf(s: State, e: End): set<Fd> { if e.ReadEnd? then s.rfd else s.wfd }

  function Other(e: End): End { if e.ReadEnd? then WriteEnd else ReadEnd }

  predicate Open(s: State, fd: Fd) { fd in s.rfd || fd in s.wfd }

  function Kind(s: State, fd: Fd): End { if fd in s.rfd then ReadEnd else WriteEnd }

  function Add(s: State, e: End, fd: Fd): State {
    if e.ReadEnd? then s.(rfd := s.rfd + {fd}) else s.(wfd := s.wfd + {fd})
  }

  /** pipe() by process p, as one step. */
  function Created(p: nat, r: nat, w: nat): State {
    State({Fd(p, r), Fd(p, w)}, {Fd(p, r)}, {Fd(p, w)}, p, map[p := 0], map[p := Idle])
  }

  // ---------------------------------------------------------------------- the steps

  predicate Live(s: State) { s.running in s.doing && s.running in s.runs }

  function Does(s: State, d: Doing): State { s.(doing := s.doing[s.running := d]) }

  /** The clock or a yield: env_run counts the dispatch, also of the same process. */
  ghost predicate Switch(s: State, t: State, p: nat) {
    p in s.doing && p in s.runs && t == s.(running := p, runs := s.runs[p := s.runs[p] + 1])
  }

  /** dup maps the pipe page first, then the descriptor page. */
  ghost predicate DupData(s: State, t: State, source: Fd, target: Fd)
    requires Live(s)
  {
    && s.doing[s.running] == Idle && source.env == target.env == s.running && Open(s, source) && target !in s.data
    && t == Does(s, Duping(source, target, Kind(s, source))).(data := s.data + {target})
  }

  ghost predicate DupFd(s: State, t: State)
    requires Live(s)
  {
    s.doing[s.running].Duping? && t == Add(Does(s, Idle), s.doing[s.running].end, s.doing[s.running].target)
  }

  /** pipe_close unmaps the descriptor page first, then the pipe page. */
  ghost predicate CloseFd(s: State, t: State, fd: Fd)
    requires Live(s)
  {
    && s.doing[s.running] == Idle && fd.env == s.running && Open(s, fd)
    && t == Does(s, Closing(fd)).(rfd := s.rfd - {fd}, wfd := s.wfd - {fd})
  }

  ghost predicate CloseData(s: State, t: State)
    requires Live(s)
  {
    s.doing[s.running].Closing? && t == Does(s, Idle).(data := s.data - {s.doing[s.running].fd})
  }

  function Copies(fds: set<Fd>, p: nat, c: nat): set<Fd> { fds + set fd | fd in fds && fd.env == p :: Fd(c, fd.num) }

  /** fork, as one step: the child has the parent's descriptors. */
  ghost predicate Fork(s: State, t: State, c: nat)
    requires Live(s)
  {
    && s.doing[s.running] == Idle && c !in s.doing && c !in s.runs
    && t == s.(data := Copies(s.data, s.running, c), rfd := Copies(s.rfd, s.running, c), wfd := Copies(s.wfd, s.running, c),
               runs := s.runs[c := 0], doing := s.doing[c := Idle])
  }

  function Survivors(fds: set<Fd>, p: nat): set<Fd> { set fd | fd in fds && fd.env != p }

  /** The end of the running process: the kernel unmaps all its pages; then q runs. */
  ghost predicate Exit(s: State, t: State, q: nat)
    requires Live(s)
  {
    && q in s.doing && q in s.runs && q != s.running
    && t == State(Survivors(s.data, s.running), Survivors(s.rfd, s.running), Survivors(s.wfd, s.running), q,
                  (s.runs - {s.running})[q := s.runs[q] + 1], s.doing - {s.running})
  }

  /** The end of another process, by env_destroy. */
  ghost predicate Kill(s: State, t: State, p: nat)
    requires Live(s)
  {
    && p in s.doing && p != s.running && s.doing[s.running] == Idle
    && t == State(Survivors(s.data, p), Survivors(s.rfd, p), Survivors(s.wfd, p), s.running, s.runs - {p}, s.doing - {p})
  }

  /** _pipe_is_closed: note env_runs, read the two counts, and start again if it has been
      dispatched in between. */
  ghost predicate NoteRuns(s: State, t: State, fd: Fd)
    requires Live(s)
  {
    s.doing[s.running] == Idle && fd.env == s.running && Open(s, fd) && t == Does(s, Noted(fd, s.runs[s.running]))
  }

  ghost predicate ReadFdRef(s: State, t: State)
    requires Live(s)
  {
    var d := s.doing[s.running];
    d.Noted? && t == Does(s, HasFd(d.fd, d.runs, |EndOf(s, Kind(s, d.fd))|))
  }

  ghost predicate ReadPipeRef(s: State, t: State)
    requires Live(s)
  {
    var d := s.doing[s.running];
    d.HasFd? && t == Does(s, HasBoth(d.fd, d.runs, d.fdRef, |s.data|))
  }

  ghost predicate Decide(s: State, t: State)
    requires Live(s)
  {
    var d := s.doing[s.running];
    d.HasBoth? && t == Does(s, if d.runs == s.runs[s.running] then Idle else Noted(d.fd, s.runs[s.running]))
  }

  ghost predicate Step(s: State, t: State)
    requires Live(s)
  {
    || (exists p :: Switch(s, t, p)) || (exists a, b :: DupData(s, t, a, b)) || DupFd(s, t)
    || (exists fd :: CloseFd(s, t, fd)) || CloseData(s, t) || (exists c :: Fork(s, t, c)) || (exists q :: Exit(s, t, q)) || (exists p :: Kill(s, t, p))
    || (exists fd :: NoteRuns(s, t, fd)) || ReadFdRef(s, t) || ReadPipeRef(s, t) || Decide(s, t)
  }

  // ------------------------------------------------------------------ the invariant

  ghost predicate DoingOk(s: State, p: nat)
    requires p in s.doing && p in s.runs
  {
    match s.doing[p]
    case Idle => true
    case Duping(o, n, e) => o.env == p && n.env == p && o in EndOf(s, e) && n in s.data && !Open(s, n)
    case Closing(fd) => fd.env == p && fd in s.data && !Open(s, fd)
    case Noted(fd, r) => fd.env == p && Open(s, fd) && r <= s.runs[p]
    case HasFd(fd, r, f) =>
      fd.env == p && Open(s, fd) && r <= s.runs[p] && (s.running == p && r == s.runs[p] ==> f == |EndOf(s, Kind(s, fd))|)
    case HasBoth(fd, r, f, d) =>
      && fd.env == p && Open(s, fd) && r <= s.runs[p]
      && (s.running == p && r == s.runs[p] ==> f == |EndOf(s, Kind(s, fd))| && d == |s.data|)
  }

  /** The process is between the two steps of dup or close on fd. */
  ghost predicate InTransit(s: State, fd: Fd) {
    fd.env in s.doing && ((s.doing[fd.env].Duping? && s.doing[fd.env].target == fd) || s.doing[fd.env] == Closing(fd))
  }

  /** Every descriptor page comes with the pipe page, a number is one end only, and a pipe page
      without its descriptor page is in transit. */
  ghost predicate Inv(s: State) {
    && s.running in s.doing && s.doing.Keys == s.runs.Keys
    && s.rfd + s.wfd <= s.data && s.rfd * s.wfd == {}
    && (forall fd :: fd in s.data ==> fd.env in s.doing)
    && (forall fd :: fd in s.data && !Open(s, fd) ==> InTransit(s, fd))
    && (forall p :: p in s.doing ==> DoingOk(s, p))
  }

  /** The pipe page is referenced at least as often as both descriptor pages together. */
  lemma CountsOrdered(s: State)
    requires Inv(s)
    ensures |s.data| >= |s.rfd| + |s.wfd|
  {
    assert |s.rfd + s.wfd| == |s.rfd| + |s.wfd|;
    SubsetSize(s.rfd + s.wfd, s.data);
  }

  lemma SubsetSize<T>(a: set<T>, b: set<T>)
    requires a <= b
    ensures |a| <= |b| && (|a| == |b| ==> a == b)
  {
    assert b == a + (b - a);
  }

  /** A positive answer is right: when the process decides, the counts are those of one moment,
      and equal counts mean that the other end is referenced nowhere. */
  lemma ClosedIsSound(s: State)
    requires Inv(s) && s.doing[s.running].HasBoth?
    ensures var d := s.doing[s.running];
      d.runs == s.runs[s.running] && d.fdRef == d.pipeRef ==>
        EndOf(s, Other(Kind(s, d.fd))) == {} && s.data == EndOf(s, Kind(s, d.fd))
  {
    assert DoingOk(s, s.running);
    var d := s.doing[s.running];
    if d.runs == s.runs[s.running] && d.fdRef == d.pipeRef {
      SubsetSize(EndOf(s, Kind(s, d.fd)), s.data);
    }
  }

  /** And a negative one too, unless somebody is between the two steps of dup or close. */
  lemma OpenIsSound(s: State)
    requires Inv(s) && s.doing[s.running].HasBoth? && forall fd :: !InTransit(s, fd)
    ensures var d := s.doing[s.running];
      d.runs == s.runs[s.running] && d.fdRef != d.pipeRef ==> EndOf(s, Other(Kind(s, d.fd))) != {}
  {
    assert DoingOk(s, s.running);
    assert forall fd :: fd in s.data ==> fd in s.rfd || fd in s.wfd;
    assert s.data == s.rfd + s.wfd;
    assert s.rfd + {} == s.rfd && {} + s.wfd == s.wfd;
  }

  lemma CreatedKeeps(p: nat, r: nat, w: nat)
    requires r != w
    ensures Inv(Created(p, r, w))
  {}

  // ---------------------------------------------------------- every step keeps it

  lemma SwitchKeeps(s: State, t: State, p: nat)
    requires Inv(s) && Switch(s, t, p)
    ensures Inv(t)
  {
    forall q | q in t.doing ensures DoingOk(t, q) { assert DoingOk(s, q); }
    forall fd | fd in t.data && !Open(t, fd) ensures InTransit(t, fd) { assert InTransit(s, fd); }
  }

  lemma DupDataKeeps(s: State, t: State, a: Fd, b: Fd)
    requires Inv(s) && DupData(s, t, a, b)
    ensures Inv(t)
  {
    forall q | q in t.doing ensures DoingOk(t, q) { assert DoingOk(s, q); }
    forall fd | fd in t.data && !Open(t, fd) ensures InTransit(t, fd) { if fd != b { assert InTransit(s, fd); } }
  }

  lemma DupFdKeeps(s: State, t: State)
    requires Inv(s) && DupFd(s, t)
    ensures Inv(t)
  {
    assert DoingOk(s, s.running);
    forall q | q in t.doing ensures DoingOk(t, q) { assert DoingOk(s, q); }
    forall fd | fd in t.data && !Open(t, fd) ensures InTransit(t, fd) { assert InTransit(s, fd); }
  }

  lemma CloseFdKeeps(s: State, t: State, fd: Fd)
    requires Inv(s) && CloseFd(s, t, fd)
    ensures Inv(t)
  {
    forall q | q in t.doing ensures DoingOk(t, q) { assert DoingOk(s, q); }
    forall x | x in t.data && !Open(t, x) ensures InTransit(t, x) { if x != fd { assert InTransit(s, x); } }
  }

  lemma CloseDataKeeps(s: State, t: State)
    requires Inv(s) && CloseData(s, t)
    ensures Inv(t)
  {
    assert DoingOk(s, s.running);
    forall q | q in t.doing ensures DoingOk(t, q) { assert DoingOk(s, q); }
    forall x | x in t.data && !Open(t, x) ensures InTransit(t, x) { assert InTransit(s, x); }
  }

  lemma ForkKeeps(s: State, t: State, c: nat)
    requires Inv(s) && Fork(s, t, c)
    ensures Inv(t)
  {
    forall q | q in t.doing ensures DoingOk(t, q) { if q != c { assert DoingOk(s, q); } }
    forall x | x in t.rfd ensures x !in t.wfd {
      var y := if x.env == c then Fd(s.running, x.num) else x;
      assert y in s.rfd && y !in s.rfd * s.wfd;
    }
    forall x | x in t.data && !Open(t, x) ensures InTransit(t, x) {
      var y := if x.env == c then Fd(s.running, x.num) else x;
      assert y in s.data && !Open(s, y) && InTransit(s, y);
    }
  }

  lemma RemovedKeeps(s: State, t: State, p: nat)
    requires Inv(s) && t.data == Survivors(s.data, p) && t.rfd == Survivors(s.rfd, p) && t.wfd == Survivors(s.wfd, p)
    requires t.doing == s.doing - {p} && t.runs.Keys == t.doing.Keys && t.running in t.doing
    requires t.running == s.running ==> s.doing[s.running] == Idle
    requires forall q :: q in t.runs ==> q in s.runs && t.runs[q] == s.runs[q] + (if q == t.running && q != s.running then 1 else 0)
    ensures Inv(t)
  {
    forall q | q in t.doing ensures DoingOk(t, q) { assert DoingOk(s, q); }
    forall x | x in t.data && !Open(t, x) ensures InTransit(t, x) { assert InTransit(s, x); }
  }

  lemma CheckKeeps(s: State, t: State, fd: Fd)
    requires Inv(s) && (NoteRuns(s, t, fd) || ReadFdRef(s, t) || ReadPipeRef(s, t) || Decide(s, t))
    ensures Inv(t)
  {
    assert DoingOk(s, s.running);
    forall q | q in t.doing ensures DoingOk(t, q) { assert DoingOk(s, q); }
    forall x | x in t.data && !Open(t, x) ensures InTransit(t, x) { assert InTransit(s, x); }
  }

  lemma StepKeeps(s: State, t: State)
    requires Inv(s) && Step(s, t)
    ensures Inv(t)
  {
    if p :| Switch(s, t, p) {
      SwitchKeeps(s, t, p);
    } else if a, b :| DupData(s, t, a, b) {
      DupDataKeeps(s, t, a, b);
    } else if DupFd(s, t) {
      DupFdKeeps(s, t);
    } else if fd :| CloseFd(s, t, fd) {
      CloseFdKeeps(s, t, fd);
    } else if CloseData(s, t) {
      CloseDataKeeps(s, t);
    } else if c :| Fork(s, t, c) {
      ForkKeeps(s, t, c);
    } else if q :| Exit(s, t, q) {
      RemovedKeeps(s, t, s.running);
    } else if p :| Kill(s, t, p) {
      RemovedKeeps(s, t, p);
    } else {
      var fd := if exists fd :: NoteRuns(s, t, fd) then (var f :| NoteRuns(s, t, f); f) else Fd(0, 0);
      CheckKeeps(s, t, fd);
    }
  }

  ghost predicate Run(trace: seq<State>, p: nat, r: nat, w: nat) {
    && r != w && trace != [] && trace[0] == Created(p, r, w)
    && forall i :: 0 <= i < |trace| - 1 ==> Live(trace[i]) && Step(trace[i], trace[i + 1])
  }

  /** In every run of every interleaving the pipe page has at least as many references as the
      descriptors, and when _pipe_is_closed is about to answer yes, nobody has the other end. */
  lemma {:induction false} AlwaysSound(trace: seq<State>, p: nat, r: nat, w: nat, i: nat)
    requires Run(trace, p, r, w) && i < |trace|
    ensures Inv(trace[i]) && |trace[i].data| >= |trace[i].rfd| + |trace[i].wfd|
    ensures var s := trace[i]; var d := s.doing[s.running];
      d.HasBoth? && d.runs == s.runs[s.running] && d.fdRef == d.pipeRef ==> EndOf(s, Other(Kind(s, d.fd))) == {}
    decreases i
  {
    if i == 0 {
      CreatedKeeps(p, r, w);
    } else {
      AlwaysSound(trace, p, r, w, i - 1);
      assert Step(trace[i - 1], trace[i - 1 + 1]);
      StepKeeps(trace[i - 1], trace[i]);
    }
    CountsOrdered(trace[i]);
    if trace[i].doing[trace[i].running].HasBoth? { ClosedIsSound(trace[i]); }
  }

  lemma ClosedStays(s: State, t: State, e: End)
    requires Inv(s) && Step(s, t) && EndOf(s, e) == {}
    ensures EndOf(t, e) == {}
  {
    assert DoingOk(s, s.running);
  }

  lemma RunStep(trace: seq<State>, p: nat, r: nat, w: nat, j: nat)
    requires Run(trace, p, r, w) && 0 < j < |trace|
    ensures Inv(trace[j - 1]) && Step(trace[j - 1], trace[j])
  {
    AlwaysSound(trace, p, r, w, j - 1);
    assert Step(trace[j - 1], trace[j - 1 + 1]);
  }

  /** An end that is referenced nowhere never comes back, however the run goes on. */
  lemma {:induction false} ClosedForever(trace: seq<State>, p: nat, r: nat, w: nat, i: nat, j: nat, e: End)
    requires Run(trace, p, r, w) && i <= j < |trace| && EndOf(trace[i], e) == {}
    ensures EndOf(trace[j], e) == {}
    decreases j
  {
    if i < j {
      ClosedForever(trace, p, r, w, i, j - 1, e);
      RunStep(trace, p, r, w, j);
      ClosedStays(trace[j - 1], trace[j], e);
    }
  }

  /** The order in pipe_close is needed: if the pipe page went first, a reader would see equal
      counts while the writer's descriptor is still open. */
  lemma OrderMatters(p: nat, r: nat, w: nat)
    requires r != w
    ensures var s := Created(p, r, w); var t := s.(data := s.data - {Fd(p, w)}); |t.rfd| == |t.data| && t.wfd != {}
  {
    assert Created(p, r, w).data - {Fd(p, w)} == {Fd(p, r)};
  }
}
