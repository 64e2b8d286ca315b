/** The ring buffer of user/lib/pipe.c between one reader and one writer that may be
    preempted between any two statements. */
module PipeData {
  const PIPE_SIZE := 32
  const WORD := 0x1_0000_0000

  /** Where a process is in the loop of pipe_read or pipe_write: before the test whether the
      pipe is empty or full, before the answer of _pipe_is_closed after a positive test, before
      the copy, or before the increment. */
  datatype At = Test | Ask | Copy | Incr

  predicate Waiting(at: At) { at == Test || at == Ask }

  /** The shared structure, both program counters, and the bytes that have been put into and
      taken out of the buffer. */
  datatype State = State(rpos: nat, wpos: nat, buf: seq<bv8>, reader: At, writer: At, written: seq<bv8>, read: seq<bv8>)

  function Initial(): State {
    State(0, 0, seq(PIPE_SIZE, _ => 0), Test, Test, [], [])
  }

  /** The unsigned difference of the two positions. */
  function Used(s: State): nat { (s.wpos - s.rpos) % WORD }

  /** One statement of pipe_read.  After the answer it returns, or yields and tests again. */
  ghost predicate ReaderStep(s: State, t: State) {
    match s.reader
    case Test => t == s.(reader := if s.rpos >= s.wpos then Ask else Copy)
    case Ask => t == s.(reader := Test)
    case Copy => |s.buf| == PIPE_SIZE && t == s.(reader := Incr, read := s.read + [s.buf[s.rpos % PIPE_SIZE]])
    case Incr => t == s.(reader := Test, rpos := (s.rpos + 1) % WORD)
  }

  /** One statement of pipe_write, which is to write the byte b next. */
  ghost predicate WriterStep(s: State, t: State, b: bv8) {
    match s.writer
    case Test => t == s.(writer := if Used(s) >= PIPE_SIZE then Ask else Copy)
    case Ask => t == s.(writer := Test)
    case Copy => |s.buf| == PIPE_SIZE && t == s.(writer := Incr, buf := s.buf[s.wpos % PIPE_SIZE := b], written := s.written + [b])
    case Incr => t == s.(writer := Test, wpos := (s.wpos + 1) % WORD)
  }

  ghost predicate Step(s: State, t: State) {
    ReaderStep(s, t) || exists b :: WriterStep(s, t, b)
  }

  /** The numbers of bytes that have been made visible to the reader, and given back to the
      writer, since the pipe was created. */
  function Put(s: State): int { |s.written| - (if s.writer == Incr then 1 else 0) }
  function Taken(s: State): int { |s.read| - (if s.reader == Incr then 1 else 0) }

  /** Positions count the bytes as 32-bit words, and the slots between them hold the unread
      bytes.  The read position never gets past the end of its range. */
  ghost predicate Inv(s: State) {
    && |s.buf| == PIPE_SIZE && s.rpos == Taken(s) < WORD && s.wpos == Put(s) % WORD
    && Taken(s) <= Put(s) <= Taken(s) + PIPE_SIZE
    && (!Waiting(s.reader) ==> Taken(s) < Put(s) && Taken(s) < WORD - 1)
    && (!Waiting(s.writer) ==> Put(s) < Taken(s) + PIPE_SIZE)
    && (forall k :: Taken(s) <= k < |s.written| ==> s.buf[k % PIPE_SIZE] == s.written[k])
    && s.read == s.written[..|s.read|]
  }

  lemma DistinctSlots(j: nat, k: nat)
    requires j < k < j + PIPE_SIZE
    ensures j % PIPE_SIZE != k % PIPE_SIZE
  {}

  /** The difference of two words is the difference of the numbers if that is small. */
  lemma WordDifference(r: nat, w: nat)
    requires r < WORD && r <= w <= r + PIPE_SIZE
    ensures w % WORD == if w < WORD then w else w - WORD
    ensures (w % WORD - r) % WORD == w - r
    ensures w % WORD % PIPE_SIZE == w % PIPE_SIZE
  {
    if w >= WORD {
      assert w == WORD + (w - WORD) && (w % WORD - r) == (w - r) - WORD;
    }
  }

  /** The test of the read loop says whether a byte is unread exactly as long as fewer than
      2^32 bytes have been written; the test of the write loop is always right. */
  lemma TestsAreRight(s: State)
    requires Inv(s)
    ensures s.reader == Test ==> ((s.rpos >= s.wpos <==> |s.read| == Put(s)) <==> Put(s) < WORD)
    ensures Used(s) == Put(s) - Taken(s)
    ensures Used(s) >= PIPE_SIZE <==> Put(s) == Taken(s) + PIPE_SIZE
  {
    WordDifference(s.rpos, Put(s));
  }

  lemma ReaderKeeps(s: State, t: State)
    requires Inv(s) && ReaderStep(s, t)
    ensures Inv(t)
  {
    match s.reader
    case Test =>
      WordDifference(s.rpos, Put(s));
    case Ask =>
    case Copy =>
      assert s.written[..|t.read|] == s.written[..|s.read|] + [s.written[s.rpos]];
    case Incr =>
  }

  /** A byte put at the end of the unread bytes overwrites none of them. */
  lemma SlotsKept(buf: seq<bv8>, written: seq<bv8>, r: nat, b: bv8)
    requires |buf| == PIPE_SIZE && r <= |written| < r + PIPE_SIZE
    requires forall k :: r <= k < |written| ==> buf[k % PIPE_SIZE] == written[k]
    ensures var after := buf[|written| % PIPE_SIZE := b];
      forall k :: r <= k <= |written| ==> after[k % PIPE_SIZE] == (written + [b])[k]
  {
    var after := buf[|written| % PIPE_SIZE := b];
    forall k | r <= k <= |written| ensures after[k % PIPE_SIZE] == (written + [b])[k] {
      if k < |written| { DistinctSlots(k, |written|); }
    }
  }

  lemma WriterKeeps(s: State, t: State, b: bv8)
    requires Inv(s) && WriterStep(s, t, b)
    ensures Inv(t)
  {
    match s.writer
    case Test =>
      TestsAreRight(s);
    case Ask =>
    case Copy =>
      SameSlot(s.rpos, Put(s));
      SlotsKept(s.buf, s.written, s.rpos, b);
    case Incr =>
      NextWord(Put(s));
  }

  lemma SameSlot(r: nat, w: nat)
    requires r < WORD && r <= w <= r + PIPE_SIZE
    ensures w % WORD % PIPE_SIZE == w % PIPE_SIZE
  {
    WordDifference(r, w);
  }

  lemma NextWord(w: nat)
    ensures (w % WORD + 1) % WORD == (w + 1) % WORD
  {}

  lemma StepKeeps(s: State, t: State)
    requires Inv(s) && Step(s, t)
    ensures Inv(t) && s.written <= t.written && s.read <= t.read && Put(s) <= Put(t)
    ensures Waiting(s.reader) && Put(s) >= WORD ==> Waiting(t.reader) && t.read == s.read
  {
    if ReaderStep(s, t) {
      TestsAreRight(s);
      ReaderKeeps(s, t);
    } else {
      var b :| WriterStep(s, t, b);
      WriterKeeps(s, t, b);
    }
  }

  ghost predicate Run(trace: seq<State>) {
    trace != [] && trace[0] == Initial() && forall i :: 0 <= i < |trace| - 1 ==> Step(trace[i], trace[i + 1])
  }

  /** In every run and every interleaving, what has been read is a prefix of what has been
      written, and the buffer holds the rest. */
  lemma {:induction false} Fifo(trace: seq<State>, i: nat)
    requires Run(trace) && i < |trace|
    ensures Inv(trace[i]) && trace[i].read <= trace[i].written
    ensures 0 <= Put(trace[i]) - Taken(trace[i]) <= PIPE_SIZE && |trace[i].read| < WORD
  {
    if i > 0 {
      Fifo(trace, i - 1);
      assert Step(trace[i - 1], trace[i - 1 + 1]);
      StepKeeps(trace[i - 1], trace[i]);
    }
  }

  /** One step of a run. */
  lemma RunStep(trace: seq<State>, j: nat)
    requires Run(trace) && 0 < j < |trace|
    ensures var s, t := trace[j - 1], trace[j];
      Put(s) <= Put(t) && (Waiting(s.reader) && Put(s) >= WORD ==> Waiting(t.reader) && t.read == s.read)
  {
    Fifo(trace, j - 1);
    assert Step(trace[j - 1], trace[j - 1 + 1]);
    StepKeeps(trace[j - 1], trace[j]);
  }

  /** Once 2^32 bytes have been written a waiting reader has bytes left to read, but in no
      continuation of the run does it read any of them. */
  lemma {:induction false} WrapLosesBytes(trace: seq<State>, i: nat, j: nat)
    requires Run(trace) && i <= j < |trace| && Waiting(trace[i].reader) && Put(trace[i]) >= WORD
    ensures |trace[i].read| < Put(trace[i]) <= Put(trace[j])
    ensures Waiting(trace[j].reader) && trace[j].read == trace[i].read
    decreases j
  {
    if i < j {
      WrapLosesBytes(trace, i, j - 1);
      RunStep(trace, j);
    } else {
      Fifo(trace, i);
    }
  }

  lemma Extend(trace: seq<State>, t: State)
    requires Run(trace) && Step(trace[|trace| - 1], t)
    ensures Run(trace + [t])
  {
    var longer := trace + [t];
    forall i | 0 <= i < |longer| - 1 ensures Step(longer[i], longer[i + 1]) {
      if i < |trace| - 1 { assert Step(trace[i], trace[i + 1]); }
    }
  }

  /** The writer puts one byte into a pipe that is not full, while the reader waits. */
  lemma WriteOne(trace: seq<State>) returns (longer: seq<State>)
    requires Run(trace)
    requires var s := trace[|trace| - 1]; Waiting(s.reader) && s.writer == Test && |s.written| < |s.read| + PIPE_SIZE
    ensures Run(longer) && longer != []
    ensures var s, t := trace[|trace| - 1], longer[|longer| - 1];
      t.reader == s.reader && t.writer == Test && t.read == s.read && |t.written| == |s.written| + 1
  {
    var s := trace[|trace| - 1];
    Fifo(trace, |trace| - 1);
    TestsAreRight(s);
    var s1 := s.(writer := Copy);
    assert WriterStep(s, s1, 0);
    Extend(trace, s1);
    var s2 := s1.(writer := Incr, buf := s1.buf[s1.wpos % PIPE_SIZE := 0], written := s1.written + [0]);
    assert WriterStep(s1, s2, 0);
    Extend(trace + [s1], s2);
    var s3 := s2.(writer := Test, wpos := (s2.wpos + 1) % WORD);
    assert WriterStep(s2, s3, 0);
    Extend(trace + [s1] + [s2], s3);
    longer := trace + [s1] + [s2] + [s3];
  }

  /** The reader takes one byte, while the writer waits. */
  lemma ReadOne(trace: seq<State>) returns (longer: seq<State>)
    requires Run(trace)
    requires var s := trace[|trace| - 1]; s.reader == Test && Waiting(s.writer) && |s.read| < |s.written| < WORD
    ensures Run(longer) && longer != []
    ensures var s, t := trace[|trace| - 1], longer[|longer| - 1];
      t.reader == Test && t.writer == s.writer && |t.read| == |s.read| + 1 && t.written == s.written
  {
    var s := trace[|trace| - 1];
    Fifo(trace, |trace| - 1);
    TestsAreRight(s);
    var s1 := s.(reader := Copy);
    assert ReaderStep(s, s1);
    Extend(trace, s1);
    var s2 := s1.(reader := Incr, read := s1.read + [s1.buf[s1.rpos % PIPE_SIZE]]);
    assert ReaderStep(s1, s2);
    Extend(trace + [s1], s2);
    var s3 := s2.(reader := Test, rpos := (s2.rpos + 1) % WORD);
    assert ReaderStep(s2, s3);
    Extend(trace + [s1] + [s2], s3);
    longer := trace + [s1] + [s2] + [s3];
  }

  /** Some run passes n bytes through the pipe one by one. */
  lemma {:induction false} PassesBytes(n: nat) returns (trace: seq<State>)
    requires n < WORD
    ensures Run(trace) && trace != []
    ensures var s := trace[|trace| - 1]; s.reader == s.writer == Test && |s.read| == |s.written| == n
  {
    if n == 0 {
      trace := [Initial()];
    } else {
      trace := PassesBytes(n - 1);
      trace := WriteOne(trace);
      trace := ReadOne(trace);
    }
  }

  /** The state in which bytes are lost is reached. */
  lemma WrapReached() returns (trace: seq<State>)
    ensures Run(trace) && trace != []
    ensures var s := trace[|trace| - 1]; s.reader == Test && Put(s) == WORD && |s.read| == WORD - 1
  {
    trace := PassesBytes(WORD - 1);
    trace := WriteOne(trace);
  }

  /** Some run fills the pipe with n bytes. */
  lemma {:induction false} FillsUp(n: nat) returns (trace: seq<State>)
    requires n <= PIPE_SIZE
    ensures Run(trace) && trace != []
    ensures var s := trace[|trace| - 1]; s.reader == s.writer == Test && s.read == [] && |s.written| == n
  {
    if n == 0 {
      trace := [Initial()];
    } else {
      trace := FillsUp(n - 1);
      trace := WriteOne(trace);
    }
  }

  /** The test and the answer are two steps: a reader that has found the pipe empty can come to
      the question whether it is closed with a byte unread, and so return without it. */
  lemma UnreadAtAnswer() returns (trace: seq<State>)
    ensures Run(trace) && trace != []
    ensures var s := trace[|trace| - 1]; s.reader == Ask && s.writer == Test && |s.read| < Put(s) < WORD
  {
    var s := Initial();
    var t := s.(reader := Ask);
    assert ReaderStep(s, t);
    Extend([s], t);
    trace := WriteOne([s] + [t]);
  }

  /** In the same way a writer that has found the pipe full can come to the question with a
      free slot. */
  lemma RoomAtAnswer() returns (trace: seq<State>)
    ensures Run(trace) && trace != []
    ensures var s := trace[|trace| - 1]; s.writer == Ask && s.reader == Test && Used(s) < PIPE_SIZE
  {
    trace := FillsUp(PIPE_SIZE);
    var s := trace[|trace| - 1];
    Fifo(trace, |trace| - 1);
    TestsAreRight(s);
    var t := s.(writer := Ask);
    assert WriterStep(s, t, 0);
    Extend(trace, t);
    trace := ReadOne(trace + [t]);
    Fifo(trace, |trace| - 1);
    TestsAreRight(trace[|trace| - 1]);
  }
}

/** The loops of pipe_read and pipe_write over the shared structure, with the other process
    moving between any two statements. */
module Pipes {
  import opened Prelude
  import opened PipeData

  /** What happens before the next statement of a process: the other process executes one
      statement per element of moves (a writer writes these bytes).  closed is what
      _pipe_is_closed answers if its answer is the next statement. */
  datatype Turn = Turn(moves: seq<bv8>, closed: bool)

  /** The state of a test of pipe_read that finds the pipe empty: every byte has been read, or
      the write position has wrapped. */
  ghost predicate FoundEmpty(s: State) {
    Inv(s) && s.reader == Test && s.rpos >= s.wpos && (|s.read| == Put(s) || Put(s) >= WORD)
  }

  /** The state of a test of pipe_write that finds the pipe full: no slot is free. */
  ghost predicate FoundFull(s: State) {
    Inv(s) && s.writer == Test && Used(s) >= PIPE_SIZE && Put(s) == Taken(s) + PIPE_SIZE
  }

  /** From turn c on every answer of _pipe_is_closed is positive. */
  ghost predicate ClosedFrom(turns: seq<Turn>, c: nat) {
    forall k :: c <= k < |turns| ==> turns[k].closed
  }

  /** How many own statements a call has executed in n turns, of which none was wasted: three for
      each of i bytes, two for each time it had to wait, and those of the byte under way. */
  ghost predicate Paced(n: nat, i: nat, waits: nat, at: At) {
    n == 3 * i + 2 * waits + (match at case Test => 0 case Ask => 1 case Copy => 1 case Incr => -1)
  }

  lemma OneMore(start: seq<bv8>, now: seq<bv8>, bytes: seq<bv8>, i: nat)
    requires i < |bytes| && now == start + bytes[..i]
    ensures now + [bytes[i]] == start + bytes[..i + 1]
  {
    assert bytes[..i + 1] == bytes[..i] + [bytes[i]];
  }

  class Pipe {
    var rpos: nat
    var wpos: nat
    const buf: array<bv8>
    var reader: At                    // where the two processes are
    var writer: At
    ghost var written: seq<bv8>
    ghost var read: seq<bv8>

    ghost function Abs(): State
      reads this, buf
    {
      State(rpos, wpos, buf[..], reader, writer, written, read)
    }

    ghost predicate Valid()
      reads this, buf
    {
      Inv(Abs())
    }

    /** A new pipe: the page of the structure is zeroed. */
    constructor ()
      ensures Valid() && Abs() == Initial()
    {
      rpos, wpos := 0, 0;
      buf := new bv8[PIPE_SIZE](_ => 0);
      reader, writer := Test, Test;
      written, read := [], [];
    }

    /** One statement of a writing process. */
    method WriterMove(b: bv8)
      requires Valid()
      modifies this`wpos, this`writer, this`written, buf
      ensures Valid() && WriterStep(old(Abs()), Abs(), b)
      ensures written == old(written) + (if old(writer) == Copy then [b] else []) && old(Put(Abs())) <= Put(Abs())
      ensures writer == match old(writer) case Test => (if old(Used(Abs())) >= PIPE_SIZE then Ask else Copy) case Copy => Incr case _ => Test
    {
      ghost var s := Abs();
      match writer {
        case Test =>
          writer := if (wpos - rpos) % WORD >= PIPE_SIZE then Ask else Copy;
        case Ask =>
          writer := Test;
        case Copy =>
          buf[wpos % PIPE_SIZE] := b;
          writer, written := Incr, written + [b];
        case Incr =>
          wpos, writer := (wpos + 1) % WORD, Test;
      }
      WriterKeeps(s, Abs(), b);
    }

    /** One statement of a reading process; the byte if it was the copy. */
    method ReaderMove() returns (b: Option<bv8>)
      requires Valid()
      modifies this`rpos, this`reader, this`read
      ensures Valid() && ReaderStep(old(Abs()), Abs())
      ensures b.Some? <==> old(reader) == Copy
      ensures read == old(read) + (if b.Some? then [b.value] else []) && old(Taken(Abs())) <= Taken(Abs())
      ensures reader == match old(reader) case Test => (if old(rpos >= wpos) then Ask else Copy) case Copy => Incr case _ => Test
    {
      ghost var s := Abs();
      b := None;
      match reader {
        case Test =>
          reader := if rpos >= wpos then Ask else Copy;
        case Ask =>
          reader := Test;
        case Copy =>
          b := Some(buf[rpos % PIPE_SIZE]);
          reader, read := Incr, read + [b.value];
        case Incr =>
          rpos, reader := (rpos + 1) % WORD, Test;
      }
      ReaderKeeps(s, Abs());
    }

    /** The writing process runs for a while. */
    method WriterMoves(moves: seq<bv8>)
      requires Valid()
      modifies this`wpos, this`writer, this`written, buf
      ensures Valid() && old(written) <= written && old(Put(Abs())) <= Put(Abs())
    {
      for i := 0 to |moves|
        invariant Valid() && old(written) <= written && old(Put(Abs())) <= Put(Abs())
      {
        WriterMove(moves[i]);
      }
    }

    /** The writer's moves and then one statement of pipe_read: the byte if it was the copy; told
        says that it was a positive answer.  at is the state of a test. */
    method ReadTurn(turn: Turn) returns (b: Option<bv8>, told: bool, ghost at: State)
      requires Valid()
      modifies this`rpos, this`wpos, this`reader, this`writer, this`read, this`written, buf
      ensures Valid() && old(written) <= written && old(Put(Abs())) <= Put(Abs())
      ensures told <==> old(reader) == Ask && turn.closed
      ensures b.Some? <==> old(reader) == Copy
      ensures read == old(read) + (if b.Some? then [b.value] else [])
      ensures reader == match old(reader) case Test => (if reader == Ask then Ask else Copy) case Copy => Incr case _ => Test
      ensures reader == Ask ==> FoundEmpty(at) && at.read == read && at.written == written && Put(at) == Put(Abs())
    {
      WriterMoves(turn.moves);
      told := reader == Ask && turn.closed;
      at := Abs();
      TestsAreRight(at);
      b := ReaderMove();
    }

    /** pipe_read, with the writer's moves between its statements.  The result is None if the
        reader is still at it when the given turns end.  A complete call returns the next
        unread bytes in order.  It returns fewer than n only if it has been told that the pipe is
        closed, and all bytes had been read, or 2^32 bytes had been written, at its last test; at is
        the state of that test, and the writer may have gone on since.  Three turns for each byte
        are enough if the bytes are there, or once the pipe is closed. */
    method PipeRead(vbuf: array<bv8>, n: nat, turns: seq<Turn>) returns (r: Option<nat>, ghost at: State)
      requires Valid() && reader == Test && n <= vbuf.Length && vbuf != buf
      modifies this`rpos, this`wpos, this`reader, this`writer, this`read, this`written, buf, vbuf
      ensures Valid() && old(written) <= written && read <= written
      ensures r.Some? ==> r.value <= n && reader == Test && read == old(read) + vbuf[..r.value]
      ensures r.Some? && r.value < n ==> FoundEmpty(at) && at.read == read && at.written <= written
      ensures r.Some? && r.value < n && Put(at) < WORD ==> (|read| == Put(Abs()) <==> Put(at) == Put(Abs()))
      ensures r.Some? && r.value < n ==> exists k :: 0 <= k < |turns| && turns[k].closed
      ensures forall c: nat :: ClosedFrom(turns, c) && c + 3 * n <= |turns| ==> r.Some?
      ensures old(Put(Abs())) >= |old(read)| + n && Put(Abs()) < WORD && 3 * n <= |turns| ==> r == Some(n)
    {
      var k, i := 0, 0;
      ghost var waits := 0;
      at := Abs();
      while i < n || reader != Test
        invariant Valid() && old(written) <= written && k <= |turns|
        invariant i <= n && (reader == Copy || reader == Ask ==> i < n) && read == old(read) + vbuf[..i]
        invariant reader == Ask ==> FoundEmpty(at) && at.read == read && at.written <= written
        invariant Paced(k, i, waits, reader) && forall c: nat :: ClosedFrom(turns, c) ==> waits == 0 || 2 * waits <= c
        invariant old(Put(Abs())) <= Put(Abs())
        invariant old(Put(Abs())) >= |old(read)| + n && Put(Abs()) < WORD ==> waits == 0 && reader != Ask
        decreases |turns| - k
      {
        if k == |turns| {
          return None, at;
        }
        var asking := reader == Ask;
        var b, told;
        ghost var test;
        b, told, test := ReadTurn(turns[k]);
        if reader == Ask {
          at := test;
        }
        k := k + 1;
        if told {
          return Some(i), at;
        }
        if asking {
          waits := waits + 1;
        }
        if b.Some? {
          vbuf[i] := b.value;
          i := i + 1;
        }
      }
      r := Some(i);
    }

    /** The reading process runs for a while. */
    method ReaderMoves(moves: nat)
      requires Valid()
      modifies this`rpos, this`reader, this`read
      ensures Valid() && old(read) <= read && old(Taken(Abs())) <= Taken(Abs())
    {
      for i := 0 to moves
        invariant Valid() && old(read) <= read && old(Taken(Abs())) <= Taken(Abs())
      {
        var _ := ReaderMove();
      }
    }

    /** The reader's moves and then one statement of pipe_write, which is to write the byte b;
        told says that it was a positive answer.  at is the state of a test. */
    method WriteTurn(turn: Turn, b: bv8) returns (told: bool, ghost at: State)
      requires Valid()
      modifies this`rpos, this`wpos, this`reader, this`writer, this`read, this`written, buf
      ensures Valid() && old(read) <= read && old(Taken(Abs())) <= Taken(Abs())
      ensures told <==> old(writer) == Ask && turn.closed
      ensures written == old(written) + (if old(writer) == Copy then [b] else [])
      ensures writer == match old(writer) case Test => (if writer == Ask then Ask else Copy) case Copy => Incr case _ => Test
      ensures writer == Ask ==> FoundFull(at) && at.written == written && at.read == read && Taken(at) == Taken(Abs())
    {
      ReaderMoves(|turn.moves|);
      told := writer == Ask && turn.closed;
      at := Abs();
      TestsAreRight(at);
      WriterMove(b);
    }

    /** pipe_write, with the reader's moves between its statements: a complete call has put a
        prefix of the bytes into the pipe, all of them unless it has been told that the pipe is
        closed, and the pipe was full at its last test; at is the state of that test.  Three turns
        for each byte are enough if there is room for all of them, or once the pipe is closed. */
    method PipeWrite(vbuf: seq<bv8>, turns: seq<Turn>) returns (r: Option<nat>, ghost at: State)
      requires Valid() && writer == Test
      modifies this`rpos, this`wpos, this`reader, this`writer, this`read, this`written, buf
      ensures Valid() && old(read) <= read && read <= written
      ensures r.Some? ==> r.value <= |vbuf| && writer == Test && written == old(written) + vbuf[..r.value]
      ensures r.Some? && r.value < |vbuf| ==> FoundFull(at) && at.written == written && at.read <= read
      ensures r.Some? && r.value < |vbuf| ==> exists k :: 0 <= k < |turns| && turns[k].closed
      ensures forall c: nat :: ClosedFrom(turns, c) && c + 3 * |vbuf| <= |turns| ==> r.Some?
      ensures old(Used(Abs())) + |vbuf| <= PIPE_SIZE && 3 * |vbuf| <= |turns| ==> r == Some(|vbuf|)
    {
      var i := 0;
      ghost var waits := 0;
      at := Abs();
      TestsAreRight(at);
      for k := 0 to |turns|
        invariant Valid() && old(read) <= read && old(Taken(Abs())) <= Taken(Abs()) && i <= |vbuf|
        invariant (writer == Copy || writer == Ask ==> i < |vbuf|) && written == old(written) + vbuf[..i]
        invariant writer == Ask ==> FoundFull(at) && at.written == written && at.read <= read
        invariant Paced(k, i, waits, writer) && forall c: nat :: ClosedFrom(turns, c) ==> waits == 0 || 2 * waits <= c
        invariant old(Used(Abs())) + |vbuf| <= PIPE_SIZE ==> waits == 0 && writer != Ask
      {
        if i == |vbuf| && writer == Test {
          return Some(i), at;
        }
        var copying, asking := writer == Copy, writer == Ask;
        ghost var before := written;
        var told;
        ghost var test;
        told, test := WriteTurn(turns[k], if i < |vbuf| then vbuf[i] else 0);
        if writer == Ask {
          at := test;
        }
        if told {
          return Some(i), at;
        }
        if asking {
          waits := waits + 1;
        }
        if copying {
          OneMore(old(written), before, vbuf, i);
          i := i + 1;
        }
      }
      r := if i == |vbuf| && writer == Test then Some(i) else None;
    }
  }
}
