/**
 * Two nstreams of src/lib/nio.cc at the ends of a pipe: every system call that write_all and
 * read_all can make, in any interleaving, with short transfers, would-blocks and interrupts.
 */
module PipeTransfers {
  import ByteBuffer
  import opened NStreams

  type Bytes = seq<ByteBuffer.byte>

  /** The writer's wbuf, the pipe and the reader's rbuf; what was ever put into wbuf and taken from rbuf. */
  datatype State = State(wbuf: Bytes, fifo: Bytes, rbuf: Bytes, closed: bool, eof: bool, put: Bytes, got: Bytes)

  /**
   * Write(n, k) is a write of the first n bytes of wbuf of which the kernel accepts k; it may answer
   * WriteBlocked(n) if it has no room for all n. Read(bytes) reads those bytes. Take(n) consumes n of rbuf.
   */
  datatype Step =
    | Put(bytes: Bytes)
    | Write(n: nat, k: nat)
    | WriteBlocked(n: nat)
    | WriteInterrupted
    | Close
    | Read(bytes: Bytes)
    | ReadBlocked
    | ReadInterrupted
    | ReadEof
    | Take(n: nat)

  ghost function Init(): State {
    State([], [], [], false, false, [], [])
  }

  ghost predicate Enabled(cap: nat, s: State, step: Step) {
    match step
    case Put(_) => !s.closed
    case Write(n, k) => !s.closed && 0 < k <= n <= |s.wbuf| && |s.fifo| + k <= cap
    case WriteBlocked(n) => !s.closed && 0 < n <= |s.wbuf| && |s.fifo| + n > cap
    case Close => !s.closed
    case Read(bytes) => bytes != [] && bytes <= s.fifo
    case ReadBlocked => s.fifo == [] && !s.closed
    case ReadEof => s.fifo == [] && s.closed
    case Take(n) => n <= |s.rbuf|
    case _ => true
  }

  ghost function Next(cap: nat, s: State, step: Step): State
    requires Enabled(cap, s, step)
  {
    match step
    case Put(bytes) => s.(wbuf := s.wbuf + bytes, put := s.put + bytes)
    case Write(_, k) => s.(wbuf := s.wbuf[k..], fifo := s.fifo + s.wbuf[..k])
    case Close => s.(closed := true)
    case Read(bytes) => s.(fifo := s.fifo[|bytes|..], rbuf := s.rbuf + bytes)
    case ReadEof => s.(eof := true)
    case Take(n) => s.(rbuf := s.rbuf[n..], got := s.got + s.rbuf[..n])
    case _ => s
  }

  ghost predicate Possible(cap: nat, s: State, steps: seq<Step>)
    decreases |steps|
  {
    steps != [] ==> Enabled(cap, s, steps[0]) && Possible(cap, Next(cap, s, steps[0]), steps[1..])
  }

  ghost function Run(cap: nat, s: State, steps: seq<Step>): State
    requires Possible(cap, s, steps)
    decreases |steps|
  {
    if steps == [] then s else Run(cap, Next(cap, s, steps[0]), steps[1..])
  }

  /** In flight is what was put: nothing is lost, duplicated or reordered, and the pipe is not overfull. */
  ghost predicate Conserved(cap: nat, s: State) {
    && s.got + s.rbuf + s.fifo + s.wbuf == s.put
    && |s.fifo| <= cap
    && (s.eof ==> s.closed && s.fifo == [])
  }

  /** The first k bytes of b become the last of what is before it. */
  lemma Shift(a: Bytes, b: Bytes, c: Bytes, k: nat)
    requires k <= |b|
    ensures a + b + c == (a + b[..k]) + b[k..] + c
  {
    assert b == b[..k] + b[k..];
    assert a + (b[..k] + b[k..]) == (a + b[..k]) + b[k..];
  }

  lemma NextConserves(cap: nat, s: State, step: Step)
    requires Enabled(cap, s, step) && Conserved(cap, s)
    ensures Conserved(cap, Next(cap, s, step))
  {
    match step
    case Put(bytes) =>
      var before := s.got + s.rbuf + s.fifo;
      assert (before + s.wbuf) + bytes == before + (s.wbuf + bytes);
    case Write(_, k) => MoveOn(s.got + s.rbuf, s.fifo, s.wbuf, k);
    case Read(bytes) =>
      assert bytes == s.fifo[..|bytes|];
      MoveOn(s.got, s.rbuf, s.fifo, |bytes|);
    case Take(n) => Shift(s.got, s.rbuf, s.fifo, n);
    case _ =>
  }

  /** The first k bytes of one part become the last of the part before it. */
  lemma MoveOn(before: Bytes, fifo: Bytes, wbuf: Bytes, k: nat)
    requires k <= |wbuf|
    ensures before + (fifo + wbuf[..k]) + wbuf[k..] == before + fifo + wbuf
  {
    assert wbuf == wbuf[..k] + wbuf[k..];
    assert before + (fifo + wbuf[..k]) + wbuf[k..] == before + fifo + (wbuf[..k] + wbuf[k..]);
  }

  lemma {:induction false} RunConserves(cap: nat, s: State, steps: seq<Step>)
    requires Conserved(cap, s) && Possible(cap, s, steps)
    ensures Conserved(cap, Run(cap, s, steps))
    decreases |steps|
  {
    if steps != [] {
      NextConserves(cap, s, steps[0]);
      hide Conserved, Enabled, Next;
      RunConserves(cap, Next(cap, s, steps[0]), steps[1..]);
    }
  }

  /** The bytes that the writer's program puts in a run. */
  ghost function PutBy(steps: seq<Step>): Bytes {
    if steps == [] then [] else (if steps[0].Put? then steps[0].bytes else []) + PutBy(steps[1..])
  }

  /** The number of bytes that the reader's program takes. */
  function TakenBy(steps: seq<Step>): nat {
    if steps == [] then 0 else (if steps[0].Take? then steps[0].n else 0) + TakenBy(steps[1..])
  }

  lemma {:induction false} HistoryIsOfTheRun(cap: nat, s: State, steps: seq<Step>)
    requires Possible(cap, s, steps)
    ensures var r := Run(cap, s, steps); r.put == s.put + PutBy(steps) && |r.got| == |s.got| + TakenBy(steps)
    decreases |steps|
  {
    if steps == [] {
      assert s.put + [] == s.put;
    } else {
      var s1, bytes := Next(cap, s, steps[0]), if steps[0].Put? then steps[0].bytes else [];
      HistoryIsOfTheRun(cap, s1, steps[1..]);
      assert s1.put == s.put + bytes && |s1.got| == |s.got| + (if steps[0].Take? then steps[0].n else 0);
      Associate(s.put, bytes, PutBy(steps[1..]));
    }
  }

  /** End to end, in every interleaving: what was taken, read, in the pipe and unsent is what the writer put. */
  lemma EveryByteArrivesInOrder(cap: nat, steps: seq<Step>)
    requires Possible(cap, Init(), steps)
    ensures var s := Run(cap, Init(), steps);
      s.got + s.rbuf + s.fifo + s.wbuf == s.put == PutBy(steps) && |s.got| == TakenBy(steps)
  {
    RunConserves(cap, Init(), steps);
    HistoryIsOfTheRun(cap, Init(), steps);
    assert [] + PutBy(steps) == PutBy(steps);
  }

  lemma {:induction false} RunConcat(cap: nat, s: State, a: seq<Step>, b: seq<Step>)
    requires Possible(cap, s, a + b)
    ensures Possible(cap, s, a) && Possible(cap, Run(cap, s, a), b)
    ensures Run(cap, s, a + b) == Run(cap, Run(cap, s, a), b)
    decreases |a|
  {
    if a == [] {
      assert a + b == b;
    } else {
      assert (a + b)[0] == a[0] && (a + b)[1..] == a[1..] + b;
      hide Enabled, Next;
      RunConcat(cap, Next(cap, s, a[0]), a[1..], b);
    }
  }

  /** After closing, the writer's side stays as it is. */
  lemma {:induction false} ClosedIsFinal(cap: nat, s: State, steps: seq<Step>)
    requires s.closed && Possible(cap, s, steps)
    ensures var r := Run(cap, s, steps); r.closed && r.wbuf == s.wbuf && r.put == s.put
    decreases |steps|
  {
    if steps != [] {
      ClosedIsFinal(cap, Next(cap, s, steps[0]), steps[1..]);
    }
  }

  /** At end of file the reader gets to have everything exactly if nothing was left to write at the close. */
  lemma EofMeansCompleteIff(cap: nat, before: seq<Step>, after: seq<Step>)
    requires Possible(cap, Init(), before + ([Close] + after)) && Run(cap, Init(), before + ([Close] + after)).eof
    ensures Possible(cap, Init(), before)
    ensures var s, r := Run(cap, Init(), before), Run(cap, Init(), before + ([Close] + after));
      r.got + r.rbuf == r.put <==> s.wbuf == []
  {
    var all := before + ([Close] + after);
    RunConserves(cap, Init(), all);
    RunConcat(cap, Init(), before, [Close] + after);
    var s, r := Run(cap, Init(), before), Run(cap, Init(), all);
    assert ([Close] + after)[1..] == after;
    ClosedIsFinal(cap, s.(closed := true), after);
    assert r.got + r.rbuf + [] + r.wbuf == (r.got + r.rbuf) + r.wbuf;
    assert |r.put| == |r.got + r.rbuf| + |r.wbuf|;
    if r.wbuf == [] {
      assert (r.got + r.rbuf) + [] == r.got + r.rbuf;
    }
  }

  /** Closing with bytes unwritten: the reader sees the end of the file, and never the bytes. */
  lemma CloseMayLoseBytes(cap: nat, bytes: Bytes)
    requires bytes != []
    ensures var steps := [Put(bytes), Close, ReadEof];
      && Possible(cap, Init(), steps)
      && var r := Run(cap, Init(), steps); r.eof && r.got + r.rbuf == [] && r.put == bytes
  {
    var s1 := Next(cap, Init(), Put(bytes));
    var s2 := Next(cap, s1, Close);
    var s3 := Next(cap, s2, ReadEof);
    assert [Put(bytes), Close, ReadEof][1..] == [Close, ReadEof] && [Close, ReadEof][1..] == [ReadEof];
    assert [ReadEof][1..] == [] && Run(cap, s3, []) == s3;
    assert Run(cap, s2, [ReadEof]) == s3 && Run(cap, s1, [Close, ReadEof]) == s3;
  }

  /** Bytes still to be moved, by a write and a read, or by a read alone. */
  ghost function Distance(s: State): nat {
    2 * |s.wbuf| + |s.fifo|
  }

  ghost function Moved(steps: seq<Step>): nat {
    if steps == [] then 0
    else
      (if steps[0].Write? then steps[0].k else if steps[0].Read? then |steps[0].bytes| else 0) + Moved(steps[1..])
  }

  /**
   * Every transfer makes progress: the bytes moved by the writes and reads of a run are what its
   * distance to completion has shrunk by, or twice what was put in the meantime.
   */
  lemma {:induction false} TransfersCountDown(cap: nat, s: State, steps: seq<Step>)
    requires Possible(cap, s, steps)
    ensures Distance(Run(cap, s, steps)) + Moved(steps) == Distance(s) + 2 * (|Run(cap, s, steps).put| - |s.put|)
    decreases |steps|
  {
    if steps != [] {
      TransfersCountDown(cap, Next(cap, s, steps[0]), steps[1..]);
    }
  }

  /** Reading what is in the pipe, or else writing a byte into it, until nothing is left to be moved. */
  ghost function Drive(cap: nat, s: State): seq<Step>
    requires cap > 0 && !s.closed
    decreases Distance(s)
  {
    if s.fifo != [] then [Read(s.fifo)] + Drive(cap, s.(fifo := [], rbuf := s.rbuf + s.fifo))
    else if s.wbuf != [] then [Write(1, 1)] + Drive(cap, s.(wbuf := s.wbuf[1..], fifo := s.wbuf[..1]))
    else []
  }

  ghost predicate Transfers(steps: seq<Step>) {
    forall i :: 0 <= i < |steps| ==> steps[i].Write? || steps[i].Read?
  }

  lemma {:induction false} DriveArrives(cap: nat, s: State)
    requires cap > 0 && !s.closed
    ensures var steps := Drive(cap, s);
      && Transfers(steps) && Possible(cap, s, steps)
      && var r := Run(cap, s, steps); r.wbuf == [] && r.fifo == [] && r.put == s.put && !r.closed
    decreases Distance(s)
  {
    var steps := Drive(cap, s);
    if s.fifo != [] {
      var s1 := s.(fifo := [], rbuf := s.rbuf + s.fifo);
      assert s1 == Next(cap, s, Read(s.fifo)) && steps[1..] == Drive(cap, s1);
      DriveArrives(cap, s1);
      assert forall i :: 0 < i < |steps| ==> steps[i] == steps[1..][i - 1];
    } else if s.wbuf != [] {
      var s1 := s.(wbuf := s.wbuf[1..], fifo := s.wbuf[..1]);
      assert [] + s.wbuf[..1] == s.wbuf[..1];
      assert s1 == Next(cap, s, Write(1, 1)) && steps[1..] == Drive(cap, s1);
      DriveArrives(cap, s1);
      assert forall i :: 0 < i < |steps| ==> steps[i] == steps[1..][i - 1];
    }
  }

  /**
   * The two ends never block each other for good: whatever has happened to an open pipe, some writes
   * and reads bring every byte that was put to the reader, and those that do have moved exactly as
   * many bytes as the distance was.
   */
  lemma NeverStuck(cap: nat, steps: seq<Step>) returns (more: seq<Step>)
    requires cap > 0 && Possible(cap, Init(), steps) && !Run(cap, Init(), steps).closed
    ensures var s := Run(cap, Init(), steps);
      && Transfers(more) && Possible(cap, s, more) && Moved(more) == Distance(s)
      && var r := Run(cap, s, more); r.got + r.rbuf == r.put == s.put
  {
    RunConserves(cap, Init(), steps);
    var s := Run(cap, Init(), steps);
    more := Drive(cap, s);
    DriveArrives(cap, s);
    TransfersCountDown(cap, s, more);
    RunConserves(cap, s, more);
    var r := Run(cap, s, more);
    assert r.got + r.rbuf + [] + [] == r.got + r.rbuf;
  }

  // ----- the calls that nstream makes -----

  ghost predicate OfWriter(step: Step) {
    step.Put? || step.Write? || step.WriteBlocked? || step.WriteInterrupted? || step.Close?
  }

  /** What one of the two ends does in a run. */
  ghost function Side(steps: seq<Step>, writer: bool): seq<Step> {
    if steps == [] then []
    else (if OfWriter(steps[0]) == writer then [steps[0]] else []) + Side(steps[1..], writer)
  }

  /** The writes of write_chunk(len), as the kernel answers them. */
  ghost function ChunkWrites(len: nat, script: seq<WriteReply>): seq<Step>
    decreases |script|
  {
    if len == 0 then []
    else match NextWrite(script)
      case Took(n) => [Write(len, Min(len, n))] + ChunkWrites(len - Min(len, n), Rest(script))
      case WriteError(err) =>
        if err == EINTR then [WriteInterrupted] + ChunkWrites(len, Rest(script))
        else if err == EAGAIN then [Step.WriteBlocked(len)] else []
  }

  /** The writes of write_all(step). */
  ghost function AllWrites(step: Count, size: nat, script: seq<WriteReply>): seq<Step>
    decreases size
  {
    var t := WriteChunkRun(Min(step, size), script);
    ChunkWrites(Min(step, size), script) + (if t.n != step then [] else AllWrites(step, size - step, t.rest))
  }

  /** calls are writes only, of which the kernel accepts n bytes in all. */
  ghost predicate Accepts(calls: seq<Step>, n: nat) {
    if calls == [] then n == 0
    else
      && (calls[0].Write? || calls[0].WriteBlocked? || calls[0].WriteInterrupted?)
      && var k := if calls[0].Write? then calls[0].k else 0;
         k <= n && Accepts(calls[1..], n - k)
  }

  lemma {:induction false} AcceptsConcat(a: seq<Step>, n: nat, b: seq<Step>, k: nat)
    requires Accepts(a, n) && Accepts(b, k)
    ensures Accepts(a + b, n + k)
  {
    if a == [] {
      assert a + b == b;
    } else {
      assert (a + b)[1..] == a[1..] + b;
      AcceptsConcat(a[1..], n - (if a[0].Write? then a[0].k else 0), b, k);
    }
  }

  lemma {:induction false} ChunkAccepts(len: nat, script: seq<WriteReply>)
    ensures Accepts(ChunkWrites(len, script), WriteChunkRun(len, script).n)
    decreases |script|
  {
    var calls := ChunkWrites(len, script);
    if len > 0 && script != [] {
      if script[0].Took? {
        var k := Min(len, script[0].n);
        assert calls[1..] == ChunkWrites(len - k, script[1..]);
        ChunkAccepts(len - k, script[1..]);
      } else if script[0].err == EINTR {
        assert calls[1..] == ChunkWrites(len, script[1..]);
        ChunkAccepts(len, script[1..]);
      }
    }
  }

  lemma {:induction false} AllAccepts(step: Count, size: nat, script: seq<WriteReply>)
    ensures Accepts(AllWrites(step, size, script), WriteAllRun(step, size, script).n)
    decreases size
  {
    hide Accepts, ChunkWrites;
    var len := Min(step, size);
    var t, calls := WriteChunkRun(len, script), ChunkWrites(len, script);
    ChunkAccepts(len, script);
    if t.n == step {
      AllAccepts(step, size - step, t.rest);
      AcceptsConcat(calls, t.n, AllWrites(step, size - step, t.rest), WriteAllRun(step, size - step, t.rest).n);
    } else {
      assert calls + [] == calls;
    }
  }

  /** All that has ever entered the pipe. */
  ghost function Entered(s: State): Bytes {
    s.got + s.rbuf + s.fifo
  }

  lemma ReaderStep(cap: nat, s: State, step: Step)
    requires Enabled(cap, s, step) && !OfWriter(step)
    ensures var r := Next(cap, s, step); r.wbuf == s.wbuf && r.put == s.put && Entered(r) == Entered(s)
  {
    match step
    case Read(bytes) =>
      assert bytes == s.fifo[..|bytes|];
      MoveOn(s.got, s.rbuf, s.fifo, |bytes|);
    case Take(n) => Shift(s.got, s.rbuf, s.fifo, n);
    case _ =>
  }

  lemma WriteStep(s: State, k: nat, n: nat)
    requires k <= n <= |s.wbuf|
    ensures s.wbuf[k..][n - k..] == s.wbuf[n..]
    ensures s.got + s.rbuf + (s.fifo + s.wbuf[..k]) + s.wbuf[k..][..n - k] == Entered(s) + s.wbuf[..n]
  {
    var head := s.got + s.rbuf;
    assert s.wbuf[..n] == s.wbuf[..k] + s.wbuf[k..][..n - k];
    assert head + (s.fifo + s.wbuf[..k]) == (head + s.fifo) + s.wbuf[..k];
    Associate(head + s.fifo, s.wbuf[..k], s.wbuf[k..][..n - k]);
  }

  /** In any run whose writing end only writes, the bytes accepted go from wbuf into the pipe, in order. */
  lemma {:induction false} WritesEnter(cap: nat, s: State, steps: seq<Step>, n: nat)
    requires Possible(cap, s, steps) && Accepts(Side(steps, true), n)
    ensures n <= |s.wbuf|
    ensures var r := Run(cap, s, steps);
      r.wbuf == s.wbuf[n..] && r.put == s.put && Entered(r) == Entered(s) + s.wbuf[..n]
    decreases |steps|
  {
    if steps == [] {
      assert Entered(s) + [] == Entered(s);
    } else {
      var s1, side := Next(cap, s, steps[0]), Side(steps, true);
      if OfWriter(steps[0]) {
        assert side[1..] == Side(steps[1..], true);
        var k := if steps[0].Write? then steps[0].k else 0;
        WritesEnter(cap, s1, steps[1..], n - k);
        hide Run, Possible, Side, Accepts;
        if k > 0 {
          WriteStep(s, k, n);
        }
      } else {
        ReaderStep(cap, s, steps[0]);
        assert side == Side(steps[1..], true);
        WritesEnter(cap, s1, steps[1..], n);
      }
    }
  }

  /**
   * A write_all makes exactly such calls. For every step and every way the kernel answers, and
   * whatever the reading end does between the calls: the bytes it reports have left its buffer from the
   * front and entered the pipe, in order.
   */
  lemma WriteAllMoves(cap: nat, s: State, step: Count, script: seq<WriteReply>, steps: seq<Step>)
    requires Possible(cap, s, steps) && Side(steps, true) == AllWrites(step, |s.wbuf|, script)
    ensures var n, r := WriteAllRun(step, |s.wbuf|, script).n, Run(cap, s, steps);
      && n <= |s.wbuf| && r.wbuf == s.wbuf[n..] && r.put == s.put
      && Entered(r) == Entered(s) + s.wbuf[..n]
  {
    AllAccepts(step, |s.wbuf|, script);
    WritesEnter(cap, s, steps, WriteAllRun(step, |s.wbuf|, script).n);
  }

  /** The reads of read_chunk(len), as the kernel answers them. */
  ghost function ChunkReads(len: nat, script: seq<ReadReply>): seq<Step>
    decreases |script|
  {
    if len == 0 then []
    else match NextRead(script)
      case Data(bytes) =>
        if bytes == [] then [ReadEof]
        else
          var k := Min(len, |bytes|);
          [Read(bytes[..k])] + ChunkReads(len - k, Rest(script))
      case ReadError(err) =>
        if err == EINTR then [ReadInterrupted] + ChunkReads(len, Rest(script))
        else if err == EAGAIN then [Step.ReadBlocked] else []
  }

  /** The reads of read_all(step). */
  ghost function AllReads(step: Count, script: seq<ReadReply>): seq<Step>
    decreases |script|
  {
    var t := ReadChunkRun(step, script);
    ChunkReads(step, script) + (if t.why != Done then [] else AllReads(step, t.rest))
  }

  /** calls are reads only, which bring bytes in all, and end of file if eof. */
  ghost predicate Brings(calls: seq<Step>, bytes: Bytes, eof: bool) {
    if calls == [] then bytes == [] && !eof
    else match calls[0]
      case Read(b) => b <= bytes && Brings(calls[1..], bytes[|b|..], eof)
      case ReadBlocked => Brings(calls[1..], bytes, eof)
      case ReadInterrupted => Brings(calls[1..], bytes, eof)
      case ReadEof => eof && Brings(calls[1..], bytes, false)
      case _ => false
  }

  /** Further reads after some that did not end the file. */
  lemma {:induction false} BringsConcat(a: seq<Step>, bytes: Bytes, b: seq<Step>, more: Bytes, eof: bool)
    requires Brings(a, bytes, false) && Brings(b, more, eof)
    ensures Brings(a + b, bytes + more, eof)
    decreases |a|
  {
    if a == [] {
      assert a + b == b && bytes + more == more;
    } else {
      assert (a + b)[1..] == a[1..] + b;
      if a[0].Read? {
        var k := |a[0].bytes|;
        assert (bytes + more)[k..] == bytes[k..] + more;
        BringsConcat(a[1..], bytes[k..], b, more, eof);
      } else {
        BringsConcat(a[1..], bytes, b, more, eof);
      }
    }
  }

  lemma {:induction false} ChunkBrings(len: nat, script: seq<ReadReply>)
    ensures var t := ReadChunkRun(len, script); Brings(ChunkReads(len, script), t.bytes, t.why == EndOfFile)
    decreases |script|
  {
    var calls, t := ChunkReads(len, script), ReadChunkRun(len, script);
    if len > 0 && script != [] {
      if script[0].ReadError? {
        if script[0].err == EINTR {
          assert calls[1..] == ChunkReads(len, script[1..]);
          ChunkBrings(len, script[1..]);
        }
      } else if script[0].bytes != [] {
        var k := Min(len, |script[0].bytes|);
        assert calls[1..] == ChunkReads(len - k, script[1..]);
        assert t.bytes[k..] == ReadChunkRun(len - k, script[1..]).bytes;
        ChunkBrings(len - k, script[1..]);
      }
    }
  }

  lemma {:induction false} AllBrings(step: Count, script: seq<ReadReply>)
    ensures var t := ReadAllRun(step, script); Brings(AllReads(step, script), t.bytes, t.why == EndOfFile)
    decreases |script|
  {
    hide Brings, ChunkReads;
    var t, calls := ReadChunkRun(step, script), ChunkReads(step, script);
    ChunkBrings(step, script);
    if t.why == Done {
      AllBrings(step, t.rest);
      var u := ReadAllRun(step, t.rest);
      BringsConcat(calls, t.bytes, AllReads(step, t.rest), u.bytes, u.why == EndOfFile);
    } else {
      assert calls + [] == calls;
    }
  }

  /** In any run whose reading end only reads, the bytes read are appended to rbuf. */
  lemma {:induction false} ReadsArrive(cap: nat, s: State, steps: seq<Step>, bytes: Bytes, eof: bool)
    requires Possible(cap, s, steps) && Brings(Side(steps, false), bytes, eof)
    ensures var r := Run(cap, s, steps);
      r.rbuf == s.rbuf + bytes && r.got == s.got && r.eof == (s.eof || eof)
    decreases |steps|
  {
    if steps == [] {
      assert s.rbuf + [] == s.rbuf;
    } else {
      var s1, side := Next(cap, s, steps[0]), Side(steps, false);
      if OfWriter(steps[0]) {
        assert side == Side(steps[1..], false);
        ReadsArrive(cap, s1, steps[1..], bytes, eof);
      } else {
        assert side[1..] == Side(steps[1..], false);
        if steps[0].Read? {
          var b := steps[0].bytes;
          ReadsArrive(cap, s1, steps[1..], bytes[|b|..], eof);
          assert bytes == b + bytes[|b|..];
          Associate(s.rbuf, b, bytes[|b|..]);
        } else {
          ReadsArrive(cap, s1, steps[1..], bytes, eof && !steps[0].ReadEof?);
        }
      }
    }
  }

  /**
   * A read_all makes exactly such calls. For every step and every way the kernel answers, and whatever the
   * writing end does between the calls: the bytes it reports are appended to its buffer, they are
   * the next of those that were put, and end of file is noted if it was reported.
   */
  lemma ReadAllArrives(cap: nat, s: State, step: Count, script: seq<ReadReply>, steps: seq<Step>)
    requires Conserved(cap, s) && Possible(cap, s, steps) && Side(steps, false) == AllReads(step, script)
    ensures var t, r := ReadAllRun(step, script), Run(cap, s, steps);
      && r.rbuf == s.rbuf + t.bytes && r.got == s.got && r.eof == (s.eof || t.why == EndOfFile)
      && (s.got + s.rbuf) + t.bytes <= r.put
  {
    hide Possible, Run, Side, AllReads;
    var t, r := ReadAllRun(step, script), Run(cap, s, steps);
    AllBrings(step, script);
    ReadsArrive(cap, s, steps, t.bytes, t.why == EndOfFile);
    RunConserves(cap, s, steps);
    Associate(s.got, s.rbuf, t.bytes);
    assert r.put == (s.got + s.rbuf) + t.bytes + (r.fifo + r.wbuf);
  }
}
