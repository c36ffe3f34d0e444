/** Chunked stream IO of src/lib/nio.cc, against a kernel that may answer in any way. */
module NStreams {
  import opened ByteBuffer
  import opened Wrappers

  datatype Errno = EINTR | EAGAIN | EPIPE | ECONNRESET | EOTHER

  type Count = n: int | n >= 1 witness 1

  /** An answer to read: some of the bytes requested (none means end of file), or an error. */
  datatype ReadReply = Data(bytes: seq<byte>) | ReadError(err: Errno)

  /** An answer to write: the number of bytes taken, cut to the request, or an error. */
  datatype WriteReply = Took(n: Count) | WriteError(err: Errno)

  /** Why a transfer stopped. Done: nothing was left to do. Failed: the code throws. */
  datatype Why = Done | Blocked | EndOfFile | BrokenPipe | PeerReset | Failed

  /** The bytes moved by a call, why it stopped, and the kernel's answers still to come. */
  datatype Transfer<R> = Transfer(bytes: seq<byte>, why: Why, rest: seq<R>)

  function Min(a: int, b: int): int {
    if b < a then b else a
  }

  function Rest<R>(script: seq<R>): seq<R> {
    if script == [] then [] else script[1..]
  }

  /** A kernel that has nothing more to say would block. */
  function NextRead(script: seq<ReadReply>): ReadReply {
    if script == [] then ReadError(EAGAIN) else script[0]
  }

  function NextWrite(script: seq<WriteReply>): WriteReply {
    if script == [] then WriteError(EAGAIN) else script[0]
  }

  function ReadWhy(err: Errno): Why {
    match err
    case EAGAIN => Blocked
    case ECONNRESET => PeerReset
    case _ => Failed
  }

  function WriteWhy(err: Errno): Why {
    match err
    case EAGAIN => Blocked
    case EPIPE => BrokenPipe
    case ECONNRESET => PeerReset
    case _ => Failed
  }

  ghost function Prepend<R>(head: seq<byte>, t: Transfer<R>): Transfer<R> {
    t.(bytes := head + t.bytes)
  }

  lemma Associate(a: seq<byte>, b: seq<byte>, c: seq<byte>)
    ensures a + (b + c) == (a + b) + c
  {
  }

  lemma PrependNothing<R>(t: Transfer<R>)
    ensures Prepend([], t) == t
  {
  }

  // ----- what the loops compute -----

  ghost function ReadChunkRun(len: nat, script: seq<ReadReply>): (t: Transfer<ReadReply>)
    ensures |t.bytes| <= len && (t.why == Done <==> |t.bytes| == len)
    ensures t.why == Done && len > 0 ==> |t.rest| < |script|
    decreases |script|
  {
    if len == 0 then Transfer([], Done, script)
    else match NextRead(script)
      case Data(bytes) =>
        if bytes == [] then Transfer([], EndOfFile, Rest(script))
        else
          var k := Min(len, |bytes|);
          Prepend(bytes[..k], ReadChunkRun(len - k, Rest(script)))
      case ReadError(err) =>
        if err == EINTR then ReadChunkRun(len, Rest(script)) else Transfer([], ReadWhy(err), Rest(script))
  }

  /** One turn of the loop of read_chunk, when head has been read before it. */
  lemma ReadTurn(head: seq<byte>, len: nat, script: seq<ReadReply>)
    requires len > 0
    ensures var t, rest := Prepend(head, ReadChunkRun(len, script)), Rest(script);
      match NextRead(script)
      case Data(bytes) =>
        if bytes == [] then t == Transfer(head, EndOfFile, rest)
        else var k := Min(len, |bytes|); t == Prepend(head + bytes[..k], ReadChunkRun(len - k, rest))
      case ReadError(err) =>
        if err == EINTR then t == Prepend(head, ReadChunkRun(len, rest)) else t == Transfer(head, ReadWhy(err), rest)
  {
  }

  ghost function ReadAllRun(step: Count, script: seq<ReadReply>): Transfer<ReadReply>
    decreases |script|
  {
    var t := ReadChunkRun(step, script);
    if t.why != Done then t else Prepend(t.bytes, ReadAllRun(step, t.rest))
  }

  /** One turn of the loop of read_all. */
  lemma ReadAllTurn(head: seq<byte>, step: Count, script: seq<ReadReply>)
    ensures var t, all := ReadChunkRun(step, script), Prepend(head, ReadAllRun(step, script));
      && (t.why != Done <==> |t.bytes| != step)
      && (t.why == Done ==> |t.rest| < |script| && all == Prepend(head + t.bytes, ReadAllRun(step, t.rest)))
      && (t.why != Done ==> all == Transfer(head + t.bytes, t.why, t.rest))
  {
  }

  /** What a write call came to: the count of bytes sent, why it stopped, and the answers to come. */
  datatype Sent = Sent(n: nat, why: Why, rest: seq<WriteReply>)

  ghost function More(k: nat, t: Sent): Sent {
    t.(n := k + t.n)
  }

  /** write_chunk, when len bytes are there to be sent. */
  ghost function WriteChunkRun(len: nat, script: seq<WriteReply>): (t: Sent)
    ensures t.n <= len && (t.why == Done <==> t.n == len)
    decreases |script|
  {
    if len == 0 then Sent(0, Done, script)
    else match NextWrite(script)
      case Took(n) => More(Min(len, n), WriteChunkRun(len - Min(len, n), Rest(script)))
      case WriteError(err) =>
        if err == EINTR then WriteChunkRun(len, Rest(script)) else Sent(0, WriteWhy(err), Rest(script))
  }

  /** One turn of the loop of write_chunk, when sent bytes have gone before it. */
  lemma WriteTurn(sent: nat, len: nat, script: seq<WriteReply>)
    ensures var t, rest := More(sent, WriteChunkRun(len, script)), Rest(script);
      if len == 0 then t == Sent(sent, Done, script)
      else match NextWrite(script)
        case Took(n) => t == More(sent + Min(len, n), WriteChunkRun(len - Min(len, n), rest))
        case WriteError(err) =>
          t == if err == EINTR then More(sent, WriteChunkRun(len, rest)) else Sent(sent, WriteWhy(err), rest)
  {
  }

  /** write_all, when size bytes are in the buffer. */
  ghost function WriteAllRun(step: Count, size: nat, script: seq<WriteReply>): (t: Sent)
    decreases size
  {
    var t := WriteChunkRun(Min(step, size), script);
    if t.n != step then t else More(step, WriteAllRun(step, size - step, t.rest))
  }

  // ----- what they promise -----

  /** The first answer that is neither data nor EINTR: what it means, and what follows it. */
  ghost function ReadStop(script: seq<ReadReply>): (Why, seq<ReadReply>) {
    if script == [] then (Blocked, [])
    else match script[0]
      case Data(bytes) => if bytes == [] then (EndOfFile, script[1..]) else ReadStop(script[1..])
      case ReadError(err) => if err == EINTR then ReadStop(script[1..]) else (ReadWhy(err), script[1..])
  }

  ghost function WriteStop(script: seq<WriteReply>): (Why, seq<WriteReply>) {
    if script == [] then (Blocked, [])
    else match script[0]
      case Took(n) => WriteStop(script[1..])
      case WriteError(err) => if err == EINTR then WriteStop(script[1..]) else (WriteWhy(err), script[1..])
  }

  lemma {:induction false} ReadChunkStop(len: nat, script: seq<ReadReply>)
    ensures var t := ReadChunkRun(len, script);
      if t.why == Done then ReadStop(t.rest) == ReadStop(script) else (t.why, t.rest) == ReadStop(script)
    decreases |script|
  {
    if len > 0 && script != [] {
      if script[0].Data? {
        ReadChunkStop(len - Min(len, |script[0].bytes|), script[1..]);
      } else {
        ReadChunkStop(len, script[1..]);
      }
    }
  }

  /**
   * Whatever the step, read_all goes on until the kernel would block, reports the end of the file
   * or a reset, or fails, and for that reason.
   */
  lemma {:induction false} ReadAllStop(step: Count, script: seq<ReadReply>)
    ensures var t := ReadAllRun(step, script);
      (t.why, t.rest) == ReadStop(script) && t.why in {Blocked, EndOfFile, PeerReset, Failed}
    decreases |script|
  {
    ReadChunkStop(step, script);
    StopIsNotDone(script);
    var t := ReadChunkRun(step, script);
    if t.why == Done {
      ReadAllStop(step, t.rest);
    }
  }

  lemma {:induction false} StopIsNotDone(script: seq<ReadReply>)
    ensures ReadStop(script).0 in {Blocked, EndOfFile, PeerReset, Failed}
  {
    if script != [] {
      StopIsNotDone(script[1..]);
    }
  }

  lemma {:induction false} WriteChunkStop(len: nat, script: seq<WriteReply>)
    ensures var t := WriteChunkRun(len, script);
      if t.why == Done then WriteStop(t.rest) == WriteStop(script) else (t.why, t.rest) == WriteStop(script)
    decreases |script|
  {
    if len > 0 && script != [] {
      if script[0].Took? {
        WriteChunkStop(len - Min(len, script[0].n), script[1..]);
      } else {
        WriteChunkStop(len, script[1..]);
      }
    }
  }

  /**
   * Whatever the step, write_all sends everything, or what the kernel took before it would block,
   * reported a broken pipe or a reset, or failed, and it stops for that reason.
   */
  lemma {:induction false} WriteAllStop(step: Count, size: nat, script: seq<WriteReply>)
    ensures var t := WriteAllRun(step, size, script);
      && t.n <= size
      && (t.why == Done <==> t.n == size)
      && (t.why != Done ==> (t.why, t.rest) == WriteStop(script))
    decreases size
  {
    var t := WriteChunkRun(Min(step, size), script);
    WriteChunkStop(Min(step, size), script);
    if t.n == step {
      WriteAllStop(step, size - step, t.rest);
    }
  }

  /** The first error in a script that is not EINTR; a script without one ends in would-block. */
  ghost function FirstError(script: seq<WriteReply>): Errno {
    if script == [] then EAGAIN
    else match script[0]
      case Took(_) => FirstError(script[1..])
      case WriteError(err) => if err == EINTR then FirstError(script[1..]) else err
  }

  /** Which error ends a write in which way. */
  lemma {:induction false} WriteStopMeans(script: seq<WriteReply>)
    ensures var why, err := WriteStop(script).0, FirstError(script);
      && (why == Blocked <==> err == EAGAIN) && (why == BrokenPipe <==> err == EPIPE)
      && (why == PeerReset <==> err == ECONNRESET) && (why == Failed <==> err == EOTHER)
      && why != EndOfFile && why != Done
  {
    if script != [] {
      WriteStopMeans(script[1..]);
    }
  }

  /** The first answer to a read that is neither data nor EINTR: an error, or None for the end of the file. */
  ghost function FirstEnd(script: seq<ReadReply>): Option<Errno> {
    if script == [] then Some(EAGAIN)
    else match script[0]
      case Data(bytes) => if bytes == [] then None else FirstEnd(script[1..])
      case ReadError(err) => if err == EINTR then FirstEnd(script[1..]) else Some(err)
  }

  lemma {:induction false} ReadStopMeans(script: seq<ReadReply>)
    ensures var why, end := ReadStop(script).0, FirstEnd(script);
      && (why == Blocked <==> end == Some(EAGAIN)) && (why == EndOfFile <==> end == None)
      && (why == PeerReset <==> end == Some(ECONNRESET)) && (why == Failed <==> end in {Some(EPIPE), Some(EOTHER)})
      && why != BrokenPipe && why != Done
  {
    if script != [] {
      ReadStopMeans(script[1..]);
    }
  }

  // ----- the stream -----

  /** read(2) of at most len bytes into buf at position at: the count, and errno when it is -1. */
  method Read(reply: ReadReply, buf: array<byte>, at: int, len: int) returns (curr: int, err: Errno)
    requires 0 <= at && 1 <= len && at + len <= buf.Length
    modifies buf
    ensures match reply
      case Data(bytes) =>
        && curr == Min(len, |bytes|)
        && buf[..] == old(buf[..at]) + bytes[..curr] + old(buf[at + curr..])
      case ReadError(e) => curr == -1 && err == e && buf[..] == old(buf[..])
  {
    match reply
    case Data(bytes) =>
      curr, err := Min(len, |bytes|), EAGAIN;
      forall i | 0 <= i < curr {
        buf[at + i] := bytes[i];
      }
    case ReadError(e) =>
      curr, err := -1, e;
  }

  /** write(2) of len bytes of buf from position at; taken are the bytes the kernel then has. */
  method Write(reply: WriteReply, buf: array<byte>, at: int, len: int)
    returns (curr: int, err: Errno, ghost taken: seq<byte>)
    requires 0 <= at && 1 <= len && at + len <= buf.Length
    ensures match reply
      case Took(n) => curr == Min(len, n) && taken == buf[at..at + curr]
      case WriteError(e) => curr == -1 && err == e && taken == []
  {
    taken := [];
    match reply
    case Took(n) =>
      curr, err := Min(len, n), EAGAIN;
      taken := buf[at..at + curr];
    case WriteError(e) =>
      curr, err := -1, e;
  }

  /** The call that makes room for len more bytes. */
  ghost function RoomFor(s: State, len: int): Op {
    Resize(s.start + |s.bytes| + len)
  }

  /** One call of read into the free space, and the advance of offset_ past what it brought. */
  method Receive(buf: Buffer, len: int, reply: ReadReply) returns (curr: int, err: Errno)
    requires buf.Valid() && 1 <= len && buf.offset + len <= buf.cap
    modifies buf`offset, buf.data
    ensures buf.Valid()
    ensures buf.offset == old(buf.offset) + Max(curr, 0)
    ensures reply.Data? ==> curr == Min(len, |reply.bytes|)
    ensures reply.Data? ==> buf.View() == (var s := old(buf.View()); s.(bytes := s.bytes + reply.bytes[..curr]))
    ensures reply.ReadError? ==> curr == -1 && err == reply.err && buf.View() == old(buf.View())
  {
    ghost var at, was := buf.offset, buf.data[..];
    curr, err := Read(reply, buf.data, buf.offset, len);
    ghost var now := buf.data[..];
    if curr > 0 {
      buf.offset := buf.offset + curr;
    }
    assert now[buf.start..at] == was[buf.start..at];
    assert buf.data[buf.start..buf.offset] == now[buf.start..at] + now[at..buf.offset];
  }

  /** The loop of read_chunk, once there is room for len bytes; why says how it ended. */
  method ReadLoop(buf: Buffer, len0: nat, script: seq<ReadReply>) returns (why: Why, rest: seq<ReadReply>)
    requires buf.Valid() && buf.offset + len0 <= buf.cap
    modifies buf`offset, buf.data
    ensures buf.Valid()
    ensures var t, s := ReadChunkRun(len0, script), old(buf.View());
      buf.View() == s.(bytes := s.bytes + t.bytes) && why == t.why && rest == t.rest
  {
    var len := len0;
    why, rest := Done, script;
    ghost var got: seq<byte> := [];
    ghost var was, run := buf.View(), ReadChunkRun(len, script);
    assert was.bytes + [] == was.bytes;
    PrependNothing(run);
    while len != 0
      invariant buf.Valid() && 0 <= len && buf.offset + len <= buf.cap && why == Done
      invariant buf.View() == was.(bytes := was.bytes + got)
      invariant run == Prepend(got, ReadChunkRun(len, rest))
      decreases |rest|, len
    {
      ReadTurn(got, len, rest);
      var reply := NextRead(rest);
      var curr, err := Receive(buf, len, reply);
      rest := Rest(rest);
      if curr == 0 {
        why := EndOfFile;
        break;
      }
      if curr == -1 {
        if err == EINTR {
          continue;
        }
        why := ReadWhy(err);
        break;
      }
      Associate(was.bytes, got, reply.bytes[..curr]);
      got := got + reply.bytes[..curr];
      len := len - curr;
    }
  }

  /**
   * One turn of the loop of write_chunk: a call of write on the first len bytes, and the advance of
   * start_ past what it took. go is whether the loop goes on, otherwise why is the reason.
   */
  method WriteOnce(buf: Buffer, len: int, reply: WriteReply)
    returns (curr: nat, go: bool, why: Why, ghost taken: seq<byte>)
    requires buf.Valid() && 0 < len <= |buf.View().bytes|
    modifies buf`start
    ensures curr == (if reply.Took? then Min(len, reply.n) else 0)
    ensures buf.Valid() && buf.View() == Advanced(old(buf.View()), curr)
    ensures taken == old(buf.View()).bytes[..curr]
    ensures go == (reply.Took? || reply.err == EINTR)
    ensures why == if go then Done else WriteWhy(reply.err)
  {
    var n, err, sent := Write(reply, buf.data, buf.start, len);
    curr, go, why, taken := 0, true, Done, [];
    if n != -1 {
      curr, taken := n, sent;
      ghost var bytes := buf.data[buf.start..buf.offset];
      assert bytes[..curr] == buf.data[buf.start..buf.start + curr];
      buf.start := buf.start + curr;
      assert buf.data[buf.start..buf.offset] == bytes[curr..];
    } else if err != EINTR {
      go, why := false, WriteWhy(err);
    }
  }

  /** Between two turns of the loop of write_chunk: sent bytes of was have gone, and run is what the loop comes to. */
  ghost predicate Writing(now: State, was: State, sent: int, out: seq<byte>, len: int, go: bool, why: Why,
                          rest: seq<WriteReply>, run: Sent)
  {
    && 0 <= sent && 0 <= len && sent + len <= |was.bytes|
    && now == Advanced(was, sent) && out == was.bytes[..sent]
    && (go ==> why == Done)
    && run == if go then More(sent, WriteChunkRun(len, rest)) else Sent(sent, why, rest)
  }

  lemma WritingOn(now: State, was: State, sent: int, out: seq<byte>, len: int, rest: seq<WriteReply>, run: Sent,
                  k: nat, taken: seq<byte>, go: bool, why: Why)
    requires Writing(now, was, sent, out, len, true, Done, rest, run) && len > 0
    requires k == (if NextWrite(rest).Took? then Min(len, NextWrite(rest).n) else 0)
    requires taken == now.bytes[..k]
    requires go == (NextWrite(rest).Took? || NextWrite(rest).err == EINTR)
    requires why == if go then Done else WriteWhy(NextWrite(rest).err)
    ensures Writing(Advanced(now, k), was, sent + k, out + taken, len - k, go, why, Rest(rest), run)
  {
    AdvanceTwice(was, sent, k);
    WriteTurn(sent, len, rest);
    hide Advanced, WriteChunkRun;
  }

  lemma WritingEnds(now: State, was: State, sent: int, out: seq<byte>, len: int, go: bool, why: Why,
                    rest: seq<WriteReply>, run: Sent)
    requires Writing(now, was, sent, out, len, go, why, rest, run) && (go ==> len == 0)
    ensures run.n <= |was.bytes| && now == Advanced(was, run.n) && out == was.bytes[..run.n]
    ensures why == run.why && rest == run.rest
  {
    WriteTurn(sent, 0, rest);
  }

  /** One turn of the loop of write_chunk. */
  method WriteTurnOnce(buf: Buffer, len0: nat, rest0: seq<WriteReply>,
                       ghost was: State, ghost sent: nat, ghost out: seq<byte>, ghost run: Sent)
    returns (len: nat, go: bool, why: Why, rest: seq<WriteReply>, ghost sent': nat, ghost out': seq<byte>)
    requires buf.Valid() && len0 > 0 && Writing(buf.View(), was, sent, out, len0, true, Done, rest0, run)
    modifies buf`start
    ensures buf.Valid() && Writing(buf.View(), was, sent', out', len, go, why, rest, run)
    ensures rest == Rest(rest0) && (rest0 == [] ==> !go)
  {
    hide WriteChunkRun;
    var size := buf.Size();
    len := Min(len0, size);
    ghost var taken, now := [], buf.View();
    var curr := 0;
    curr, go, why, taken := WriteOnce(buf, len, NextWrite(rest0));
    WritingOn(now, was, sent, out, len, rest0, run, curr, taken, go, why);
    rest, len := Rest(rest0), len - curr;
    out', sent' := out + taken, sent + curr;
  }

  /** The loop of write_chunk; why says how it ended, and out is what the kernel has got. */
  method WriteLoop(buf: Buffer, len0: nat, script: seq<WriteReply>)
    returns (why: Why, rest: seq<WriteReply>, ghost out: seq<byte>)
    requires buf.Valid() && len0 <= |buf.View().bytes|
    modifies buf`start
    ensures buf.Valid()
    ensures var s, t := old(buf.View()), WriteChunkRun(len0, script);
      buf.View() == Advanced(s, t.n) && out == s.bytes[..t.n] && why == t.why && rest == t.rest
  {
    var len, go := len0, true;
    why, rest, out := Done, script, [];
    ghost var was, run, sent := buf.View(), WriteChunkRun(len, script), 0;
    AdvanceNothing(was);
    assert Writing(buf.View(), was, sent, out, len, go, why, rest, run);
    hide Advanced, WriteChunkRun, Writing;
    while go && len != 0
      invariant buf.Valid() && Writing(buf.View(), was, sent, out, len, go, why, rest, run)
      invariant go ==> why == Done
      decreases go, |rest|
    {
      len, go, why, rest, sent, out := WriteTurnOnce(buf, len, rest, was, sent, out, run);
    }
    WritingEnds(buf.View(), was, sent, out, len, go, why, rest, run);
  }

  /** write_chunk as far as the buffer goes: the loop, and clearing what is empty then. */
  method WriteSome(buf: Buffer, len: nat, script: seq<WriteReply>)
    returns (why: Why, n: int, rest: seq<WriteReply>, ghost out: seq<byte>)
    requires buf.Valid()
    modifies buf, buf.data
    ensures buf.Valid() && buf.data == old(buf.data)
    ensures var s := old(buf.View());
      var t := WriteChunkRun(Min(len, |s.bytes|), script);
      buf.View() == Step(s, Consume(t.n)) && out == s.bytes[..t.n] && why == t.why && n == t.n && rest == t.rest
  {
    ghost var s := buf.View();
    var origin := buf.start;
    var size := buf.Size();
    why, rest, out := WriteLoop(buf, Min(len, size), script);
    n := buf.start - origin;
    ConsumeIsAdvance(s, n);
    hide Step, WriteChunkRun;
    if buf.offset == buf.start {
      buf.Reset();
    }
  }

  /** read_chunk as far as the buffer goes: making room, and the loop. */
  method ReadSome(buf: Buffer, len: nat, script: seq<ReadReply>) returns (why: Why, n: int, rest: seq<ReadReply>)
    requires buf.Valid() && Legal(buf.View(), RoomFor(buf.View(), len))
    modifies buf, buf.data
    ensures buf.Valid() && (buf.data == old(buf.data) || fresh(buf.data))
    ensures var t, s := ReadChunkRun(len, script), Step(old(buf.View()), RoomFor(old(buf.View()), len));
      buf.View() == s.(bytes := s.bytes + t.bytes) && why == t.why && n == |t.bytes| && rest == t.rest
  {
    buf.ResizeTo(buf.offset + len);
    var origin := buf.offset;
    hide Step, ReadChunkRun;
    why, rest := ReadLoop(buf, len, script);
    n := buf.offset - origin;
  }

  /** read_all as far as the buffer goes: chunk after chunk, until one is short. */
  method ReadAllInto(buf: Buffer, step: Count, script: seq<ReadReply>)
    returns (why: Why, total: int, rest: seq<ReadReply>)
    requires buf.Valid() && RoomToReadAll(buf.View(), step, script)
    modifies buf, buf.data
    ensures buf.Valid() && (buf.data == old(buf.data) || fresh(buf.data))
    ensures var t := ReadAllRun(step, script);
      buf.View().bytes == old(buf.View()).bytes + t.bytes && why == t.why && total == |t.bytes| && rest == t.rest
  {
    total, rest, why := 0, script, Done;
    ghost var was, got, run := buf.View().bytes, [], ReadAllRun(step, script);
    PrependNothing(run);
    assert was + [] == was;
    hide ReadAllRun, ReadChunkRun, Step, Legal, RoomToReadAll, Prepend, RoomFor, Buffer.View, Buffer.Valid;
    while true
      invariant buf.Valid() && (buf.data == old(buf.data) || fresh(buf.data))
      invariant RoomToReadAll(buf.View(), step, rest)
      invariant buf.View().bytes == was + got && total == |got|
      invariant run == Prepend(got, ReadAllRun(step, rest))
      decreases |rest|
    {
      ghost var s, t := buf.View(), ReadChunkRun(step, rest);
      RoomTurn(s, step, rest);
      ReadAllTurn(got, step, rest);
      var curr;
      why, curr, rest := ReadSome(buf, step, rest);
      Associate(was, got, t.bytes);
      got := got + t.bytes;
      total := total + curr;
      if curr != step {
        break;
      }
    }
  }

  /** write_all as far as the buffer goes: chunk after chunk, until one is short. */
  method WriteAllFrom(buf: Buffer, step: Count, script: seq<WriteReply>)
    returns (why: Why, total: int, rest: seq<WriteReply>, ghost out: seq<byte>)
    requires buf.Valid()
    modifies buf, buf.data
    ensures buf.Valid() && buf.data == old(buf.data)
    ensures var pending := old(buf.View()).bytes;
      var t := WriteAllRun(step, |pending|, script);
      out + buf.View().bytes == pending && |out| == t.n && why == t.why && total == t.n && rest == t.rest
  {
    total, rest, out, why := 0, script, [], Done;
    ghost var was, run := buf.View().bytes, WriteAllRun(step, |buf.View().bytes|, script);
    assert [] + was == was;
    while true
      invariant buf.Valid() && buf.data == old(buf.data)
      invariant out + buf.View().bytes == was && total == |out|
      invariant run == More(total, WriteAllRun(step, |buf.View().bytes|, rest))
      decreases |buf.View().bytes|
    {
      ghost var now, head := buf.View(), out;
      ghost var taken;
      var curr;
      why, curr, rest, taken := WriteSome(buf, step, rest);
      Drained(head, now, taken);
      hide WriteChunkRun, Step, Buffer.View, Buffer.Valid;
      out := head + taken;
      total := total + curr;
      if curr != step {
        break;
      }
    }
  }

  /**
   * A stream. Its calls take the kernel's answers in script and return, as rest, those they did not
   * use; where the code throws they report false, keeping what was moved until then.
   */
  class NStream {
    const rbuffer: Buffer
    const wbuffer: Buffer
    var reset: bool
    var eof: bool
    var eop: bool

    ghost predicate Valid()
      reads this, rbuffer, wbuffer, rbuffer.data, wbuffer.data
    {
      rbuffer != wbuffer && rbuffer.data != wbuffer.data && rbuffer.Valid() && wbuffer.Valid()
    }

    constructor ()
      ensures Valid() && fresh(rbuffer) && fresh(wbuffer) && fresh(rbuffer.data) && fresh(wbuffer.data)
      ensures !reset && !eof && !eop
      ensures rbuffer.View().bytes == [] && wbuffer.View().bytes == []
    {
      rbuffer := new Buffer(1);
      wbuffer := new Buffer(1);
      reset, eof, eop := false, false, false;
    }

    /** The flags that the reading and writing loops set as they stop. */
    method Note(why: Why)
      modifies this
      ensures Noted(why)
    {
      if why == EndOfFile {
        eof := true;
      } else if why == BrokenPipe {
        eop := true;
      } else if why == PeerReset {
        reset := true;
      }
    }

    /** Only what is noted changes the flags. */
    twostate predicate Noted(why: Why)
      reads this
    {
      && eof == (old(eof) || why == EndOfFile)
      && eop == (old(eop) || why == BrokenPipe)
      && reset == (old(reset) || why == PeerReset)
    }

    /** If a write stops early, the first error of the kernel's says which flag is set, and whether it throws. */
    twostate predicate Stopped(script: seq<WriteReply>, early: bool, ok: bool)
      reads this
    {
      && eof == old(eof)
      && eop == (old(eop) || (early && FirstError(script) == EPIPE))
      && reset == (old(reset) || (early && FirstError(script) == ECONNRESET))
      && (ok <==> !(early && FirstError(script) == EOTHER))
    }

    /** Likewise for a read. */
    twostate predicate Ended(script: seq<ReadReply>, early: bool, ok: bool)
      reads this
    {
      && eop == old(eop)
      && eof == (old(eof) || (early && FirstEnd(script) == None))
      && reset == (old(reset) || (early && FirstEnd(script) == Some(ECONNRESET)))
      && (ok <==> !(early && FirstEnd(script) in {Some(EPIPE), Some(EOTHER)}))
    }

    method ReadChunk(len: nat, script: seq<ReadReply>) returns (ok: bool, n: int, rest: seq<ReadReply>)
      requires Valid() && Legal(rbuffer.View(), RoomFor(rbuffer.View(), len))
      modifies this, rbuffer, rbuffer.data
      ensures Valid() && (rbuffer.data == old(rbuffer.data) || fresh(rbuffer.data))
      ensures var t, s := ReadChunkRun(len, script), Step(old(rbuffer.View()), RoomFor(old(rbuffer.View()), len));
        && rbuffer.View() == s.(bytes := s.bytes + t.bytes)
        && ok == (t.why != Failed) && n == |t.bytes| && rest == t.rest && Noted(t.why)
      ensures Ended(script, n < len, ok)
    {
      hide ReadChunkRun, Step, Buffer.View;
      var why;
      why, n, rest := ReadSome(rbuffer, len, script);
      Note(why);
      ReadChunkStop(len, script);
      ReadStopMeans(script);
      ok := why != Failed;
    }

    /** The bytes the kernel gets are exactly those that leave the write buffer. */
    method WriteChunk(len: nat, script: seq<WriteReply>)
      returns (ok: bool, n: int, rest: seq<WriteReply>, ghost out: seq<byte>)
      requires Valid()
      modifies this, wbuffer, wbuffer.data
      ensures Valid() && wbuffer.data == old(wbuffer.data)
      ensures var s := old(wbuffer.View());
        var t := WriteChunkRun(Min(len, |s.bytes|), script);
        && wbuffer.View() == Step(s, Consume(t.n)) && out == s.bytes[..t.n]
        && ok == (t.why != Failed) && n == t.n && rest == t.rest && Noted(t.why)
      ensures Stopped(script, n < Min(len, |old(wbuffer.View()).bytes|), ok)
    {
      hide WriteChunkRun, Step, Buffer.View;
      var why;
      why, n, rest, out := WriteSome(wbuffer, len, script);
      Note(why);
      WriteChunkStop(Min(len, |old(wbuffer.View()).bytes|), script);
      WriteStopMeans(script);
      ok := why != Failed;
    }

    method ReadAll(step: Count, script: seq<ReadReply>) returns (ok: bool, total: int, rest: seq<ReadReply>)
      requires Valid() && RoomToReadAll(rbuffer.View(), step, script)
      modifies this, rbuffer, rbuffer.data
      ensures Valid() && (rbuffer.data == old(rbuffer.data) || fresh(rbuffer.data))
      ensures var t := ReadAllRun(step, script);
        && rbuffer.View().bytes == old(rbuffer.View()).bytes + t.bytes
        && ok == (t.why != Failed) && total == |t.bytes| && rest == t.rest && Noted(t.why)
      ensures Ended(script, true, ok)
    {
      hide ReadAllRun, RoomToReadAll, Buffer.View;
      var why;
      why, total, rest := ReadAllInto(rbuffer, step, script);
      Note(why);
      ReadAllStop(step, script);
      ReadStopMeans(script);
      ok := why != Failed;
    }

    method WriteAll(step: Count, script: seq<WriteReply>)
      returns (ok: bool, total: int, rest: seq<WriteReply>, ghost out: seq<byte>)
      requires Valid()
      modifies this, wbuffer, wbuffer.data
      ensures Valid() && wbuffer.data == old(wbuffer.data)
      ensures var pending := old(wbuffer.View()).bytes;
        var t := WriteAllRun(step, |pending|, script);
        && out + wbuffer.View().bytes == pending && |out| == t.n
        && ok == (t.why != Failed) && total == t.n && rest == t.rest && Noted(t.why)
      ensures Stopped(script, wbuffer.View().bytes != [], ok)
    {
      hide WriteAllRun, Buffer.View;
      var why;
      why, total, rest, out := WriteAllFrom(wbuffer, step, script);
      Note(why);
      WriteAllStop(step, |old(wbuffer.View()).bytes|, script);
      WriteStopMeans(script);
      ok := why != Failed;
    }
  }

  /** Sending a prefix and consuming it leaves the rest. */
  lemma Drained(head: seq<byte>, s: State, sent: seq<byte>)
    requires InBounds(s) && sent <= s.bytes
    ensures var s' := Step(s, Consume(|sent|));
      s'.bytes == s.bytes[|sent|..] && (head + sent) + s'.bytes == head + s.bytes
  {
    assert s.bytes == sent + s.bytes[|sent|..];
  }

  /** The state of a buffer whose start_ has moved past n bytes. */
  ghost function Advanced(s: State, n: nat): (r: State)
    requires n <= |s.bytes|
    ensures |r.bytes| == |s.bytes| - n
  {
    s.(start := s.start + n, bytes := s.bytes[n..])
  }

  /** Consuming is advancing, and clearing what is empty then. */
  lemma ConsumeIsAdvance(s: State, n: nat)
    requires InBounds(s) && n <= |s.bytes|
    ensures Step(s, Consume(n)) == if n == |s.bytes| then Step(Advanced(s, n), Clear) else Advanced(s, n)
  {
  }

  lemma AdvanceNothing(s: State)
    ensures Advanced(s, 0) == s
  {
  }

  lemma AdvanceTwice(s: State, n: nat, k: nat)
    requires n + k <= |s.bytes|
    ensures Advanced(Advanced(s, n), k) == Advanced(s, n + k)
    ensures s.bytes[..n] + Advanced(s, n).bytes[..k] == s.bytes[..n + k]
  {
  }

  lemma RoomTurn(s: State, step: Count, script: seq<ReadReply>)
    requires RoomToReadAll(s, step, script)
    ensures var t := ReadChunkRun(step, script);
      && Legal(s, RoomFor(s, step))
      && var s' := Step(s, RoomFor(s, step));
         s'.bytes == s.bytes && (t.why == Done ==> RoomToReadAll(s'.(bytes := s'.bytes + t.bytes), step, t.rest))
  {
  }

  /** No chunk of a read_all makes the read buffer outgrow int. */
  ghost predicate RoomToReadAll(s: State, step: Count, script: seq<ReadReply>)
    decreases |script|
  {
    && Legal(s, RoomFor(s, step))
    && var t, s' := ReadChunkRun(step, script), Step(s, RoomFor(s, step));
       t.why == Done ==> RoomToReadAll(s'.(bytes := s'.bytes + t.bytes), step, t.rest)
  }
}
