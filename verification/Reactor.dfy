/**
 * The reactor's handlers as the code writes them: methods that change a socket and the event
 * loop it is registered with. Each is tied to the function of module Connection that says
 * what it does; what those functions keep is proved in ConnectionSafety and EventLoops.
 */
module Reactor {
  import opened ByteBuffer
  import opened Connection
  import NStreams
  import opened Wrappers

  type Watch = i: Interest | i != Unarmed witness Reading

  class Socket {
    const fd: int
    var rbuf: seq<byte>
    var wbuf: seq<byte>
    var eof: bool
    var eop: bool
    var reset: bool
    var closed: bool

    ghost var put: seq<byte>
    ghost var sent: seq<byte>
    ghost var seen: seq<byte>
    ghost var received: seq<byte>
    ghost var waits: nat

    constructor (fd: int)
      ensures this.fd == fd && rbuf == wbuf == [] && !eof && !eop && !reset && !closed
      ensures put == sent == seen == received == [] && waits == 0
    {
      this.fd := fd;
      rbuf, wbuf, eof, eop, reset, closed := [], [], false, false, false, false;
      put, sent, seen, received, waits := [], [], [], [], 0;
    }
  }

  class EventLoop {
    /** Kernel side: the descriptors watched, and for what. */
    var epoll: map<int, Watch>
    /** The multimap fds_. */
    var fds: map<int, multiset<Entry>>

    constructor ()
      ensures epoll == map[] && fds == map[]
    {
      epoll, fds := map[], map[];
    }

    ghost function View(s: Socket): Conn
      reads this, s
    {
      Conn(
        if s.fd in epoll then epoll[s.fd] else Unarmed,
        if s.fd in fds then fds[s.fd] else multiset{},
        s.rbuf, s.wbuf, s.eof, s.eop, s.reset, s.closed, s.put, s.sent, s.seen, s.received, s.waits)
    }

    /** What the loop holds about other descriptors. */
    ghost function Others(fd: int): (map<int, Watch>, map<int, multiset<Entry>>)
      reads this
    {
      (epoll - {fd}, fds - {fd})
    }

    /** fd_register; it reports false where the code throws. */
    method FdRegister(s: Socket, i: Watch, handler: Option<Entry>, activate: bool) returns (ok: bool)
      requires handler.Some? ==> EventOf(handler.value) == i
      modifies this
      ensures Others(s.fd) == old(Others(s.fd))
      ensures var c := old(View(s));
        var r :=
          if handler.Some? then Register(c, handler.value, activate)
          else if activate then EpollAdd(c, i) else Ok(c);
        ok == r.Ok? && (ok ==> View(s) == r.c)
    {
      if handler.Some? {
        var before := if s.fd in fds then fds[s.fd] else multiset{};
        fds := fds[s.fd := before + multiset{handler.value}];
        assert fds - {s.fd} == old(fds) - {s.fd};
      }
      if activate {
        if s.closed || s.fd in epoll {
          return false;
        }
        epoll := epoll[s.fd := i];
      }
      assert epoll - {s.fd} == old(epoll) - {s.fd} && fds - {s.fd} == old(fds) - {s.fd};
      return true;
    }

    /** fd_remove; it reports false where the code throws. */
    method FdRemove(s: Socket, clean: bool, deactivate: bool) returns (ok: bool)
      modifies this
      ensures Others(s.fd) == old(Others(s.fd))
      ensures var c := old(View(s));
        var r := if deactivate then Remove(c, clean) else if clean then Ok(c.(entries := multiset{})) else Ok(c);
        ok == r.Ok? && (ok ==> View(s) == r.c)
    {
      if deactivate {
        if s.closed || s.fd !in epoll {
          return false;
        }
        epoll := epoll - {s.fd};
      }
      if clean {
        fds := fds - {s.fd};
      }
      assert epoll - {s.fd} == old(epoll) - {s.fd} && fds - {s.fd} == old(fds) - {s.fd};
      return true;
    }
  }

  /** write_all, with the kernel's part as a parameter; it reports false where the code throws. */
  method SocketWriteAll(loop: EventLoop, s: Socket, k: WriteKernel) returns (ok: bool)
    modifies s
    ensures ok == !WriteThrows(old(loop.View(s)), k)
    ensures ok ==> loop.View(s) == WriteAll(old(loop.View(s)), k)
  {
    if s.closed && |s.wbuf| > 0 {
      return false;
    }
    ok := true;
    if k.n >= |s.wbuf| {
      s.sent := s.sent + s.wbuf;
      s.wbuf := [];
    } else {
      s.sent := s.sent + s.wbuf[..k.n];
      s.wbuf := s.wbuf[k.n..];
      if k.stop == BrokenPipe {
        s.eop := true;
      } else if k.stop == WriteReset {
        s.reset := true;
      } else if k.stop == WriteFailed {
        ok := false;
      }
    }
  }

  /** read_all, with the kernel's part as a parameter; it reports false where the code throws. */
  method SocketReadAll(loop: EventLoop, s: Socket, k: ReadKernel) returns (ok: bool)
    modifies s
    ensures ok == (k.stop != ReadFailed)
    ensures loop.View(s) == ReadAll(old(loop.View(s)), k)
  {
    ok := k.stop != ReadFailed;
    s.rbuf := s.rbuf + k.data;
    s.received := s.received + k.data;
    if k.stop == EndOfFile {
      s.eof := true;
    } else if k.stop == ReadReset {
      s.reset := true;
    }
  }

  method CloseSafely(loop: EventLoop, s: Socket)
    modifies loop, s
    ensures loop.Others(s.fd) == old(loop.Others(s.fd))
    ensures loop.View(s) == SafelyClose(old(loop.View(s)))
  {
    var ok := loop.FdRemove(s, true, false);
    // Closing the descriptor takes it out of epoll.
    ghost var before := loop.epoll;
    loop.epoll := loop.epoll - {s.fd};
    assert loop.epoll - {s.fd} == before - {s.fd};
    s.closed := true;
  }

  /** The tie between a handler and its function: it throws when the function does, and does the same. */
  twostate predicate Follows(loop: EventLoop, s: Socket, ok: bool, r: Outcome)
    reads loop, s
  {
    ok == r.Ok? && (ok ==> loop.View(s) == r.c) && loop.Others(s.fd) == old(loop.Others(s.fd))
  }

  /** async_write. */
  method WriteAsync(loop: EventLoop, s: Socket, k: WriteKernel, completion: Script) returns (ok: bool)
    modifies loop, s
    ensures Follows(loop, s, ok, AsyncWrite(old(loop.View(s)), k, completion))
    decreases completion, 1
  {
    ok := SocketWriteAll(loop, s, k);
    if !ok {
      return;
    }
    if |s.wbuf| == 0 {
      ok := RunCallback(loop, s, completion);
    } else {
      ok := WatchWritable(loop, s);
    }
  }

  /** The branch of async_write for a buffer that is not empty. */
  method WatchWritable(loop: EventLoop, s: Socket) returns (ok: bool)
    modifies loop, s
    ensures Follows(loop, s, ok, AwaitWritable(old(loop.View(s))))
  {
    ok := loop.FdRemove(s, false, true);
    if ok {
      s.waits := s.waits + 1;
      ok := loop.FdRegister(s, Writing, None, true);
    }
  }

  /** A user callback. */
  method RunCallback(loop: EventLoop, s: Socket, script: Script) returns (ok: bool)
    modifies loop, s
    ensures Follows(loop, s, ok, Exec(script, old(loop.View(s))))
    decreases script, 0
  {
    match script
    case Done => ok := true;
    case Put(bytes, rest) =>
      s.wbuf := s.wbuf + bytes;
      s.put := s.put + bytes;
      ok := RunCallback(loop, s, rest);
    case Send(k, completion, rest) =>
      ok := WriteAsync(loop, s, k, completion);
      if ok {
        ok := RunCallback(loop, s, rest);
      }
    case Close(rest) =>
      CloseSafely(loop, s);
      ok := RunCallback(loop, s, rest);
  }

  /** The end of both stream handlers: on_closed, then removal. */
  method EndConnection(loop: EventLoop, s: Socket, onClosed: Script) returns (ok: bool)
    modifies loop, s
    ensures Follows(loop, s, ok, Finish(old(loop.View(s)), onClosed))
  {
    ok := RunCallback(loop, s, onClosed);
    if ok {
      ok := loop.FdRemove(s, true, true);
    }
  }

  /** iohandler::on_readable. */
  method HandleReadable(loop: EventLoop, s: Socket, k: ReadKernel, onRead: Script, onClosed: Script) returns (ok: bool)
    modifies loop, s
    ensures Follows(loop, s, ok, OnReadable(old(loop.View(s)), k, onRead, onClosed))
  {
    hide Exec, ReadAll, AfterRead;
    ok := SocketReadAll(loop, s, k);
    if ok {
      ok := RunCallback(loop, s, onRead);
    }
    if ok {
      ok := FinishReading(loop, s, onClosed);
    }
  }

  method FinishReading(loop: EventLoop, s: Socket, onClosed: Script) returns (ok: bool)
    modifies loop, s
    ensures Follows(loop, s, ok, AfterRead(old(loop.View(s)), onClosed))
  {
    s.seen := s.seen + s.rbuf;
    s.rbuf := [];
    ok := true;
    if s.eof || s.reset {
      ok := EndConnection(loop, s, onClosed);
    }
  }

  /** iohandler::on_writable. */
  method HandleWritable(loop: EventLoop, s: Socket, k: WriteKernel, onWrite: Script, onClosed: Script)
    returns (ok: bool)
    modifies loop, s
    ensures Follows(loop, s, ok, OnWritable(old(loop.View(s)), k, onWrite, onClosed))
  {
    hide WriteAll, CompleteWrite, AfterWrite;
    ok := SocketWriteAll(loop, s, k);
    if ok && |s.wbuf| == 0 {
      ok := ReportWritten(loop, s, onWrite);
    }
    if ok {
      ok := FinishWriting(loop, s, onClosed);
    }
  }

  method FinishWriting(loop: EventLoop, s: Socket, onClosed: Script) returns (ok: bool)
    modifies loop, s
    ensures Follows(loop, s, ok, AfterWrite(old(loop.View(s)), onClosed))
  {
    ok := true;
    if s.eop || s.reset {
      ok := EndConnection(loop, s, onClosed);
    }
  }

  /** The branch of on_writable for an empty buffer. */
  method ReportWritten(loop: EventLoop, s: Socket, onWrite: Script) returns (ok: bool)
    modifies loop, s
    ensures Follows(loop, s, ok, CompleteWrite(old(loop.View(s)), onWrite))
  {
    ok := loop.FdRemove(s, false, true);
    if ok {
      ok := RunCallback(loop, s, onWrite);
      if ok && !s.closed {
        ok := loop.FdRegister(s, Reading, None, true);
      }
    }
  }

  /** The registrations around on_accept and on_connect. */
  method EstablishConnection(loop: EventLoop, s: Socket, onOpen: Script) returns (ok: bool)
    modifies loop, s
    ensures Follows(loop, s, ok, Establish(old(loop.View(s)), onOpen))
  {
    hide Exec;
    ok := loop.FdRegister(s, Writing, Some(ConnWritable), false);
    if ok {
      ok := RunCallback(loop, s, onOpen);
      if ok {
        ok := loop.FdRegister(s, Reading, Some(ConnReadable), true);
      }
    }
  }

  /** iohandler::on_acpt_writable. */
  method HandleAccepted(loop: EventLoop, s: Socket, onAccept: Script) returns (ok: bool)
    modifies loop, s
    ensures Follows(loop, s, ok, OnAcptWritable(old(loop.View(s)), onAccept))
  {
    ok := loop.FdRemove(s, true, true);
    if ok {
      ok := EstablishConnection(loop, s, onAccept);
    }
  }

  /** iohandler::on_cont_writable; failures counts, by host, the connections that did not come about. */
  method HandleConnected<Host(==)>(loop: EventLoop, s: Socket, connected: bool, onConnect: Script,
                                   host: Host, failures0: map<Host, int>)
    returns (ok: bool, failures: map<Host, int>)
    modifies loop, s
    ensures Follows(loop, s, ok, OnContWritable(old(loop.View(s)), connected, onConnect))
    ensures failures ==
      if old(EpollDel(loop.View(s))).Ok? && !connected
      then failures0[host := (if host in failures0 then failures0[host] else 0) + 1] else failures0
  {
    failures := failures0;
    ok := loop.FdRemove(s, true, true);
    if !ok {
      return;
    }
    if !connected {
      failures := failures[host := (if host in failures then failures[host] else 0) + 1];
      return;
    }
    ok := EstablishConnection(loop, s, onConnect);
  }

  /** The kernel's part in a write_all, read off the run of nstream::write_all. */
  ghost function KernelOf(t: NStreams.Sent): WriteKernel {
    WriteKernel(t.n,
      match t.why
      case BrokenPipe => BrokenPipe
      case PeerReset => WriteReset
      case Failed => WriteFailed
      case _ => WriteBlocked)
  }

  /**
   * The write_all of module Connection is that of nstream: whatever the kernel answers and whatever
   * the step, its effect is that of one WriteKernel, and it throws exactly when that does.
   */
  lemma WriteAllIsStreamWriteAll(c: Conn, step: NStreams.Count, script: seq<NStreams.WriteReply>)
    ensures var t := NStreams.WriteAllRun(step, |c.wbuf|, script);
      && t.n <= |c.wbuf|
      && (!c.closed ==> (WriteThrows(c, KernelOf(t)) <==> t.why == NStreams.Failed))
      && WriteAll(c, KernelOf(t)) == c.(
           sent := c.sent + c.wbuf[..t.n], wbuf := c.wbuf[t.n..],
           eop := c.eop || t.why == NStreams.BrokenPipe, reset := c.reset || t.why == NStreams.PeerReset)
  {
    NStreams.WriteAllStop(step, |c.wbuf|, script);
  }

  /** The kernel's part in a read_all, read off the run of nstream::read_all. */
  ghost function ReadKernelOf(t: NStreams.Transfer<NStreams.ReadReply>): ReadKernel {
    ReadKernel(t.bytes,
      match t.why
      case EndOfFile => EndOfFile
      case PeerReset => ReadReset
      case Failed => ReadFailed
      case _ => ReadBlocked)
  }

  /** The read_all of module Connection is that of nstream, likewise. */
  lemma ReadAllIsStreamReadAll(c: Conn, step: NStreams.Count, script: seq<NStreams.ReadReply>)
    ensures var t := NStreams.ReadAllRun(step, script);
      && (ReadKernelOf(t).stop == ReadFailed <==> t.why == NStreams.Failed)
      && (ReadKernelOf(t).stop == ReadBlocked <==> t.why == NStreams.Blocked)
      && ReadAll(c, ReadKernelOf(t)) == c.(
           rbuf := c.rbuf + t.bytes, received := c.received + t.bytes,
           eof := c.eof || t.why == NStreams.EndOfFile, reset := c.reset || t.why == NStreams.PeerReset)
  {
    NStreams.ReadAllStop(step, script);
  }
}
