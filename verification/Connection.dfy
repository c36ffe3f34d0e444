/**
 * One connection of the reactor: what src/lib/tcp.cc and src/lib/event_loop_epoll.cc do to its
 * socket, its callbacks in the event loop and its interest in epoll, as functions on values.
 */
module Connection {
  import opened ByteBuffer

  /** What epoll watches for on the descriptor. */
  datatype Interest = Unarmed | Reading | Writing

  /** The callbacks kept in the event loop's multimap. */
  datatype Entry = AcptWritable | ContWritable | ConnReadable | ConnWritable

  function EventOf(e: Entry): Interest {
    if e == ConnReadable then Reading else Writing
  }

  /** How write_all ended when it did not empty the buffer; on any other error it throws. */
  datatype WriteStop = WriteBlocked | BrokenPipe | WriteReset | WriteFailed

  /** The kernel's part in one write_all: it takes up to n bytes, and stops there if more are left. */
  datatype WriteKernel = WriteKernel(n: nat, stop: WriteStop)

  datatype ReadStop = ReadBlocked | EndOfFile | ReadReset | ReadFailed

  /** The kernel's part in one read_all. */
  datatype ReadKernel = ReadKernel(data: seq<byte>, stop: ReadStop)

  /**
   * What a user callback does with its connection: it puts bytes into the write buffer, calls
   * async_write (whose completion callback runs inside that call), or calls safely_close.
   */
  datatype Script =
    | Done
    | Put(bytes: seq<byte>, rest: Script)
    | Send(kernel: WriteKernel, completion: Script, rest: Script)
    | Close(rest: Script)

  /**
   * The connection. put, sent and seen are history: all bytes ever put into the write buffer, handed
   * to the kernel, and shown to on_read_complete. waits counts the calls of async_write that
   * left bytes behind and asked for the descriptor to become writable.
   */
  datatype Conn = Conn(
    armed: Interest, entries: multiset<Entry>,
    rbuf: seq<byte>, wbuf: seq<byte>,
    eof: bool, eop: bool, reset: bool, closed: bool,
    put: seq<byte>, sent: seq<byte>, seen: seq<byte>, received: seq<byte>, waits: nat)

  /** A step either completes or throws out of the event loop. */
  datatype Outcome = Ok(c: Conn) | Thrown

  // ----- the event loop -----

  function EpollAdd(c: Conn, i: Interest): Outcome {
    if c.closed || c.armed != Unarmed then Thrown else Ok(c.(armed := i))
  }

  function EpollDel(c: Conn): Outcome {
    if c.closed || c.armed == Unarmed then Thrown else Ok(c.(armed := Unarmed))
  }

  /** fd_register with a handler. */
  function Register(c: Conn, e: Entry, activate: bool): Outcome {
    var c' := c.(entries := c.entries + multiset{e});
    if activate then EpollAdd(c', EventOf(e)) else Ok(c')
  }

  /** fd_remove with deactivation. */
  function Remove(c: Conn, clean: bool): Outcome {
    var r := EpollDel(c);
    if r.Ok? && clean then Ok(r.c.(entries := multiset{})) else r
  }

  // ----- writing -----

  function WriteAll(c: Conn, k: WriteKernel): Conn {
    if k.n >= |c.wbuf| then c.(sent := c.sent + c.wbuf, wbuf := [])
    else
      c.(sent := c.sent + c.wbuf[..k.n], wbuf := c.wbuf[k.n..],
         eop := c.eop || k.stop == BrokenPipe, reset := c.reset || k.stop == WriteReset)
  }

  /** write_all throws: on a closed descriptor, if there is anything to write, or on an error of the kernel's. */
  predicate WriteThrows(c: Conn, k: WriteKernel) {
    c.wbuf != [] && (c.closed || (k.n < |c.wbuf| && k.stop == WriteFailed))
  }

  function SafelyClose(c: Conn): Conn {
    c.(entries := multiset{}, closed := true, armed := Unarmed)
  }

  /** async_write. */
  function AsyncWrite(c: Conn, k: WriteKernel, completion: Script): Outcome
    decreases completion, 1
  {
    if WriteThrows(c, k) then Thrown
    else
      var c1 := WriteAll(c, k);
      if c1.wbuf == [] then Exec(completion, c1) else AwaitWritable(c1)
  }

  /** The branch of async_write for a buffer that is not empty: watch for writable instead. */
  function AwaitWritable(c: Conn): Outcome {
    var r := Remove(c, false);
    if r.Thrown? then Thrown else EpollAdd(r.c.(waits := r.c.waits + 1), Writing)
  }

  /** A user callback. */
  function Exec(s: Script, c: Conn): Outcome
    decreases s, 0
  {
    match s
    case Done => Ok(c)
    case Put(bytes, rest) => Exec(rest, c.(wbuf := c.wbuf + bytes, put := c.put + bytes))
    case Send(k, completion, rest) =>
      var r := AsyncWrite(c, k, completion);
      if r.Thrown? then Thrown else Exec(rest, r.c)
    case Close(rest) => Exec(rest, SafelyClose(c))
  }

  // ----- the handlers -----

  /** on_closed and the removal that follows it. */
  function Finish(c: Conn, onClosed: Script): Outcome {
    var r := Exec(onClosed, c);
    if r.Thrown? then Thrown else Remove(r.c, true)
  }

  function ReadAll(c: Conn, k: ReadKernel): Conn {
    c.(rbuf := c.rbuf + k.data, received := c.received + k.data,
       eof := c.eof || k.stop == EndOfFile, reset := c.reset || k.stop == ReadReset)
  }

  function OnReadable(c: Conn, k: ReadKernel, onRead: Script, onClosed: Script): Outcome {
    if k.stop == ReadFailed then Thrown
    else
      var r := Exec(onRead, ReadAll(c, k));
      if r.Thrown? then Thrown else AfterRead(r.c, onClosed)
  }

  /** The end of on_readable: forget what was read, and end a connection that has ended. */
  function AfterRead(c: Conn, onClosed: Script): Outcome {
    var c' := c.(seen := c.seen + c.rbuf, rbuf := []);
    if c'.eof || c'.reset then Finish(c', onClosed) else Ok(c')
  }

  function OnWritable(c: Conn, k: WriteKernel, onWrite: Script, onClosed: Script): Outcome {
    if WriteThrows(c, k) then Thrown
    else
      var c1 := WriteAll(c, k);
      var r := if c1.wbuf == [] then CompleteWrite(c1, onWrite) else Ok(c1);
      if r.Thrown? then Thrown else AfterWrite(r.c, onClosed)
  }

  /** The end of on_writable: end a connection that cannot be written to. */
  function AfterWrite(c: Conn, onClosed: Script): Outcome {
    if c.eop || c.reset then Finish(c, onClosed) else Ok(c)
  }

  /** The branch of on_writable for an empty buffer: stop watching, report, watch for input. */
  function CompleteWrite(c: Conn, onWrite: Script): Outcome {
    var r := Remove(c, false);
    if r.Thrown? then Thrown
    else
      var r2 := Exec(onWrite, r.c);
      if r2.Thrown? || r2.c.closed then r2 else EpollAdd(r2.c, Reading)
  }

  /** The tail shared by on_acpt_writable and on_cont_writable, after fd_remove. */
  function Establish(c: Conn, onOpen: Script): Outcome {
    var r1 := Register(c, ConnWritable, false);
    if r1.Thrown? then Thrown
    else
      var r2 := Exec(onOpen, r1.c);
      if r2.Thrown? then Thrown else Register(r2.c, ConnReadable, true)
  }

  function OnAcptWritable(c: Conn, onAccept: Script): Outcome {
    var r := Remove(c, true);
    if r.Thrown? then Thrown else Establish(r.c, onAccept)
  }

  function OnContWritable(c: Conn, connected: bool, onConnect: Script): Outcome {
    var r := Remove(c, true);
    if r.Thrown? || !connected then r else Establish(r.c, onConnect)
  }

  /** What the kernel and the user do in one event. */
  datatype Behaviour = Behaviour(
    read: ReadKernel, write: WriteKernel, connected: bool, callback: Script, onClosed: Script)

  function Handle(c: Conn, e: Entry, b: Behaviour): Outcome {
    match e
    case AcptWritable => OnAcptWritable(c, b.callback)
    case ContWritable => OnContWritable(c, b.connected, b.callback)
    case ConnReadable => OnReadable(c, b.read, b.callback, b.onClosed)
    case ConnWritable => OnWritable(c, b.write, b.callback, b.onClosed)
  }

  // ----- states between events -----

  /** Registered by an acceptor or a connector, waiting for its first event. */
  ghost predicate Fresh(c: Conn) {
    && c.armed == Writing
    && (c.entries == multiset{AcptWritable} || c.entries == multiset{ContWritable})
    && c.wbuf == [] && c.rbuf == [] && !c.closed
  }

  /** Established: watched for one kind of event, with both callbacks registered once. */
  ghost predicate Open(c: Conn) {
    && c.armed != Unarmed && !c.closed
    && c.entries == multiset{ConnReadable, ConnWritable}
    && c.rbuf == []
  }

  /** Gone from the event loop. */
  ghost predicate Gone(c: Conn) {
    c.armed == Unarmed && c.entries == multiset{}
  }

  /** No unsent byte waits for an event that nobody watches for. */
  ghost predicate NotStranded(c: Conn) {
    c.wbuf != [] ==> c.armed == Writing
  }

  /** Output is pending exactly when the descriptor is watched for becoming writable. */
  ghost predicate Tight(c: Conn) {
    c.wbuf != [] <==> c.armed == Writing
  }

  /** Nothing is lost, duplicated or reordered on its way to and from the kernel. */
  ghost predicate Conserved(c: Conn) {
    c.put == c.sent + c.wbuf && c.received == c.seen + c.rbuf
  }

  // ----- what callbacks do -----

  /** Goes on to call async_write, or to close. */
  predicate SoonSends(s: Script) {
    match s
    case Done => false
    case Put(_, rest) => SoonSends(rest)
    case _ => true
  }

  /** Every put is followed by an async_write, or by closing. */
  predicate Flushes(s: Script) {
    match s
    case Done => true
    case Put(_, rest) => SoonSends(rest) && Flushes(rest)
    case Send(_, completion, rest) => Flushes(completion) && Flushes(rest)
    case Close(rest) => Flushes(rest)
  }

  /** Bytes are put, then one async_write ends the callback, or closing does. */
  predicate SendsLast(s: Script) {
    match s
    case Done => true
    case Put(_, rest) => SoonSends(rest) && SendsLast(rest)
    case Send(_, completion, rest) => SendsLast(completion) && rest.Done?
    case Close(rest) => rest.Done?
  }
}
