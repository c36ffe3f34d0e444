/** What the reactor's handlers keep, for every kernel and every user callback. */
module ConnectionSafety {
  import opened ByteBuffer
  import opened Connection

  // ----- callbacks -----

  /** What a callback may change of a connection that is still there. */
  ghost predicate Continues(c: Conn, r: Conn) {
    && r.rbuf == c.rbuf && r.seen == c.seen && r.received == c.received && r.eof == c.eof
    && (c.eop ==> r.eop) && (c.reset ==> r.reset) && c.waits <= r.waits
    && (Conserved(c) ==> Conserved(r)) && c.put <= r.put && c.sent <= r.sent
  }

  lemma WriteAllContinues(c: Conn, k: WriteKernel)
    ensures Continues(c, WriteAll(c, k))
  {
    if k.n >= |c.wbuf| {
      assert (c.sent + c.wbuf) + [] == c.sent + c.wbuf;
    } else {
      assert c.wbuf == c.wbuf[..k.n] + c.wbuf[k.n..];
      assert c.sent + (c.wbuf[..k.n] + c.wbuf[k.n..]) == (c.sent + c.wbuf[..k.n]) + c.wbuf[k.n..];
    }
  }

  lemma PutContinues(c: Conn, bytes: seq<byte>)
    ensures Continues(c, c.(wbuf := c.wbuf + bytes, put := c.put + bytes))
  {
  }

  lemma ContinuesTrans(a: Conn, b: Conn, c: Conn)
    requires Continues(a, b) && Continues(b, c)
    ensures Continues(a, c)
  {
  }

  /** No callback, whatever it does, loses or reorders a byte of what it was given or puts. */
  lemma {:induction false} ExecContinues(s: Script, c: Conn)
    requires Exec(s, c).Ok?
    ensures Continues(c, Exec(s, c).c)
    decreases s
  {
    match s
    case Done =>
    case Put(bytes, rest) =>
      PutContinues(c, bytes);
      var c1 := c.(wbuf := c.wbuf + bytes, put := c.put + bytes);
      ExecContinues(rest, c1);
      ContinuesTrans(c, c1, Exec(s, c).c);
    case Send(k, completion, rest) =>
      var c1 := WriteAll(c, k);
      WriteAllContinues(c, k);
      var r := AsyncWrite(c, k, completion);
      if c1.wbuf == [] {
        ExecContinues(completion, c1);
        ContinuesTrans(c, c1, r.c);
      }
      ExecContinues(rest, r.c);
      ContinuesTrans(c, r.c, Exec(s, c).c);
    case Close(rest) =>
      ExecContinues(rest, SafelyClose(c));
      ContinuesTrans(c, SafelyClose(c), Exec(s, c).c);
  }

  /** Watched for something, or closed and gone. */
  ghost predicate Sane(c: Conn) {
    if c.closed then Gone(c) else c.armed != Unarmed
  }

  /** What a callback keeps of a sane connection: its callbacks, and what it is watched for unless it waited. */
  ghost predicate Keeps(c: Conn, r: Conn) {
    && Sane(r) && c.waits <= r.waits && (c.closed ==> r.closed)
    && (!r.closed ==> r.entries == c.entries && r.armed == if r.waits > c.waits then Writing else c.armed)
  }

  /** Whatever a callback does, and whatever the kernel does, it keeps that or throws. */
  lemma {:induction false} ExecKeeps(s: Script, c: Conn)
    requires Sane(c) && Exec(s, c).Ok?
    ensures Keeps(c, Exec(s, c).c)
    decreases s
  {
    match s
    case Done =>
    case Put(bytes, rest) => ExecKeeps(rest, c.(wbuf := c.wbuf + bytes, put := c.put + bytes));
    case Send(k, completion, rest) =>
      var r := AsyncWrite(c, k, completion);
      if WriteAll(c, k).wbuf == [] {
        ExecKeeps(completion, WriteAll(c, k));
      }
      assert Keeps(c, r.c);
      ExecKeeps(rest, r.c);
    case Close(rest) => ExecKeeps(rest, SafelyClose(c));
  }

  // ----- forecasts -----

  /** What a callback comes to, told from the sizes of what it puts and what the kernel takes. */
  datatype Forecast = Forecast(pending: nat, stalls: bool, eop: bool, reset: bool, closes: bool, fails: bool)

  function Now(c: Conn): Forecast {
    Forecast(|c.wbuf|, false, c.eop, c.reset, c.closed, false)
  }

  /** One async_write that leaves bytes behind. */
  function Stalled(f: Forecast, k: WriteKernel): Forecast
    requires k.n < f.pending
  {
    f.(pending := f.pending - k.n, stalls := true,
       eop := f.eop || k.stop == BrokenPipe, reset := f.reset || k.stop == WriteReset)
  }

  /** There is something to write, but the descriptor is closed, or the kernel fails. */
  predicate Breaks(f: Forecast, k: WriteKernel) {
    f.pending > 0 && (f.closes || (k.n < f.pending && k.stop == WriteFailed))
  }

  function Foresee(s: Script, f: Forecast): Forecast
    decreases s, 0
  {
    match s
    case Done => f
    case Put(bytes, rest) => Foresee(rest, f.(pending := f.pending + |bytes|))
    case Send(k, completion, rest) =>
      var g := ForeseeSend(k, completion, f);
      if g.fails then g else Foresee(rest, g)
    case Close(rest) => Foresee(rest, f.(closes := true))
  }

  function ForeseeSend(k: WriteKernel, completion: Script, f: Forecast): Forecast
    decreases completion, 1
  {
    if Breaks(f, k) then f.(fails := true)
    else if k.n >= f.pending then Foresee(completion, f.(pending := 0))
    else Stalled(f, k)
  }

  /** The forecast f, begun when the connection had waited w times, fits c. */
  ghost predicate Fits(f: Forecast, w: nat, c: Conn) {
    && f.pending == |c.wbuf| && c.waits >= w && (f.stalls <==> c.waits > w)
    && f.eop == c.eop && f.reset == c.reset && f.closes == c.closed && !f.fails
  }

  /** The outcome of a callback is as foreseen. */
  ghost predicate AsForeseen(g: Forecast, w: nat, r: Outcome) {
    if g.fails then r.Thrown? else r.Ok? && Fits(g, w, r.c)
  }

  /**
   * On a connection that is watched, or has been closed, any callback throws exactly if its forecast
   * fails: only for want of a descriptor or by an error of the kernel's.
   */
  lemma {:induction false} ForecastHolds(s: Script, f: Forecast, w: nat, c: Conn)
    requires Sane(c) && Fits(f, w, c)
    ensures AsForeseen(Foresee(s, f), w, Exec(s, c))
    decreases s, 0
  {
    match s
    case Done =>
    case Put(bytes, rest) =>
      ForecastHolds(rest, f.(pending := f.pending + |bytes|), w, c.(wbuf := c.wbuf + bytes, put := c.put + bytes));
    case Send(k, completion, rest) =>
      SendForecastHolds(k, completion, f, w, c);
      var r, g := AsyncWrite(c, k, completion), ForeseeSend(k, completion, f);
      if r.Ok? {
        ForecastHolds(rest, g, w, r.c);
      }
    case Close(rest) => ForecastHolds(rest, f.(closes := true), w, SafelyClose(c));
  }

  lemma {:induction false} SendForecastHolds(k: WriteKernel, completion: Script, f: Forecast, w: nat, c: Conn)
    requires Sane(c) && Fits(f, w, c)
    ensures var r := AsyncWrite(c, k, completion);
      AsForeseen(ForeseeSend(k, completion, f), w, r) && (r.Ok? ==> Sane(r.c))
    decreases completion, 1
  {
    if !Breaks(f, k) && k.n >= f.pending {
      var c1 := WriteAll(c, k);
      ForecastHolds(completion, f.(pending := 0), w, c1);
      if Exec(completion, c1).Ok? {
        ExecKeeps(completion, c1);
      }
    }
  }

  /** The bytes that a callback puts, told from its text: those of every put that it gets to. */
  function Puts(s: Script, f: Forecast): seq<byte>
    decreases s
  {
    match s
    case Done => []
    case Put(bytes, rest) => bytes + Puts(rest, f.(pending := f.pending + |bytes|))
    case Send(k, completion, rest) =>
      var g := ForeseeSend(k, completion, f);
      (if !Breaks(f, k) && k.n >= f.pending then Puts(completion, f.(pending := 0)) else [])
      + (if g.fails then [] else Puts(rest, g))
    case Close(rest) => Puts(rest, f.(closes := true))
  }

  lemma Associate(a: seq<byte>, b: seq<byte>, c: seq<byte>)
    ensures a + (b + c) == (a + b) + c
  {
  }

  /** What a callback has put is what its text says, in that order. */
  lemma {:induction false} PutsHold(s: Script, f: Forecast, w: nat, c: Conn)
    requires Sane(c) && Fits(f, w, c) && Exec(s, c).Ok?
    ensures Exec(s, c).c.put == c.put + Puts(s, f)
    decreases s
  {
    match s
    case Done =>
    case Put(bytes, rest) =>
      var f1, c1 := f.(pending := f.pending + |bytes|), c.(wbuf := c.wbuf + bytes, put := c.put + bytes);
      PutsHold(rest, f1, w, c1);
      Associate(c.put, bytes, Puts(rest, f1));
    case Send(k, completion, rest) =>
      var r, g, c1 := AsyncWrite(c, k, completion), ForeseeSend(k, completion, f), WriteAll(c, k);
      SendForecastHolds(k, completion, f, w, c);
      if k.n >= f.pending {
        PutsHold(completion, f.(pending := 0), w, c1);
        PutsHold(rest, g, w, r.c);
        Associate(c.put, Puts(completion, f.(pending := 0)), Puts(rest, g));
      } else {
        PutsHold(rest, g, w, r.c);
        assert [] + Puts(rest, g) == Puts(rest, g);
      }
    case Close(rest) => PutsHold(rest, f.(closes := true), w, SafelyClose(c));
  }

  /** Bytes sent followed by bytes pending are those from before, followed by those that the callback puts. */
  lemma CallbackConserves(s: Script, c: Conn)
    requires Sane(c) && Conserved(c) && Exec(s, c).Ok?
    ensures var r := Exec(s, c).c; r.sent + r.wbuf == (c.sent + c.wbuf) + Puts(s, Now(c))
  {
    PutsHold(s, Now(c), c.waits, c);
    ExecContinues(s, c);
  }

  lemma {:induction false} StallsStick(s: Script, f: Forecast)
    ensures f.stalls && !f.fails ==> Foresee(s, f).stalls
    ensures f.closes && !f.fails ==> Foresee(s, f).stalls == f.stalls && Foresee(s, f).closes
    decreases s
  {
    match s
    case Done =>
    case Put(bytes, rest) => StallsStick(rest, f.(pending := f.pending + |bytes|));
    case Send(k, completion, rest) =>
      StallsStick(completion, f.(pending := 0));
      var g := ForeseeSend(k, completion, f);
      if !g.fails {
        StallsStick(rest, g);
      }
    case Close(rest) => StallsStick(rest, f.(closes := true));
  }

  // ----- callbacks on a descriptor that is not watched -----

  /** What comes of a callback on an unwatched connection, when r comes of it on a watched one. */
  ghost function Unwatched(g: Forecast, r: Outcome): Outcome {
    if g.fails || g.stalls || r.Thrown? then Thrown else Ok(r.c.(armed := Unarmed))
  }

  /**
   * A callback that runs while nothing is watched throws exactly when its forecast fails or one of its
   * async_writes leaves bytes behind; it then asks epoll to stop watching what it does not
   * watch. Otherwise it does what it does on a watched connection.
   */
  lemma {:induction false} ExecUnwatched(s: Script, f: Forecast, w: nat, c: Conn)
    requires c.armed == Unarmed && !c.closed && Fits(f, w, c) && !f.stalls
    ensures Exec(s, c) == Unwatched(Foresee(s, f), Exec(s, c.(armed := Reading)))
    decreases s, 0
  {
    var v := c.(armed := Reading);
    match s
    case Done =>
    case Put(bytes, rest) =>
      ExecUnwatched(rest, f.(pending := f.pending + |bytes|), w, c.(wbuf := c.wbuf + bytes, put := c.put + bytes));
    case Send(k, completion, rest) =>
      var g, r := ForeseeSend(k, completion, f), AsyncWrite(v, k, completion);
      SendUnwatched(k, completion, f, w, c);
      SendForecastHolds(k, completion, f, w, v);
      StallsStick(rest, g);
      if !g.fails && !g.stalls {
        SendKeeps(k, completion, v);
        if r.c.closed {
          ExecClosed(rest, g, w, r.c);
        } else {
          ExecUnwatched(rest, g, w, r.c.(armed := Unarmed));
          assert r.c.(armed := Unarmed).(armed := Reading) == r.c;
        }
      }
    case Close(rest) => ExecClosed(rest, f.(closes := true), w, SafelyClose(c));
  }

  lemma SendKeeps(k: WriteKernel, completion: Script, c: Conn)
    requires Sane(c) && AsyncWrite(c, k, completion).Ok?
    ensures Keeps(c, AsyncWrite(c, k, completion).c)
  {
    ExecKeeps(Send(k, completion, Done), c);
    assert Exec(Send(k, completion, Done), c) == AsyncWrite(c, k, completion);
  }

  /** Once closed, watched or not makes no difference. */
  lemma ExecClosed(s: Script, f: Forecast, w: nat, c: Conn)
    requires c.closed && Gone(c) && Fits(f, w, c) && !f.stalls
    ensures Exec(s, c) == Unwatched(Foresee(s, f), Exec(s, c))
  {
    ForecastHolds(s, f, w, c);
    StallsStick(s, f);
    if Exec(s, c).Ok? {
      ExecKeeps(s, c);
      hide Exec, Foresee;
    }
  }

  lemma {:induction false} SendUnwatched(k: WriteKernel, completion: Script, f: Forecast, w: nat, c: Conn)
    requires c.armed == Unarmed && !c.closed && Fits(f, w, c) && !f.stalls
    ensures AsyncWrite(c, k, completion) ==
      Unwatched(ForeseeSend(k, completion, f), AsyncWrite(c.(armed := Reading), k, completion))
    decreases completion, 1
  {
    var c1 := WriteAll(c, k);
    assert WriteAll(c.(armed := Reading), k) == c1.(armed := Reading);
    if !Breaks(f, k) && k.n >= f.pending {
      ExecUnwatched(completion, f.(pending := 0), w, c1);
    }
  }

  // ----- unsent bytes -----

  /** Whatever the kernel does, a callback that flushes what it puts strands nothing. */
  lemma {:induction false} ExecFlushes(s: Script, c: Conn)
    requires Sane(c) && Flushes(s) && (c.closed || NotStranded(c) || SoonSends(s))
    ensures Exec(s, c).Ok? ==> Exec(s, c).c.closed || NotStranded(Exec(s, c).c)
    decreases s
  {
    match s
    case Done =>
    case Put(bytes, rest) =>
      ExecFlushes(rest, c.(wbuf := c.wbuf + bytes, put := c.put + bytes));
    case Send(k, completion, rest) =>
      var c1, r := WriteAll(c, k), AsyncWrite(c, k, completion);
      if r.Ok? {
        SendKeeps(k, completion, c);
        if c1.wbuf == [] {
          ExecFlushes(completion, c1);
        }
        assert r.c.closed || NotStranded(r.c);
        ExecFlushes(rest, r.c);
      }
    case Close(rest) => ExecFlushes(rest, SafelyClose(c));
  }

  /** If its one async_write comes last, output is pending exactly when writable is watched for. */
  lemma {:induction false} ExecTight(s: Script, c: Conn)
    requires c.armed == Reading && !c.closed && SendsLast(s)
    requires c.wbuf == [] || SoonSends(s)
    ensures Exec(s, c).Ok? ==> Exec(s, c).c.closed || Tight(Exec(s, c).c)
    decreases s
  {
    match s
    case Done =>
    case Put(bytes, rest) =>
      ExecTight(rest, c.(wbuf := c.wbuf + bytes, put := c.put + bytes));
    case Send(k, completion, rest) =>
      var c1 := WriteAll(c, k);
      if c1.wbuf == [] {
        ExecTight(completion, c1);
      }
    case Close(rest) =>
  }

  predicate PutsNothing(s: Script) {
    match s
    case Done => true
    case Put(_, _) => false
    case Send(_, completion, rest) => PutsNothing(completion) && PutsNothing(rest)
    case Close(rest) => PutsNothing(rest)
  }

  /**
   * A callback that writes nothing, and finds nothing to write, never throws and never waits: not on an
   * unwatched connection, and not on a closed one.
   */
  lemma {:induction false} SilentNeverWaits(s: Script, c: Conn)
    requires PutsNothing(s) && c.wbuf == []
    ensures Exec(s, c).Ok? && Exec(s, c).c.waits == c.waits && Exec(s, c).c.wbuf == []
    decreases s
  {
    match s
    case Done =>
    case Send(k, completion, rest) =>
      SilentNeverWaits(completion, WriteAll(c, k));
      SilentNeverWaits(rest, AsyncWrite(c, k, completion).c);
    case Close(rest) => SilentNeverWaits(rest, SafelyClose(c));
  }

  // ----- one event -----

  /** The event loop may dispatch e to c: it is registered, and epoll watches for its event. */
  ghost predicate Ready(c: Conn, e: Entry) {
    (Fresh(c) || Open(c)) && e in c.entries && EventOf(e) == c.armed
  }

  /** on_closed neither fails nor closes, nor has the connection been closed before. */
  predicate EndsWell(onClosed: Script, f: Forecast) {
    var g := Foresee(onClosed, f);
    !g.fails && !g.closes
  }

  /**
   * The kernel and the callbacks spare the event loop what it cannot do. The kernel does not fail, and
   * nothing is written to a closed connection; a connection that the handler is about to end is not
   * closed by then; and while the descriptor is not watched, which is so in on_accept, on_connect
   * and the on_write_complete of on_writable, no async_write leaves bytes behind. on_accept and
   * on_connect, moreover, do not close. All this is told from sizes alone.
   */
  predicate Careful(c: Conn, e: Entry, b: Behaviour) {
    match e
    case ConnReadable =>
      var c1 := ReadAll(c, b.read);
      var f := Foresee(b.callback, Now(c1));
      b.read.stop != ReadFailed && !f.fails && (c1.eof || f.reset ==> EndsWell(b.onClosed, f))
    case ConnWritable =>
      var c1 := WriteAll(c, b.write);
      var f := if c1.wbuf == [] then Foresee(b.callback, Now(c1)) else Now(c1);
      !WriteThrows(c, b.write) && !f.fails && !f.stalls && (f.eop || f.reset ==> EndsWell(b.onClosed, f))
    case _ =>
      (e == ContWritable ==> b.connected) ==>
        var f := Foresee(b.callback, Now(c));
        !f.fails && !f.stalls && !f.closes
  }

  /** What is left of a connection after an event. */
  ghost predicate Settled(c: Conn, r: Conn) {
    (Open(r) || Gone(r)) && r.rbuf == [] && (Conserved(c) ==> Conserved(r)) && c.put <= r.put && c.sent <= r.sent
  }

  /** Ending a connection throws exactly when on_closed fails, or the connection is closed by then. */
  lemma FinishSettles(c: Conn, f: Forecast, w: nat, onClosed: Script)
    requires Sane(c) && Fits(f, w, c) && c.rbuf == []
    ensures Finish(c, onClosed).Thrown? <==> !EndsWell(onClosed, f)
    ensures Finish(c, onClosed).Ok? ==> Settled(c, Finish(c, onClosed).c)
  {
    hide Exec, Foresee;
    ForecastHolds(onClosed, f, w, c);
    if Exec(onClosed, c).Ok? {
      ExecKeeps(onClosed, c);
      ExecContinues(onClosed, c);
    }
  }

  lemma ReadAllConserves(c: Conn, k: ReadKernel)
    ensures Conserved(c) ==> Conserved(ReadAll(c, k))
  {
  }

  lemma ClearConserves(c: Conn)
    ensures Conserved(c) ==> Conserved(c.(seen := c.seen + c.rbuf, rbuf := []))
  {
  }

  lemma OnReadableThrowsIff(c: Conn, b: Behaviour)
    requires Open(c) && c.armed == Reading
    ensures var r := OnReadable(c, b.read, b.callback, b.onClosed);
      && (r.Thrown? <==> !Careful(c, ConnReadable, b))
      && (r.Ok? ==> Settled(c, r.c))
  {
    hide Exec, Conserved, Finish, Foresee, EndsWell;
    var c1 := ReadAll(c, b.read);
    var f := Foresee(b.callback, Now(c1));
    ReadAllConserves(c, b.read);
    ForecastHolds(b.callback, Now(c1), c1.waits, c1);
    if Exec(b.callback, c1).Ok? {
      var r := Exec(b.callback, c1).c;
      ExecKeeps(b.callback, c1);
      ExecContinues(b.callback, c1);
      ClearConserves(r);
      FinishSettles(r.(seen := r.seen + r.rbuf, rbuf := []), f, c1.waits, b.onClosed);
    }
  }

  lemma OnWritableThrowsIff(c: Conn, b: Behaviour)
    requires Open(c) && c.armed == Writing
    ensures var r := OnWritable(c, b.write, b.callback, b.onClosed);
      && (r.Thrown? <==> !Careful(c, ConnWritable, b))
      && (r.Ok? ==> Settled(c, r.c))
  {
    hide Exec, Finish, CompleteWrite, Foresee, EndsWell;
    var c1 := WriteAll(c, b.write);
    WriteAllContinues(c, b.write);
    if c1.wbuf == [] {
      CompleteWriteCases(c1, b.callback);
      var r := CompleteWrite(c1, b.callback);
      if r.Ok? {
        FinishSettles(r.c, Foresee(b.callback, Now(c1)), c1.waits, b.onClosed);
      }
    } else {
      FinishSettles(c1, Now(c1), c1.waits, b.onClosed);
    }
  }

  /** Reporting that all is written: the callback runs unwatched, and what follows is as if it had been watched. */
  lemma CompleteWriteCases(c: Conn, onWrite: Script)
    requires c.armed == Writing && !c.closed
    ensures var f, r, v := Foresee(onWrite, Now(c)), CompleteWrite(c, onWrite), c.(armed := Reading);
      && (r.Thrown? <==> f.fails || f.stalls)
      && (r.Ok? ==> r == Exec(onWrite, v) && Fits(f, c.waits, r.c) && Keeps(v, r.c) && Continues(c, r.c))
  {
    hide Exec, Foresee;
    var v := c.(armed := Reading);
    assert c.(armed := Unarmed).(armed := Reading) == v;
    ExecUnwatched(onWrite, Now(c), c.waits, c.(armed := Unarmed));
    ForecastHolds(onWrite, Now(c), c.waits, v);
    var f := Foresee(onWrite, Now(c));
    if !f.fails && !f.stalls {
      ExecKeeps(onWrite, v);
      ExecContinues(onWrite, v);
      var r := Exec(onWrite, v).c;
      assert r.(armed := Unarmed).(armed := r.armed) == r;
    }
  }

  lemma EstablishCases(c: Conn, onOpen: Script)
    requires c.armed == Unarmed && !c.closed && c.entries == multiset{}
    ensures var f, r := Foresee(onOpen, Now(c)), Establish(c, onOpen);
      var v := c.(armed := Reading, entries := multiset{ConnWritable});
      && (r.Thrown? <==> f.fails || f.stalls || f.closes)
      && (r.Ok? ==>
            && Exec(onOpen, v).Ok? && Exec(onOpen, v).c.armed == Reading && Continues(c, r.c) && !r.c.closed
            && r.c == Exec(onOpen, v).c.(entries := multiset{ConnReadable, ConnWritable}))
  {
    hide Exec, Foresee;
    var c1 := c.(entries := multiset{ConnWritable});
    var v := c.(armed := Reading, entries := multiset{ConnWritable});
    assert c.entries + multiset{ConnWritable} == c1.entries && c1.(armed := Reading) == v;
    ExecUnwatched(onOpen, Now(c), c.waits, c1);
    ForecastHolds(onOpen, Now(c), c.waits, v);
    var f := Foresee(onOpen, Now(c));
    if !f.fails && !f.stalls {
      ExecKeeps(onOpen, v);
      ExecContinues(onOpen, v);
      assert multiset{ConnWritable} + multiset{ConnReadable} == multiset{ConnReadable, ConnWritable};
    }
  }

  lemma OnOpenThrowsIff(c: Conn, e: Entry, b: Behaviour)
    requires Fresh(c) && e in c.entries
    ensures Handle(c, e, b).Thrown? <==> !Careful(c, e, b)
    ensures Handle(c, e, b).Ok? ==> Settled(c, Handle(c, e, b).c)
  {
    hide Exec, Establish, Conserved, Foresee;
    var c1 := c.(armed := Unarmed, entries := multiset{});
    assert Remove(c, true) == Ok(c1) && Now(c1) == Now(c);
    ConservedAlone(c, c1);
    if e == ContWritable ==> b.connected {
      EstablishCases(c1, b.callback);
    }
  }

  lemma ConservedAlone(c: Conn, r: Conn)
    requires r == c.(armed := r.armed, entries := r.entries)
    ensures Conserved(c) == Conserved(r)
  {
  }

  /**
   * on_writable is registered before on_accept so that this may call async_write, but it may not: if
   * the kernel does not take everything at once, async_write stops watching a descriptor that is
   * not watched, and throws.
   */
  lemma AcceptThatWaitsThrows(c: Conn, bytes: seq<byte>, k: WriteKernel, completion: Script, rest: Script, b: Behaviour)
    requires Fresh(c) && c.entries == multiset{AcptWritable}
    requires b.callback == Put(bytes, Send(k, completion, rest)) && k.n < |bytes|
    ensures Handle(c, AcptWritable, b).Thrown?
  {
    hide Handle, Settled;
    OnOpenThrowsIff(c, AcptWritable, b);
    var f := Now(c).(pending := |bytes|);
    assert Foresee(b.callback, Now(c)) == Foresee(Send(k, completion, rest), f);
    StallsStick(rest, ForeseeSend(k, completion, f));
  }

  lemma {:induction false} ResetSticks(s: Script, f: Forecast)
    requires f.reset
    ensures Foresee(s, f).reset
    decreases s
  {
    match s
    case Done =>
    case Put(bytes, rest) => ResetSticks(rest, f.(pending := f.pending + |bytes|));
    case Send(k, completion, rest) =>
      ResetSticks(completion, f.(pending := 0));
      ResetSticks(rest, ForeseeSend(k, completion, f));
    case Close(rest) => ResetSticks(rest, f.(closes := true));
  }

  /**
   * When the read finds the connection at its end, closing it in any callback, on_closed included, throws: the
   * handler then removes what is no longer there.
   */
  lemma ClosingTwiceThrows(c: Conn, b: Behaviour)
    requires Open(c) && c.armed == Reading && b.read.stop in {EndOfFile, ReadReset}
    requires Foresee(b.onClosed, Foresee(b.callback, Now(ReadAll(c, b.read)))).closes
    ensures Handle(c, ConnReadable, b).Thrown?
  {
    hide OnReadable, Settled, Foresee;
    OnReadableThrowsIff(c, b);
    if b.read.stop == ReadReset {
      ResetSticks(b.callback, Now(ReadAll(c, b.read)));
    }
  }

  /**
   * For every kernel and all callbacks, an event throws out of the event loop - by an ADD of an armed
   * descriptor, a DEL of an unarmed one, a use of a closed one, or an error of the kernel's -
   * exactly when it is not careful. Otherwise the connection is open again, watched for one kind of
   * event with each callback registered once, or gone without trace.
   */
  lemma HandleThrowsIff(c: Conn, e: Entry, b: Behaviour)
    requires Ready(c, e)
    ensures Handle(c, e, b).Thrown? <==> !Careful(c, e, b)
    ensures Handle(c, e, b).Ok? ==> Settled(c, Handle(c, e, b).c)
  {
    hide Careful, OnReadable, OnWritable, OnAcptWritable, OnContWritable, Settled;
    if Fresh(c) {
      OnOpenThrowsIff(c, e, b);
    } else if e == ConnReadable {
      OnReadableThrowsIff(c, b);
    } else {
      OnWritableThrowsIff(c, b);
    }
  }

  // ----- what an event does -----

  /** The bytes that the callbacks of an event put, and those that it reads. */
  datatype Moves = Moves(puts: seq<byte>, taken: seq<byte>)

  function Then(a: Moves, b: Moves): Moves {
    Moves(a.puts + b.puts, a.taken + b.taken)
  }

  function EventMoves(c: Conn, e: Entry, b: Behaviour): Moves {
    match e
    case ConnReadable =>
      var c1 := ReadAll(c, b.read);
      var f := Foresee(b.callback, Now(c1));
      Moves(Puts(b.callback, Now(c1)) + (if c1.eof || f.reset then Puts(b.onClosed, f) else []), b.read.data)
    case ConnWritable =>
      var c1 := WriteAll(c, b.write);
      var f := if c1.wbuf == [] then Foresee(b.callback, Now(c1)) else Now(c1);
      Moves((if c1.wbuf == [] then Puts(b.callback, Now(c1)) else [])
            + (if f.eop || f.reset then Puts(b.onClosed, f) else []), [])
    case AcptWritable => Moves(Puts(b.callback, Now(c)), [])
    case ContWritable => Moves(if b.connected then Puts(b.callback, Now(c)) else [], [])
  }

  /** c has become r, having moved those bytes. */
  ghost predicate Moved(c: Conn, r: Conn, m: Moves) {
    r.put == c.put + m.puts && r.received == c.received + m.taken
  }

  lemma MovedOn(c: Conn, r: Conn, t: Conn, a: Moves, b: Moves)
    requires Moved(c, r, a) && Moved(r, t, b)
    ensures Moved(c, t, Then(a, b))
  {
    Associate(c.put, a.puts, b.puts);
    Associate(c.received, a.taken, b.taken);
  }

  lemma CallbackMoves(s: Script, f: Forecast, w: nat, c: Conn)
    requires Sane(c) && Fits(f, w, c) && Exec(s, c).Ok?
    ensures Moved(c, Exec(s, c).c, Moves(Puts(s, f), []))
  {
    PutsHold(s, f, w, c);
    ExecContinues(s, c);
    assert c.received + [] == c.received;
  }

  lemma FinishMoves(c: Conn, f: Forecast, w: nat, onClosed: Script)
    requires Sane(c) && Fits(f, w, c) && Finish(c, onClosed).Ok?
    ensures Moved(c, Finish(c, onClosed).c, Moves(Puts(onClosed, f), [])) && Gone(Finish(c, onClosed).c)
  {
    hide Exec, Puts;
    CallbackMoves(onClosed, f, w, c);
  }

  lemma OnReadableMoves(c: Conn, b: Behaviour)
    requires Open(c) && c.armed == Reading && OnReadable(c, b.read, b.callback, b.onClosed).Ok?
    ensures var r := OnReadable(c, b.read, b.callback, b.onClosed).c;
      var f := Foresee(b.callback, Now(ReadAll(c, b.read)));
      && Moved(c, r, EventMoves(c, ConnReadable, b))
      && (Gone(r) <==> f.closes || ReadAll(c, b.read).eof || f.reset)
      && (!Gone(r) ==> r.armed == if f.stalls then Writing else Reading)
  {
    hide Exec, Puts, Foresee, Finish;
    var c1 := ReadAll(c, b.read);
    var f := Foresee(b.callback, Now(c1));
    assert c.put + [] == c.put;
    assert Moved(c, c1, Moves([], b.read.data));
    ForecastHolds(b.callback, Now(c1), c1.waits, c1);
    CallbackMoves(b.callback, Now(c1), c1.waits, c1);
    ExecKeeps(b.callback, c1);
    ExecContinues(b.callback, c1);
    var r := Exec(b.callback, c1).c;
    var c2 := r.(seen := r.seen + r.rbuf, rbuf := []);
    var p := Puts(b.callback, Now(c1));
    MovedOn(c, c1, c2, Moves([], b.read.data), Moves(p, []));
    assert Then(Moves([], b.read.data), Moves(p, [])) == Moves(p, b.read.data);
    if c1.eof || f.reset {
      FinishMoves(c2, f, c1.waits, b.onClosed);
      MovedOn(c, c2, Finish(c2, b.onClosed).c, Moves(p, b.read.data), Moves(Puts(b.onClosed, f), []));
      assert b.read.data + [] == b.read.data;
    } else {
      assert p + [] == p;
    }
  }

  lemma OnWritableMoves(c: Conn, b: Behaviour)
    requires Open(c) && c.armed == Writing && OnWritable(c, b.write, b.callback, b.onClosed).Ok?
    ensures var r := OnWritable(c, b.write, b.callback, b.onClosed).c;
      var c1 := WriteAll(c, b.write);
      var f := if c1.wbuf == [] then Foresee(b.callback, Now(c1)) else Now(c1);
      && Moved(c, r, EventMoves(c, ConnWritable, b))
      && (Gone(r) <==> f.closes || f.eop || f.reset)
      && (!Gone(r) ==> r.armed == if c1.wbuf == [] then Reading else Writing)
  {
    hide Exec, Puts, Foresee, Finish, CompleteWrite;
    var c1 := WriteAll(c, b.write);
    var f := if c1.wbuf == [] then Foresee(b.callback, Now(c1)) else Now(c1);
    var p := if c1.wbuf == [] then Puts(b.callback, Now(c1)) else [];
    assert c.put + [] == c.put && c.received + [] == c.received;
    var c2 := if c1.wbuf == [] then CompleteWrite(c1, b.callback).c else c1;
    if c1.wbuf == [] {
      CompleteWriteCases(c1, b.callback);
      var v := c1.(armed := Reading);
      CallbackMoves(b.callback, Now(c1), c1.waits, v);
    }
    assert Moved(c, c2, Moves(p, []));
    if f.eop || f.reset {
      FinishMoves(c2, f, c1.waits, b.onClosed);
      MovedOn(c, c2, Finish(c2, b.onClosed).c, Moves(p, []), Moves(Puts(b.onClosed, f), []));
    } else {
      assert p + [] == p;
    }
  }

  lemma OnOpenMoves(c: Conn, e: Entry, b: Behaviour)
    requires Fresh(c) && e in c.entries && Handle(c, e, b).Ok?
    ensures var r := Handle(c, e, b).c;
      && Moved(c, r, EventMoves(c, e, b))
      && (Gone(r) <==> e == ContWritable && !b.connected)
      && (!Gone(r) ==> r.armed == Reading)
  {
    hide Exec, Puts, Foresee, Establish;
    var c1 := c.(armed := Unarmed, entries := multiset{});
    assert Remove(c, true) == Ok(c1) && Now(c1) == Now(c);
    assert c.put + [] == c.put && c.received + [] == c.received;
    if e == ContWritable ==> b.connected {
      EstablishCases(c1, b.callback);
      CallbackMoves(b.callback, Now(c), c.waits, c1.(armed := Reading, entries := multiset{ConnWritable}));
    }
  }

  /**
   * An event moves exactly the bytes that its callbacks' texts and the kernel say: what was put is
   * followed by what the callbacks put, what was received by what was read, each in order.
   */
  lemma HandleMoves(c: Conn, e: Entry, b: Behaviour)
    requires Ready(c, e) && Handle(c, e, b).Ok?
    ensures Moved(c, Handle(c, e, b).c, EventMoves(c, e, b))
  {
    hide EventMoves, OnReadable, OnWritable, OnAcptWritable, OnContWritable, Moved;
    if Fresh(c) {
      OnOpenMoves(c, e, b);
    } else if e == ConnReadable {
      OnReadableMoves(c, b);
    } else {
      OnWritableMoves(c, b);
    }
  }

  /** A descriptor is in epoll at most once: what one call does the other undoes, and neither works twice. */
  lemma WatchedOnce(c: Conn, i: Interest, j: Interest)
    requires !c.closed && i != Unarmed
    ensures EpollAdd(c, i).Ok? <==> EpollDel(c).Thrown?
    ensures EpollAdd(c, i).Ok? ==>
      EpollAdd(EpollAdd(c, i).c, j).Thrown? && EpollDel(EpollAdd(c, i).c) == Ok(c) && EpollAdd(c, i).c.armed == i
    ensures EpollDel(c).Ok? ==>
      EpollDel(EpollDel(c).c).Thrown? && EpollAdd(EpollDel(c).c, c.armed) == Ok(c)
  {
  }

  // ----- nothing is stranded -----

  lemma ReadStrandsNothing(c: Conn, b: Behaviour)
    requires Open(c) && c.armed == Reading && NotStranded(c) && Flushes(b.callback)
    ensures var r := OnReadable(c, b.read, b.callback, b.onClosed);
      && (r.Ok? ==> Gone(r.c) || NotStranded(r.c))
      && (r.Ok? && SendsLast(b.callback) ==> Gone(r.c) || Tight(r.c))
  {
    hide Exec, Flushes, SendsLast, SoonSends;
    var c1 := ReadAll(c, b.read);
    if Exec(b.callback, c1).Ok? {
      ExecKeeps(b.callback, c1);
      ExecFlushes(b.callback, c1);
      if SendsLast(b.callback) {
        ExecTight(b.callback, c1);
      }
    }
  }

  lemma WriteStrandsNothing(c: Conn, b: Behaviour)
    requires Open(c) && c.armed == Writing && Flushes(b.callback)
    ensures var r := OnWritable(c, b.write, b.callback, b.onClosed); r.Ok? ==> Gone(r.c) || Tight(r.c)
  {
    hide Exec, Flushes, SoonSends, CompleteWrite, Foresee, Conserved;
    var c1 := WriteAll(c, b.write);
    if c1.wbuf == [] {
      CompleteWriteCases(c1, b.callback);
      ExecFlushes(b.callback, c1.(armed := Reading));
    }
  }

  lemma OpenStrandsNothing(c: Conn, e: Entry, b: Behaviour)
    requires Fresh(c) && e in c.entries && Flushes(b.callback)
    ensures var r := Handle(c, e, b); r.Ok? ==> Gone(r.c) || Tight(r.c)
  {
    hide Exec, Establish, Flushes, Conserved, SoonSends, Foresee;
    var c1 := c.(armed := Unarmed, entries := multiset{});
    assert Remove(c, true) == Ok(c1);
    if e == ContWritable ==> b.connected {
      EstablishCases(c1, b.callback);
      ExecFlushes(b.callback, c1.(armed := Reading, entries := multiset{ConnWritable}));
    }
  }

  /**
   * If every put is followed by an async_write, no event strands a byte, whatever the kernel does.
   * If moreover one async_write comes last, output is pending exactly when writable is watched for.
   */
  lemma HandleStrandsNothing(c: Conn, e: Entry, b: Behaviour)
    requires Ready(c, e) && NotStranded(c) && Flushes(b.callback)
    ensures var r := Handle(c, e, b);
      && (r.Ok? ==> Gone(r.c) || NotStranded(r.c))
      && (r.Ok? && (e != ConnReadable || SendsLast(b.callback)) ==> Gone(r.c) || Tight(r.c))
  {
    hide OnReadable, OnWritable, OnAcptWritable, OnContWritable, Flushes, SendsLast;
    if Fresh(c) {
      OpenStrandsNothing(c, e, b);
    } else if e == ConnReadable {
      ReadStrandsNothing(c, b);
    } else {
      WriteStrandsNothing(c, b);
    }
  }
}
