/**
 * The logger of src/lib/async_logger.cc: threads append to the current of two buffers and hold a
 * recursive lock from the first piece of a line to its end; the backend swaps the buffers under
 * the lock and writes the other one out without it.
 */
module AsyncLoggers {
  import ByteBuffer
  import opened Wrappers

  type Text = seq<ByteBuffer.byte>

  const NEWLINE: Text := [10]

  /** One line: who logged it, its header, and what was logged piece by piece. */
  datatype Message = Message(thread: nat, header: Text, pieces: seq<Text>)

  /**
   * Where the backend is: at the test of its loop; about to lock; in cond_.wait with the lock, having found
   * nothing to do; asleep there; taken out of its sleep and about to lock again; out of the lock with
   * the buffer to write; about to clear it; out of its loop.
   */
  datatype Backend =
    Top | Entering | Checked | Asleep | Notified | Swapped(prev: nat) | Written(prev: nat) | Exited

  /**
   * The fields down to backend are the program's, with the owner and depth of the recursive lock; out
   * is what the kernel has accepted, and notifies the number of calls of notify_one that threads are
   * about to make. The rest is history: the bytes it did not accept, the bytes
   * passed to write, the lines completed in the order of the lock, the line that is open, and how
   * many lines there were at the last swap.
   */
  datatype State = State(
    bufs: seq<Text>, curr: nat, owner: Option<nat>, depth: nat, recur: nat, stop: bool, backend: Backend, out: Text,
    notifies: nat, lost: nat, handed: Text, messages: seq<Message>, open: Option<Message>, mark: nat)

  /**
   * Piece and EndLine are operator<<, the latter up to its notify_one, which is a Notify; so is that of the
   * destructor after SetStop. header is what write_header would write; Flush(k) has k bytes accepted.
   */
  datatype Step =
    | Piece(t: nat, header: Text, text: Text)
    | EndLine(t: nat, header: Text)
    | SetStop
    | Notify
    | Test
    | Enter
    | Sleep
    | Spurious
    | Recheck
    | Flush(k: nat)
    | Clear

  ghost function Init(): State {
    State([[], []], 0, None, 0, 0, false, Top, [], 0, 0, [], [], None, 0)
  }

  /** A thread gets the lock if nobody, or it itself, holds it; notifying needs no lock. */
  ghost predicate Enabled(s: State, step: Step) {
    match step
    case Piece(t, _, _) => s.owner in {None, Some(t)} && s.backend != Checked
    case EndLine(t, _) => s.owner in {None, Some(t)} && s.backend != Checked
    case SetStop => true
    case Notify => s.notifies > 0
    case Test => s.backend == Top
    case Enter => s.backend == Entering && s.owner == None
    case Sleep => s.backend == Checked
    case Spurious => s.backend == Asleep
    case Recheck => s.backend == Notified && s.owner == None
    case Flush(k) => s.backend.Swapped? && s.backend.prev < |s.bufs| && k <= |s.bufs[s.backend.prev]|
    case Clear => s.backend.Written?
  }

  function Extend(open: Option<Message>, t: nat, header: Text, text: Text): Message {
    if open.None? then Message(t, header, [text]) else open.value.(pieces := open.value.pieces + [text])
  }

  /** put_string on one of the two buffers. */
  ghost function Append(bufs: seq<Text>, i: nat, text: Text): seq<Text> {
    if i < |bufs| then bufs[i := bufs[i] + text] else bufs
  }

  /** operator<<(const char *): the lock is taken once more and kept. */
  ghost function Put(s: State, t: nat, header: Text, text: Text): State {
    var bufs := if s.recur == 0 then Append(s.bufs, s.curr, header) else s.bufs;
    s.(owner := Some(t), depth := s.depth + 1, recur := s.recur + 1, bufs := Append(bufs, s.curr, text),
       open := Some(Extend(s.open, t, header, text)))
  }

  /** The end of a line releases the lock as often as recur_level_ says. */
  ghost function Release(s: State): State
    requires s.open.Some?
  {
    s.(recur := 0, depth := if s.depth > s.recur then s.depth - s.recur else 0,
       owner := if s.depth > s.recur then s.owner else None,
       messages := s.messages + [s.open.value], open := None, notifies := s.notifies + 1)
  }

  ghost function Swap(s: State): State {
    s.(backend := Swapped(s.curr), curr := if s.curr == 0 then 1 else 0, mark := |s.messages|)
  }

  ghost predicate HasText(s: State) {
    s.curr < |s.bufs| && s.bufs[s.curr] != []
  }

  /** With the lock: swap if there is something to do. */
  ghost function Look(s: State): State {
    if HasText(s) || s.stop then Swap(s) else s.(backend := Checked)
  }

  ghost function Next(s: State, step: Step): State
    requires Enabled(s, step)
  {
    match step
    case Piece(t, header, text) => Put(s, t, header, text)
    case EndLine(t, header) => Release(Put(s, t, header, NEWLINE))
    case SetStop => s.(stop := true, notifies := s.notifies + 1)
    case Notify => s.(notifies := s.notifies - 1, backend := if s.backend == Asleep then Notified else s.backend)
    case Test => s.(backend := if s.stop then Exited else Entering)
    case Enter => Look(s)
    case Sleep => s.(backend := Asleep)
    case Spurious => s.(backend := Notified)
    case Recheck => Look(s)
    case Flush(k) =>
      var text := s.bufs[s.backend.prev];
      if text == [] then s.(backend := Top)
      else
        s.(backend := Written(s.backend.prev), out := s.out + text[..k], lost := s.lost + |text| - k,
           handed := s.handed + text)
    case Clear =>
      s.(backend := Top, bufs := if s.backend.prev < |s.bufs| then s.bufs[s.backend.prev := []] else s.bufs)
  }

  // ----- what lines look like -----

  ghost function Concat(pieces: seq<Text>): Text {
    if pieces == [] then [] else Concat(pieces[..|pieces| - 1]) + pieces[|pieces| - 1]
  }

  ghost function Render(m: Message): Text {
    m.header + Concat(m.pieces)
  }

  ghost function RenderAll(ms: seq<Message>): Text {
    if ms == [] then [] else RenderAll(ms[..|ms| - 1]) + Render(ms[|ms| - 1])
  }

  ghost function Partial(open: Option<Message>): Text {
    if open.None? then [] else Render(open.value)
  }

  lemma Associate(a: Text, b: Text, c: Text)
    ensures (a + b) + c == a + (b + c)
  {
  }

  lemma RenderExtend(open: Option<Message>, t: nat, header: Text, text: Text)
    ensures Render(Extend(open, t, header, text)) == (if open.None? then header else Render(open.value)) + text
  {
    if open.None? {
      assert [text][..0] == [];
      assert Concat([]) == [] && Concat([text]) == [] + text == text;
    } else {
      var p := open.value.pieces;
      assert (p + [text])[..|p|] == p;
      Associate(open.value.header, Concat(p), text);
    }
  }

  lemma RenderAllSnoc(ms: seq<Message>, m: Message)
    ensures RenderAll(ms + [m]) == RenderAll(ms) + Render(m)
  {
  }

  lemma {:induction false} RenderAllSplit(ms: seq<Message>, k: nat)
    requires k <= |ms|
    ensures RenderAll(ms) == RenderAll(ms[..k]) + RenderAll(ms[k..])
    decreases |ms|
  {
    if k == |ms| {
      assert ms[..k] == ms && ms[k..] == [];
    } else {
      var n := |ms| - 1;
      RenderAllSplit(ms[..n], k);
      assert ms[..n][..k] == ms[..k];
      assert ms[k..] == ms[..n][k..] + [ms[n]];
      RenderAllSnoc(ms[..n][k..], ms[n]);
      Associate(RenderAll(ms[..k]), RenderAll(ms[..n][k..]), Render(ms[n]));
    }
  }

  ghost predicate EndsInNewline(text: Text) {
    text != [] && text[|text| - 1] as int == '\n' as int
  }

  // ----- what every step keeps -----

  /** recur_level_ is the depth of the lock, and a line is open exactly while the lock is held. */
  ghost predicate Locked(s: State) {
    && s.depth == s.recur
    && (s.owner.Some? <==> s.depth > 0)
    && (s.open.Some? <==> s.depth > 0)
    && (s.open.Some? ==> s.owner == Some(s.open.value.thread))
    && (s.backend == Checked ==> s.owner == None)
  }

  /** The buffer that is written out is not the one that is appended to, and is otherwise empty. */
  ghost predicate Separate(s: State) {
    && |s.bufs| == 2 && s.curr < 2
    && (s.backend.Swapped? || s.backend.Written? ==> s.backend.prev == 1 - s.curr)
    && (!s.backend.Swapped? && !s.backend.Written? ==> s.bufs[1 - s.curr] == [])
  }

  /** What has left the current buffer ends with a whole line, and the current buffer goes on from there. */
  ghost predicate Whole(s: State)
    requires Separate(s)
  {
    && s.mark <= |s.messages|
    && s.handed + (if s.backend.Swapped? then s.bufs[s.backend.prev] else []) == RenderAll(s.messages[..s.mark])
    && s.bufs[s.curr] == RenderAll(s.messages[s.mark..]) + Partial(s.open)
  }

  /** Bytes are missing from the output as soon as one write was not accepted in full. */
  ghost predicate Accounted(s: State) {
    |s.out| + s.lost == |s.handed| && (s.lost == 0 ==> s.out == s.handed)
  }

  /** The line has been ended by the newline, its last piece. */
  ghost predicate Ended(m: Message) {
    m.pieces != [] && m.pieces[|m.pieces| - 1] == NEWLINE
  }

  ghost predicate AllEnded(ms: seq<Message>) {
    forall i :: 0 <= i < |ms| ==> Ended(ms[i])
  }

  /** While the backend sleeps, or is about to, no line is left for it unless somebody is about to notify it. */
  ghost predicate Roused(s: State) {
    && (s.backend == Checked ==> s.mark == |s.messages|)
    && (s.backend == Asleep ==> s.mark == |s.messages| || s.notifies > 0)
    && (s.backend == Exited ==> s.stop)
  }

  ghost predicate Inv(s: State) {
    Locked(s) && Separate(s) && Whole(s) && Accounted(s) && AllEnded(s.messages) && Roused(s)
  }

  lemma InitKeeps()
    ensures Inv(Init())
  {
  }

  lemma PutKeeps(s: State, t: nat, header: Text, text: Text)
    requires Inv(s) && s.owner in {None, Some(t)} && s.backend != Checked
    ensures Inv(Put(s, t, header, text))
  {
    RenderExtend(s.open, t, header, text);
    var before := RenderAll(s.messages[s.mark..]);
    if s.open.None? {
      assert before + [] == before;
      Associate(before, header, text);
    } else {
      Associate(before, Render(s.open.value), text);
    }
    hide RenderAll, Render, Extend;
  }

  lemma ReleaseWhole(s: State)
    requires Separate(s) && Whole(s) && s.open.Some?
    ensures Separate(Release(s)) && Whole(Release(s))
  {
    hide RenderAll, Render;
    var m, r := s.open.value, Release(s);
    assert r.messages[..s.mark] == s.messages[..s.mark];
    assert r.messages[s.mark..] == s.messages[s.mark..] + [m];
    RenderAllSnoc(s.messages[s.mark..], m);
    assert RenderAll(r.messages[s.mark..]) + [] == RenderAll(r.messages[s.mark..]);
  }

  lemma ReleaseKeeps(s: State)
    requires Inv(s) && s.open.Some? && Ended(s.open.value) && s.backend != Checked
    ensures Inv(Release(s))
  {
    hide Whole, Ended;
    ReleaseWhole(s);
  }

  lemma SwapKeeps(s: State)
    requires Inv(s) && s.owner == None && s.backend in {Entering, Notified}
    ensures Inv(Swap(s))
  {
    RenderAllSplit(s.messages, s.mark);
    assert s.messages[..|s.messages|] == s.messages && s.messages[|s.messages|..] == [];
    assert s.handed + [] == s.handed;
    assert s.bufs[s.curr] + [] == s.bufs[s.curr];
    assert RenderAll([]) + [] == [];
    assert s.bufs[s.curr] == RenderAll(s.messages[s.mark..]);
  }

  lemma FlushKeeps(s: State, k: nat)
    requires Inv(s) && Enabled(s, Flush(k))
    ensures Inv(Next(s, Flush(k)))
  {
    hide RenderAll, Partial, Ended, Accounted;
    var text := s.bufs[s.backend.prev];
    assert (s.handed + text) + [] == s.handed + text;
    FlushAccounted(s, k);
  }

  lemma FlushAccounted(s: State, k: nat)
    requires Accounted(s) && Enabled(s, Flush(k))
    ensures Accounted(Next(s, Flush(k)))
  {
    var text := s.bufs[s.backend.prev];
    if k == |text| {
      assert text[..k] == text;
    }
  }

  lemma ClearKeeps(s: State)
    requires Inv(s) && s.backend.Written?
    ensures Inv(Next(s, Clear))
  {
    hide RenderAll, Partial, Ended;
  }

  lemma TestKeeps(s: State)
    requires Inv(s) && s.backend == Top
    ensures Inv(Next(s, Test))
  {
    hide RenderAll, Partial, Ended;
  }

  lemma LookKeeps(s: State)
    requires Inv(s) && s.owner == None && s.backend in {Entering, Notified}
    ensures Inv(Look(s))
  {
    hide RenderAll, Ended;
    if HasText(s) || s.stop {
      SwapKeeps(s);
    } else {
      EndedRenderAll(s.messages[s.mark..]);
      assert RenderAll(s.messages[s.mark..]) + [] == RenderAll(s.messages[s.mark..]);
    }
  }

  lemma StopKeeps(s: State)
    requires Inv(s)
    ensures Inv(Next(s, SetStop))
  {
    hide RenderAll, Partial, Ended;
  }

  lemma WakeKeeps(s: State, step: Step)
    requires Inv(s) && Enabled(s, step) && step in {Notify, Sleep, Spurious}
    ensures Inv(Next(s, step))
  {
    hide RenderAll, Partial, Ended;
  }

  lemma PutEnds(s: State, t: nat, header: Text)
    ensures var r := Put(s, t, header, NEWLINE); r.open.Some? && Ended(r.open.value) && r.backend == s.backend
  {
  }

  lemma NextKeeps(s: State, step: Step)
    requires Enabled(s, step) && Inv(s)
    ensures Inv(Next(s, step))
  {
    hide Inv, Put, Release, Look;
    match step
    case Piece(t, header, text) => PutKeeps(s, t, header, text);
    case EndLine(t, header) =>
      PutKeeps(s, t, header, NEWLINE);
      PutEnds(s, t, header);
      ReleaseKeeps(Put(s, t, header, NEWLINE));
    case SetStop => StopKeeps(s);
    case Test => TestKeeps(s);
    case Enter => LookKeeps(s);
    case Recheck => LookKeeps(s);
    case Notify => WakeKeeps(s, step);
    case Sleep => WakeKeeps(s, step);
    case Spurious => WakeKeeps(s, step);
    case Flush(k) => FlushKeeps(s, k);
    case Clear => ClearKeeps(s);
  }

  // ----- whole runs -----

  ghost predicate Possible(steps: seq<Step>)
    decreases |steps|, 0
  {
    steps != [] ==> Possible(steps[..|steps| - 1]) && Enabled(Run(steps[..|steps| - 1]), steps[|steps| - 1])
  }

  ghost function Run(steps: seq<Step>): State
    requires Possible(steps)
    decreases |steps|, 1
  {
    if steps == [] then Init() else Next(Run(steps[..|steps| - 1]), steps[|steps| - 1])
  }

  lemma {:induction false} RunKeeps(steps: seq<Step>)
    requires Possible(steps)
    ensures Inv(Run(steps))
  {
    if steps == [] {
      InitKeeps();
    } else {
      RunKeeps(steps[..|steps| - 1]);
      NextKeeps(Run(steps[..|steps| - 1]), steps[|steps| - 1]);
    }
  }

  lemma EndedRender(m: Message)
    requires Ended(m)
    ensures EndsInNewline(Render(m))
  {
    var front := Concat(m.pieces[..|m.pieces| - 1]);
    assert Render(m) == m.header + (front + NEWLINE);
  }

  /** One or more ended lines render to a text that ends in a newline; none to nothing. */
  lemma EndedRenderAll(ms: seq<Message>)
    requires AllEnded(ms)
    ensures if ms == [] then RenderAll(ms) == [] else EndsInNewline(RenderAll(ms))
  {
    hide Render, Ended;
    if ms != [] {
      EndedRender(ms[|ms| - 1]);
    }
  }

  /** The text still to be written by the backend after its swap. */
  ghost function Flushing(s: State): Text
    requires Separate(s)
  {
    if s.backend.Swapped? then s.bufs[s.backend.prev] else []
  }

  /** In every write so far, the kernel has accepted all it was given. */
  ghost predicate NoShortWrite(steps: seq<Step>)
    requires Possible(steps)
    decreases |steps|
  {
    steps != [] ==>
      var before, last := steps[..|steps| - 1], steps[|steps| - 1];
      && NoShortWrite(before)
      && (last.Flush? ==> last.k == |Run(before).bufs[Run(before).backend.prev]|)
  }

  lemma {:induction false} LostIff(steps: seq<Step>)
    requires Possible(steps)
    ensures Run(steps).lost == 0 <==> NoShortWrite(steps)
    decreases |steps|
  {
    if steps != [] {
      LostIff(steps[..|steps| - 1]);
    }
  }

  /**
   * In every interleaving: what the kernel has accepted, the buffer being written and the current
   * buffer hold the completed lines in the order of the lock and then the open line, exactly if no
   * write was cut short.
   */
  lemma NothingLostIff(steps: seq<Step>)
    requires Possible(steps)
    ensures var s := Run(steps);
      && Separate(s)
      && (s.out + Flushing(s) + s.bufs[s.curr] == RenderAll(s.messages) + Partial(s.open) <==> NoShortWrite(steps))
  {
    hide RenderAll, Partial, Run, Possible, NoShortWrite;
    RunKeeps(steps);
    LostIff(steps);
    var s := Run(steps);
    RenderAllSplit(s.messages, s.mark);
    Associate(RenderAll(s.messages[..s.mark]), RenderAll(s.messages[s.mark..]), Partial(s.open));
    assert s.handed + Flushing(s) + s.bufs[s.curr] == RenderAll(s.messages) + Partial(s.open);
    if s.lost != 0 {
      assert |s.out + Flushing(s) + s.bufs[s.curr]| != |s.handed + Flushing(s) + s.bufs[s.curr]|;
    }
  }

  lemma RunSnoc(steps: seq<Step>, step: Step)
    requires Possible(steps) && Enabled(Run(steps), step)
    ensures Possible(steps + [step]) && Run(steps + [step]) == Next(Run(steps), step)
  {
    assert (steps + [step])[..|steps|] == steps;
  }

  /** A line, swapped out, of which the kernel accepts k bytes. */
  lemma ShortWrite(header: Text, k: nat) returns (s1: State, s2: State, s3: State, s4: State, s5: State)
    requires k <= |header|
    ensures s1 == Next(Init(), EndLine(0, header))
    ensures Enabled(s1, Test) && s2 == Next(s1, Test)
    ensures Enabled(s2, Enter) && s3 == Next(s2, Enter)
    ensures Enabled(s3, Flush(k)) && s4 == Next(s3, Flush(k))
    ensures Enabled(s4, Clear) && s5 == Next(s4, Clear)
    ensures s5.bufs == [[], []] && s5.out == header[..k] && s5.lost > 0
    ensures s5.messages == [Message(0, header, [NEWLINE])]
  {
    var text := header + NEWLINE;
    assert [] + header == header && [] + text[..k] == header[..k];
    s1 := Next(Init(), EndLine(0, header));
    assert s1.bufs == [text, []];
    s2 := Next(s1, Test);
    s3 := Next(s2, Enter);
    s4 := Next(s3, Flush(k));
    s5 := Next(s4, Clear);
  }

  /** A write that the kernel cuts short loses the end of a line. */
  lemma ShortWriteLosesText(header: Text, k: nat)
    requires k <= |header|
    ensures var steps := [EndLine(0, header)] + [Test] + [Enter] + [Flush(k)] + [Clear];
      && Possible(steps) && !NoShortWrite(steps)
      && var s := Run(steps); s.bufs == [[], []] && s.out == header[..k] && RenderAll(s.messages) == header + NEWLINE
  {
    assert Possible([]) && Run([]) == Init();
    hide Run, Possible, RenderAll, NoShortWrite, Next, Init, Render;
    var s1, s2, s3, s4, s5 := ShortWrite(header, k);
    var a := [EndLine(0, header)];
    assert a == [] + a && Enabled(Init(), EndLine(0, header)) by {
      InitEnables(header);
    }
    RunSnoc([], EndLine(0, header));
    RunSnoc(a, Test);
    RunSnoc(a + [Test], Enter);
    RunSnoc(a + [Test] + [Enter], Flush(k));
    RunSnoc(a + [Test] + [Enter] + [Flush(k)], Clear);
    LostIff(a + [Test] + [Enter] + [Flush(k)] + [Clear]);
    RenderOne(header);
  }

  lemma InitEnables(header: Text)
    ensures Enabled(Init(), EndLine(0, header))
  {
  }

  lemma RenderOne(header: Text)
    ensures RenderAll([Message(0, header, [NEWLINE])]) == header + NEWLINE
  {
    var m := Message(0, header, [NEWLINE]);
    RenderExtend(None, 0, header, NEWLINE);
    RenderAllSnoc([], m);
    assert [] + [m] == [m] && [] + (header + NEWLINE) == header + NEWLINE;
  }

  /**
   * Whatever is given to write ends with a whole line: the bytes handed over so far, and again those
   * with the buffer that is about to be written, are some number of completed lines, each ended by
   * its newline.
   */
  lemma FlushesEndOnLines(steps: seq<Step>)
    requires Possible(steps)
    ensures var s := Run(steps);
      && Separate(s) && s.mark <= |s.messages| && AllEnded(s.messages)
      && s.handed + Flushing(s) == RenderAll(s.messages[..s.mark])
      && (s.lost == 0 ==> s.out + Flushing(s) == RenderAll(s.messages[..s.mark]))
      && (s.handed + Flushing(s) == [] || EndsInNewline(s.handed + Flushing(s)))
  {
    hide Run, Possible, RenderAll, Ended;
    RunKeeps(steps);
    var s := Run(steps);
    EndedRenderAll(s.messages[..s.mark]);
  }

  /** The backend holds the buffers swapped only while no line is open, and what it writes nobody appends to. */
  lemma WritersNeverTouchFlushed(steps: seq<Step>, step: Step)
    requires Possible(steps) && Enabled(Run(steps), step)
    requires Run(steps).backend.Swapped? || Run(steps).backend.Written?
    ensures var s, r := Run(steps), Next(Run(steps), step);
      && Separate(s) && |r.bufs| == 2 && s.backend.prev < 2
      && (step.Piece? || step.EndLine? ==> r.bufs[s.backend.prev] == s.bufs[s.backend.prev] && r.curr != s.backend.prev)
  {
    hide Run, Possible, RenderAll, Render, Next, Whole, AllEnded;
    RunKeeps(steps);
    AppendsKeepFlushed(Run(steps), step);
  }

  lemma AppendsKeepFlushed(s: State, step: Step)
    requires Enabled(s, step) && Locked(s) && Separate(s) && (s.backend.Swapped? || s.backend.Written?)
    ensures var r := Next(s, step);
      && |r.bufs| == 2
      && (step.Piece? || step.EndLine? ==> r.bufs[s.backend.prev] == s.bufs[s.backend.prev] && r.curr != s.backend.prev)
  {
  }

  /** The lock is held as often as recur_level_ says, and the buffers are swapped only between lines. */
  lemma LockAccounting(steps: seq<Step>, step: Step)
    requires Possible(steps) && Enabled(Run(steps), step)
    ensures var s, r := Run(steps), Next(Run(steps), step);
      && s.depth == s.recur
      && (step.EndLine? ==> r.depth == r.recur == 0 && r.owner == None)
      && (r.curr != s.curr ==> s.depth == 0 && s.open == None)
  {
    RunKeeps(steps);
  }

  // ----- lines are atomic -----

  /** What one thread has logged, by its own calls alone: its lines, and the line it has not ended. */
  datatype Log = Log(lines: seq<Message>, pending: Option<Message>)

  ghost function OwnStep(own: Log, step: Step, t: nat): Log {
    match step
    case Piece(v, header, text) =>
      if v == t then own.(pending := Some(Extend(own.pending, t, header, text))) else own
    case EndLine(v, header) =>
      if v == t then Log(own.lines + [Extend(own.pending, t, header, NEWLINE)], None) else own
    case _ => own
  }

  ghost function OwnLog(steps: seq<Step>, t: nat): Log {
    if steps == [] then Log([], None) else OwnStep(OwnLog(steps[..|steps| - 1], t), steps[|steps| - 1], t)
  }

  ghost function LinesOf(ms: seq<Message>, t: nat): seq<Message> {
    if ms == [] then []
    else LinesOf(ms[..|ms| - 1], t) + (if ms[|ms| - 1].thread == t then [ms[|ms| - 1]] else [])
  }

  /** The log of thread t as the program has it. */
  ghost function LogOf(s: State, t: nat): Log {
    Log(LinesOf(s.messages, t), if s.owner == Some(t) then s.open else None)
  }

  lemma StepIsOwnStep(s: State, step: Step, t: nat)
    requires Enabled(s, step) && Locked(s)
    ensures LogOf(Next(s, step), t) == OwnStep(LogOf(s, t), step, t)
  {
  }

  /**
   * Lines are atomic: in every interleaving, the completed lines of a thread are those that its own
   * calls spell out, each with one header and all its pieces up to the newline, in its order; so
   * the output, which consists of completed lines, interleaves whole lines only.
   */
  lemma {:induction false} LinesAreAtomic(steps: seq<Step>, t: nat)
    requires Possible(steps)
    ensures LogOf(Run(steps), t) == OwnLog(steps, t)
  {
    if steps != [] {
      var before := steps[..|steps| - 1];
      LinesAreAtomic(before, t);
      RunKeeps(before);
      StepIsOwnStep(Run(before), steps[|steps| - 1], t);
      hide Next, LogOf, OwnStep, Separate, Whole, Accounted, Locked;
    }
  }

  /** What the calls of one thread spell out, as text, and whether they have left a line open. */
  datatype Spelled = Spelled(text: Text, open: bool)

  ghost function SpelledOut(steps: seq<Step>, t: nat): Spelled {
    if steps == [] then Spelled([], false)
    else
      var before, last := SpelledOut(steps[..|steps| - 1], t), steps[|steps| - 1];
      match last
      case Piece(v, header, text) =>
        if v == t then Spelled(before.text + (if before.open then [] else header) + text, true) else before
      case EndLine(v, header) =>
        if v == t then Spelled(before.text + (if before.open then [] else header) + ['\n' as ByteBuffer.byte], false)
        else before
      case _ => before
  }

  ghost function LogText(own: Log): Spelled {
    Spelled(RenderAll(own.lines) + Partial(own.pending), own.pending.Some?)
  }

  lemma OwnStepSpells(own: Log, t: nat, header: Text, text: Text)
    ensures var m := Extend(own.pending, t, header, text);
      RenderAll(own.lines) + Render(m) == LogText(own).text + (if own.pending.Some? then [] else header) + text
  {
    hide RenderAll, Render;
    RenderExtend(own.pending, t, header, text);
    var before := RenderAll(own.lines);
    if own.pending.None? {
      assert before + [] == before;
      Associate(before, header, text);
    } else {
      var p := Render(own.pending.value);
      assert (before + p) + [] == before + p;
      Associate(before, p, text);
    }
  }

  /** The lines of a thread's own log are, as text, what its calls spell out: pieces, headers and newlines. */
  lemma {:induction false} LogIsSpelledOut(steps: seq<Step>, t: nat)
    ensures LogText(OwnLog(steps, t)) == SpelledOut(steps, t)
  {
    if steps == [] {
      assert RenderAll([]) + [] == [];
    } else {
      var own, last := OwnLog(steps[..|steps| - 1], t), steps[|steps| - 1];
      LogIsSpelledOut(steps[..|steps| - 1], t);
      hide RenderAll, Render, Extend;
      if last.Piece? && last.t == t {
        OwnStepSpells(own, t, last.header, last.text);
      } else if last.EndLine? && last.t == t {
        OwnStepSpells(own, t, last.header, NEWLINE);
        var m := Extend(own.pending, t, last.header, NEWLINE);
        RenderAllSnoc(own.lines, m);
        assert RenderAll(own.lines + [m]) + [] == RenderAll(own.lines + [m]);
      }
    }
  }

  // ----- waking the backend -----

  lemma RunLast(before: seq<Step>, after: seq<Step>)
    requires Possible(before + after) && after != []
    ensures var n := |after| - 1;
      && Possible(before + after[..n]) && Enabled(Run(before + after[..n]), after[n])
      && Run(before + after) == Next(Run(before + after[..n]), after[n])
  {
    hide Run, Possible, Next, Enabled;
    var all := before + after;
    RunUnfold(all);
    assert all[..|all| - 1] == before + after[..|after| - 1] && all[|all| - 1] == after[|after| - 1];
  }

  lemma RunUnfold(steps: seq<Step>)
    requires Possible(steps) && steps != []
    ensures var n := |steps| - 1;
      && Possible(steps[..n]) && Enabled(Run(steps[..n]), steps[n])
      && Run(steps) == Next(Run(steps[..n]), steps[n])
  {
    hide Next, Enabled;
  }

  lemma {:induction false} PrefixIsPossible(before: seq<Step>, after: seq<Step>)
    requires Possible(before + after)
    ensures Possible(before)
    decreases |after|
  {
    var all := before + after;
    if after == [] {
      assert all == before;
    } else {
      assert all[..|all| - 1] == before + after[..|after| - 1];
      PrefixIsPossible(before, after[..|after| - 1]);
    }
  }

  /** Whenever no line is open, a sleeping backend with text to write is about to be notified. */
  lemma NoLineIsSleptThrough(steps: seq<Step>)
    requires Possible(steps) && Run(steps).backend == Asleep && Run(steps).owner == None
    ensures var s := Run(steps); s.curr < |s.bufs| && (s.bufs[s.curr] != [] ==> s.notifies > 0)
  {
    hide Run, Possible, RenderAll, Ended;
    RunKeeps(steps);
    var s := Run(steps);
    EndedRenderAll(s.messages[s.mark..]);
    assert RenderAll(s.messages[s.mark..]) + [] == RenderAll(s.messages[s.mark..]);
  }

  /** The backend's own steps, and those of notifying threads. */
  ghost predicate OfBackend(step: Step) {
    step in {Notify, Test, Enter, Sleep, Recheck, Clear} || step.Flush?
  }

  /** The backend can do nothing, and nobody is about to notify it. */
  ghost predicate Stuck(s: State) {
    forall step :: OfBackend(step) ==> !Enabled(s, step)
  }

  /** So, and nobody holds the lock. */
  ghost predicate AtRest(s: State) {
    s.owner == None && Stuck(s)
  }

  lemma RestingBackend(s: State)
    requires Inv(s) && AtRest(s)
    ensures s.notifies == 0 && s.backend in {Asleep, Exited}
  {
    hide Whole, AllEnded, Accounted;
    assert !Enabled(s, Notify) && !Enabled(s, Test) && !Enabled(s, Enter) && !Enabled(s, Sleep);
    assert !Enabled(s, Recheck) && !Enabled(s, Clear) && !Enabled(s, Flush(0));
  }

  /** Until it is stopped, the logger comes to rest only when every completed line has been passed on. */
  lemma RestMeansWritten(steps: seq<Step>)
    requires Possible(steps) && AtRest(Run(steps)) && !Run(steps).stop
    ensures var s := Run(steps); s.backend == Asleep && s.handed == RenderAll(s.messages)
  {
    hide Run, Possible, RenderAll, Ended, AtRest;
    RunKeeps(steps);
    var s := Run(steps);
    RestingBackend(s);
    assert s.handed + [] == s.handed && s.messages[..|s.messages|] == s.messages;
  }

  ghost predicate Undisturbed(steps: seq<Step>) {
    forall i :: 0 <= i < |steps| ==> OfBackend(steps[i])
  }

  // ----- rest is reached -----

  /** The steps that are left until the backend can do nothing, at most. */
  ghost function Left(s: State): nat {
    if s.stop then
      s.notifies +
      match s.backend
      case Exited => 0
      case Top => 1
      case Written(_) => 2
      case Swapped(_) => 3
      case Checked => 5
      case _ => 4
    else
      3 * s.notifies + (if HasText(s) then 4 else 0) +
      match s.backend
      case Exited => 0
      case Asleep => 0
      case Checked => 1
      case Entering => 2
      case Notified => 2
      case Top => 3
      case Written(_) => 4
      case Swapped(_) => 5
  }

  /** The steps that are not the backend's own: logging, stopping, and wake-ups without cause. */
  ghost function Others(steps: seq<Step>): nat {
    if steps == [] then 0 else Others(steps[..|steps| - 1]) + (if OfBackend(steps[|steps| - 1]) then 0 else 1)
  }

  lemma StepTowardsRest(s: State, step: Step)
    requires Inv(s) && Enabled(s, step)
    ensures Left(Next(s, step)) + 1 <= Left(s) + if OfBackend(step) then 0 else 8
  {
    hide Whole, Accounted, AllEnded, RenderAll;
  }

  /**
   * Every step of the backend brings its rest nearer, and any other step puts it off by at most seven;
   * so over every run the backend takes boundedly many steps for each that is not its own.
   */
  lemma {:induction false} RestIsReached(before: seq<Step>, after: seq<Step>)
    requires Possible(before + after) && Possible(before)
    ensures |after| + Left(Run(before + after)) <= Left(Run(before)) + 8 * Others(after)
    decreases |after|
  {
    hide Run, Possible, Next, Enabled, Left, Inv, OfBackend;
    if after == [] {
      assert before + after == before;
    } else {
      var n := |after| - 1;
      RunLast(before, after);
      RestIsReached(before, after[..n]);
      RunKeeps(before + after[..n]);
      StepTowardsRest(Run(before + after[..n]), after[n]);
    }
  }

  /** Left to itself, the backend gets to where it can do nothing. */
  lemma {:induction false} RunsDown(steps: seq<Step>) returns (after: seq<Step>)
    requires Possible(steps)
    ensures Possible(steps + after) && Undisturbed(after) && Stuck(Run(steps + after))
    decreases Left(Run(steps))
  {
    hide Run, Possible, Next, Enabled, Left, Inv, OfBackend;
    if Stuck(Run(steps)) {
      after := [];
      assert steps + after == steps;
    } else {
      var step :| OfBackend(step) && Enabled(Run(steps), step);
      RunKeeps(steps);
      StepTowardsRest(Run(steps), step);
      RunSnoc(steps, step);
      var more := RunsDown(steps + [step]);
      after := [step] + more;
      assert steps + after == steps + [step] + more;
    }
  }

  // ----- hearing of the stop -----

  /** If stop were set now, the backend would hear of it, and could get at the lock if it has to. */
  ghost predicate Hears(s: State) {
    s.backend != Checked && (s.owner == None || !ToSwap(s.backend))
  }

  /** Stop is set, a backend that sleeps will hear of it, and the backend can get at the lock if it has to. */
  ghost predicate Told(s: State) {
    s.stop && (s.backend == Asleep ==> s.notifies > 0) && Hears(s)
  }

  /** The backend has to get at the lock, which somebody keeps. */
  ghost predicate LockedOut(s: State) {
    s.owner != None && ToSwap(s.backend) && s.backend != Checked
  }

  lemma SilentStep(s: State, step: Step)
    requires Enabled(s, step) && !step.Piece? && !step.EndLine?
    ensures Told(s) ==> Told(Next(s, step))
    ensures LockedOut(s) ==> LockedOut(Next(s, step))
  {
  }

  lemma {:induction false} SilentRun(before: seq<Step>, after: seq<Step>)
    requires Possible(before + after) && Possible(before) && Silent(after)
    ensures Told(Run(before)) ==> Told(Run(before + after))
    ensures LockedOut(Run(before)) ==> LockedOut(Run(before + after))
    decreases |after|
  {
    hide Run, Possible, Told, LockedOut, Next, Enabled;
    if after == [] {
      assert before + after == before;
    } else {
      var n := |after| - 1;
      RunLast(before, after);
      SilentRun(before, after[..n]);
      SilentStep(Run(before + after[..n]), after[n]);
    }
  }

  /** The state after stop has been set, in a run that goes on from there. */
  lemma AfterStop(before: seq<Step>, after: seq<Step>)
    requires Possible(before + [SetStop] + after)
    ensures Possible(before) && Possible(before + [SetStop])
    ensures Run(before + [SetStop]) == Run(before).(stop := true, notifies := Run(before).notifies + 1)
  {
    var stopped := before + [SetStop];
    PrefixIsPossible(stopped, after);
    PrefixIsPossible(before, [SetStop]);
    assert stopped[..|stopped| - 1] == before && stopped[|stopped| - 1] == SetStop;
  }

  /**
   * stop_ is set without the lock. If the backend is then neither between its look at the flag and its
   * sleep nor in need of a lock that somebody keeps, and nobody logs any more, the destructor's join
   * returns: the backend takes boundedly many steps, and when it can do nothing it has left its loop.
   */
  lemma StopWakes(before: seq<Step>, after: seq<Step>)
    requires Possible(before + [SetStop] + after) && Silent(after)
    ensures Possible(before)
    ensures Hears(Run(before)) ==>
      && |after| <= Run(before).notifies + 5 + 8 * Others(after)
      && (Stuck(Run(before + [SetStop] + after)) ==> Run(before + [SetStop] + after).backend == Exited)
  {
    hide Run, Possible, Stuck, Whole, Accounted, AllEnded;
    var stopped := before + [SetStop];
    AfterStop(before, after);
    SilentRun(stopped, after);
    RestIsReached(stopped, after);
    RunKeeps(stopped + after);
    if Hears(Run(before)) && Stuck(Run(stopped + after)) {
      ToldAndStuck(Run(stopped + after));
    }
  }

  lemma ToldAndStuck(s: State)
    requires Separate(s) && Told(s) && Stuck(s)
    ensures s.backend == Exited
  {
    assert !Enabled(s, Notify) && !Enabled(s, Test) && !Enabled(s, Enter) && !Enabled(s, Sleep);
    assert !Enabled(s, Recheck) && !Enabled(s, Clear) && !Enabled(s, Flush(0));
  }

  /** If a line is open when stop is set, and is never ended, a backend that has yet to swap never leaves. */
  lemma OpenLineLocksOut(before: seq<Step>, after: seq<Step>)
    requires Possible(before + [SetStop] + after) && Silent(after)
    ensures Possible(before)
    ensures Run(before).owner != None && ToSwap(Run(before).backend) ==>
      Run(before + [SetStop] + after).backend != Exited
  {
    hide Run, Possible, Whole, Accounted, AllEnded, Separate;
    AfterStop(before, after);
    RunKeeps(before);
    SilentRun(before + [SetStop], after);
  }

  /** Left to itself after stop, the backend always ends up outside its loop. */
  ghost predicate AlwaysLeaves(before: seq<Step>) {
    forall after :: Possible(before + [SetStop] + after) && Undisturbed(after) && Stuck(Run(before + [SetStop] + after))
      ==> Run(before + [SetStop] + after).backend == Exited
  }

  lemma UndisturbedIsSilent(steps: seq<Step>)
    requires Undisturbed(steps)
    ensures Silent(steps)
  {
  }

  /** So the join returns in every run exactly if, when stop is set, the backend hears of it and is not locked out. */
  lemma JoinReturnsIff(before: seq<Step>)
    requires Possible(before)
    ensures AlwaysLeaves(before) <==> Hears(Run(before))
  {
    hide Run, Possible, Stuck, Undisturbed, Silent;
    if Hears(Run(before)) {
      forall after
        | Possible(before + [SetStop] + after) && Undisturbed(after) && Stuck(Run(before + [SetStop] + after))
        ensures Run(before + [SetStop] + after).backend == Exited
      {
        UndisturbedIsSilent(after);
        StopWakes(before, after);
      }
    } else if Run(before).backend == Checked {
      var after := StopMayBeMissed(before);
    } else {
      RunSnoc(before, SetStop);
      var after := RunsDown(before + [SetStop]);
      UndisturbedIsSilent(after);
      OpenLineLocksOut(before, after);
    }
  }

  /** A line is opened while the backend sleeps; then stop is set, and the backend notified. */
  lemma OpenLine(s0: State, header: Text, text: Text) returns (s1: State, s2: State, s3: State, s4: State)
    requires s0 == Init().(backend := Checked)
    ensures Enabled(s0, Sleep) && s1 == Next(s0, Sleep)
    ensures Enabled(s1, Piece(0, header, text)) && s2 == Next(s1, Piece(0, header, text))
    ensures Enabled(s2, SetStop) && s3 == Next(s2, SetStop)
    ensures Enabled(s3, Notify) && s4 == Next(s3, Notify)
    ensures s2.backend == Asleep && !Hears(s2)
    ensures s4.stop && s4.backend == Notified && Stuck(s4)
  {
    s1 := Next(s0, Sleep);
    s2 := Next(s1, Piece(0, header, text));
    s3 := Next(s2, SetStop);
    s4 := Next(s3, Notify);
    hide Append, Extend;
  }

  /** Text that is logged without ending the line, before the program exits, makes the destructor wait for ever. */
  lemma OpenLineBlocksJoin(header: Text, text: Text)
    ensures var before := [Test] + [Enter] + [Sleep] + [Piece(0, header, text)];
      && Possible(before) && Run(before).backend == Asleep && !AlwaysLeaves(before)
      && var all := before + [SetStop] + [Notify];
         Possible(all) && Run(all).stop && Run(all).backend == Notified && Stuck(Run(all))
  {
    hide Run, Possible, Next, Enabled, Stuck, AlwaysLeaves, Hears;
    CheckedIsReachable();
    var a := [Test] + [Enter];
    var before := a + [Sleep] + [Piece(0, header, text)];
    var s1, s2, s3, s4 := OpenLine(Run(a), header, text);
    RunSnoc(a, Sleep);
    RunSnoc(a + [Sleep], Piece(0, header, text));
    RunSnoc(before, SetStop);
    RunSnoc(before + [SetStop], Notify);
    JoinReturnsIff(before);
  }

  /** A backend that finds nothing to do at its very start is there. */
  lemma CheckedIsReachable()
    ensures Possible([Test] + [Enter]) && Run([Test] + [Enter]) == Init().(backend := Checked)
  {
    assert Possible([]) && Run([]) == Init() && [Test] == [] + [Test];
    RunSnoc([], Test);
    RunSnoc([Test], Enter);
  }

  ghost function Notifications(n: nat): seq<Step> {
    if n == 0 then [] else Notifications(n - 1) + [Notify]
  }

  lemma OneInVain(s: State)
    requires s.backend == Checked && s.notifies > 0
    ensures Enabled(s, Notify) && Next(s, Notify) == s.(notifies := s.notifies - 1)
  {
  }

  /** Notifications come to nothing while the backend is awake. */
  lemma {:induction false} NotifyInVain(steps: seq<Step>, n: nat)
    requires Possible(steps) && Run(steps).backend == Checked && n <= Run(steps).notifies
    ensures Possible(steps + Notifications(n))
    ensures Run(steps + Notifications(n)) == Run(steps).(notifies := Run(steps).notifies - n)
    ensures Undisturbed(Notifications(n))
    decreases n
  {
    hide Run, Possible, Next, Enabled;
    if n == 0 {
      assert steps + [] == steps;
    } else {
      NotifyInVain(steps, n - 1);
      OneInVain(Run(steps + Notifications(n - 1)));
      RunSnoc(steps + Notifications(n - 1), Notify);
      assert steps + Notifications(n) == steps + Notifications(n - 1) + [Notify];
    }
  }

  /** If the backend is between its look and its sleep, the notification can be lost, and join never return. */
  lemma StopMayBeMissed(before: seq<Step>) returns (after: seq<Step>)
    requires Possible(before) && Run(before).backend == Checked
    ensures Possible(before + [SetStop] + after) && Undisturbed(after)
    ensures var r := Run(before + [SetStop] + after); AtRest(r) && r.stop && r.backend == Asleep
  {
    hide Run, Possible;
    RunKeeps(before);
    RunSnoc(before, SetStop);
    var stopped := before + [SetStop];
    var n := Run(stopped).notifies;
    NotifyInVain(stopped, n);
    RunSnoc(stopped + Notifications(n), Sleep);
    after := Notifications(n) + [Sleep];
    assert stopped + after == stopped + Notifications(n) + [Sleep];
  }

  // ----- shutting down -----

  /**
   * When the backend has left its loop, exactly the lines completed before its last swap have been
   * passed on; the others stay in the buffer for good.
   */
  lemma LeftBehind(steps: seq<Step>)
    requires Possible(steps) && Run(steps).backend == Exited
    ensures var s := Run(steps);
      && s.mark <= |s.messages| && s.handed == RenderAll(s.messages[..s.mark])
      && |s.bufs| == 2 && s.curr < 2
      && s.bufs[s.curr] == RenderAll(s.messages[s.mark..]) + Partial(s.open)
      && (s.handed == RenderAll(s.messages) <==> s.mark == |s.messages|)
  {
    hide Run, Possible, RenderAll, Ended;
    RunKeeps(steps);
    var s := Run(steps);
    assert s.handed + [] == s.handed;
    RenderAllSplit(s.messages, s.mark);
    EndedRenderAll(s.messages[s.mark..]);
    assert RenderAll(s.messages) == s.handed + RenderAll(s.messages[s.mark..]);
  }

  /** Nobody logs any more. */
  ghost predicate Silent(steps: seq<Step>) {
    forall i :: 0 <= i < |steps| ==> !steps[i].Piece? && !steps[i].EndLine?
  }

  /** The backend is past the test of its loop, but has not swapped the buffers since. */
  ghost predicate ToSwap(b: Backend) {
    b in {Entering, Checked, Asleep, Notified}
  }

  /** From s, in which stop is set, to r without logging: a swap that is due takes everything, and no other comes. */
  ghost predicate WindsDown(s: State, r: State) {
    && r.stop && r.messages == s.messages
    && if ToSwap(s.backend) then ToSwap(r.backend) || r.mark == |r.messages| else !ToSwap(r.backend) && r.mark == s.mark
  }

  lemma WindDownStep(s: State, r: State, step: Step)
    requires WindsDown(s, r) && Enabled(r, step) && !step.Piece? && !step.EndLine?
    ensures WindsDown(s, Next(r, step))
  {
  }

  lemma {:induction false} WindDown(before: seq<Step>, after: seq<Step>)
    requires Possible(before + after) && Possible(before) && Run(before).stop && Silent(after)
    ensures WindsDown(Run(before), Run(before + after))
    decreases |after|
  {
    hide Run, Possible, WindsDown, Next, Enabled;
    if after == [] {
      assert before + after == before;
      WindsDownAtOnce(Run(before));
    } else {
      var n := |after| - 1;
      RunLast(before, after);
      WindDown(before, after[..n]);
      WindDownStep(Run(before), Run(before + after[..n]), after[n]);
    }
  }

  lemma WindsDownAtOnce(s: State)
    requires s.stop
    ensures WindsDown(s, s)
  {
  }

  /**
   * The destructor sets stop_ and waits. If nobody logs any more, every completed line has been passed
   * on when the backend leaves, exactly if at that moment the backend was past its test and had not
   * swapped the buffers yet, or no line had been completed since it last did.
   */
  lemma ShutdownIsCompleteIff(before: seq<Step>, after: seq<Step>)
    requires Possible(before + [SetStop] + after) && Silent(after)
    requires Run(before + [SetStop] + after).backend == Exited
    ensures Possible(before)
    ensures var s, r := Run(before), Run(before + [SetStop] + after);
      r.handed == RenderAll(r.messages) <==> ToSwap(s.backend) || s.mark == |s.messages|
  {
    var stopped := before + [SetStop];
    PrefixIsPossible(stopped, after);
    PrefixIsPossible(before, [SetStop]);
    assert stopped[..|stopped| - 1] == before && stopped[|stopped| - 1] == SetStop;
    assert Run(stopped) == Next(Run(before), SetStop);
    hide Run, Possible, RenderAll;
    WindDown(stopped, after);
    LeftBehind(stopped + after);
  }

  /** In the program's own terms: between lines, none has been completed since the last swap if the buffer is empty. */
  lemma NothingNewIff(steps: seq<Step>)
    requires Possible(steps) && Run(steps).depth == 0
    ensures var s := Run(steps); s.curr < |s.bufs| && (s.mark == |s.messages| <==> s.bufs[s.curr] == [])
  {
    hide Run, Possible, RenderAll, Ended;
    RunKeeps(steps);
    var s := Run(steps);
    EndedRenderAll(s.messages[s.mark..]);
    assert RenderAll(s.messages[s.mark..]) + [] == RenderAll(s.messages[s.mark..]);
  }

  /** Setting stop_ right after a line can leave that line unwritten. */
  lemma ShutdownMayLoseALine(header: Text)
    ensures var steps := [EndLine(0, header), SetStop, Test];
      Possible(steps) && Run(steps).backend == Exited && Run(steps).out == [] && |Run(steps).messages| == 1
  {
    var a, b, c := [EndLine(0, header)], [EndLine(0, header), SetStop], [EndLine(0, header), SetStop, Test];
    assert a[..0] == [] && b[..1] == a && c[..2] == b;
    assert Possible([]) && Run([]) == Init();
    assert Possible(a) && Run(a).messages == [Message(0, header, [NEWLINE])];
    assert Possible(b) && Run(b).backend == Top && Run(b).stop;
  }

  // ----- the code -----

  class AsyncLogger {
    var buffers: seq<Text>
    var curr: nat
    var recurLevel: nat
    var stop: bool

    /** The recursive mutex. */
    var owner: Option<nat>
    var depth: nat

    /** What the kernel has accepted. */
    var out: Text

    ghost var backend: Backend
    ghost var notifies: nat
    ghost var lost: nat
    ghost var handed: Text
    ghost var messages: seq<Message>
    ghost var open: Option<Message>
    ghost var mark: nat

    ghost function View(): State
      reads this
    {
      State(buffers, curr, owner, depth, recurLevel, stop, backend, out, notifies, lost, handed, messages, open, mark)
    }

    constructor ()
      ensures View() == Init()
    {
      buffers, curr, recurLevel, stop := [[], []], 0, 0, false;
      owner, depth, out := None, 0, [];
      backend, notifies, lost, handed, messages, open, mark := Top, 0, 0, [], [], None, 0;
    }

    method Lock(t: nat)
      requires owner in {None, Some(t)}
      modifies this`owner, this`depth
      ensures owner == Some(t) && depth == old(depth) + 1
    {
      owner := Some(t);
      depth := depth + 1;
    }

    method Unlock(t: nat)
      requires owner == Some(t) && depth > 0
      modifies this`owner, this`depth
      ensures depth == old(depth) - 1 && owner == if depth == 0 then None else Some(t)
    {
      depth := depth - 1;
      if depth == 0 {
        owner := None;
      }
    }

    /** put_string on the current buffer. */
    method PutString(text: Text)
      requires curr < |buffers|
      modifies this`buffers
      ensures buffers == Append(old(buffers), curr, text)
    {
      buffers := buffers[curr := buffers[curr] + text];
    }

    /** operator<<(const char *). */
    method LogText(t: nat, header: Text, text: Text)
      requires Separate(View()) && Enabled(View(), Piece(t, header, text))
      modifies this
      ensures View() == Next(old(View()), Piece(t, header, text))
    {
      Lock(t);
      var first := recurLevel == 0;
      recurLevel := recurLevel + 1;
      if first {
        PutString(header);
      }
      PutString(text);
      open := Some(Extend(open, t, header, text));
    }

    /**
     * operator<<(const async_logger &) up to its notify_one: ends the line and gives up the lock as often
     * as it was taken.
     */
    method EndOfLine(t: nat, header: Text)
      requires Separate(View()) && Locked(View()) && Enabled(View(), EndLine(t, header))
      modifies this
      ensures View() == Next(old(View()), EndLine(t, header))
      ensures owner == None && depth == recurLevel == 0
    {
      hide Separate, Append;
      LogText(t, header, NEWLINE);
      var recur := recurLevel;
      recurLevel := 0;
      messages, open, notifies := messages + [open.value], None, notifies + 1;
      while recur > 0
        modifies this`owner, this`depth
        invariant depth == recur && owner == if recur > 0 then Some(t) else None
      {
        Unlock(t);
        recur := recur - 1;
      }
    }

    /** cond_.notify_one. */
    method NotifyOne()
      requires Enabled(View(), Notify)
      modifies this`notifies, this`backend
      ensures View() == Next(old(View()), Notify)
    {
      notifies := notifies - 1;
      backend := if backend == Asleep then Notified else backend;
    }

    /** The test of the backend's loop. */
    method TestStop() returns (leave: bool)
      requires Enabled(View(), Test)
      modifies this`backend
      ensures View() == Next(old(View()), Test) && leave == backend.Exited?
    {
      leave := stop;
      backend := if stop then Exited else Entering;
    }

    /** The locked region, up to the wait or to its end; prev is the buffer to write, or -1 to wait. */
    method EnterLocked() returns (prev: int)
      requires Separate(View()) && Enabled(View(), Enter)
      modifies this
      ensures View() == Next(old(View()), Enter)
      ensures prev == if backend.Swapped? then backend.prev else -1
    {
      prev := -1;
      if |buffers[curr]| == 0 && !(|buffers[curr]| > 0 || stop) {
        backend := Checked;
        return;
      }
      prev := SwapBuffers();
    }

    /** The predicate of cond_.wait, with the lock taken again. */
    method RecheckLocked() returns (prev: int)
      requires Separate(View()) && Enabled(View(), Recheck)
      modifies this
      ensures View() == Next(old(View()), Recheck)
      ensures prev == if backend.Swapped? then backend.prev else -1
    {
      prev := -1;
      if |buffers[curr]| > 0 || stop {
        prev := SwapBuffers();
      } else {
        backend := Checked;
      }
    }

    method SwapBuffers() returns (prev: int)
      requires curr < 2
      modifies this
      ensures View() == Swap(old(View())) && prev == backend.prev
    {
      prev := curr;
      curr := 1 - curr;
      backend, mark := Swapped(prev), |messages|;
    }

    /** Writes the buffer out, of which the kernel accepts k bytes, unless it is empty. */
    method FlushBuffer(prev: nat, k: nat) returns (written: bool)
      requires backend == Swapped(prev) && Enabled(View(), Flush(k))
      modifies this
      ensures View() == Next(old(View()), Flush(k)) && written == backend.Written?
    {
      written := |buffers[prev]| > 0;
      if written {
        out := out + buffers[prev][..k];
        lost := lost + |buffers[prev]| - k;
        handed := handed + buffers[prev];
        backend := Written(prev);
      } else {
        backend := Top;
      }
    }

    /** buf.clear(). */
    method ClearBuffer(prev: nat)
      requires Separate(View()) && backend == Written(prev)
      modifies this
      ensures View() == Next(old(View()), Clear)
    {
      buffers := buffers[prev := []];
      backend := Top;
    }

    /** The destructor's first half; what follows is a notification and a join. */
    method SetStop()
      modifies this`stop, this`notifies
      ensures View() == Next(old(View()), Step.SetStop)
    {
      stop := true;
      notifies := notifies + 1;
    }
  }
}
