/**
 * The connector of src/lib/tcp.cc: a map of hosts to connect to, which one thread adds to and the
 * connector's own thread takes as a whole, and a pipe through which the one wakes the other.
 */
module Connectors {
  datatype Family = IPv4 | IPv6 | Local

  datatype Host = Host(ip: string, port: int, family: Family)

  type Counts = map<Host, nat>

  /** The adding thread: outside add; between the lock region and put_string; in write_all. */
  datatype Adder = Away | Mapped | Writing

  /** The connector's thread: in its event loop; in read_all; after it; with the map it has taken. */
  datatype Reader = Idle | Draining | Drained | Connecting(local: Counts)

  /**
   * wbuf, pipe and rbuf are numbers of bytes: put into the write buffer and not accepted by the kernel yet,
   * in the pipe, and read. requested, made and puts are history: what add was asked for, the connections
   * handed to an event loop, and the bytes ever put; failed is failures_.
   */
  datatype State = State(
    hosts: Counts, adder: Adder, wbuf: nat, pipe: nat, rbuf: nat, reader: Reader,
    requested: Counts, made: Counts, failed: Counts, puts: nat)

  /** Write(false) is a would-block; Attempt is one connect. */
  datatype Step =
    | Request(h: Host, t: nat)
    | PutByte
    | Write(accepted: bool)
    | Wake
    | Read
    | ReadBlocked
    | Swap
    | Attempt(h: Host, succeeds: bool)
    | Erase(h: Host)
    | Return

  function Get(m: Counts, h: Host): nat {
    if h in m then m[h] else 0
  }

  function Plus(m: Counts, h: Host, t: nat): Counts {
    m[h := Get(m, h) + t]
  }

  ghost function Init(): State {
    State(map[], Away, 0, 0, 0, Idle, map[], map[], map[], 0)
  }

  /** The pipe blocks a writer only if it holds something, and a reader only if it holds nothing. */
  ghost predicate Enabled(s: State, step: Step) {
    match step
    case Request(_, _) => s.adder == Away
    case PutByte => s.adder == Mapped
    case Write(accepted) => s.adder == Writing && (accepted || s.wbuf == 0 || s.pipe > 0)
    case Wake => s.reader == Idle && s.pipe > 0
    case Read => s.reader == Draining && s.pipe > 0
    case ReadBlocked => s.reader == Draining && s.pipe == 0
    case Swap => s.reader == Drained
    case Attempt(h, _) => s.reader.Connecting? && Get(s.reader.local, h) > 0
    case Erase(h) => s.reader.Connecting? && h in s.reader.local && s.reader.local[h] == 0
    case Return => s.reader == Connecting(map[])
  }

  ghost function Next(s: State, step: Step): State
    requires Enabled(s, step)
  {
    match step
    case Request(h, t) =>
      if t == 0 then s
      else s.(hosts := Plus(s.hosts, h, t), requested := Plus(s.requested, h, t), adder := Mapped)
    case PutByte => s.(wbuf := s.wbuf + 1, adder := Writing, puts := s.puts + 1)
    case Write(accepted) =>
      if s.wbuf == 0 || !accepted then s.(adder := Away)
      else s.(wbuf := s.wbuf - 1, pipe := s.pipe + 1)
    case Wake => s.(reader := Draining)
    case Read => s.(pipe := s.pipe - 1, rbuf := s.rbuf + 1)
    case ReadBlocked => s.(reader := Drained)
    case Swap => s.(reader := Connecting(s.hosts), hosts := map[])
    case Attempt(h, succeeds) =>
      var s1 := s.(reader := Connecting(s.reader.local[h := s.reader.local[h] - 1]));
      if succeeds then s1.(made := Plus(s.made, h, 1)) else s1.(failed := Plus(s.failed, h, 1))
    case Erase(h) => s.(reader := Connecting(s.reader.local - {h}))
    case Return => s.(reader := Idle)
  }

  // ----- what every step keeps -----

  function Taken(r: Reader): Counts {
    if r.Connecting? then r.local else map[]
  }

  /** Every requested connection to h is pending, taken, made or has failed. */
  ghost predicate Accounted(s: State, h: Host) {
    Get(s.requested, h) == Get(s.hosts, h) + Get(Taken(s.reader), h) + Get(s.made, h) + Get(s.failed, h)
  }

  /** Pending hosts are about to be taken, or a byte that says so is in the pipe or on its way. */
  ghost predicate Announced(s: State) {
    s.hosts == map[] || s.pipe > 0 || s.reader == Draining || s.reader == Drained
    || s.adder == Mapped || (s.adder == Writing && s.wbuf > 0)
  }

  lemma GetUpdate(m: Counts, g: Host, n: nat, h: Host)
    ensures Get(m[g := n], h) == if h == g then n else Get(m, h)
    ensures Get(Plus(m, g, n), h) == if h == g then Get(m, h) + n else Get(m, h)
  {
  }

  lemma NextAccounted(s: State, step: Step, h: Host)
    requires Enabled(s, step) && Accounted(s, h)
    ensures Accounted(Next(s, step), h)
  {
    match step
    case Request(g, t) =>
      GetUpdate(s.hosts, g, t, h);
      GetUpdate(s.requested, g, t, h);
      hide Get, Plus;
    case Attempt(g, succeeds) => AttemptAccounted(s, g, succeeds, h);
    case _ =>
  }

  lemma AttemptAccounted(s: State, g: Host, succeeds: bool, h: Host)
    requires Enabled(s, Attempt(g, succeeds)) && Accounted(s, h)
    ensures Accounted(Next(s, Attempt(g, succeeds)), h)
  {
    var local := s.reader.local;
    assert g in local && local[g] == Get(local, g);
    GetUpdate(local, g, local[g] - 1, h);
    GetUpdate(s.made, g, 1, h);
    GetUpdate(s.failed, g, 1, h);
    hide Get, Plus;
  }

  lemma NextAnnounced(s: State, step: Step)
    requires Enabled(s, step) && Announced(s)
    ensures Announced(Next(s, step))
  {
  }

  // ----- whole runs -----

  ghost predicate Possible(s: State, steps: seq<Step>)
    decreases |steps|
  {
    steps != [] ==> Enabled(s, steps[0]) && Possible(Next(s, steps[0]), steps[1..])
  }

  ghost function Run(s: State, steps: seq<Step>): State
    requires Possible(s, steps)
    decreases |steps|
  {
    if steps == [] then s else Run(Next(s, steps[0]), steps[1..])
  }

  /** A longer run goes on from where the shorter one has got to. */
  lemma {:induction false} RunSnoc(s: State, steps: seq<Step>, step: Step)
    requires Possible(s, steps) && Enabled(Run(s, steps), step)
    ensures Possible(s, steps + [step]) && Run(s, steps + [step]) == Next(Run(s, steps), step)
    decreases |steps|
  {
    if steps == [] {
      assert steps + [step] == [step] && [step][1..] == [];
    } else {
      assert (steps + [step])[0] == steps[0] && (steps + [step])[1..] == steps[1..] + [step];
      RunSnoc(Next(s, steps[0]), steps[1..], step);
    }
    hide Next, Enabled;
  }

  /** In every interleaving of add with the connector's thread, no request is lost or made twice. */
  lemma {:induction false} RequestsAreNeverLost(s: State, steps: seq<Step>, h: Host)
    requires Accounted(s, h) && Possible(s, steps)
    ensures Accounted(Run(s, steps), h)
    decreases |steps|
  {
    if steps != [] {
      NextAccounted(s, steps[0], h);
      hide Accounted, Enabled, Next;
      RequestsAreNeverLost(Next(s, steps[0]), steps[1..], h);
    }
  }

  lemma {:induction false} RunAnnounced(s: State, steps: seq<Step>)
    requires Announced(s) && Possible(s, steps)
    ensures Announced(Run(s, steps))
    decreases |steps|
  {
    if steps != [] {
      NextAnnounced(s, steps[0]);
      hide Announced, Enabled, Next;
      RunAnnounced(Next(s, steps[0]), steps[1..]);
    }
  }

  /**
   * Nothing ever clears the reader's buffer: over every run, each byte that add has put is on its way
   * or is still held.
   */
  lemma {:induction false} BytesAccumulate(s: State, steps: seq<Step>)
    requires Possible(s, steps) && s.wbuf + s.pipe + s.rbuf == s.puts
    ensures var r := Run(s, steps); r.wbuf + r.pipe + r.rbuf == r.puts
    decreases |steps|
  {
    if steps != [] {
      BytesAccumulate(Next(s, steps[0]), steps[1..]);
    }
  }

  /** What a step asks for, makes and fails for h. */
  function Tally(step: Step, h: Host): (nat, nat, nat) {
    match step
    case Request(g, t) => (if g == h then t else 0, 0, 0)
    case Attempt(g, succeeds) => (0, if g == h && succeeds then 1 else 0, if g == h && !succeeds then 1 else 0)
    case _ => (0, 0, 0)
  }

  function Tallies(steps: seq<Step>, h: Host): (nat, nat, nat) {
    if steps == [] then (0, 0, 0)
    else
      var a, b := Tally(steps[0], h), Tallies(steps[1..], h);
      (a.0 + b.0, a.1 + b.1, a.2 + b.2)
  }

  lemma NextTallies(s: State, step: Step, h: Host)
    requires Enabled(s, step)
    ensures var r, t := Next(s, step), Tally(step, h);
      && Get(r.requested, h) == Get(s.requested, h) + t.0
      && Get(r.made, h) == Get(s.made, h) + t.1 && Get(r.failed, h) == Get(s.failed, h) + t.2
  {
    hide Get, Plus;
    match step
    case Request(g, t) => GetUpdate(s.requested, g, t, h);
    case Attempt(g, succeeds) =>
      GetUpdate(s.made, g, 1, h);
      GetUpdate(s.failed, g, 1, h);
    case _ =>
  }

  /** The counts are those of the calls and connects of the run: asked for, succeeded, failed. */
  lemma {:induction false} CountsAreOfTheRun(s: State, steps: seq<Step>, h: Host)
    requires Possible(s, steps)
    ensures var r, t := Run(s, steps), Tallies(steps, h);
      && Get(r.requested, h) == Get(s.requested, h) + t.0
      && Get(r.made, h) == Get(s.made, h) + t.1 && Get(r.failed, h) == Get(s.failed, h) + t.2
    decreases |steps|
  {
    if steps != [] {
      NextTallies(s, steps[0], h);
      hide Enabled, Next, Get, Tally;
      CountsAreOfTheRun(Next(s, steps[0]), steps[1..], h);
    }
  }

  /** Nobody waits for a wake-up that does not come: hosts left behind by both threads have their byte. */
  lemma NoWakeUpIsLost(steps: seq<Step>)
    requires Possible(Init(), steps)
    ensures var s := Run(Init(), steps);
      s.hosts != map[] && s.adder == Away && s.reader == Idle ==> s.pipe > 0
  {
    RunAnnounced(Init(), steps);
  }

  /** No thread has a step left unless somebody calls add. */
  ghost predicate Quiet(s: State) {
    forall step: Step :: !step.Request? ==> !Enabled(s, step)
  }

  /** The protocol comes to rest only when every request has become a connection or a failure. */
  lemma RestMeansDone(steps: seq<Step>, h: Host)
    requires Possible(Init(), steps) && Quiet(Run(Init(), steps))
    ensures var s := Run(Init(), steps);
      && s.hosts == map[] && Get(s.requested, h) == Get(s.made, h) + Get(s.failed, h)
      && Tallies(steps, h) == (Get(s.requested, h), Get(s.made, h), Get(s.failed, h))
  {
    var s := Run(Init(), steps);
    CountsAreOfTheRun(Init(), steps, h);
    RequestsAreNeverLost(Init(), steps, h);
    RunAnnounced(Init(), steps);
    assert !Enabled(s, PutByte) && !Enabled(s, Write(true));
    assert !Enabled(s, Wake) && !Enabled(s, Read) && !Enabled(s, ReadBlocked) && !Enabled(s, Swap);
    if s.reader.Connecting? {
      ConnectingMovesOn(s);
      assert false;
    }
  }

  lemma ConnectingMovesOn(s: State)
    requires s.reader.Connecting?
    ensures !Quiet(s)
  {
    if s.reader.local == map[] {
      assert Enabled(s, Return);
    } else {
      var g :| g in s.reader.local;
      assert Enabled(s, if s.reader.local[g] == 0 then Erase(g) else Attempt(g, true));
    }
  }

  // ----- rest is reached -----

  /** What a map of counts takes to be worked off: its connects, and its entries to erase. */
  ghost function Size(m: Counts): nat
    decreases |m|
  {
    if m == map[] then 0
    else
      var h :| h in m;
      SmallerMap(m, h);
      m[h] + 1 + Size(m - {h})
  }

  lemma SmallerMap(m: Counts, h: Host)
    requires h in m
    ensures |m - {h}| < |m|
  {
    assert (m - {h}).Keys == m.Keys - {h};
    assert |m - {h}| == |(m - {h}).Keys| && |m| == |m.Keys|;
  }

  lemma {:induction false} SizeWithout(m: Counts, h: Host)
    requires h in m
    ensures Size(m) == m[h] + 1 + Size(m - {h})
    decreases |m|
  {
    var g :| g in m && Size(m) == m[g] + 1 + Size(m - {g});
    if g != h {
      SmallerMap(m, g);
      SmallerMap(m, h);
      SizeWithout(m - {g}, h);
      SizeWithout(m - {h}, g);
      assert m - {g} - {h} == m - {h} - {g};
    }
  }

  lemma SizeUpdate(m: Counts, h: Host, n: nat)
    ensures Size(m[h := n]) == n + 1 + (if h in m then Size(m) - m[h] - 1 else Size(m))
  {
    SizeWithout(m[h := n], h);
    if h in m {
      SizeWithout(m, h);
      assert m[h := n] - {h} == m - {h};
    } else {
      assert m[h := n] - {h} == m;
    }
  }

  /** What is left to be done when nobody calls add any more, at most. */
  ghost function Left(s: State): nat {
    Size(s.hosts) + Size(Taken(s.reader)) + 7 * s.wbuf + 5 * s.pipe
    + (match s.adder case Away => 0 case Writing => 1 case Mapped => 9)
    + (match s.reader
       case Idle => 1
       case Draining => if s.pipe > 0 then 0 else 4
       case Drained => 3
       case Connecting(_) => 2)
  }

  /** What a step adds to that, if it is a call of add. */
  ghost function Cost(step: Step): nat {
    if step.Request? then step.t + 11 else 0
  }

  ghost function Costs(steps: seq<Step>): nat {
    if steps == [] then 0 else Cost(steps[0]) + Costs(steps[1..])
  }

  lemma AdderTowardsRest(s: State, step: Step)
    requires Enabled(s, step) && (step.Request? || step.PutByte? || step.Write?)
    ensures Left(Next(s, step)) + 1 <= Left(s) + Cost(step)
  {
    hide Size;
    if step.Request? {
      SizeUpdate(s.hosts, step.h, Get(s.hosts, step.h) + step.t);
    }
  }

  lemma ReaderTowardsRest(s: State, step: Step)
    requires Enabled(s, step) && !step.Request? && !step.PutByte? && !step.Write?
    ensures Left(Next(s, step)) + 1 <= Left(s)
  {
    hide Size;
    match step
    case Swap => SizeOfNone();
    case Attempt(h, _) => SizeUpdate(s.reader.local, h, s.reader.local[h] - 1);
    case Erase(h) => SizeWithout(s.reader.local, h);
    case Return => SizeOfNone();
    case _ =>
  }

  lemma SizeOfNone()
    ensures Size(map[]) == 0
  {
  }

  /**
   * Rest is reached: every step of either thread brings it nearer, and a request for t connections puts it
   * off by at most t + 10 steps, over every run.
   */
  lemma {:induction false} RestIsReached(s: State, steps: seq<Step>)
    requires Possible(s, steps)
    ensures |steps| + Left(Run(s, steps)) <= Left(s) + Costs(steps)
    decreases |steps|
  {
    if steps != [] {
      if steps[0].Request? || steps[0].PutByte? || steps[0].Write? {
        AdderTowardsRest(s, steps[0]);
      } else {
        ReaderTowardsRest(s, steps[0]);
      }
      hide Enabled, Next, Left, Cost;
      RestIsReached(Next(s, steps[0]), steps[1..]);
    }
  }

  // ----- the code -----

  /** How many of the first n connects to h succeed. */
  function Successes(outcome: (Host, nat) -> bool, h: Host, n: nat): (r: nat)
    ensures r <= n
  {
    if n == 0 then 0 else Successes(outcome, h, n - 1) + (if outcome(h, n - 1) then 1 else 0)
  }

  /** That is the number of connects, among the first n, whose outcome is success. */
  lemma {:induction false} SuccessesCount(outcome: (Host, nat) -> bool, h: Host, n: nat)
    ensures Successes(outcome, h, n) == |set i: nat | i < n && outcome(h, i)|
  {
    if n > 0 {
      SuccessesCount(outcome, h, n - 1);
      var before, after := set i: nat | i < n - 1 && outcome(h, i), set i: nat | i < n && outcome(h, i);
      assert after == if outcome(h, n - 1) then before + {n - 1} else before;
    }
  }

  /** How many connects to h were tried of those taken, when local is left. */
  function Tried(taken: Counts, local: Counts, h: Host): nat {
    if h in local then 0 else Get(taken, h)
  }

  class Connector {
    var hosts: Counts
    var failures: Counts
    /** Bytes in the write buffer of the pipe's write end, in the pipe, and in the read buffer of the other end. */
    var wbuf: nat
    var pipe: nat
    var rbuf: nat

    ghost var adder: Adder
    ghost var reader: Reader
    ghost var requested: Counts
    ghost var made: Counts
    ghost var puts: nat

    ghost function View(): State
      reads this
    {
      State(hosts, adder, wbuf, pipe, rbuf, reader, requested, made, failures, puts)
    }

    constructor ()
      ensures View() == Init()
    {
      hosts, failures, wbuf, pipe, rbuf := map[], map[], 0, 0, 0;
      adder, reader, requested, made, puts := Away, Idle, map[], map[], 0;
    }

    /** The lock region of add. */
    method AddToMap(h: Host, t: nat)
      requires t != 0 && adder == Away
      modifies this
      ensures View() == Next(old(View()), Request(h, t))
    {
      if h in hosts {
        hosts := hosts[h := hosts[h] + t];
      } else {
        hosts := hosts[h := t];
      }
      requested, adder := Plus(requested, h, t), Mapped;
    }

    /** One write of write_all(1), whatever the kernel answers; false ends the loop. */
    method WriteByte() returns (more: bool)
      requires adder == Writing
      modifies this
      ensures exists accepted :: Enabled(old(View()), Write(accepted)) && View() == Next(old(View()), Write(accepted))
      ensures more == adder.Writing? && (more ==> wbuf < old(wbuf))
    {
      ghost var before := View();
      var accepted: bool :| accepted || wbuf == 0 || pipe > 0;
      assert Enabled(before, Write(accepted));
      more := accepted && wbuf > 0;
      if more {
        wbuf := wbuf - 1;
        pipe := pipe + 1;
      } else {
        adder := Away;
      }
      assert View() == Next(before, Write(accepted));
    }

    /** add, if nothing comes in between. */
    method Add(h: Host, t: nat)
      requires adder == Away && Announced(View())
      modifies this
      ensures adder == Away && Announced(View())
      ensures hosts == (if t == 0 then old(hosts) else Plus(old(hosts), h, t))
      ensures requested == (if t == 0 then old(requested) else Plus(old(requested), h, t))
      ensures reader == old(reader) && failures == old(failures) && made == old(made)
    {
      if t == 0 {
        return;
      }
      AddToMap(h, t);
      wbuf, adder, puts := wbuf + 1, Writing, puts + 1;
      var more := true;
      while more
        invariant more == adder.Writing? && (more || adder == Away) && Announced(View())
        invariant hosts == Plus(old(hosts), h, t) && requested == Plus(old(requested), h, t)
        invariant reader == old(reader) && failures == old(failures) && made == old(made)
        decreases more, wbuf
      {
        more := WriteByte();
      }
    }

    /** read_all(1) on the read end: it ends when the pipe is empty. */
    method Drain()
      requires reader == Draining
      modifies this`pipe, this`rbuf, this`reader
      ensures View() == old(View()).(pipe := 0, rbuf := old(rbuf) + old(pipe), reader := Drained)
    {
      while pipe > 0
        modifies this`pipe, this`rbuf
        invariant rbuf + pipe == old(rbuf) + old(pipe)
      {
        pipe, rbuf := pipe - 1, rbuf + 1;
      }
      reader := Drained;
    }

    /** The lock region of on_pipe_readable. */
    method TakeHosts() returns (local: Counts)
      requires reader == Drained
      modifies this`hosts, this`reader
      ensures View() == Next(old(View()), Swap) && reader == Connecting(local)
    {
      local, hosts := hosts, map[];
      reader := Connecting(local);
    }

    /** One connect and what becomes of it. */
    method ConnectOnce(h: Host, succeeds: bool)
      requires Enabled(View(), Attempt(h, succeeds))
      modifies this`failures, this`made, this`reader
      ensures View() == Next(old(View()), Attempt(h, succeeds))
    {
      if succeeds {
        made := Plus(made, h, 1);
      } else {
        failures := failures[h := (if h in failures then failures[h] else 0) + 1];
      }
      reader := Connecting(reader.local[h := reader.local[h] - 1]);
    }

    /** One connect, as the counts of each host see it. */
    method ConnectFirst(h: Host, succeeds: bool)
      requires reader.Connecting? && h in reader.local && reader.local[h] > 0
      modifies this`failures, this`made, this`reader
      ensures reader == Connecting(old(reader.local)[h := old(reader.local[h]) - 1])
      ensures forall g :: Get(made, g) == old(Get(made, g)) + (if g == h && succeeds then 1 else 0)
      ensures forall g :: Get(failures, g) == old(Get(failures, g)) + (if g == h && !succeeds then 1 else 0)
    {
      ConnectOnce(h, succeeds);
    }

    /** The inner loop of on_pipe_readable: all connections to one host. */
    method ConnectHost(h: Host, n: nat, outcome: (Host, nat) -> bool)
      requires reader.Connecting? && h in reader.local && reader.local[h] == n
      modifies this`failures, this`made, this`reader
      ensures reader == Connecting(old(reader.local)[h := 0])
      ensures forall g :: g != h ==> Get(made, g) == old(Get(made, g)) && Get(failures, g) == old(Get(failures, g))
      ensures Get(made, h) == old(Get(made, h)) + Successes(outcome, h, n)
      ensures Get(failures, h) == old(Get(failures, h)) + n - Successes(outcome, h, n)
    {
      hide Get, Plus;
      ghost var local := reader.local;
      for i := 0 to n
        modifies this`failures, this`made, this`reader
        invariant reader == Connecting(local[h := n - i])
        invariant forall g :: g != h ==> Get(made, g) == old(Get(made, g)) && Get(failures, g) == old(Get(failures, g))
        invariant Get(made, h) == old(Get(made, h)) + Successes(outcome, h, i)
        invariant Get(failures, h) == old(Get(failures, h)) + i - Successes(outcome, h, i)
      {
        ConnectFirst(h, outcome(h, i));
      }
    }

    /**
     * on_pipe_readable, with the outcome of the i-th connect to each host given: it takes every pending
     * host and tries it as often as was asked, in any order of the hosts.
     */
    method OnPipeReadable(outcome: (Host, nat) -> bool)
      requires Enabled(View(), Wake)
      modifies this
      ensures reader == Idle && pipe == 0 && rbuf == old(rbuf) + old(pipe) && hosts == map[]
      ensures adder == old(adder) && wbuf == old(wbuf) && requested == old(requested)
      ensures forall h :: Get(made, h) == old(Get(made, h)) + Successes(outcome, h, old(Get(hosts, h)))
      ensures forall h ::
        Get(failures, h) == old(Get(failures, h)) + old(Get(hosts, h)) - Successes(outcome, h, old(Get(hosts, h)))
    {
      hide Get, Successes;
      reader := Draining;
      Drain();
      var local := TakeHosts();
      ConnectTaken(local, outcome);
      reader := Idle;
    }

    /** The outer loop of on_pipe_readable. */
    method ConnectTaken(taken: Counts, outcome: (Host, nat) -> bool)
      requires reader == Connecting(taken)
      modifies this`failures, this`made, this`reader
      ensures reader == Connecting(map[])
      ensures forall h :: Get(made, h) == old(Get(made, h)) + Successes(outcome, h, Get(taken, h))
      ensures forall h ::
        Get(failures, h) == old(Get(failures, h)) + Get(taken, h) - Successes(outcome, h, Get(taken, h))
    {
      hide Get, Successes;
      var local := taken;
      NothingTried(taken, outcome);
      while local != map[]
        modifies this`failures, this`made, this`reader
        invariant reader == Connecting(local) && LeftOf(taken, local)
        invariant forall h :: Get(made, h) == old(Get(made, h)) + Successes(outcome, h, Tried(taken, local, h))
        invariant forall h ::
          Get(failures, h) ==
            old(Get(failures, h)) + Tried(taken, local, h) - Successes(outcome, h, Tried(taken, local, h))
        decreases |local|
      {
        var h :| h in local;
        OneMoreTried(taken, local, h);
        NothingTried(taken, outcome);
        ConnectHost(h, local[h], outcome);
        local := local - {h};
        reader := Connecting(local);
      }
    }
  }

  ghost predicate LeftOf(taken: Counts, local: Counts) {
    forall h :: h in local ==> h in taken && local[h] == taken[h]
  }

  lemma NothingTried(taken: Counts, outcome: (Host, nat) -> bool)
    ensures forall h :: Tried(taken, taken, h) == 0 && Successes(outcome, h, 0) == 0
  {
  }

  lemma OneMoreTried(taken: Counts, local: Counts, h: Host)
    requires LeftOf(taken, local) && h in local
    ensures LeftOf(taken, local - {h}) && |local - {h}| < |local|
    ensures forall g :: Tried(taken, local - {h}, g) == if g == h then local[h] else Tried(taken, local, g)
    ensures Tried(taken, local, h) == 0
  {
  }

  // ----- the client -----

  /** What tcp_client::add asks of the i-th of n connectors. */
  function Share(n: nat, t: nat, i: nat): nat
    requires n > 0
  {
    if i == 0 then t / n + t % n else t / n
  }

  function ShareSum(n: nat, t: nat, k: nat): nat
    requires n > 0
  {
    if k == 0 then 0 else ShareSum(n, t, k - 1) + Share(n, t, k - 1)
  }

  lemma {:induction false} ShareSumUpTo(n: nat, t: nat, k: nat)
    requires 0 < k <= n
    ensures ShareSum(n, t, k) == k * (t / n) + t % n
  {
    if k > 1 {
      ShareSumUpTo(n, t, k - 1);
      assert k * (t / n) == (k - 1) * (t / n) + t / n;
    } else {
      assert ShareSum(n, t, 0) == 0;
    }
  }

  /** The connectors together are asked for what the client was asked for. */
  lemma SharesMakeTheWhole(n: nat, t: nat)
    requires n > 0
    ensures ShareSum(n, t, n) == t
  {
    ShareSumUpTo(n, t, n);
  }

  /** All shares are the same, but that the first connector is asked for the remainder as well. */
  lemma SharesAreEven(n: nat, t: nat, i: nat)
    requires 0 < i < n
    ensures Share(n, t, 0) - Share(n, t, i) == t % n && 0 <= t - n * Share(n, t, i) < n
  {
    assert t == n * (t / n) + t % n;
  }

  /** No add is in progress, and what is pending is announced. */
  ghost predicate AtRest(c: Connector)
    reads c
  {
    c.adder == Away && Announced(c.View())
  }

  /** The counts of host g, requested and pending. */
  ghost function Both(c: Connector, g: Host): (nat, nat)
    reads c
  {
    (Get(c.requested, g), Get(c.hosts, g))
  }

  function Grow(before: (nat, nat), t: nat): (nat, nat) {
    (before.0 + t, before.1 + t)
  }

  method Ask(c: Connector, h: Host, t: nat)
    requires AtRest(c)
    modifies c
    ensures AtRest(c)
    ensures forall g :: Both(c, g) == if g == h then Grow(old(Both(c, g)), t) else old(Both(c, g))
  {
    c.Add(h, t);
  }

  /** tcp_client::add. */
  method ClientAdd(conts: seq<Connector>, h: Host, t: nat)
    requires conts != [] && (forall i, j :: 0 <= i < j < |conts| ==> conts[i] != conts[j])
    requires forall i :: 0 <= i < |conts| ==> AtRest(conts[i])
    modifies conts
    ensures forall i :: 0 <= i < |conts| ==> AtRest(conts[i])
    ensures forall i :: 0 <= i < |conts| ==> Both(conts[i], h) == Grow(old(Both(conts[i], h)), Share(|conts|, t, i))
    ensures forall i, g :: 0 <= i < |conts| && g != h ==> Both(conts[i], g) == old(Both(conts[i], g))
  {
    hide Both, AtRest;
    if |conts| == 1 {
      Ask(conts[0], h, t);
    } else {
      var num, mod := t / |conts|, t % |conts|;
      for k := 0 to |conts|
        invariant forall i :: 0 <= i < |conts| ==> AtRest(conts[i])
        invariant forall i :: 0 <= i < |conts| ==>
          Both(conts[i], h) == Grow(old(Both(conts[i], h)), if i < k then num else 0)
        invariant forall i, g :: 0 <= i < |conts| && g != h ==> Both(conts[i], g) == old(Both(conts[i], g))
      {
        Ask(conts[k], h, num);
      }
      Ask(conts[0], h, mod);
    }
  }
}
