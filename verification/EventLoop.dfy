/**
 * The event loop of src/lib/event_loop_epoll.cc over all the connections it serves: collect the
 * callbacks of what epoll reports, then run them, while other threads register new connections.
 */
module EventLoops {
  import opened Connection
  import opened ConnectionSafety

  type World = map<nat, Conn>

  /** A callback waiting in the priority queue, and what will happen when it runs. */
  datatype Job = Job(fd: nat, e: Entry, b: Behaviour)

  /** Between collecting and the end of the round: a callback runs, or a new connection is registered. */
  datatype Item = Run(job: Job) | Arrive(fd: nat, e: Entry)

  datatype Result = Running(w: World) | Down

  function NewConn(e: Entry): Conn {
    Conn(Writing, multiset{e}, [], [], false, false, false, false, [], [], [], [], 0)
  }

  ghost predicate Live(w: World, fd: nat) {
    fd in w && !Gone(w[fd])
  }

  /** Between rounds every connection is waiting for its first event, open, or gone. */
  ghost predicate Quiescent(w: World) {
    forall fd :: fd in w ==> (Fresh(w[fd]) || Open(w[fd]) || Gone(w[fd])) && Conserved(w[fd])
  }

  /** No connection strands a byte; strictly: output is pending exactly when writable is watched for. */
  ghost predicate Flushed(c: Conn, strict: bool) {
    Gone(c) || (NotStranded(c) && (strict ==> Fresh(c) || Tight(c)))
  }

  ghost predicate NoneStranded(w: World, strict: bool) {
    forall fd :: fd in w ==> Flushed(w[fd], strict)
  }

  /** The callbacks flush what they put; strictly: with one async_write at their end. */
  ghost predicate AllFlush(jobs: seq<Job>, strict: bool) {
    forall i :: 0 <= i < |jobs| ==> Flushes(jobs[i].b.callback) && (strict ==> SendsLast(jobs[i].b.callback))
  }

  ghost function Jobs(items: seq<Item>): seq<Job> {
    if items == [] then []
    else (if items[0].Run? then [items[0].job] else []) + Jobs(items[1..])
  }

  ghost function Keys(jobs: seq<Job>): (r: seq<(nat, Entry)>)
    ensures |r| == |jobs| && forall i :: 0 <= i < |r| ==> r[i] == (jobs[i].fd, jobs[i].e)
  {
    seq(|jobs|, i requires 0 <= i < |jobs| => (jobs[i].fd, jobs[i].e))
  }

  /**
   * The first half of loop_once: for each descriptor that epoll reports, every entry whose event
   * is the reported one is queued once, in an order of which nothing is assumed.
   */
  ghost predicate Collected(w: World, ready: set<nat>, jobs: seq<Job>) {
    forall fd: nat, e: Entry ::
      multiset(Keys(jobs))[(fd, e)] ==
        if fd in ready && fd in w && EventOf(e) == w[fd].armed then w[fd].entries[e] else 0
  }

  /** The second half of loop_once. */
  ghost function Dispatch(w: World, items: seq<Item>): Result
    requires Plausible(w, items)
    decreases |items|
  {
    if items == [] then Running(w)
    else match items[0]
      case Arrive(fd, e) => Dispatch(w[fd := NewConn(e)], items[1..])
      case Run(j) =>
        var r := Handle(w[j.fd], j.e, j.b);
        if r.Thrown? then Down else Dispatch(w[j.fd := r.c], items[1..])
  }

  /** The kernel gives no new connection a descriptor that is in use. */
  ghost predicate Plausible(w: World, items: seq<Item>)
    decreases |items|
  {
    items != [] ==>
      match items[0]
      case Arrive(fd, e) =>
        !Live(w, fd) && e in {AcptWritable, ContWritable} && Plausible(w[fd := NewConn(e)], items[1..])
      case Run(j) =>
        && j.fd in w
        && var r := Handle(w[j.fd], j.e, j.b);
           r.Ok? ==> Plausible(w[j.fd := r.c], items[1..])
  }

  /** Every queued callback still finds its connection as it was when it was queued. */
  ghost predicate AllReady(w: World, jobs: seq<Job>) {
    && (forall i :: 0 <= i < |jobs| ==> jobs[i].fd in w && Ready(w[jobs[i].fd], jobs[i].e))
    && (forall i, j :: 0 <= i < j < |jobs| ==> jobs[i].fd != jobs[j].fd)
  }

  /** Told from the connections as they were when the callbacks were queued. */
  ghost predicate AllCareful(w: World, jobs: seq<Job>) {
    forall i :: 0 <= i < |jobs| ==> jobs[i].fd in w && Careful(w[jobs[i].fd], jobs[i].e, jobs[i].b)
  }

  /** What is collected is ready, and holds at most one callback of each connection. */
  lemma CollectedIsReady(w: World, ready: set<nat>, jobs: seq<Job>)
    requires Quiescent(w) && Collected(w, ready, jobs)
    ensures AllReady(w, jobs)
  {
    hide Quiescent, Collected, Keys, Ready;
    forall i | 0 <= i < |jobs|
      ensures jobs[i].fd in w && Ready(w[jobs[i].fd], jobs[i].e)
    {
      JobIsReady(w, ready, jobs, i);
    }
    forall i, j | 0 <= i < j < |jobs|
      ensures jobs[i].fd != jobs[j].fd
    {
      if jobs[i].fd == jobs[j].fd {
        QueuedOnce(w, ready, jobs, i, j);
      }
    }
  }

  /** The event of a queued callback is the one its connection is watched for. */
  lemma JobIsReady(w: World, ready: set<nat>, jobs: seq<Job>, i: nat)
    requires Quiescent(w) && Collected(w, ready, jobs) && i < |jobs|
    ensures jobs[i].fd in w && Ready(w[jobs[i].fd], jobs[i].e) && w[jobs[i].fd].entries[jobs[i].e] == 1
  {
    hide Conserved;
    var fd, e := jobs[i].fd, jobs[i].e;
    assert Keys(jobs)[i] in multiset(Keys(jobs));
    assert multiset(Keys(jobs))[(fd, e)] > 0;
  }

  lemma QueuedOnce(w: World, ready: set<nat>, jobs: seq<Job>, i: nat, j: nat)
    requires Quiescent(w) && Collected(w, ready, jobs) && i < j < |jobs|
    ensures jobs[i].fd != jobs[j].fd
  {
    JobIsReady(w, ready, jobs, i);
    JobIsReady(w, ready, jobs, j);
    hide Quiescent, Keys;
    if jobs[i].fd == jobs[j].fd {
      assert jobs[i].e == jobs[j].e;
      TwiceInSeq(Keys(jobs), i, j);
    }
  }

  lemma TwiceInSeq<T>(s: seq<T>, i: nat, j: nat)
    requires i < j < |s| && s[i] == s[j]
    ensures multiset(s)[s[i]] >= 2
  {
    assert s == s[..j] + [s[j]] + s[j + 1..];
    assert s[..j][i] == s[i];
    assert s[i] in multiset(s[..j]);
    assert multiset(s) == multiset(s[..j]) + multiset{s[j]} + multiset(s[j + 1..]);
  }

  lemma NewConnIsFresh(e: Entry)
    requires e in {AcptWritable, ContWritable}
    ensures Fresh(NewConn(e)) && Conserved(NewConn(e)) && NotStranded(NewConn(e)) && e in NewConn(e).entries
    ensures NewConn(e).put == [] && NewConn(e).received == []
  {
  }

  /** A change to one connection does not touch what is queued for the others. */
  lemma OthersUnaffected(w: World, fd: nat, c: Conn, rest: seq<Job>)
    requires AllReady(w, rest)
    requires forall i :: 0 <= i < |rest| ==> rest[i].fd != fd
    ensures AllReady(w[fd := c], rest)
    ensures AllCareful(w[fd := c], rest) <==> AllCareful(w, rest)
  {
  }

  lemma ArrivalIsNotQueued(w: World, fd: nat, rest: seq<Job>)
    requires AllReady(w, rest) && !Live(w, fd)
    ensures forall i :: 0 <= i < |rest| ==> rest[i].fd != fd
  {
  }

  lemma SplitCareful(w: World, j: Job, rest: seq<Job>)
    requires AllReady(w, [j] + rest)
    ensures AllReady(w, rest) && j.fd in w && Ready(w[j.fd], j.e)
    ensures AllCareful(w, [j] + rest) <==> Careful(w[j.fd], j.e, j.b) && AllCareful(w, rest)
    ensures forall i :: 0 <= i < |rest| ==> rest[i].fd != j.fd
  {
    hide Ready, Careful;
    var all := [j] + rest;
    assert all[0] == j && forall i :: 0 <= i < |rest| ==> rest[i] == all[i + 1];
    if AllCareful(w, all) {
      forall i | 0 <= i < |rest|
        ensures Careful(w[rest[i].fd], rest[i].e, rest[i].b)
      {
        assert all[i + 1] == rest[i];
      }
    }
  }

  lemma QuiescentUpdate(w: World, fd: nat, c: Conn)
    requires Quiescent(w) && (Fresh(c) || Open(c) || Gone(c)) && Conserved(c)
    ensures Quiescent(w[fd := c])
  {
  }

  /**
   * A round brings the loop down exactly when one of its callbacks is careless about the connection
   * it was queued for; otherwise every connection is quiescent again.
   */
  lemma {:induction false} RoundFailsIff(w: World, items: seq<Item>)
    requires Quiescent(w) && Plausible(w, items)
    requires AllReady(w, Jobs(items))
    ensures Dispatch(w, items).Down? <==> !AllCareful(w, Jobs(items))
    ensures Dispatch(w, items).Running? ==> Quiescent(Dispatch(w, items).w)
    decreases |items|, 1
  {
    if items != [] {
      if items[0].Arrive? {
        RoundAfterArrival(w, items);
      } else {
        RoundAfterJob(w, items);
      }
    }
  }

  lemma {:induction false} RoundAfterArrival(w: World, items: seq<Item>)
    requires items != [] && items[0].Arrive? && Quiescent(w) && Plausible(w, items)
    requires AllReady(w, Jobs(items))
    ensures Dispatch(w, items).Down? <==> !AllCareful(w, Jobs(items))
    ensures Dispatch(w, items).Running? ==> Quiescent(Dispatch(w, items).w)
    decreases |items|, 0
  {
    var fd, c, rest := items[0].fd, NewConn(items[0].e), Jobs(items[1..]);
    assert Jobs(items) == rest;
    NewConnIsFresh(items[0].e);
    ArrivalIsNotQueued(w, fd, rest);
    OthersUnaffected(w, fd, c, rest);
    QuiescentUpdate(w, fd, c);
    hide AllReady, AllCareful, NewConn, Fresh, Open, Gone, Conserved, Handle, Quiescent;
    RoundFailsIff(w[fd := c], items[1..]);
  }

  lemma {:induction false} RoundAfterJob(w: World, items: seq<Item>)
    requires items != [] && items[0].Run? && Quiescent(w) && Plausible(w, items)
    requires AllReady(w, Jobs(items))
    ensures Dispatch(w, items).Down? <==> !AllCareful(w, Jobs(items))
    ensures Dispatch(w, items).Running? ==> Quiescent(Dispatch(w, items).w)
    decreases |items|, 0
  {
    var j, rest := items[0].job, Jobs(items[1..]);
    assert Jobs(items) == [j] + rest;
    SplitCareful(w, j, rest);
    HandleThrowsIff(w[j.fd], j.e, j.b);
    var r := Handle(w[j.fd], j.e, j.b);
    if r.Ok? {
      OthersUnaffected(w, j.fd, r.c, rest);
      QuiescentUpdate(w, j.fd, r.c);
      hide AllReady, AllCareful, Careful, Ready, Fresh, Open, Gone, Conserved, Handle, Quiescent;
      RoundFailsIff(w[j.fd := r.c], items[1..]);
    }
  }

  // ----- what a round leaves -----

  function FdOf(item: Item): nat {
    match item
    case Run(job) => job.fd
    case Arrive(fd, _) => fd
  }

  /** What epoll reports of a connection is handled: exactly one of its callbacks is queued, the one that is due. */
  lemma ReportedIsQueued(w: World, ready: set<nat>, jobs: seq<Job>, fd: nat)
    requires Quiescent(w) && Collected(w, ready, jobs)
    ensures fd in ready && Live(w, fd) ==>
      && multiset(Keys(jobs))[(fd, DueEntry(w[fd]))] == 1
      && exists i :: 0 <= i < |jobs| && jobs[i].fd == fd && jobs[i].e == DueEntry(w[fd])
    ensures fd !in ready || !Live(w, fd) ==> forall i :: 0 <= i < |jobs| ==> jobs[i].fd != fd
  {
    var keys := Keys(jobs);
    if fd in ready && Live(w, fd) {
      var e := DueEntry(w[fd]);
      hide Conserved;
      assert multiset(keys)[(fd, e)] == 1;
      assert (fd, e) in multiset(keys);
      var i :| 0 <= i < |keys| && keys[i] == (fd, e);
    } else {
      forall i | 0 <= i < |jobs|
        ensures jobs[i].fd != fd
      {
        if jobs[i].fd == fd {
          JobIsReady(w, ready, jobs, i);
          NotQueued(w, ready, jobs, i);
        }
      }
    }
  }

  /** The callback that is due: the first event's, or that of reading or writing. */
  ghost function DueEntry(c: Conn): Entry {
    if AcptWritable in c.entries then AcptWritable
    else if ContWritable in c.entries then ContWritable
    else if c.armed == Reading then ConnReadable
    else ConnWritable
  }

  lemma NotQueued(w: World, ready: set<nat>, jobs: seq<Job>, i: nat)
    requires Collected(w, ready, jobs) && i < |jobs|
    ensures jobs[i].fd in ready
  {
    assert Keys(jobs)[i] in multiset(Keys(jobs));
    assert multiset(Keys(jobs))[(jobs[i].fd, jobs[i].e)] > 0;
  }

  /** A round does nothing to a descriptor that no item is about. */
  lemma {:induction false} RoundLeavesAlone(w: World, items: seq<Item>, fd: nat)
    requires Plausible(w, items) && Dispatch(w, items).Running?
    requires forall i :: 0 <= i < |items| ==> FdOf(items[i]) != fd
    ensures var r := Dispatch(w, items).w; (fd in r <==> fd in w) && (fd in w ==> r[fd] == w[fd])
    decreases |items|
  {
    if items != [] {
      hide Handle, NewConn;
      assert FdOf(items[0]) != fd;
      var w1 := if items[0].Arrive? then w[items[0].fd := NewConn(items[0].e)]
                else w[items[0].job.fd := Handle(w[items[0].job.fd], items[0].job.e, items[0].job.b).c];
      RoundLeavesAlone(w1, items[1..], fd);
    }
  }

  /** And to the descriptor of an item that is the only one about it, exactly what that item says. */
  lemma {:induction false} RoundHandles(w: World, items: seq<Item>, i: nat)
    requires Plausible(w, items) && Dispatch(w, items).Running? && i < |items|
    requires forall j :: 0 <= j < |items| && j != i ==> FdOf(items[j]) != FdOf(items[i])
    ensures var r, fd := Dispatch(w, items).w, FdOf(items[i]);
      && fd in r
      && match items[i]
         case Arrive(_, e) => r[fd] == NewConn(e)
         case Run(j) => fd in w && Handle(w[fd], j.e, j.b) == Ok(r[fd])
    decreases |items|
  {
    hide Handle, NewConn;
    var w1 := if items[0].Arrive? then w[items[0].fd := NewConn(items[0].e)]
              else w[items[0].job.fd := Handle(w[items[0].job.fd], items[0].job.e, items[0].job.b).c];
    var rest := items[1..];
    assert forall j :: 0 <= j < |rest| ==> rest[j] == items[j + 1];
    if i == 0 {
      RoundLeavesAlone(w1, rest, FdOf(items[0]));
    } else {
      assert FdOf(items[0]) != FdOf(items[i]) && rest[i - 1] == items[i];
      RoundHandles(w1, rest, i - 1);
    }
  }

  /** What one item does, to its own descriptor only. */
  ghost predicate ItemDoes(v: World, item: Item, r: Result) {
    match item
    case Arrive(fd, e) => r == Running(v[fd := NewConn(e)])
    case Run(j) =>
      && j.fd in v
      && var c := Handle(v[j.fd], j.e, j.b); r == if c.Thrown? then Down else Running(v[j.fd := c.c])
  }

  /** Items take effect one after the other: what comes last works on what the others have left. */
  lemma {:induction false} DispatchInOrder(w: World, items: seq<Item>, last: Item)
    requires Plausible(w, items + [last])
    ensures Plausible(w, items) && Dispatch(w, []) == Running(w)
    ensures var v := Dispatch(w, items);
      if v.Down? then Dispatch(w, items + [last]).Down? else ItemDoes(v.w, last, Dispatch(w, items + [last]))
    decreases |items|
  {
    hide Handle, NewConn;
    var all := items + [last];
    if items == [] {
      assert all == [last] && [last][1..] == [];
    } else {
      assert all[0] == items[0] && all[1..] == items[1..] + [last];
      if items[0].Arrive? {
        DispatchInOrder(w[items[0].fd := NewConn(items[0].e)], items[1..], last);
      } else {
        var j := items[0].job;
        var r := Handle(w[j.fd], j.e, j.b);
        if r.Ok? {
          DispatchInOrder(w[j.fd := r.c], items[1..], last);
        }
      }
    }
  }

  // ----- what a run moves -----

  /** The bytes that the callbacks of a round put for, and read from, one connection. */
  ghost function RoundMoves(w: World, jobs: seq<Job>, fd: nat): Moves
    requires fd in w
  {
    if jobs == [] then Moves([], [])
    else if jobs[0].fd == fd then EventMoves(w[fd], jobs[0].e, jobs[0].b)
    else RoundMoves(w, jobs[1..], fd)
  }

  lemma {:induction false} RoundMovesAlike(w: World, v: World, jobs: seq<Job>, fd: nat)
    requires fd in w && fd in v && (w[fd] == v[fd] || forall i :: 0 <= i < |jobs| ==> jobs[i].fd != fd)
    ensures RoundMoves(w, jobs, fd) == RoundMoves(v, jobs, fd)
    ensures (forall i :: 0 <= i < |jobs| ==> jobs[i].fd != fd) ==> RoundMoves(w, jobs, fd) == Moves([], [])
  {
    if jobs != [] {
      hide EventMoves;
      RoundMovesAlike(w, v, jobs[1..], fd);
    }
  }

  ghost predicate NoArrival(items: seq<Item>, fd: nat) {
    forall i :: 0 <= i < |items| ==> items[i].Run? || items[i].fd != fd
  }

  lemma MovedNothing(c: Conn)
    ensures Moved(c, c, Moves([], []))
  {
    assert c.put + [] == c.put && c.received + [] == c.received;
  }

  lemma ThenNothing(m: Moves)
    ensures Then(m, Moves([], [])) == m
  {
    assert m.puts + [] == m.puts && m.taken + [] == m.taken;
  }

  lemma {:induction false} RoundMovesHold(w: World, items: seq<Item>, fd: nat)
    requires Quiescent(w) && Plausible(w, items) && AllReady(w, Jobs(items)) && Dispatch(w, items).Running?
    requires fd in w && NoArrival(items, fd)
    ensures var r := Dispatch(w, items).w; fd in r && Moved(w[fd], r[fd], RoundMoves(w, Jobs(items), fd))
    decreases |items|
  {
    hide Handle, NewConn, EventMoves, Moved, Ready, Fresh, Open, Gone, Conserved, Careful, AllReady, AllCareful;
    MovedNothing(w[fd]);
    if items != [] {
      var rest := Jobs(items[1..]);
      if items[0].Arrive? {
        var g, c := items[0].fd, NewConn(items[0].e);
        assert g != fd && Jobs(items) == rest;
        NewConnIsFresh(items[0].e);
        ArrivalIsNotQueued(w, g, rest);
        OthersUnaffected(w, g, c, rest);
        QuiescentUpdate(w, g, c);
        RoundMovesHold(w[g := c], items[1..], fd);
        RoundMovesAlike(w, w[g := c], rest, fd);
      } else {
        var j := items[0].job;
        var c := Handle(w[j.fd], j.e, j.b).c;
        assert Jobs(items) == [j] + rest && ([j] + rest)[1..] == rest;
        SplitCareful(w, j, rest);
        HandleThrowsIff(w[j.fd], j.e, j.b);
        OthersUnaffected(w, j.fd, c, rest);
        QuiescentUpdate(w, j.fd, c);
        RoundMovesHold(w[j.fd := c], items[1..], fd);
        RoundMovesAlike(w, w[j.fd := c], rest, fd);
        if j.fd == fd {
          HandleMoves(w[fd], j.e, j.b);
          RoundMovesAlike(w[fd := c], w[fd := c], rest, fd);
          MovedOn(w[fd], c, Dispatch(w, items).w[fd], EventMoves(w[fd], j.e, j.b), Moves([], []));
          ThenNothing(EventMoves(w[fd], j.e, j.b));
        }
      }
    }
  }

  // ----- nothing is stranded -----

  lemma JobStrandsNothing(w: World, j: Job, rest: seq<Job>, strict: bool)
    requires j.fd in w && Ready(w[j.fd], j.e)
    requires NoneStranded(w, strict) && AllFlush([j] + rest, strict)
    ensures var r := Handle(w[j.fd], j.e, j.b); r.Ok? ==> NoneStranded(w[j.fd := r.c], strict)
    ensures AllFlush(rest, strict)
  {
    assert ([j] + rest)[0] == j && forall i :: 0 <= i < |rest| ==> rest[i] == ([j] + rest)[i + 1];
    assert Flushed(w[j.fd], strict);
    HandleStrandsNothing(w[j.fd], j.e, j.b);
    hide Handle, Flushes, SendsLast;
  }

  lemma ArrivalStrandsNothing(w: World, fd: nat, c: Conn, strict: bool)
    requires NoneStranded(w, strict) && Fresh(c) && NotStranded(c)
    ensures NoneStranded(w[fd := c], strict)
  {
  }

  lemma {:induction false} RoundStrandsNothing(w: World, items: seq<Item>, strict: bool)
    requires Quiescent(w) && Plausible(w, items)
    requires AllReady(w, Jobs(items))
    requires NoneStranded(w, strict) && AllFlush(Jobs(items), strict)
    ensures var r := Dispatch(w, items); r.Running? ==> NoneStranded(r.w, strict)
    decreases |items|
  {
    hide AllReady, AllCareful, Careful, NewConn, Fresh, Open, Gone, Conserved, Handle, NoneStranded, AllFlush, Ready;
    if items != [] {
      var rest := Jobs(items[1..]);
      if items[0].Arrive? {
        var fd, c := items[0].fd, NewConn(items[0].e);
        assert Jobs(items) == rest;
        NewConnIsFresh(items[0].e);
        ArrivalIsNotQueued(w, fd, rest);
        OthersUnaffected(w, fd, c, rest);
        QuiescentUpdate(w, fd, c);
        ArrivalStrandsNothing(w, fd, c, strict);
        RoundStrandsNothing(w[fd := c], items[1..], strict);
      } else {
        var j := items[0].job;
        assert Jobs(items) == [j] + rest;
        SplitCareful(w, j, rest);
        HandleThrowsIff(w[j.fd], j.e, j.b);
        JobStrandsNothing(w, j, rest, strict);
        var r := Handle(w[j.fd], j.e, j.b);
        if r.Ok? {
          OthersUnaffected(w, j.fd, r.c, rest);
          QuiescentUpdate(w, j.fd, r.c);
          RoundStrandsNothing(w[j.fd := r.c], items[1..], strict);
        }
      }
    }
  }

  // ----- whole runs -----

  /** One loop_once: the descriptors that epoll reports, and what happens then. */
  datatype Round = Round(ready: set<nat>, items: seq<Item>)

  ghost predicate GoodRound(w: World, r: Round) {
    Collected(w, r.ready, Jobs(r.items)) && Plausible(w, r.items)
  }

  ghost predicate GoodRun(w: World, rounds: seq<Round>)
    decreases |rounds|
  {
    rounds != [] ==>
      && GoodRound(w, rounds[0])
      && var r := Dispatch(w, rounds[0].items); r.Running? ==> GoodRun(r.w, rounds[1..])
  }

  ghost function RunLoop(w: World, rounds: seq<Round>): Result
    requires GoodRun(w, rounds)
    decreases |rounds|
  {
    if rounds == [] then Running(w)
    else
      var r := Dispatch(w, rounds[0].items);
      if r.Down? then Down else RunLoop(r.w, rounds[1..])
  }

  /** In every round that the loop gets to, every callback is careful about the connection it is run for. */
  ghost predicate CarefulRun(w: World, rounds: seq<Round>)
    requires GoodRun(w, rounds)
    decreases |rounds|
  {
    rounds != [] ==>
      && AllCareful(w, Jobs(rounds[0].items))
      && var r := Dispatch(w, rounds[0].items); r.Running? ==> CarefulRun(r.w, rounds[1..])
  }

  /**
   * Over every run, with any number of connections, any kernel, any order of dispatch and any
   * callbacks: the loop survives exactly if every event is careful. It then never adds an armed
   * descriptor to epoll nor deletes an unarmed one, and between rounds every connection is fresh,
   * open or gone, with its bytes accounted for.
   */
  lemma {:induction false} RunSurvivesIff(w: World, rounds: seq<Round>)
    requires Quiescent(w) && GoodRun(w, rounds)
    ensures RunLoop(w, rounds).Running? <==> CarefulRun(w, rounds)
    ensures RunLoop(w, rounds).Running? ==> Quiescent(RunLoop(w, rounds).w)
    decreases |rounds|
  {
    if rounds != [] {
      CollectedIsReady(w, rounds[0].ready, Jobs(rounds[0].items));
      RoundFailsIff(w, rounds[0].items);
      hide Quiescent, Dispatch, AllReady, AllCareful, Collected, Plausible;
      var r := Dispatch(w, rounds[0].items);
      if r.Running? {
        RunSurvivesIff(r.w, rounds[1..]);
      }
    }
  }

  ghost predicate FlushingRun(rounds: seq<Round>, strict: bool) {
    forall i :: 0 <= i < |rounds| ==> AllFlush(Jobs(rounds[i].items), strict)
  }

  /** As long as it survives, no unsent byte is stranded over any run whose callbacks flush what they put. */
  lemma {:induction false} RunStrandsNothing(w: World, rounds: seq<Round>, strict: bool)
    requires Quiescent(w) && GoodRun(w, rounds)
    requires NoneStranded(w, strict) && FlushingRun(rounds, strict)
    ensures var r := RunLoop(w, rounds); r.Running? ==> NoneStranded(r.w, strict)
    decreases |rounds|
  {
    if rounds != [] {
      CollectedIsReady(w, rounds[0].ready, Jobs(rounds[0].items));
      RoundFailsIff(w, rounds[0].items);
      RoundStrandsNothing(w, rounds[0].items, strict);
      assert forall i :: 0 <= i < |rounds[1..]| ==> rounds[1..][i] == rounds[i + 1];
      hide Quiescent, Dispatch, AllReady, AllCareful, Collected, Plausible, NoneStranded, AllFlush;
      var r := Dispatch(w, rounds[0].items);
      if r.Running? {
        RunStrandsNothing(r.w, rounds[1..], strict);
      }
    }
  }

  /** The bytes that the callbacks of a whole run put for, and read from, one connection. */
  ghost function RunMoves(w: World, rounds: seq<Round>, fd: nat): Moves
    requires GoodRun(w, rounds) && fd in w
    decreases |rounds|
  {
    if rounds == [] then Moves([], [])
    else
      var m, r := RoundMoves(w, Jobs(rounds[0].items), fd), Dispatch(w, rounds[0].items);
      if r.Running? && fd in r.w then Then(m, RunMoves(r.w, rounds[1..], fd)) else m
  }

  ghost predicate NeverArrives(rounds: seq<Round>, fd: nat) {
    forall i :: 0 <= i < |rounds| ==> NoArrival(rounds[i].items, fd)
  }

  /**
   * Over every run that the loop survives: the bytes sent on a connection, followed by those still pending,
   * are the bytes from before followed by those that its callbacks put, told from their texts; and what
   * was seen of it by callbacks grows by exactly what was read.
   */
  lemma {:induction false} RunMovesHold(w: World, rounds: seq<Round>, fd: nat)
    requires Quiescent(w) && GoodRun(w, rounds) && RunLoop(w, rounds).Running?
    requires fd in w && NeverArrives(rounds, fd)
    ensures var r, m := RunLoop(w, rounds).w, RunMoves(w, rounds, fd);
      && fd in r && Moved(w[fd], r[fd], m)
      && r[fd].sent + r[fd].wbuf == (w[fd].sent + w[fd].wbuf) + m.puts
      && r[fd].seen + r[fd].rbuf == (w[fd].seen + w[fd].rbuf) + m.taken
    decreases |rounds|
  {
    if rounds == [] {
      MovedNothing(w[fd]);
    } else {
      CollectedIsReady(w, rounds[0].ready, Jobs(rounds[0].items));
      RoundFailsIff(w, rounds[0].items);
      assert NoArrival(rounds[0].items, fd);
      RoundMovesHold(w, rounds[0].items, fd);
      assert forall i :: 0 <= i < |rounds[1..]| ==> rounds[1..][i] == rounds[i + 1];
      hide Dispatch, AllReady, AllCareful, Collected, Plausible, NoArrival, Moved, RoundMoves, Fresh, Open, Gone;
      var v := Dispatch(w, rounds[0].items).w;
      RunMovesHold(v, rounds[1..], fd);
      var m := RoundMoves(w, Jobs(rounds[0].items), fd);
      MovedOn(w[fd], v[fd], RunLoop(w, rounds).w[fd], m, RunMoves(v, rounds[1..], fd));
    }
    RunSurvivesIff(w, rounds);
    MovedMeans(w[fd], RunLoop(w, rounds).w[fd], RunMoves(w, rounds, fd));
  }

  lemma MovedMeans(c: Conn, r: Conn, m: Moves)
    requires Moved(c, r, m) && Conserved(c) && Conserved(r)
    ensures r.sent + r.wbuf == (c.sent + c.wbuf) + m.puts && r.seen + r.rbuf == (c.seen + c.rbuf) + m.taken
  {
  }

  /** Rounds take effect one after the other. */
  lemma {:induction false} RoundsInOrder(w: World, rounds: seq<Round>, last: Round)
    requires GoodRun(w, rounds + [last])
    ensures GoodRun(w, rounds) && RunLoop(w, []) == Running(w)
    ensures var v := RunLoop(w, rounds);
      if v.Down? then RunLoop(w, rounds + [last]).Down?
      else GoodRound(v.w, last) && RunLoop(w, rounds + [last]) == Dispatch(v.w, last.items)
    decreases |rounds|
  {
    hide Dispatch, Collected, Plausible;
    var all := rounds + [last];
    if rounds == [] {
      assert all == [last] && [last][1..] == [];
    } else {
      assert all[0] == rounds[0] && all[1..] == rounds[1..] + [last];
      var r := Dispatch(w, rounds[0].items);
      if r.Running? {
        RoundsInOrder(r.w, rounds[1..], last);
      }
    }
  }
}
