/**
 * The task queue of src/include/cppev/thread_pool.h: workers, a condition variable and anybody who
 * adds tasks, interleaved in every way at the granularity of the regions that hold the lock.
 */
module TaskQueues {
  /**
   * Where a worker is: not running yet; about to lock and look; in cond_.wait; taken out of the wait
   * and about to look again; outside the lock with the i-th task ever taken, before notify_all;
   * in that task's handler; out of its loop.
   */
  datatype Worker = NotStarted | Ready | Sleeping | Woken | Popped(i: nat) | Running(i: nat) | Exited

  /**
   * queue, stop and ws are the program's. The rest is history: the tasks in the order they were
   * added, the tasks in the order they were taken and by whom, which of those have been run, and
   * the tasks that were added when every worker had left.
   */
  datatype State<T> = State(
    queue: seq<T>, stop: bool, ws: seq<Worker>,
    added: seq<T>, taken: seq<T>, owner: seq<nat>, finished: set<nat>, late: seq<T>)

  /** What the scheduler, the condition variable and the callers may do. Add wakes what notify_one chooses. */
  datatype Step<T> =
    | Launch(w: nat)
    | Check(w: nat)
    | Announce(w: nat)
    | Finish(w: nat)
    | Spurious(w: nat)
    | Add(task: T, wake: nat)
    | AddAll(tasks: seq<T>)
    | Stop

  ghost predicate NoneSleeps(ws: seq<Worker>) {
    forall w :: 0 <= w < |ws| ==> !ws[w].Sleeping?
  }

  ghost predicate AllExited(ws: seq<Worker>) {
    forall w :: 0 <= w < |ws| ==> ws[w].Exited?
  }

  function Wake(w: Worker): Worker {
    if w.Sleeping? then Woken else w
  }

  /** notify_all. */
  function WakeAll(ws: seq<Worker>): (r: seq<Worker>)
    ensures |r| == |ws| && forall w :: 0 <= w < |r| ==> r[w] == Wake(ws[w])
  {
    if ws == [] then [] else [Wake(ws[0])] + WakeAll(ws[1..])
  }

  ghost predicate Enabled<T>(s: State<T>, step: Step<T>) {
    match step
    case Launch(w) => w < |s.ws| && s.ws[w].NotStarted?
    case Check(w) => w < |s.ws| && (s.ws[w].Ready? || s.ws[w].Woken?)
    case Announce(w) => w < |s.ws| && s.ws[w].Popped?
    case Finish(w) => w < |s.ws| && s.ws[w].Running?
    case Spurious(w) => w < |s.ws| && s.ws[w].Sleeping?
    case Add(_, wake) => NoneSleeps(s.ws) || (wake < |s.ws| && s.ws[wake].Sleeping?)
    case _ => true
  }

  ghost function Move<T>(s: State<T>, w: nat, to: Worker): State<T>
    requires w < |s.ws|
  {
    s.(ws := s.ws[w := to])
  }

  /** The region of run_impl that holds the lock: leave, wait, or take a task. */
  ghost function Look<T>(s: State<T>, w: nat): State<T>
    requires w < |s.ws|
  {
    if s.queue == [] then Move(s, w, if s.stop then Exited else Sleeping)
    else
      s.(queue := s.queue[1..], taken := s.taken + [s.queue[0]], owner := s.owner + [w],
         ws := s.ws[w := Popped(|s.taken|)])
  }

  /** Appends tasks to the queue; wakes nobody yet. */
  ghost function Push<T>(s: State<T>, tasks: seq<T>): State<T> {
    s.(queue := s.queue + tasks, added := s.added + tasks,
       late := if AllExited(s.ws) then s.late + tasks else s.late)
  }

  ghost function Next<T>(s: State<T>, step: Step<T>): State<T>
    requires Enabled(s, step)
  {
    match step
    case Launch(w) => Move(s, w, Ready)
    case Check(w) => Look(s, w)
    case Announce(w) => s.(ws := WakeAll(s.ws[w := Running(s.ws[w].i)]))
    case Finish(w) => Move(s, w, Ready).(finished := s.finished + {s.ws[w].i})
    case Spurious(w) => Move(s, w, Woken)
    case Add(task, wake) =>
      var p := Push(s, [task]);
      if NoneSleeps(s.ws) then p else Move(p, wake, Woken)
    case AddAll(tasks) => Push(s, tasks).(ws := WakeAll(s.ws))
    case Stop => s.(stop := true, ws := WakeAll(s.ws))
  }

  // ----- sums over workers -----

  ghost function Sum(ws: seq<Worker>, f: Worker -> nat): nat {
    if ws == [] then 0 else f(ws[0]) + Sum(ws[1..], f)
  }

  lemma {:induction false} SumUpdate(ws: seq<Worker>, w: nat, to: Worker, f: Worker -> nat)
    requires w < |ws|
    ensures Sum(ws[w := to], f) + f(ws[w]) == Sum(ws, f) + f(to)
  {
    if w > 0 {
      assert ws[w := to][1..] == ws[1..][w - 1 := to];
      SumUpdate(ws[1..], w - 1, to, f);
    } else {
      assert ws[w := to][1..] == ws[1..];
    }
  }

  lemma {:induction false} SumAtLeast(ws: seq<Worker>, w: nat, f: Worker -> nat)
    requires w < |ws|
    ensures Sum(ws, f) >= f(ws[w])
  {
    if w > 0 {
      SumAtLeast(ws[1..], w - 1, f);
    }
  }

  lemma {:induction false} SumIsZero(ws: seq<Worker>, f: Worker -> nat)
    requires forall w :: 0 <= w < |ws| ==> f(ws[w]) == 0
    ensures Sum(ws, f) == 0
  {
    if ws != [] {
      SumIsZero(ws[1..], f);
    }
  }

  lemma WakeNobody(ws: seq<Worker>)
    requires NoneSleeps(ws)
    ensures WakeAll(ws) == ws
  {
  }

  /** The worker is on its way to look at the queue. */
  function Alert(w: Worker): nat {
    if w.Ready? || w.Woken? then 1 else 0
  }

  /** The steps that a worker still has before it leaves, if it takes no further task. */
  function Rank(w: Worker): nat {
    match w
    case Sleeping => 0
    case Exited => 0
    case Ready => 1
    case Woken => 1
    case NotStarted => 2
    case Running(_) => 2
    case Popped(_) => 3
  }

  // ----- what every step keeps -----

  predicate Busy(w: Worker) {
    w.Popped? || w.Running?
  }

  predicate Holds(w: Worker, i: nat) {
    Busy(w) && w.i == i
  }

  /** Tasks are taken in the order they were added. */
  ghost predicate Fifo<T>(s: State<T>) {
    s.taken + s.queue == s.added
  }

  /** Every task taken is with the one worker that took it, or has been run. */
  ghost predicate Owned<T>(s: State<T>) {
    && |s.owner| == |s.taken|
    && (forall i :: 0 <= i < |s.owner| ==> s.owner[i] < |s.ws|)
    && (forall i :: 0 <= i < |s.owner| ==> (i in s.finished <==> !Holds(s.ws[s.owner[i]], i)))
    && (forall i: nat :: i in s.finished ==> i < |s.taken|)
    && (forall w :: 0 <= w < |s.ws| && Busy(s.ws[w]) ==> s.ws[w].i < |s.owner| && s.owner[s.ws[w].i] == w)
  }

  /** While somebody sleeps, every queued task has a worker on its way to it; after stop nobody sleeps. */
  ghost predicate Served<T>(s: State<T>) {
    && (!NoneSleeps(s.ws) ==> |s.queue| <= Sum(s.ws, Alert))
    && (s.stop ==> NoneSleeps(s.ws))
  }

  /** A worker leaves only after stop, and the last one leaves an empty queue. */
  ghost predicate Drained<T>(s: State<T>) {
    && (forall w :: 0 <= w < |s.ws| && s.ws[w].Exited? ==> s.stop)
    && (if AllExited(s.ws) then s.queue == s.late else s.late == [])
  }

  ghost predicate Inv<T>(s: State<T>) {
    Fifo(s) && Owned(s) && Served(s) && Drained(s)
  }

  ghost function Init<T>(n: nat): State<T> {
    State([], false, seq(n, i => NotStarted), [], [], [], {}, [])
  }

  lemma InitKeeps<T>(n: nat)
    ensures Inv(Init<T>(n))
  {
  }

  lemma NextFifo<T>(s: State<T>, step: Step<T>)
    requires Enabled(s, step) && Fifo(s)
    ensures Fifo(Next(s, step))
  {
  }

  lemma NextOwned<T>(s: State<T>, step: Step<T>)
    requires Enabled(s, step) && Owned(s)
    ensures Owned(Next(s, step))
  {
    hide NoneSleeps, Owned, Push, Look;
    match step
    case Check(w) => LookOwned(s, w);
    case Announce(w) =>
      MoveOwned(s, w, Running(s.ws[w].i));
      WakeOwned(Move(s, w, Running(s.ws[w].i)));
    case Finish(w) => FinishOwned(s, w);
    case Launch(w) => MoveOwned(s, w, Ready);
    case Spurious(w) => MoveOwned(s, w, Woken);
    case Add(task, wake) =>
      PushOwned(s, [task]);
      if !NoneSleeps(s.ws) {
        MoveOwned(Push(s, [task]), wake, Woken);
      }
    case AddAll(tasks) =>
      PushOwned(s, tasks);
      WakeOwned(Push(s, tasks));
    case Stop =>
      StopOwned(s);
      WakeOwned(s.(stop := true));
  }

  lemma PushOwned<T>(s: State<T>, tasks: seq<T>)
    requires Owned(s)
    ensures Owned(Push(s, tasks)) && Push(s, tasks).ws == s.ws
  {
  }

  lemma StopOwned<T>(s: State<T>)
    requires Owned(s)
    ensures Owned(s.(stop := true))
  {
  }

  lemma WakeOwned<T>(s: State<T>)
    requires Owned(s)
    ensures Owned(s.(ws := WakeAll(s.ws)))
  {
  }

  lemma LookOwned<T>(s: State<T>, w: nat)
    requires w < |s.ws| && !Busy(s.ws[w]) && Owned(s)
    ensures Owned(Look(s, w))
  {
  }

  lemma FinishOwned<T>(s: State<T>, w: nat)
    requires w < |s.ws| && s.ws[w].Running? && Owned(s)
    ensures Owned(Move(s, w, Ready).(finished := s.finished + {s.ws[w].i}))
  {
  }

  lemma MoveOwned<T>(s: State<T>, w: nat, to: Worker)
    requires w < |s.ws| && Owned(s) && Busy(s.ws[w]) == Busy(to) && (Busy(to) ==> s.ws[w].i == to.i)
    ensures Owned(Move(s, w, to))
  {
  }

  lemma NextServed<T>(s: State<T>, step: Step<T>)
    requires Enabled(s, step) && Served(s) && Drained(s)
    ensures Served(Next(s, step))
  {
    match step
    case Launch(w) => MoveServed(s, w, Ready);
    case Check(w) =>
      SumUpdate(s.ws, w, Popped(|s.taken|), Alert);
      if s.queue != [] && !NoneSleeps(Next(s, step).ws) {
        OthersSleep(s.ws, w, Popped(|s.taken|));
      }
    case Finish(w) => MoveServed(s, w, Ready);
    case Spurious(w) => MoveServed(s, w, Woken);
    case Add(_, wake) =>
      if !NoneSleeps(s.ws) {
        SumUpdate(s.ws, wake, Woken, Alert);
      }
    case _ =>
  }

  lemma OthersSleep(ws: seq<Worker>, w: nat, to: Worker)
    requires w < |ws| && !to.Sleeping? && !NoneSleeps(ws[w := to])
    ensures !NoneSleeps(ws)
  {
  }

  lemma MoveServed<T>(s: State<T>, w: nat, to: Worker)
    requires w < |s.ws| && Served(s) && to in {Ready, Woken} && !s.ws[w].Ready? && !s.ws[w].Woken?
    ensures Served(Move(s, w, to))
  {
    SumUpdate(s.ws, w, to, Alert);
    if !NoneSleeps(Move(s, w, to).ws) {
      OthersSleep(s.ws, w, to);
    }
  }

  lemma NextDrained<T>(s: State<T>, step: Step<T>)
    requires Enabled(s, step) && Drained(s)
    ensures Drained(Next(s, step))
  {
    var r := Next(s, step);
    if AllExited(s.ws) {
      assert r.ws == s.ws;
    } else if AllExited(r.ws) {
      var v :| 0 <= v < |s.ws| && !s.ws[v].Exited?;
      assert r.ws[v].Exited?;
    }
  }

  lemma NextKeeps<T>(s: State<T>, step: Step<T>)
    requires Enabled(s, step) && Inv(s)
    ensures Inv(Next(s, step)) && |Next(s, step).ws| == |s.ws|
  {
    NextFifo(s, step);
    NextOwned(s, step);
    NextServed(s, step);
    NextDrained(s, step);
    hide Fifo, Owned, Served, Drained;
  }

  function Asleep(w: Worker): nat {
    if w.Sleeping? then 1 else 0
  }

  /** A batch, a taken task and stop wake everybody; a single task wakes one sleeper if there is any. */
  lemma CallsWake<T>(s: State<T>, step: Step<T>)
    requires Enabled(s, step)
    ensures step.AddAll? || step.Announce? || step.Stop? ==> NoneSleeps(Next(s, step).ws)
    ensures step.Add? ==>
      Sum(Next(s, step).ws, Asleep) == Sum(s.ws, Asleep) - (if NoneSleeps(s.ws) then 0 else 1)
  {
    hide Sum;
    if step.Add? && !NoneSleeps(s.ws) {
      SumUpdate(s.ws, step.wake, Woken, Asleep);
    }
  }

  // ----- whole runs -----

  ghost predicate Possible<T>(s: State<T>, steps: seq<Step<T>>)
    decreases |steps|
  {
    steps != [] ==> Enabled(s, steps[0]) && Possible(Next(s, steps[0]), steps[1..])
  }

  ghost function Run<T>(s: State<T>, steps: seq<Step<T>>): State<T>
    requires Possible(s, steps)
    decreases |steps|
  {
    if steps == [] then s else Run(Next(s, steps[0]), steps[1..])
  }

  lemma {:induction false} RunKeeps<T>(s: State<T>, steps: seq<Step<T>>)
    requires Inv(s) && Possible(s, steps)
    ensures Inv(Run(s, steps)) && |Run(s, steps).ws| == |s.ws|
    decreases |steps|
  {
    if steps != [] {
      NextKeeps(s, steps[0]);
      hide Inv, Enabled, Next;
      RunKeeps(Next(s, steps[0]), steps[1..]);
    }
  }

  /** A longer run goes on from where the shorter one has got to. */
  lemma {:induction false} RunSnoc<T>(s: State<T>, steps: seq<Step<T>>, step: Step<T>)
    requires Possible(s, steps) && Enabled(Run(s, steps), step)
    ensures Possible(s, steps + [step]) && Run(s, steps + [step]) == Next(Run(s, steps), step)
    decreases |steps|
  {
    if steps == [] {
      assert steps + [step] == [step] && [step][1..] == [];
    } else {
      assert (steps + [step])[0] == steps[0] && (steps + [step])[1..] == steps[1..] + [step];
      RunSnoc(Next(s, steps[0]), steps[1..], step);
    }
    hide Next, Enabled;
  }

  function StepAdds<T>(step: Step<T>): seq<T> {
    match step
    case Add(task, _) => [task]
    case AddAll(tasks) => tasks
    case _ => []
  }

  /** The tasks that the calls of a run add, in the order of the lock. */
  function AddedBy<T>(steps: seq<Step<T>>): seq<T> {
    if steps == [] then [] else StepAdds(steps[0]) + AddedBy(steps[1..])
  }

  lemma NextAdds<T>(s: State<T>, step: Step<T>)
    requires Enabled(s, step)
    ensures Next(s, step).added == s.added + StepAdds(step) && |Next(s, step).ws| == |s.ws|
  {
    assert s.added + [] == s.added;
    hide AllExited, NoneSleeps;
  }

  lemma {:induction false} AddedIsWhatCallsAdd<T>(s: State<T>, steps: seq<Step<T>>)
    requires Possible(s, steps)
    ensures Run(s, steps).added == s.added + AddedBy(steps) && |Run(s, steps).ws| == |s.ws|
    decreases |steps|
  {
    hide Next, Enabled, StepAdds;
    if steps == [] {
      assert s.added + [] == s.added;
    } else {
      NextAdds(s, steps[0]);
      AddedIsWhatCallsAdd(Next(s, steps[0]), steps[1..]);
      AddedTwice(s.added, StepAdds(steps[0]), AddedBy(steps[1..]));
    }
  }

  lemma AddedTwice<T>(a: seq<T>, b: seq<T>, c: seq<T>)
    ensures a + (b + c) == (a + b) + c
  {
  }

  /**
   * In every interleaving: the tasks taken so far followed by the queue are the tasks that the calls
   * have added, in the order of the lock; no task is with two workers; and a task that has been taken is with a worker
   * exactly as long as it has not been run.
   */
  lemma FirstInFirstOutOnce<T>(n: nat, steps: seq<Step<T>>)
    requires Possible(Init<T>(n), steps)
    ensures var s := Run(Init<T>(n), steps);
      && |s.ws| == n && s.taken + s.queue == s.added == AddedBy(steps)
      && (forall v, w :: 0 <= v < |s.ws| && 0 <= w < |s.ws| && Busy(s.ws[v]) && Busy(s.ws[w]) && s.ws[v].i == s.ws[w].i
            ==> v == w)
      && (forall i :: 0 <= i < |s.taken| ==> (i in s.finished <==> forall w :: 0 <= w < |s.ws| ==> !Holds(s.ws[w], i)))
  {
    InitKeeps<T>(n);
    RunKeeps(Init<T>(n), steps);
    AddedIsWhatCallsAdd(Init<T>(n), steps);
    assert [] + AddedBy(steps) == AddedBy(steps);
  }

  /** No wake-up is lost: a worker sleeps only while every queued task has another one coming for it. */
  lemma NoLostWakeUp<T>(n: nat, steps: seq<Step<T>>, w: nat)
    requires Possible(Init<T>(n), steps) && w < |Run(Init<T>(n), steps).ws| && Run(Init<T>(n), steps).ws[w].Sleeping?
    ensures |Run(Init<T>(n), steps).queue| <= Sum(Run(Init<T>(n), steps).ws, Alert)
    ensures !Run(Init<T>(n), steps).stop
  {
    InitKeeps<T>(n);
    RunKeeps(Init<T>(n), steps);
  }

  /** A step that a worker takes by itself. */
  ghost predicate IsWork<T>(step: Step<T>) {
    step.Launch? || step.Check? || step.Announce? || step.Finish?
  }

  ghost predicate CanMove<T>(s: State<T>, w: nat) {
    Enabled(s, Launch(w)) || Enabled(s, Check(w)) || Enabled(s, Announce(w)) || Enabled(s, Finish(w))
  }

  /** Nothing is left to do for any worker, unless it wakes for no reason. */
  ghost predicate Quiet<T>(s: State<T>) {
    forall w: nat :: !CanMove(s, w)
  }

  /**
   * The pool stops only for want of work: when no worker has a step left, each is asleep or has left,
   * every task has been run but those added after the last worker had left, and if stop was
   * called all have left.
   */
  lemma QuietMeansDone<T>(n: nat, steps: seq<Step<T>>)
    requires Possible(Init<T>(n), steps) && Quiet(Run(Init<T>(n), steps))
    ensures var s := Run(Init<T>(n), steps);
      && s.queue == s.late
      && (forall i :: 0 <= i < |s.taken| ==> i in s.finished)
      && (s.stop ==> AllExited(s.ws))
  {
    InitKeeps<T>(n);
    RunKeeps(Init<T>(n), steps);
    QuietState(Run(Init<T>(n), steps));
  }

  lemma QuietState<T>(s: State<T>)
    requires Inv(s) && Quiet(s)
    ensures s.queue == s.late && (s.stop ==> AllExited(s.ws))
    ensures forall i :: 0 <= i < |s.taken| ==> i in s.finished
  {
    forall w | 0 <= w < |s.ws|
      ensures s.ws[w].Sleeping? || s.ws[w].Exited?
    {
      assert !CanMove(s, w);
    }
    SumIsZero(s.ws, Alert);
  }

  // ----- rest is reached -----

  /** The steps that a worker of a pool of n still has, and those that its notify_all gives to others, at most. */
  function Weight(n: nat, w: Worker): nat {
    match w
    case Sleeping => 0
    case Exited => 0
    case Ready => 1
    case Woken => 1
    case NotStarted => 2
    case Running(_) => 2
    case Popped(_) => n + 3
  }

  ghost function Weigher(n: nat): Worker -> nat {
    w => Weight(n, w)
  }

  ghost function Left<T>(s: State<T>): nat {
    (|s.ws| + 3) * |s.queue| + Sum(s.ws, Weigher(|s.ws|))
  }

  /** What a step adds to that, if it is not a worker's own. */
  function Cost<T>(n: nat, step: Step<T>): nat {
    match step
    case Add(_, _) => n + 5
    case AddAll(tasks) => (n + 3) * |tasks| + n + 1
    case Stop => n + 1
    case Spurious(_) => 2
    case _ => 0
  }

  function Costs<T>(n: nat, steps: seq<Step<T>>): nat {
    if steps == [] then 0 else Cost(n, steps[0]) + Costs(n, steps[1..])
  }

  lemma {:induction false} SumWake(ws: seq<Worker>, n: nat)
    ensures Sum(WakeAll(ws), Weigher(n)) <= Sum(ws, Weigher(n)) + |ws|
  {
    if ws != [] {
      assert WakeAll(ws)[1..] == WakeAll(ws[1..]);
      SumWake(ws[1..], n);
    }
  }

  lemma Distribute(n: nat, a: nat, b: nat)
    ensures (n + 3) * (a + b) == (n + 3) * a + (n + 3) * b
  {
  }

  lemma WorkTowardsRest<T>(s: State<T>, step: Step<T>)
    requires Enabled(s, step) && (IsWork(step) || step.Spurious?)
    ensures Left(Next(s, step)) + 1 <= Left(s) + Cost(|s.ws|, step)
  {
    hide Sum;
    var n := |s.ws|;
    match step
    case Launch(w) => SumUpdate(s.ws, w, Ready, Weigher(n));
    case Check(w) =>
      SumUpdate(s.ws, w, Next(s, step).ws[w], Weigher(n));
      if s.queue != [] {
        Distribute(n, |s.queue| - 1, 1);
      }
    case Announce(w) =>
      var ws := s.ws[w := Running(s.ws[w].i)];
      SumUpdate(s.ws, w, ws[w], Weigher(n));
      SumWake(ws, n);
    case Finish(w) => SumUpdate(s.ws, w, Ready, Weigher(n));
    case Spurious(w) => SumUpdate(s.ws, w, Woken, Weigher(n));
  }

  lemma CallTowardsRest<T>(s: State<T>, step: Step<T>)
    requires Enabled(s, step) && (step.Add? || step.AddAll? || step.Stop?)
    ensures Left(Next(s, step)) + 1 <= Left(s) + Cost(|s.ws|, step)
  {
    hide Sum, AllExited;
    var n := |s.ws|;
    match step
    case Add(task, wake) =>
      Distribute(n, |s.queue|, 1);
      if !NoneSleeps(s.ws) {
        SumUpdate(s.ws, wake, Woken, Weigher(n));
      }
    case AddAll(tasks) =>
      Distribute(n, |s.queue|, |tasks|);
      SumWake(s.ws, n);
    case Stop => SumWake(s.ws, n);
  }

  /**
   * The pool comes to rest: over every run, with stop or without, the workers take boundedly many steps
   * for each task, stop and wake-up without cause.
   */
  lemma {:induction false} RestIsReached<T>(s: State<T>, steps: seq<Step<T>>)
    requires Possible(s, steps)
    ensures |Run(s, steps).ws| == |s.ws|
    ensures |steps| + Left(Run(s, steps)) <= Left(s) + Costs(|s.ws|, steps)
    decreases |steps|
  {
    if steps != [] {
      if IsWork(steps[0]) || steps[0].Spurious? {
        WorkTowardsRest(s, steps[0]);
      } else {
        CallTowardsRest(s, steps[0]);
      }
      assert |Next(s, steps[0]).ws| == |s.ws|;
      hide Enabled, Next, Left, Cost;
      RestIsReached(Next(s, steps[0]), steps[1..]);
    }
  }

  // ----- stopping -----

  ghost function WorkSteps<T>(steps: seq<Step<T>>): nat {
    if steps == [] then 0 else (if IsWork(steps[0]) then 1 else 0) + WorkSteps(steps[1..])
  }

  /** The steps that are left until all workers have gone. */
  ghost function Remaining<T>(s: State<T>): nat {
    3 * |s.queue| + Sum(s.ws, Rank)
  }

  lemma StepTowardsEnd<T>(s: State<T>, step: Step<T>)
    requires Enabled(s, step) && Inv(s) && s.stop
    ensures Next(s, step).stop
    ensures Remaining(Next(s, step)) + (if IsWork(step) then 1 else 0)
         == Remaining(s) + 3 * (|Next(s, step).added| - |s.added|)
  {
    WakeNobody(s.ws);
    match step
    case Launch(w) => SumUpdate(s.ws, w, Ready, Rank);
    case Check(w) => SumUpdate(s.ws, w, Next(s, step).ws[w], Rank);
    case Announce(w) =>
      SumUpdate(s.ws, w, Running(s.ws[w].i), Rank);
      WakeNobody(s.ws[w := Running(s.ws[w].i)]);
    case Finish(w) => SumUpdate(s.ws, w, Ready, Rank);
    case _ =>
  }

  /**
   * Once stop is set, every step of a worker brings the end one step nearer and every added task
   * puts it three steps off, in every interleaving. So join returns if handlers do and no more
   * tasks come: after exactly as many steps as remained when stop was called.
   */
  lemma {:induction false} ShutdownCountsDown<T>(s: State<T>, steps: seq<Step<T>>)
    requires Inv(s) && s.stop && Possible(s, steps)
    ensures Run(s, steps).stop
    ensures Remaining(Run(s, steps)) + WorkSteps(steps) == Remaining(s) + 3 * (|Run(s, steps).added| - |s.added|)
    decreases |steps|
  {
    if steps != [] {
      NextKeeps(s, steps[0]);
      StepTowardsEnd(s, steps[0]);
      hide Inv, Enabled, Next, Remaining, IsWork;
      ShutdownCountsDown(Next(s, steps[0]), steps[1..]);
    }
  }

  /** Until all have left, some worker has a step; when all have left, only late tasks remain. */
  lemma ShutdownMovesOn<T>(s: State<T>)
    requires Inv(s) && s.stop
    ensures AllExited(s.ws) <==> Quiet(s)
    ensures AllExited(s.ws) <==> Remaining(s) == 3 * |s.late|
  {
    if AllExited(s.ws) {
      SumIsZero(s.ws, Rank);
    } else {
      if Quiet(s) {
        QuietState(s);
      }
      var w :| 0 <= w < |s.ws| && !s.ws[w].Exited?;
      SumAtLeast(s.ws, w, Rank);
    }
  }

  /**
   * When all workers have left, every task has been run exactly once - each position of taken is
   * finished and no worker holds it - except the tasks added after the last worker left.
   */
  lemma StrandedIffLate<T>(n: nat, steps: seq<Step<T>>)
    requires Possible(Init<T>(n), steps) && AllExited(Run(Init<T>(n), steps).ws)
    ensures var s := Run(Init<T>(n), steps);
      && s.added == s.taken + s.late
      && (forall i :: 0 <= i < |s.added| ==> (i in s.finished <==> i < |s.added| - |s.late|))
  {
    InitKeeps<T>(n);
    RunKeeps(Init<T>(n), steps);
    var s := Run(Init<T>(n), steps);
    assert forall i :: 0 <= i < |s.taken| ==> !Holds(s.ws[s.owner[i]], i);
  }

  lemma RunStep<T>(s: State<T>, step: Step<T>, rest: seq<Step<T>>)
    requires Enabled(s, step) && Possible(Next(s, step), rest)
    ensures Possible(s, [step] + rest) && Run(s, [step] + rest) == Run(Next(s, step), rest)
  {
    assert ([step] + rest)[1..] == rest;
  }

  /** A pool of one, stopped before it had work, leaves the task that comes afterwards in its queue. */
  lemma LateTaskIsStranded<T>(task: T)
    ensures var steps := [Launch(0), Stop, Check(0), Add(task, 0)];
      && Possible(Init<T>(1), steps)
      && var s := Run(Init<T>(1), steps); AllExited(s.ws) && s.queue == [task] && s.taken == []
  {
    var s0 := Init<T>(1);
    var s1 := Next(s0, Launch(0));
    WakeNobody(s1.ws);
    var s2 := Next(s1, Stop);
    var s3 := Next(s2, Check(0));
    assert s3.ws == [Exited] && s3.queue == [];
    var s4 := Next(s3, Add(task, 0));
    assert Run(s4, []) == s4;
    RunStep(s3, Add(task, 0), []);
    RunStep(s2, Check(0), [Add(task, 0)]);
    RunStep(s1, Stop, [Check(0), Add(task, 0)]);
    RunStep(s0, Launch(0), [Stop, Check(0), Add(task, 0)]);
    assert [Launch(0), Stop, Check(0), Add(task, 0)] == [Launch(0)] + [Stop, Check(0), Add(task, 0)];
    assert [Stop, Check(0), Add(task, 0)] == [Stop] + [Check(0), Add(task, 0)];
    assert [Check(0), Add(task, 0)] == [Check(0)] + [Add(task, 0)] && [Add(task, 0)] == [Add(task, 0)] + [];
  }

  /** After stop, tasks are added only while some handler runs. */
  ghost predicate HandlersAddAfterStop<T>(s: State<T>, steps: seq<Step<T>>)
    requires Possible(s, steps)
    decreases |steps|
  {
    steps != [] ==>
      && (s.stop && (steps[0].Add? || steps[0].AddAll?) ==> exists w :: 0 <= w < |s.ws| && s.ws[w].Running?)
      && HandlersAddAfterStop(Next(s, steps[0]), steps[1..])
  }

  lemma {:induction false} HandlersAreNeverLate<T>(s: State<T>, steps: seq<Step<T>>)
    requires Inv(s) && |s.ws| > 0 && s.late == [] && Possible(s, steps) && HandlersAddAfterStop(s, steps)
    ensures Run(s, steps).late == []
    decreases |steps|
  {
    if steps != [] {
      NextKeeps(s, steps[0]);
      if AllExited(s.ws) {
        assert s.ws[0].Exited?;
      }
      assert Next(s, steps[0]).late == [];
      hide Inv, Enabled, Next;
      HandlersAreNeverLate(Next(s, steps[0]), steps[1..]);
    }
  }

  /** Then nothing is stranded: when all workers have left, the queue is empty and every task has run. */
  lemma NothingStranded<T>(n: nat, steps: seq<Step<T>>)
    requires n > 0 && Possible(Init<T>(n), steps) && HandlersAddAfterStop(Init<T>(n), steps)
    requires AllExited(Run(Init<T>(n), steps).ws)
    ensures var s := Run(Init<T>(n), steps);
      s.queue == [] && s.taken == s.added && forall i :: 0 <= i < |s.added| ==> i in s.finished
  {
    InitKeeps<T>(n);
    HandlersAreNeverLate(Init<T>(n), steps);
    StrandedIffLate(n, steps);
    RunKeeps(Init<T>(n), steps);
  }

  // ----- the code -----

  /** What a worker does after a look at the queue: leave its loop, wait, or run a handler. */
  datatype Verdict<T> = Leave | Wait | Handle(task: T)

  /** The front of the queue is what the worker gets; it leaves only after stop. */
  ghost function Judged<T>(s: State<T>): Verdict<T> {
    if s.queue != [] then Handle(s.queue[0]) else if s.stop then Leave else Wait
  }

  /**
   * The task that a worker is handed is the one that leaves the queue, and that it holds from then on; it is
   * told to wait or to leave exactly if it then sleeps or has left.
   */
  lemma WhatIsHandedIsTaken<T>(s: State<T>, w: nat)
    requires w < |s.ws|
    ensures var v, r := Judged(s), Look(s, w);
      && (v.Handle? ==> s.queue == [v.task] + r.queue && r.taken == s.taken + [v.task] && r.ws[w] == Popped(|s.taken|))
      && (v.Handle? <==> r.ws[w].Popped?)
      && (v.Leave? <==> r.ws[w] == Exited) && (v.Wait? <==> r.ws[w] == Sleeping)
  {
  }

  /**
   * The queue with its condition variable and the workers' threads, each of them at one of its
   * scheduling points. A method is what one thread does while it holds the lock.
   */
  class TaskQueue<T> {
    var queue: seq<T>
    var stop: bool

    /** The threads, as the condition variable and the scheduler see them. */
    ghost var ws: seq<Worker>
    ghost var added: seq<T>
    ghost var taken: seq<T>
    ghost var owner: seq<nat>
    ghost var finished: set<nat>
    ghost var late: seq<T>

    ghost function View(): State<T>
      reads this
    {
      State(queue, stop, ws, added, taken, owner, finished, late)
    }

    constructor (n: nat)
      ensures View() == Init(n)
    {
      queue, stop, ws := [], false, seq(n, i => NotStarted);
      added, taken, owner, finished, late := [], [], [], {}, [];
    }

    /** cond_.notify_all. */
    method NotifyAll()
      modifies this`ws
      ensures ws == WakeAll(old(ws))
    {
      ws := WakeAll(ws);
    }

    /** queue_.push, without any notification. */
    method PushTask(task: T)
      modifies this`queue, this`added, this`late
      ensures View() == Push(old(View()), [task])
    {
      queue := queue + [task];
      added := added + [task];
      if AllExited(ws) {
        late := late + [task];
      }
    }

    /** add_task for one handler; wake is the thread that notify_one chooses, if any waits. */
    method AddTask(task: T, wake: nat)
      requires Enabled(View(), Add(task, wake))
      modifies this
      ensures View() == Next(old(View()), Add(task, wake))
    {
      PushTask(task);
      if wake < |ws| && ws[wake].Sleeping? {
        ws := ws[wake := Woken];
      }
    }

    /** add_task for a vector of handlers. */
    method AddTasks(tasks: seq<T>)
      modifies this
      ensures View() == Next(old(View()), AddAll(tasks))
    {
      ghost var before := View();
      PushNothing(before);
      for k := 0 to |tasks|
        modifies this`queue, this`added, this`late
        invariant View() == Push(before, tasks[..k])
      {
        PushTask(tasks[k]);
        assert tasks[..k + 1] == tasks[..k] + [tasks[k]];
        PushTwice(before, tasks[..k], [tasks[k]]);
      }
      assert tasks[..|tasks|] == tasks;
      NotifyAll();
    }

    /** run_impl from the top of its loop until it has a task, waits, or leaves. */
    method CheckQueue(w: nat) returns (verdict: Verdict<T>)
      requires w < |ws| && ws[w].Ready?
      modifies this
      ensures View() == Next(old(View()), Check(w)) && verdict == Judged(old(View()))
      ensures verdict.Handle? ==> old(queue) == [verdict.task] + queue && taken == old(taken) + [verdict.task]
      ensures verdict.Handle? ==> ws[w] == Popped(|old(taken)|)
      ensures (verdict.Leave? <==> ws[w] == Exited) && (verdict.Wait? <==> ws[w] == Sleeping)
    {
      if |queue| == 0 {
        if stop {
          ws := ws[w := Exited];
          return Leave;
        }
        ws := ws[w := Sleeping];
        return Wait;
      }
      var task := Take(w);
      return Handle(task);
    }

    /** run_impl from inside cond_.wait, having locked again. */
    method RecheckQueue(w: nat) returns (verdict: Verdict<T>)
      requires w < |ws| && ws[w].Woken?
      modifies this
      ensures View() == Next(old(View()), Check(w)) && verdict == Judged(old(View()))
      ensures verdict.Handle? ==> old(queue) == [verdict.task] + queue && taken == old(taken) + [verdict.task]
      ensures verdict.Handle? ==> ws[w] == Popped(|old(taken)|)
      ensures (verdict.Leave? <==> ws[w] == Exited) && (verdict.Wait? <==> ws[w] == Sleeping)
    {
      if !(|queue| > 0 || stop) {
        ws := ws[w := Sleeping];
        return Wait;
      }
      if |queue| == 0 && stop {
        ws := ws[w := Exited];
        return Leave;
      }
      var task := Take(w);
      return Handle(task);
    }

    method Take(w: nat) returns (task: T)
      requires w < |ws| && queue != []
      modifies this
      ensures View() == Look(old(View()), w) && task == old(queue)[0]
    {
      task := queue[0];
      queue := queue[1..];
      ws := ws[w := Popped(|taken|)];
      taken := taken + [task];
      owner := owner + [w];
    }

    /** The notify_all that follows the lock region; then the handler starts. */
    method AnnounceTaken(w: nat)
      requires w < |ws| && ws[w].Popped?
      modifies this
      ensures View() == Next(old(View()), Announce(w))
    {
      ws := ws[w := Running(ws[w].i)];
      NotifyAll();
    }

    /** The handler returns. */
    method FinishTask(w: nat)
      requires w < |ws| && ws[w].Running?
      modifies this
      ensures View() == Next(old(View()), Finish(w))
    {
      finished := finished + {ws[w].i};
      ws := ws[w := Ready];
    }

    /** stop, up to its join. */
    method SetStop()
      modifies this
      ensures View() == Next(old(View()), Stop)
    {
      stop := true;
      NotifyAll();
    }
  }

  lemma PushNothing<T>(s: State<T>)
    ensures Push(s, []) == s
  {
  }

  lemma PushTwice<T>(s: State<T>, a: seq<T>, b: seq<T>)
    ensures Push(Push(s, a), b) == Push(s, a + b)
  {
  }
}
