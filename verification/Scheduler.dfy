/** The timed scheduler of src/include/cppev/scheduler.h: a cyclic table of stamps, walked forever. */
module Scheduler {
  import opened Numeric

  /** A periodic task: its interval in nanoseconds and its priority. Tasks are named by their index. */
  datatype TimerTask = TimerTask(interval: int, prio: int)

  /** The tasks triggered at one time point, in the order in which their handlers ran. */
  datatype Batch = Batch(stamp: int, fired: seq<nat>)

  datatype Iter = End | At(key: int)

  ghost predicate ValidTasks(ts: seq<TimerTask>) {
    |ts| >= 1 && forall i :: 0 <= i < |ts| ==> ts[i].interval > 0
  }

  function Intervals(ts: seq<TimerTask>): (r: seq<int>)
    ensures |r| == |ts| && forall i :: 0 <= i < |r| ==> r[i] == ts[i].interval
  {
    seq(|ts|, i requires 0 <= i < |ts| => ts[i].interval)
  }

  /** Some task is to be triggered t nanoseconds after the start. */
  ghost predicate Due(ts: seq<TimerTask>, t: int)
    requires ValidTasks(ts)
  {
    exists i :: 0 <= i < |ts| && Divides(ts[i].interval, t)
  }

  ghost predicate Tasks(ts: seq<TimerTask>, hs: seq<nat>) {
    forall p :: 0 <= p < |hs| ==> hs[p] < |ts|
  }

  /** hs lists every task once, in non-increasing priority. */
  ghost predicate HeapOrder(ts: seq<TimerTask>, hs: seq<nat>) {
    && Tasks(ts, hs)
    && (forall p, q :: 0 <= p < q < |hs| ==> hs[p] != hs[q] && ts[hs[p]].prio >= ts[hs[q]].prio)
    && (forall i :: 0 <= i < |ts| ==> i in hs)
  }

  /** The positions in hs of the tasks to be triggered t after the start, ascending. */
  ghost function Row(ts: seq<TimerTask>, hs: seq<nat>, t: int): (r: seq<nat>)
    requires ValidTasks(ts) && Tasks(ts, hs)
    ensures forall k :: 0 <= k < |r| ==> r[k] < |hs|
  {
    if hs == [] then []
    else
      var n := |hs| - 1;
      Row(ts, hs[..n], t) + if Divides(ts[hs[n]].interval, t) then [n] else []
  }

  /** r holds exactly the positions of the tasks due at t, ascending. */
  ghost predicate ExactRow(r: seq<nat>, ts: seq<TimerTask>, hs: seq<nat>, t: int)
    requires ValidTasks(ts) && Tasks(ts, hs)
  {
    && (forall k, l :: 0 <= k < l < |r| ==> r[k] < r[l])
    && (forall k :: 0 <= k < |r| ==> r[k] < |hs| && Divides(ts[hs[r[k]]].interval, t))
    && (forall p :: 0 <= p < |hs| && Divides(ts[hs[p]].interval, t) ==> p in r)
  }

  lemma {:induction false} RowExact(ts: seq<TimerTask>, hs: seq<nat>, t: int)
    requires ValidTasks(ts) && Tasks(ts, hs)
    ensures ExactRow(Row(ts, hs, t), ts, hs, t)
  {
    hide Divides, Row;
    RowStep(ts, hs, t);
    if hs != [] {
      var n := |hs| - 1;
      RowExact(ts, hs[..n], t);
      var r', r := Row(ts, hs[..n], t), Row(ts, hs, t);
      forall p | 0 <= p < |hs| && Divides(ts[hs[p]].interval, t)
        ensures p in r
      {
        if p < n {
          assert hs[..n][p] == hs[p] && p in r';
        } else {
          assert r == r' + [n] && r[|r'|] == n;
        }
      }
      forall k | 0 <= k < |r|
        ensures r[k] < |hs| && Divides(ts[hs[r[k]]].interval, t)
      {
        if k < |r'| {
          assert r[k] == r'[k] && hs[..n][r'[k]] == hs[r'[k]];
        }
      }
    }
  }

  lemma RowStep(ts: seq<TimerTask>, hs: seq<nat>, t: int)
    requires ValidTasks(ts) && Tasks(ts, hs)
    ensures hs == [] ==> Row(ts, hs, t) == []
    ensures hs != [] ==>
      var n := |hs| - 1;
      Row(ts, hs, t) == Row(ts, hs[..n], t) + if Divides(ts[hs[n]].interval, t) then [n] else []
  {
  }

  /** What the handlers at those positions are, in that order. */
  ghost function Fired(ts: seq<TimerTask>, hs: seq<nat>, t: int): (r: seq<nat>)
    requires ValidTasks(ts) && Tasks(ts, hs)
    ensures |r| == |Row(ts, hs, t)| && forall k :: 0 <= k < |r| ==> r[k] == hs[Row(ts, hs, t)[k]]
  {
    var row := Row(ts, hs, t);
    seq(|row|, k requires 0 <= k < |row| => hs[row[k]])
  }

  /**
   * The reference scheduler: tick through every nanosecond before horizon and, at each one
   * that some interval divides, trigger the tasks that are due.
   */
  ghost function Ticking(ts: seq<TimerTask>, hs: seq<nat>, base: int, horizon: nat): seq<Batch>
    requires ValidTasks(ts) && Tasks(ts, hs)
  {
    if horizon == 0 then []
    else
      var t := horizon - 1;
      Ticking(ts, hs, base, t)
      + if Row(ts, hs, t) != [] then [Batch(base + t, Fired(ts, hs, t))] else []
  }

  /** The table holds exactly the non-empty rows of one cycle. */
  ghost predicate IsTable(tasks: map<int, seq<nat>>, ts: seq<TimerTask>, hs: seq<nat>, cycle: int)
    requires ValidTasks(ts) && Tasks(ts, hs)
  {
    forall s ::
      && (s in tasks <==> 0 <= s < cycle && Row(ts, hs, s) != [])
      && (s in tasks ==> tasks[s] == Row(ts, hs, s))
  }

  /** As IsTable, with task idx entered after the tasks hs at the stamps below a bound only. */
  ghost predicate PartTable(tasks: map<int, seq<nat>>, ts: seq<TimerTask>, hs: seq<nat>, idx: nat, cycle: int,
                            bound: int)
    requires ValidTasks(ts) && Tasks(ts, hs) && idx < |ts|
  {
    forall s :: PartRow(tasks, ts, hs, idx, cycle, bound, s)
  }

  ghost predicate PartRow(tasks: map<int, seq<nat>>, ts: seq<TimerTask>, hs: seq<nat>, idx: nat, cycle: int,
                          bound: int, s: int)
    requires ValidTasks(ts) && Tasks(ts, hs) && idx < |ts|
  {
    var row := Row(ts, if s < bound then hs + [idx] else hs, s);
    && (s in tasks <==> 0 <= s < cycle && row != [])
    && (s in tasks ==> tasks[s] == row)
  }

  // ----- building the table -----

  lemma {:induction false} LargestExists(ts: seq<TimerTask>, heap: set<nat>)
    requires heap != {} && forall i :: i in heap ==> i < |ts|
    ensures exists i :: i in heap && forall j :: j in heap ==> ts[j].prio <= ts[i].prio
  {
    var i :| i in heap;
    if heap != {i} {
      LargestExists(ts, heap - {i});
      var m :| m in heap - {i} && forall j :: j in heap - {i} ==> ts[j].prio <= ts[m].prio;
      var w := if ts[m].prio >= ts[i].prio then m else i;
      assert w in heap && forall j :: j in heap ==> ts[j].prio <= ts[w].prio;
    }
  }

  /** The top of the priority queue: some task of the largest priority, ties broken in any way. */
  method Top(ts: seq<TimerTask>, heap: set<nat>) returns (idx: nat)
    requires heap != {} && forall i :: i in heap ==> i < |ts|
    ensures idx in heap && forall j :: j in heap ==> ts[j].prio <= ts[idx].prio
  {
    LargestExists(ts, heap);
    idx :| idx in heap && forall j :: j in heap ==> ts[j].prio <= ts[idx].prio;
  }

  lemma RowOfLast(ts: seq<TimerTask>, hs: seq<nat>, idx: nat, t: int)
    requires ValidTasks(ts) && Tasks(ts, hs) && idx < |ts|
    ensures Row(ts, hs + [idx], t) == Row(ts, hs, t) + if Divides(ts[idx].interval, t) then [|hs|] else []
  {
  }

  lemma NotAMultiple(g: int, stamp: int, s: int)
    requires g > 0 && Divides(g, stamp) && stamp < s < stamp + g
    ensures !Divides(g, s)
  {
    if Divides(g, s) {
      DividesLinear(g, s, stamp, 1, -1);
      DivisorIsSmaller(g, s - stamp);
    }
  }

  /** Stepping by the gcd misses no stamp at which the task is due. */
  lemma NothingBetweenSteps(ts: seq<TimerTask>, hs: seq<nat>, idx: nat, g: int, stamp: int, s: int)
    requires ValidTasks(ts) && Tasks(ts, hs) && idx < |ts|
    requires g > 0 && Divides(g, ts[idx].interval) && Divides(g, stamp)
    requires stamp < s < stamp + g
    ensures Row(ts, hs + [idx], s) == Row(ts, hs, s)
  {
    RowOfLast(ts, hs, idx, s);
    if Divides(ts[idx].interval, s) {
      DividesTrans(g, ts[idx].interval, s);
      NotAMultiple(g, stamp, s);
    }
  }

  lemma TableStep(tasks: map<int, seq<nat>>, tasks': map<int, seq<nat>>, ts: seq<TimerTask>, hs: seq<nat>,
                  idx: nat, cycle: int, stamp: int, g: int)
    requires ValidTasks(ts) && Tasks(ts, hs) && idx < |ts|
    requires g > 0 && Divides(g, ts[idx].interval) && Divides(g, stamp) && 0 <= stamp < cycle
    requires PartTable(tasks, ts, hs, idx, cycle, stamp)
    requires tasks' ==
      if stamp % ts[idx].interval == 0
      then tasks[stamp := (if stamp in tasks then tasks[stamp] else []) + [|hs|]]
      else tasks
    ensures PartTable(tasks', ts, hs, idx, cycle, stamp + g)
  {
    var bound := stamp + g;
    forall s
      ensures PartRow(tasks', ts, hs, idx, cycle, bound, s)
    {
      assert PartRow(tasks, ts, hs, idx, cycle, stamp, s);
      if stamp < s < stamp + g {
        NothingBetweenSteps(ts, hs, idx, g, stamp, s);
      }
      RowOfLast(ts, hs, idx, stamp);
      hide Row, Divides, PartTable;
    }
  }

  lemma FullTable(tasks: map<int, seq<nat>>, ts: seq<TimerTask>, hs: seq<nat>, idx: nat, cycle: int, bound: int)
    requires ValidTasks(ts) && Tasks(ts, hs) && idx < |ts|
    requires bound >= cycle && PartTable(tasks, ts, hs, idx, cycle, bound)
    ensures IsTable(tasks, ts, hs + [idx], cycle)
  {
    hide Row;
    forall s
      ensures
        && (s in tasks <==> 0 <= s < cycle && Row(ts, hs + [idx], s) != [])
        && (s in tasks ==> tasks[s] == Row(ts, hs + [idx], s))
    {
      assert PartRow(tasks, ts, hs, idx, cycle, bound, s);
    }
  }

  // ----- the rows repeat -----

  lemma {:induction false} RowRepeats(ts: seq<TimerTask>, hs: seq<nat>, cycle: int, laps: int, s: int)
    requires ValidTasks(ts) && Tasks(ts, hs)
    requires MultipleOfAll(cycle, Intervals(ts))
    ensures Row(ts, hs, laps * cycle + s) == Row(ts, hs, s)
  {
    if hs != [] {
      var n := |hs| - 1;
      RowRepeats(ts, hs[..n], cycle, laps, s);
      assert Divides(Intervals(ts)[hs[n]], cycle);
      ShiftByCycles(ts[hs[n]].interval, cycle, laps, s);
      hide Divides;
    }
  }

  lemma ShiftByCycles(d: int, cycle: int, laps: int, s: int)
    requires d != 0 && Divides(d, cycle)
    ensures Divides(d, laps * cycle + s) <==> Divides(d, s)
  {
    var t := laps * cycle + s;
    if Divides(d, s) {
      DividesLinear(d, cycle, s, laps, 1);
    }
    if Divides(d, t) {
      DividesLinear(d, cycle, t, -laps, 1);
      assert (-laps) * cycle == -(laps * cycle);
    }
  }

  /** The first tick is due: every interval divides 0. */
  lemma ZeroIsDue(ts: seq<TimerTask>, hs: seq<nat>)
    requires ValidTasks(ts) && HeapOrder(ts, hs)
    ensures Row(ts, hs, 0) != []
  {
    assert 0 in hs;
    var p :| 0 <= p < |hs| && hs[p] == 0;
    RowExact(ts, hs, 0);
    assert Divides(ts[hs[p]].interval, 0);
  }

  lemma {:induction false} TickingSkips(ts: seq<TimerTask>, hs: seq<nat>, base: int, t: nat, span: nat)
    requires ValidTasks(ts) && Tasks(ts, hs) && span >= 1
    requires Row(ts, hs, t) != []
    requires forall u :: t < u < t + span ==> Row(ts, hs, u) == []
    ensures Ticking(ts, hs, base, t + span) == Ticking(ts, hs, base, t) + [Batch(base + t, Fired(ts, hs, t))]
  {
    hide Row, Divides, Fired;
    if span > 1 {
      TickingSkips(ts, hs, base, t, span - 1);
      assert Row(ts, hs, t + span - 1) == [];
    }
  }

  /** Stopping early leaves a prefix. */
  lemma {:induction false} TickingIsPrefix(ts: seq<TimerTask>, hs: seq<nat>, base: int, h: nat, k: nat)
    requires ValidTasks(ts) && Tasks(ts, hs) && h <= k
    ensures Ticking(ts, hs, base, h) <= Ticking(ts, hs, base, k)
  {
    hide Row, Fired;
    if h < k {
      TickingIsPrefix(ts, hs, base, h, k - 1);
    }
  }

  /** The batch is what is to happen at one of the due times before horizon. */
  ghost predicate DueBatch(b: Batch, ts: seq<TimerTask>, hs: seq<nat>, base: int, horizon: nat)
    requires ValidTasks(ts) && Tasks(ts, hs)
  {
    var t := b.stamp - base;
    0 <= t < horizon && Due(ts, t) && b.fired == Fired(ts, hs, t)
  }

  ghost predicate Triggered(tr: seq<Batch>, stamp: int) {
    exists k :: 0 <= k < |tr| && tr[k].stamp == stamp
  }

  /** tr consists of one batch, in order, for every t before horizon that some interval divides. */
  ghost predicate EveryDueTime(tr: seq<Batch>, ts: seq<TimerTask>, hs: seq<nat>, base: int, horizon: nat)
    requires ValidTasks(ts) && Tasks(ts, hs)
  {
    && (forall k :: 0 <= k < |tr| ==> DueBatch(tr[k], ts, hs, base, horizon))
    && (forall t :: 0 <= t < horizon && Due(ts, t) ==> Triggered(tr, base + t))
    && (forall k, l :: 0 <= k < l < |tr| ==> tr[k].stamp < tr[l].stamp)
  }

  lemma TriggeredGrows(tr: seq<Batch>, b: Batch, stamp: int)
    requires Triggered(tr, stamp) || b.stamp == stamp
    ensures Triggered(tr + [b], stamp)
  {
    if b.stamp == stamp {
      assert (tr + [b])[|tr|].stamp == stamp;
    } else {
      var k :| 0 <= k < |tr| && tr[k].stamp == stamp;
      assert (tr + [b])[k].stamp == stamp;
    }
  }

  lemma DueStep(tr: seq<Batch>, ts: seq<TimerTask>, hs: seq<nat>, base: int, t: nat)
    requires ValidTasks(ts) && Tasks(ts, hs) && EveryDueTime(tr, ts, hs, base, t) && Due(ts, t)
    ensures EveryDueTime(tr + [Batch(base + t, Fired(ts, hs, t))], ts, hs, base, t + 1)
  {
    hide Row, Fired, Due, Triggered;
    var b := Batch(base + t, Fired(ts, hs, t));
    var tr' := tr + [b];
    forall k | 0 <= k < |tr'|
      ensures DueBatch(tr'[k], ts, hs, base, t + 1)
    {
      assert k < |tr| ==> tr'[k] == tr[k];
      assert b.stamp - base == t;
    }
    hide DueBatch;
    forall u | 0 <= u < t + 1 && Due(ts, u)
      ensures Triggered(tr', base + u)
    {
      TriggeredGrows(tr, b, base + u);
    }
  }

  lemma NotDueStep(tr: seq<Batch>, ts: seq<TimerTask>, hs: seq<nat>, base: int, t: nat)
    requires ValidTasks(ts) && Tasks(ts, hs) && EveryDueTime(tr, ts, hs, base, t) && !Due(ts, t)
    ensures EveryDueTime(tr, ts, hs, base, t + 1)
  {
  }

  /** What the reference scheduler has done before horizon. */
  lemma {:induction false} TickingIsEveryDueTime(ts: seq<TimerTask>, hs: seq<nat>, base: int, horizon: nat)
    requires ValidTasks(ts) && HeapOrder(ts, hs)
    ensures EveryDueTime(Ticking(ts, hs, base, horizon), ts, hs, base, horizon)
  {
    hide Row, Fired, Due, EveryDueTime, Ticking;
    TickingStep(ts, hs, base, horizon);
    if horizon > 0 {
      var t := horizon - 1;
      DueIffRow(ts, hs, t);
      TickingIsEveryDueTime(ts, hs, base, t);
      if Due(ts, t) {
        DueStep(Ticking(ts, hs, base, t), ts, hs, base, t);
      } else {
        NotDueStep(Ticking(ts, hs, base, t), ts, hs, base, t);
      }
    }
  }

  lemma TickingStep(ts: seq<TimerTask>, hs: seq<nat>, base: int, horizon: nat)
    requires ValidTasks(ts) && Tasks(ts, hs)
    ensures horizon == 0 ==> Ticking(ts, hs, base, horizon) == [] && EveryDueTime([], ts, hs, base, 0)
    ensures horizon > 0 ==>
      var t := horizon - 1;
      Ticking(ts, hs, base, horizon) ==
        if Row(ts, hs, t) != [] then Ticking(ts, hs, base, t) + [Batch(base + t, Fired(ts, hs, t))]
        else Ticking(ts, hs, base, t)
  {
    hide Row, Fired, Due, DueBatch;
  }

  lemma DueIffRow(ts: seq<TimerTask>, hs: seq<nat>, t: int)
    requires ValidTasks(ts) && HeapOrder(ts, hs)
    ensures Due(ts, t) <==> Row(ts, hs, t) != []
  {
    var row := Row(ts, hs, t);
    RowExact(ts, hs, t);
    hide Divides, Row;
    if row != [] {
      assert Divides(ts[hs[row[0]]].interval, t);
    }
    if Due(ts, t) {
      var i :| 0 <= i < |ts| && Divides(ts[i].interval, t);
      assert i in hs;
      var p :| 0 <= p < |hs| && hs[p] == i;
      assert p in row;
    }
  }

  /** A batch triggers exactly the tasks whose interval divides t, each once, by non-increasing priority. */
  lemma FiredIsExact(ts: seq<TimerTask>, hs: seq<nat>, t: int)
    requires ValidTasks(ts) && HeapOrder(ts, hs)
    ensures var f := Fired(ts, hs, t);
      && (forall i: nat :: i in f <==> i < |ts| && Divides(ts[i].interval, t))
      && (forall k, l :: 0 <= k < l < |f| ==> f[k] != f[l])
      && (forall k, l :: 0 <= k < l < |f| ==> f[k] < |ts| && f[l] < |ts| && ts[f[k]].prio >= ts[f[l]].prio)
  {
    var f, row := Fired(ts, hs, t), Row(ts, hs, t);
    RowExact(ts, hs, t);
    hide Divides, Row;
    forall i: nat | i < |ts| && Divides(ts[i].interval, t)
      ensures i in f
    {
      assert i in hs;
      var p :| 0 <= p < |hs| && hs[p] == i;
      assert p in row;
      var k :| 0 <= k < |row| && row[k] == p;
      assert f[k] == i;
    }
  }

  // ----- walking the table -----

  ghost predicate IsLeast(x: int, s: set<int>) {
    x in s && forall y :: y in s ==> x <= y
  }

  lemma {:induction false} LeastExists(s: set<int>, x: int)
    requires x in s
    ensures exists m :: IsLeast(m, s)
  {
    if y :| y in s && y < x {
      LeastExists(s - {x}, y);
      var m :| IsLeast(m, s - {x});
      assert m <= y;
      assert forall z :: z in s ==> z == x || z in s - {x};
      assert IsLeast(m, s);
    } else {
      assert IsLeast(x, s);
    }
  }

  /** The iterator of an ordered map: the least key above a bound, or the end. */
  method KeyAbove(tasks: map<int, seq<nat>>, bound: int) returns (it: Iter)
    ensures it.At? ==> it.key in tasks && it.key > bound
    ensures forall k :: k in tasks && k > bound ==> it.At? && it.key <= k
  {
    var above := set k | k in tasks && k > bound;
    assert forall k :: k in tasks && k > bound ==> k in above;
    if above == {} {
      it := End;
    } else {
      ghost var some :| some in above;
      LeastExists(above, some);
      assert exists m :: IsLeast(m, above);
      var x :| x in above && forall y :: y in above ==> x <= y;
      it := At(x);
    }
  }

  class TimedScheduler {
    var interval: int
    var handlers: seq<nat>
    var tasks: map<int, seq<nat>>
    ghost const ts: seq<TimerTask>

    ghost predicate Valid()
      reads this
    {
      && ValidTasks(ts)
      && HeapOrder(ts, handlers)
      && interval > 0
      && IsLcm(interval, Intervals(ts))
      && IsTable(tasks, ts, handlers, interval)
    }

    constructor (timerTasks: seq<TimerTask>)
      requires ValidTasks(timerTasks) && MultipleFits(Intervals(timerTasks))
      ensures Valid() && ts == timerTasks
    {
      var intervals := Intervals(timerTasks);
      var lcm, gcd := intervals[0], intervals[0];
      if |intervals| >= 2 {
        lcm := LcmAll(intervals);
        gcd := GcdAll(intervals);
      } else {
        assert intervals == [intervals[0]];
        LcmOne(intervals[0]);
        GcdOne(intervals[0]);
      }
      var hs, table := BuildTable(timerTasks, lcm, gcd);
      interval := lcm;
      handlers := hs;
      tasks := table;
      ts := timerTasks;
    }

    /**
     * The thread's loop, up to the batch after which it sees the stop flag. Its trace is the
     * reference scheduler's, whatever the number of batches.
     */
    method Walk(base: int, limit: nat) returns (trace: seq<Batch>, now: int)
      requires Valid()
      ensures |trace| == limit && now >= base
      ensures trace == Ticking(ts, handlers, base, now - base)
    {
      hide Row, Fired, Divides;
      trace, now := [], base;
      ghost var laps := 0;
      ZeroIsDue(ts, handlers);
      while |trace| < limit
        invariant |trace| <= limit && now >= base
        invariant trace == Ticking(ts, handlers, base, now - base)
        invariant |trace| < limit ==> now - base == laps * interval
        decreases limit - |trace|
      {
        ghost var before := |trace|;
        var it := KeyAbove(tasks, -1);
        assert 0 in tasks;
        while |trace| < limit && it.At?
          invariant |trace| <= limit && now >= base
          invariant trace == Ticking(ts, handlers, base, now - base)
          invariant it.At? ==> it.key in tasks && now - base == laps * interval + it.key
          invariant it.End? ==> now - base == laps * interval + interval
          invariant |trace| > before || it.At?
          decreases limit - |trace|
        {
          var curr := it.key;
          var next := KeyAbove(tasks, curr);
          var span := if next.End? then interval - curr else next.key - curr;
          var fired := Fire(tasks[curr], curr);
          BatchStep(laps, curr, span, base, now, fired);
          trace := trace + [Batch(now, fired)];
          now := now + span;
          it := next;
        }
        laps := laps + 1;
        assert laps * interval == (laps - 1) * interval + interval;
      }
    }

    /** Runs the handlers of one row, and reports whose they were. */
    method Fire(row: seq<nat>, ghost stamp: int) returns (fired: seq<nat>)
      requires Valid() && row == Row(ts, handlers, stamp)
      ensures fired == Fired(ts, handlers, stamp)
    {
      fired := [];
      for k := 0 to |row|
        invariant |fired| == k && forall j :: 0 <= j < k ==> fired[j] == handlers[row[j]]
      {
        fired := fired + [handlers[row[k]]];
      }
    }

    lemma BatchStep(laps: int, curr: int, span: int, base: int, now: int, fired: seq<nat>)
      requires Valid() && curr in tasks && now >= base && now - base == laps * interval + curr
      requires span >= 1 && curr + span <= interval
      requires forall k :: k in tasks && k > curr ==> curr + span <= k
      requires fired == Fired(ts, handlers, curr)
      ensures Ticking(ts, handlers, base, now + span - base)
           == Ticking(ts, handlers, base, now - base) + [Batch(now, fired)]
    {
      hide Row, Fired, Divides, Ticking;
      var t := now - base;
      RowRepeats(ts, handlers, interval, laps, curr);
      FiredRepeats(ts, handlers, curr, t);
      forall u | t < u < t + span
        ensures Row(ts, handlers, u) == []
      {
        var s := curr + (u - t);
        assert s !in tasks;
        RowRepeats(ts, handlers, interval, laps, s);
      }
      TickingSkips(ts, handlers, base, t, span);
    }
  }

  lemma FiredRepeats(ts: seq<TimerTask>, hs: seq<nat>, s: int, t: int)
    requires ValidTasks(ts) && Tasks(ts, hs) && Row(ts, hs, s) == Row(ts, hs, t)
    ensures Fired(ts, hs, s) == Fired(ts, hs, t)
  {
  }

  /** The table-building loops of the constructor. */
  method BuildTable(ts: seq<TimerTask>, lcm: int, gcd: int) returns (hs: seq<nat>, tasks: map<int, seq<nat>>)
    requires ValidTasks(ts) && lcm > 0 && gcd > 0
    requires MultipleOfAll(lcm, Intervals(ts)) && DividesAll(gcd, Intervals(ts))
    ensures HeapOrder(ts, hs) && IsTable(tasks, ts, hs, lcm)
  {
    var heap: set<nat> := {};
    for i := 0 to |ts|
      invariant forall j :: j in heap <==> 0 <= j < i
    {
      heap := heap + {i};
    }
    hs, tasks := [], map[];
    hide Row, Divides, DividesAll, MultipleOfAll;
    while heap != {}
      invariant forall i :: i in heap ==> i < |ts|
      invariant Tasks(ts, hs)
      invariant forall p, q :: 0 <= p < q < |hs| ==> hs[p] != hs[q] && ts[hs[p]].prio >= ts[hs[q]].prio
      invariant forall p, i :: 0 <= p < |hs| && i in heap ==> hs[p] != i && ts[hs[p]].prio >= ts[i].prio
      invariant forall i: nat :: i < |ts| ==> i in heap || i in hs
      invariant IsTable(tasks, ts, hs, lcm)
      decreases heap
    {
      var idx := Top(ts, heap);
      heap := heap - {idx};
      tasks := EnterTask(ts, hs, idx, lcm, gcd, tasks);
      hs := hs + [idx];
    }
  }

  /** The inner loop: enter one task at every stamp of the cycle that its interval divides. */
  method EnterTask(ts: seq<TimerTask>, hs: seq<nat>, idx: nat, lcm: int, gcd: int, tasks0: map<int, seq<nat>>)
    returns (tasks: map<int, seq<nat>>)
    requires ValidTasks(ts) && Tasks(ts, hs) && idx < |ts| && lcm > 0 && gcd > 0
    requires MultipleOfAll(lcm, Intervals(ts)) && DividesAll(gcd, Intervals(ts))
    requires IsTable(tasks0, ts, hs, lcm)
    ensures IsTable(tasks, ts, hs + [idx], lcm)
  {
    tasks := tasks0;
    var stamp := 0;
    assert Divides(gcd, Intervals(ts)[idx]);
    assert forall s :: PartRow(tasks, ts, hs, idx, lcm, 0, s);
    while stamp < lcm
      invariant stamp >= 0 && Divides(gcd, stamp)
      invariant PartTable(tasks, ts, hs, idx, lcm, stamp)
    {
      ghost var was := tasks;
      if stamp % ts[idx].interval == 0 {
        tasks := tasks[stamp := (if stamp in tasks then tasks[stamp] else []) + [|hs|]];
      }
      TableStep(was, tasks, ts, hs, idx, lcm, stamp, gcd);
      DividesLinear(gcd, stamp, gcd, 1, 1);
      assert 1 * stamp + 1 * gcd == stamp + gcd;
      stamp := stamp + gcd;
    }
    FullTable(tasks, ts, hs, idx, lcm, stamp);
  }
}
