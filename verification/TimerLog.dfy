// What helion/_compile_time.py promises about its timers, stated on the sequence of calls made
// since the last reset by any number of threads, in the order in which they took the lock.
module TimerLog {
  import opened Options
  import opened Sums

  /** `time` is the clock reading the call took. */
  datatype Event =
    | Start(tid: nat, name: string, time: real)
    | Stop(tid: nat, name: string, time: real)
    | Record(tid: nat, name: string, elapsed: real)

  type Log = seq<Event>

  /** The indices of the thread's starts that are still running, oldest first. */
  function Open(log: Log, tid: nat): (open: seq<nat>)
    ensures forall p :: 0 <= p < |open| ==> open[p] < |log| && log[open[p]].Start? && log[open[p]].tid == tid
  {
    if log == [] then []
    else
      var before := Open(log[..|log| - 1], tid);
      var e := log[|log| - 1];
      if e.tid != tid then before
      else if e.Start? then before + [|log| - 1]
      else if e.Stop? && before != [] && log[before[|before| - 1]].name == e.name then before[..|before| - 1]
      else before
  }

  /** Stop j ends the section begun by start i. */
  ghost predicate Closes(log: Log, i: int, j: int) {
    && 0 <= j < |log| && log[j].Stop?
    && var open := Open(log[..j], log[j].tid);
       open != [] && i == open[|open| - 1] && log[i].name == log[j].name
  }

  ghost predicate Closed(log: Log, i: int) {
    exists j :: Closes(log, i, j)
  }

  ghost predicate Running(log: Log, tid: nat, i: int) {
    0 <= i < |log| && log[i].Start? && log[i].tid == tid && !Closed(log, i)
  }

  lemma ClosesInPrefix(log: Log, n: nat, i: int, j: int)
    requires n <= |log|
    ensures Closes(log[..n], i, j) <==> j < n && Closes(log, i, j)
  {
    if 0 <= j < n {
      assert log[..n][..j] == log[..j];
    }
  }

  lemma ClosesRange(log: Log, i: int, j: int)
    ensures Closes(log, i, j) ==> 0 <= i < j < |log|
  {
  }

  lemma ClosedByLast(log: Log, i: int)
    requires log != []
    ensures Closed(log, i) <==> Closed(log[..|log| - 1], i) || Closes(log, i, |log| - 1)
  {
    hide Closes;
    var n := |log| - 1;
    if Closed(log, i) {
      var j :| Closes(log, i, j);
      ClosesRange(log, i, j);
      ClosesInPrefix(log, n, i, j);
    }
    if Closed(log[..n], i) {
      var j :| Closes(log[..n], i, j);
      ClosesInPrefix(log, n, i, j);
    }
  }

  predicate Increasing(open: seq<nat>) {
    forall p, q :: 0 <= p < q < |open| ==> open[p] < open[q]
  }

  lemma NotYetClosed(log: Log, n: nat)
    requires n + 1 == |log|
    ensures !Closed(log, n) && !Closed(log[..n], n)
  {
    hide Closes;
    forall j
      ensures !Closes(log, n, j) && !Closes(log[..n], n, j)
    {
      ClosesRange(log, n, j);
      ClosesRange(log[..n], n, j);
    }
  }

  lemma InFront(open: seq<nat>, i: int)
    requires open != []
    requires Increasing(open)
    ensures i in open[..|open| - 1] <==> i in open && i != open[|open| - 1]
  {
    if i in open && i != open[|open| - 1] {
      var p :| 0 <= p < |open| && open[p] == i;
      assert open[..|open| - 1][p] == i;
    }
    if i in open[..|open| - 1] {
      var p :| 0 <= p < |open| - 1 && open[..|open| - 1][p] == i;
      assert open[p] == i;
    }
  }

  lemma OpenStep(log: Log, tid: nat, i: int)
    requires log != []
    requires Increasing(Open(log[..|log| - 1], tid))
    ensures var n := |log| - 1;
            i in Open(log, tid) <==> || (i == n && log[n].Start? && log[n].tid == tid)
                                     || (i in Open(log[..n], tid) && !Closes(log, i, n))
  {
    var before := Open(log[..|log| - 1], tid);
    if before != [] {
      InFront(before, i);
    }
  }

  /** A start or stop of the thread at index n moves exactly index n or the closed start. */
  lemma RunningStep(log: Log, tid: nat, i: int)
    requires log != []
    requires i in Open(log[..|log| - 1], tid) <==> Running(log[..|log| - 1], tid, i)
    requires Increasing(Open(log[..|log| - 1], tid))
    ensures i in Open(log, tid) <==> Running(log, tid, i)
  {
    hide Closed, Closes, Open;
    var n := |log| - 1;
    var before := Open(log[..n], tid);
    ClosedByLast(log, i);
    OpenStep(log, tid, i);
    if i == n {
      NotYetClosed(log, n);
    }
  }

  /** The stack holds exactly the running sections of its own thread, oldest first. */
  lemma {:induction false} OpenIsRunning(log: Log, tid: nat)
    ensures forall i: int :: i in Open(log, tid) <==> Running(log, tid, i)
    ensures Increasing(Open(log, tid))
  {
    if log != [] {
      var n := |log| - 1;
      var front := log[..n];
      OpenIsRunning(front, tid);
      forall i: int
        ensures i in Open(log, tid) <==> Running(log, tid, i)
      {
        RunningStep(log, tid, i);
      }
    } else {
      forall i: int
        ensures !Running(log, tid, i)
      {
      }
    }
  }

  /**
   * Which start a stop ends, without a stack: the latest start of the same thread that is
   * still running, and only when the names agree.
   */
  lemma ClosesIff(log: Log, i: int, j: int)
    ensures Closes(log, i, j)
        <==> && 0 <= i < j < |log|
             && log[j].Stop? && Running(log[..j], log[j].tid, i) && log[i].name == log[j].name
             && forall later :: i < later < j ==> !Running(log[..j], log[j].tid, later)
  {
    if 0 <= j < |log| && log[j].Stop? {
      var tid := log[j].tid;
      var open := Open(log[..j], tid);
      hide Open, Running;
      OpenIsRunning(log[..j], tid);
      if i in open {
        var p :| 0 <= p < |open| && open[p] == i;
        assert p < |open| - 1 ==> i < open[|open| - 1];
        assert open[|open| - 1] in open;
      }
    }
  }

  // What the sections add up to.

  /** What one call measures: a record its argument, a matching stop the time since its start. */
  function Measurement(before: Log, e: Event): Option<real> {
    if e.Record? then Some(e.elapsed)
    else if e.Stop? then
      var open := Open(before, e.tid);
      if open != [] && before[open[|open| - 1]].name == e.name
      then Some(e.time - before[open[|open| - 1]].time)
      else None
    else None
  }

  function Time(before: Log, e: Event, name: string): real {
    if e.name == name && Measurement(before, e).Some? then Measurement(before, e).value else 0.0
  }

  function Calls(before: Log, e: Event, name: string): nat {
    if e.name == name && Measurement(before, e).Some? then 1 else 0
  }

  function TotalTime(log: Log, name: string): real {
    if log == [] then 0.0 else TotalTime(log[..|log| - 1], name) + Time(log[..|log| - 1], log[|log| - 1], name)
  }

  function TotalCalls(log: Log, name: string): nat {
    if log == [] then 0 else TotalCalls(log[..|log| - 1], name) + Calls(log[..|log| - 1], log[|log| - 1], name)
  }

  /** A stop measures the time since the start it closes; one that closes nothing measures nothing. */
  lemma StopMeasuresItsSection(log: Log, i: int, j: int)
    requires 0 <= j < |log| && log[j].Stop?
    ensures Closes(log, i, j) ==> Measurement(log[..j], log[j]) == Some(log[j].time - log[i].time)
    ensures Measurement(log[..j], log[j]).None? <==> forall s :: !Closes(log, s, j)
  {
    var open := Open(log[..j], log[j].tid);
    if open != [] && log[open[|open| - 1]].name == log[j].name {
      assert Closes(log, open[|open| - 1], j);
    }
  }

  // Threads do not disturb each other.

  function Project(log: Log, tid: nat): Log {
    if log == [] then []
    else Project(log[..|log| - 1], tid) + if log[|log| - 1].tid == tid then [log[|log| - 1]] else []
  }

  type Frames = seq<(string, real)>

  /** The stack as stored: (name, start time) pairs. */
  function Stack(log: Log, tid: nat): (frames: Frames)
    ensures |frames| == |Open(log, tid)|
  {
    var open := Open(log, tid);
    seq(|open|, p requires 0 <= p < |open| => (log[open[p]].name, log[open[p]].time))
  }

  lemma StackStep(log: Log, e: Event, tid: nat)
    ensures Stack(log + [e], tid)
         == if e.tid != tid then Stack(log, tid)
            else if e.Start? then Stack(log, tid) + [(e.name, e.time)]
            else if e.Stop? && Measurement(log, e).Some? then Stack(log, tid)[..|Stack(log, tid)| - 1]
            else Stack(log, tid)
    ensures e.Stop? && Measurement(log, e).Some? ==> Stack(log, e.tid) != []
  {
    assert (log + [e])[..|log|] == log;
  }

  lemma MeasurementOfStack(log: Log, e: Event)
    ensures e.Stop? ==>
              var frames := Stack(log, e.tid);
              Measurement(log, e) == if frames != [] && frames[|frames| - 1].0 == e.name
                                     then Some(e.time - frames[|frames| - 1].1) else None
  {
  }

  /** A thread's stack depends on its own calls only. */
  lemma {:induction false} StackIsLocal(log: Log, tid: nat)
    ensures Stack(Project(log, tid), tid) == Stack(log, tid)
  {
    if log != [] {
      var front, e := log[..|log| - 1], log[|log| - 1];
      StackIsLocal(front, tid);
      hide Stack, Open, Measurement;
      assert log == front + [e];
      StackStep(front, e, tid);
      if e.tid == tid {
        assert Project(log, tid) == Project(front, tid) + [e];
        StackStep(Project(front, tid), e, tid);
        MeasurementOfStack(front, e);
        MeasurementOfStack(Project(front, tid), e);
      } else {
        assert Project(log, tid) == Project(front, tid);
      }
    }
  }

  function ThreadTime(log: Log, tid: nat, name: string): real {
    if log == [] then 0.0
    else ThreadTime(log[..|log| - 1], tid, name)
         + if log[|log| - 1].tid == tid then Time(log[..|log| - 1], log[|log| - 1], name) else 0.0
  }

  function ThreadCalls(log: Log, tid: nat, name: string): nat {
    if log == [] then 0
    else ThreadCalls(log[..|log| - 1], tid, name)
         + if log[|log| - 1].tid == tid then Calls(log[..|log| - 1], log[|log| - 1], name) else 0
  }

  lemma NotAStop(a: Log, b: Log, e: Event)
    requires !e.Stop?
    ensures Measurement(a, e) == Measurement(b, e)
  {
  }

  lemma MeasurementIsLocal(log: Log, e: Event)
    ensures Measurement(Project(log, e.tid), e) == Measurement(log, e)
  {
    hide Stack, Open;
    StackIsLocal(log, e.tid);
    MeasurementOfStack(log, e);
    MeasurementOfStack(Project(log, e.tid), e);
    if !e.Stop? {
      NotAStop(log, Project(log, e.tid), e);
    }
  }

  lemma TotalsStep(log: Log, e: Event, name: string)
    ensures TotalTime(log + [e], name) == TotalTime(log, name) + Time(log, e, name)
    ensures TotalCalls(log + [e], name) == TotalCalls(log, name) + Calls(log, e, name)
  {
    assert (log + [e])[..|log|] == log;
  }

  lemma NothingLogged(tid: nat, name: string)
    ensures Project([], tid) == []
    ensures ThreadTime([], tid, name) == TotalTime([], name) && ThreadCalls([], tid, name) == TotalCalls([], name)
  {
  }

  lemma ProjectStep(front: Log, e: Event, tid: nat)
    ensures Project(front + [e], tid) == Project(front, tid) + if e.tid == tid then [e] else []
  {
    assert (front + [e])[..|front|] == front;
  }

  lemma ThreadStep(front: Log, e: Event, tid: nat, name: string)
    ensures ThreadTime(front + [e], tid, name)
         == ThreadTime(front, tid, name) + if e.tid == tid then Time(front, e, name) else 0.0
    ensures ThreadCalls(front + [e], tid, name)
         == ThreadCalls(front, tid, name) + if e.tid == tid then Calls(front, e, name) else 0
  {
    assert (front + [e])[..|front|] == front;
  }

  lemma EventIsLocal(log: Log, e: Event, name: string)
    ensures Time(Project(log, e.tid), e, name) == Time(log, e, name)
    ensures Calls(Project(log, e.tid), e, name) == Calls(log, e, name)
  {
    hide Measurement, Project;
    MeasurementIsLocal(log, e);
  }

  /** However the threads interleave, a thread adds exactly the time and the calls it would add alone. */
  lemma {:induction false} ThreadTimeIsLocal(log: Log, tid: nat, name: string)
    ensures ThreadTime(log, tid, name) == TotalTime(Project(log, tid), name)
    ensures ThreadCalls(log, tid, name) == TotalCalls(Project(log, tid), name)
  {
    hide *;
    if log == [] {
      NothingLogged(tid, name);
    } else {
      var front, e := log[..|log| - 1], log[|log| - 1];
      assert log == front + [e];
      ThreadTimeIsLocal(front, tid, name);
      ProjectStep(front, e, tid);
      ThreadStep(front, e, tid, name);
      if e.tid == tid {
        EventIsLocal(front, e, name);
        TotalsStep(Project(front, tid), e, name);
      } else {
        assert Project(front, tid) + [] == Project(front, tid);
      }
    }
  }

  lemma {:induction false} ThreadsAddUp(log: Log, name: string, times: int -> real, calls: int -> real, threads: nat)
    requires forall i :: 0 <= i < |log| ==> log[i].tid < threads
    requires forall t: nat :: t < threads ==> times(t) == ThreadTime(log, t, name)
    requires forall t: nat :: t < threads ==> calls(t) == ThreadCalls(log, t, name) as real
    ensures TotalTime(log, name) == Sum(times, 0, threads)
    ensures TotalCalls(log, name) as real == Sum(calls, 0, threads)
  {
    if log == [] {
      SumZero(times, 0, threads);
      SumZero(calls, 0, threads);
    } else {
      hide Time, Calls, Sum;
      var front, e := log[..|log| - 1], log[|log| - 1];
      var before := (t: int) => if t < 0 then 0.0 else ThreadTime(front, t, name);
      var callsBefore := (t: int) => if t < 0 then 0.0 else ThreadCalls(front, t, name) as real;
      ThreadsAddUp(front, name, before, callsBefore, threads);
      assert e.tid < threads;
      SumUpdate(before, times, 0, threads, e.tid);
      SumUpdate(callsBefore, calls, 0, threads, e.tid);
    }
  }

  /** The totals are what the threads would have measured and counted alone, added up. */
  lemma TotalIsSumOfThreads(log: Log, name: string, alone: int -> real, aloneCalls: int -> real, threads: nat)
    requires forall i :: 0 <= i < |log| ==> log[i].tid < threads
    requires forall t: nat :: t < threads ==> alone(t) == TotalTime(Project(log, t), name)
    requires forall t: nat :: t < threads ==> aloneCalls(t) == TotalCalls(Project(log, t), name) as real
    ensures TotalTime(log, name) == Sum(alone, 0, threads)
    ensures TotalCalls(log, name) as real == Sum(aloneCalls, 0, threads)
  {
    forall t: nat | t < threads
      ensures alone(t) == ThreadTime(log, t, name) && aloneCalls(t) == ThreadCalls(log, t, name) as real
    {
      ThreadTimeIsLocal(log, t, name);
    }
    ThreadsAddUp(log, name, alone, aloneCalls, threads);
  }

  // The measure() context manager.

  /** A thread's nested `with measure(name):` blocks. */
  datatype Block = Block(name: string, start: real, inner: seq<Block>, stop: real)

  function Run(sections: seq<Block>, tid: nat): Log
    decreases sections
  {
    if sections == [] then []
    else
      var s := sections[0];
      [Start(tid, s.name, s.start)] + Run(s.inner, tid) + [Stop(tid, s.name, s.stop)] + Run(sections[1..], tid)
  }

  /** Time spent in all blocks of that name, at any depth. */
  function Spent(sections: seq<Block>, name: string): real
    decreases sections
  {
    if sections == [] then 0.0
    else
      (if sections[0].name == name then sections[0].stop - sections[0].start else 0.0)
      + Spent(sections[0].inner, name) + Spent(sections[1..], name)
  }

  function Blocks(sections: seq<Block>, name: string): nat
    decreases sections
  {
    if sections == [] then 0
    else (if sections[0].name == name then 1 else 0) + Blocks(sections[0].inner, name) + Blocks(sections[1..], name)
  }

  lemma RunNothing(tid: nat)
    ensures Run([], tid) == []
  {
  }

  lemma RunSplit(log: Log, sections: seq<Block>, tid: nat)
    requires sections != []
    ensures var s := sections[0];
            log + Run(sections, tid) == log + [Start(tid, s.name, s.start)] + Run(s.inner, tid)
                                        + [Stop(tid, s.name, s.stop)] + Run(sections[1..], tid)
  {
  }

  lemma BlockStep(log: Log, begin: Event, name: string)
    requires begin.Start?
    ensures Stack(log + [begin], begin.tid) == Stack(log, begin.tid) + [(begin.name, begin.time)]
    ensures TotalTime(log + [begin], name) == TotalTime(log, name)
    ensures TotalCalls(log + [begin], name) == TotalCalls(log, name)
  {
    hide Stack, TotalTime, TotalCalls;
    StackStep(log, begin, begin.tid);
    TotalsStep(log, begin, name);
  }

  lemma BlockEnd(log: Log, inside: Log, end: Event, start: real, name: string)
    requires end.Stop?
    requires Stack(inside, end.tid) == Stack(log, end.tid) + [(end.name, start)]
    ensures Stack(inside + [end], end.tid) == Stack(log, end.tid)
    ensures TotalTime(inside + [end], name) == TotalTime(inside, name) + if end.name == name then end.time - start else 0.0
    ensures TotalCalls(inside + [end], name) == TotalCalls(inside, name) + if end.name == name then 1 else 0
  {
    hide Stack, TotalTime, TotalCalls, Measurement;
    MeasurementOfStack(inside, end);
    StackStep(inside, end, end.tid);
    TotalsStep(inside, end, name);
  }

  /** Nested blocks are each counted once, for their whole duration, and leave the stack as it was. */
  lemma {:induction false} EveryBlockIsMeasured(log: Log, sections: seq<Block>, tid: nat, name: string)
    ensures Stack(log + Run(sections, tid), tid) == Stack(log, tid)
    ensures TotalTime(log + Run(sections, tid), name) == TotalTime(log, name) + Spent(sections, name)
    ensures TotalCalls(log + Run(sections, tid), name) == TotalCalls(log, name) + Blocks(sections, name)
    decreases sections
  {
    hide Stack, Open, Measurement, TotalTime, TotalCalls, Run;
    if sections == [] {
      RunNothing(tid);
      assert log + [] == log;
    } else {
      var s := sections[0];
      var begin, end := Start(tid, s.name, s.start), Stop(tid, s.name, s.stop);
      var entered := log + [begin];
      var inside := entered + Run(s.inner, tid);
      var closed := inside + [end];
      BlockStep(log, begin, name);
      EveryBlockIsMeasured(entered, s.inner, tid, name);
      BlockEnd(log, inside, end, s.start, name);
      EveryBlockIsMeasured(closed, sections[1..], tid, name);
      RunSplit(log, sections, tid);
    }
  }
}
