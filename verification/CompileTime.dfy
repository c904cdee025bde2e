// CompileTimeTracker of helion/_compile_time.py. Every method runs under the tracker's lock, so
// a run of several threads is a sequence of calls; the clock readings are parameters.
module CompileTime {
  import opened Options
  import opened TimerLog
  import opened TimingReport

  ghost predicate EntryAgrees(log: Log, timings: map<string, real>, callCounts: map<string, nat>, name: string) {
    && (name in timings <==> TotalCalls(log, name) > 0)
    && (name in timings ==> timings[name] == TotalTime(log, name))
    && (name in callCounts ==> callCounts[name] == TotalCalls(log, name))
  }

  /** What the fields hold is what the calls since the last reset measured. */
  ghost predicate Agrees(log: Log, timings: map<string, real>, callCounts: map<string, nat>) {
    timings.Keys == callCounts.Keys && forall name :: EntryAgrees(log, timings, callCounts, name)
  }

  /** A thread without an entry has no running section. */
  function FramesOf(active: map<nat, Frames>, tid: nat): Frames {
    if tid in active then active[tid] else []
  }

  ghost predicate StacksAgree(log: Log, active: map<nat, Frames>) {
    forall tid: nat :: FramesOf(active, tid) == Stack(log, tid)
  }

  /** `d[name] += x` on a defaultdict. */
  function Plus(timings: map<string, real>, name: string, x: real): map<string, real> {
    timings[name := (if name in timings then timings[name] else 0.0) + x]
  }

  function Increment(calls: map<string, nat>, name: string): map<string, nat> {
    calls[name := (if name in calls then calls[name] else 0) + 1]
  }

  lemma {:induction false} NoCallsNoTime(log: Log, name: string)
    requires TotalCalls(log, name) == 0
    ensures TotalTime(log, name) == 0.0
  {
    if log != [] {
      NoCallsNoTime(log[..|log| - 1], name);
    }
  }

  lemma SameKeys(timings: map<string, real>, calls: map<string, nat>, name: string, x: real)
    requires timings.Keys == calls.Keys
    ensures Plus(timings, name, x).Keys == Increment(calls, name).Keys
  {
  }

  lemma EntryAfter(log: Log, e: Event, timings: map<string, real>, calls: map<string, nat>, name: string)
    requires timings.Keys == calls.Keys && EntryAgrees(log, timings, calls, name)
    ensures Measurement(log, e).None? ==> EntryAgrees(log + [e], timings, calls, name)
    ensures Measurement(log, e).Some?
            ==> EntryAgrees(log + [e], Plus(timings, e.name, Measurement(log, e).value), Increment(calls, e.name), name)
  {
    hide TotalTime, TotalCalls, Measurement;
    TotalsStep(log, e, name);
    if TotalCalls(log, name) == 0 {
      NoCallsNoTime(log, name);
    }
  }

  lemma AgreesAfter(log: Log, e: Event, timings: map<string, real>, calls: map<string, nat>)
    requires Agrees(log, timings, calls)
    ensures Measurement(log, e).None? ==> Agrees(log + [e], timings, calls)
    ensures Measurement(log, e).Some?
            ==> Agrees(log + [e], Plus(timings, e.name, Measurement(log, e).value), Increment(calls, e.name))
  {
    hide TotalTime, TotalCalls, Measurement, Plus, Increment, EntryAgrees;
    forall name
      ensures Measurement(log, e).None? ==> EntryAgrees(log + [e], timings, calls, name)
      ensures Measurement(log, e).Some?
              ==> EntryAgrees(log + [e], Plus(timings, e.name, Measurement(log, e).value), Increment(calls, e.name), name)
    {
      assert EntryAgrees(log, timings, calls, name);
      EntryAfter(log, e, timings, calls, name);
    }
    SameKeys(timings, calls, e.name, if Measurement(log, e).Some? then Measurement(log, e).value else 0.0);
  }

  lemma StacksAfter(log: Log, e: Event, active: map<nat, Frames>, next: map<nat, Frames>)
    requires StacksAgree(log, active)
    requires forall tid: nat :: tid != e.tid ==> FramesOf(next, tid) == FramesOf(active, tid)
    requires FramesOf(next, e.tid) == Stack(log + [e], e.tid)
    ensures StacksAgree(log + [e], next)
  {
    hide Stack;
    forall tid: nat
      ensures FramesOf(next, tid) == Stack(log + [e], tid)
    {
      StackStep(log, e, tid);
    }
  }

  lemma StackOf(log: Log, active: map<nat, Frames>, tid: nat)
    requires StacksAgree(log, active)
    ensures FramesOf(active, tid) == Stack(log, tid)
  {
  }

  lemma StartMeasuresNothing(log: Log, e: Event)
    requires e.Start?
    ensures Measurement(log, e).None?
  {
  }

  /** The section lines outside the tree: at the margin, times never increasing. */
  ghost predicate SlowestFirst(lines: seq<Line>) {
    && (forall i, j :: 0 <= i < j < |lines| ==> lines[i].elapsed >= lines[j].elapsed)
    && (forall i :: 0 <= i < |lines| ==> lines[i].indent == 0)
  }

  lemma PrintedAreRecorded(b: Book, printed: set<string>, lines: seq<Line>)
    requires OneLineEach(b, printed, lines)
    ensures printed <= b.timings.Keys
  {
  }

  ghost predicate NoneSlower(timings: map<string, real>, rest: set<string>, lines: seq<Line>) {
    rest <= timings.Keys && forall i, name :: 0 <= i < |lines| && name in rest ==> lines[i].elapsed >= timings[name]
  }

  lemma SlowestNext(b: Book, rest: set<string>, lines: seq<Line>, name: string)
    requires ValidBook(b) && name in rest && NoneSlower(b.timings, rest, lines) && SlowestFirst(lines)
    requires forall other :: other in rest ==> b.timings[other] <= b.timings[name]
    ensures SlowestFirst(lines + [LineFor(b, name, 0)])
    ensures NoneSlower(b.timings, rest - {name}, lines + [LineFor(b, name, 0)])
  {
  }

  lemma NextLine(b: Book, printed: set<string>, tree: seq<Line>, others: seq<Line>, name: string)
    requires ValidBook(b) && name in b.timings && name !in printed
    requires OneLineEach(b, printed, tree + others)
    ensures OneLineEach(b, printed + {name}, tree + (others + [LineFor(b, name, 0)]))
  {
    hide OneLineEach;
    NewLine(b, printed, tree + others, name, 0);
    assert tree + others + [LineFor(b, name, 0)] == tree + (others + [LineFor(b, name, 0)]);
  }

  lemma {:induction false} SlowestExists(timings: map<string, real>, names: set<string>)
    requires names != {} && names <= timings.Keys
    ensures exists name :: name in names && forall other :: other in names ==> timings[other] <= timings[name]
  {
    var x :| x in names;
    if names != {x} {
      SlowestExists(timings, names - {x});
      var y :| y in names - {x} && forall other :: other in names - {x} ==> timings[other] <= timings[y];
      var slowest := if timings[x] <= timings[y] then y else x;
      assert forall other :: other in names ==> other == x || other in names - {x};
      assert slowest in names;
    } else {
      assert forall other :: other in names ==> other == x;
    }
  }

  /** The sections not printed yet, largest time first; equal times come in any order. */
  method PrintOthers(b: Book, shown: Output) returns (others: seq<Line>)
    requires ValidBook(b) && OneLineEach(b, shown.printed, shown.lines)
    ensures OneLineEach(b, b.timings.Keys, shown.lines + others)
    ensures SlowestFirst(others)
  {
    hide OneLineEach, LineFor;
    others := [];
    var printedNames := shown.printed;
    var rest := b.timings.Keys - printedNames;
    PrintedAreRecorded(b, shown.printed, shown.lines);
    assert shown.lines + [] == shown.lines;
    while rest != {}
      invariant rest == b.timings.Keys - printedNames && printedNames <= b.timings.Keys
      invariant OneLineEach(b, printedNames, shown.lines + others)
      invariant SlowestFirst(others) && NoneSlower(b.timings, rest, others)
      decreases |rest|
    {
      SlowestExists(b.timings, rest);
      var name :| name in rest && forall other :: other in rest ==> b.timings[other] <= b.timings[name];
      NextLine(b, printedNames, shown.lines, others, name);
      SlowestNext(b, rest, others, name);
      others := others + [LineFor(b, name, 0)];
      printedNames := printedNames + {name};
      rest := rest - {name};
    }
    assert printedNames == b.timings.Keys;
  }

  class Tracker {
    const topLevel: seq<string>
    const hierarchy: map<string, seq<string>>
    var enabled: bool
    var timings: map<string, real>
    var callCounts: map<string, nat>
    var activeTimers: map<nat, Frames>
    var printed: bool
    /** The calls made while enabled since the last reset. */
    ghost var log: Log

    ghost predicate Valid()
      reads this
    {
      Agrees(log, timings, callCounts) && StacksAgree(log, activeTimers)
    }

    constructor (topLevel: seq<string>, hierarchy: map<string, seq<string>>, enabled: bool)
      ensures Valid() && log == [] && !printed && this.enabled == enabled
      ensures this.topLevel == topLevel && this.hierarchy == hierarchy
    {
      this.topLevel, this.hierarchy, this.enabled := topLevel, hierarchy, enabled;
      timings, callCounts, activeTimers, printed, log := map[], map[], map[], false, [];
    }

    method StartTimer(name: string, tid: nat, clock: real)
      requires Valid()
      modifies this`activeTimers, this`log
      ensures Valid()
      ensures log == if enabled then old(log) + [Start(tid, name, clock)] else old(log)
      ensures forall t: nat :: t != tid || !enabled ==> FramesOf(activeTimers, t) == old(FramesOf(activeTimers, t))
    {
      hide Stack, Measurement, Agrees, StacksAgree, TotalTime, TotalCalls;
      if !enabled {
        return;
      }
      ghost var e, before := Start(tid, name, clock), activeTimers;
      if tid !in activeTimers {
        activeTimers := activeTimers[tid := []];
      }
      activeTimers := activeTimers[tid := activeTimers[tid] + [(name, clock)]];
      AgreesAfter(log, e, timings, callCounts);
      StartMeasuresNothing(log, e);
      StackStep(log, e, tid);
      StackOf(log, before, tid);
      StacksAfter(log, e, before, activeTimers);
      log := log + [e];
    }

    /** Returns the elapsed time; a stop that does not match the innermost section changes nothing. */
    method StopTimer(name: string, tid: nat, clock: real) returns (elapsed: real)
      requires Valid()
      modifies this`timings, this`callCounts, this`activeTimers, this`log
      ensures Valid()
      ensures log == if enabled then old(log) + [Stop(tid, name, clock)] else old(log)
      ensures var m := Measurement(old(log), Stop(tid, name, clock));
              if enabled && m.Some? then
                elapsed == m.value && timings == Plus(old(timings), name, elapsed) && callCounts == Increment(old(callCounts), name)
              else
                && elapsed == 0.0 && timings == old(timings) && callCounts == old(callCounts)
                && forall t: nat :: FramesOf(activeTimers, t) == old(FramesOf(activeTimers, t))
      ensures forall t: nat :: t != tid ==> FramesOf(activeTimers, t) == old(FramesOf(activeTimers, t))
    {
      hide Stack, Measurement, Agrees, StacksAgree, TotalTime, TotalCalls;
      if !enabled {
        return 0.0;
      }
      ghost var e, before := Stop(tid, name, clock), activeTimers;
      AgreesAfter(log, e, timings, callCounts);
      MeasurementOfStack(log, e);
      StackStep(log, e, tid);
      StackOf(log, before, tid);
      elapsed := 0.0;
      if tid in activeTimers && activeTimers[tid] != [] {
        var stack := activeTimers[tid];
        var (startedName, startTime) := stack[|stack| - 1];
        activeTimers := activeTimers[tid := stack[..|stack| - 1]];
        if startedName != name {
          activeTimers := activeTimers[tid := activeTimers[tid] + [(startedName, startTime)]];
        } else {
          elapsed := clock - startTime;
          timings := Plus(timings, name, elapsed);
          callCounts := Increment(callCounts, name);
        }
      }
      StacksAfter(log, e, before, activeTimers);
      log := log + [e];
    }

    method RecordTime(name: string, tid: nat, elapsed: real)
      requires Valid()
      modifies this`timings, this`callCounts, this`log
      ensures Valid()
      ensures log == if enabled then old(log) + [Record(tid, name, elapsed)] else old(log)
      ensures timings == if enabled then Plus(old(timings), name, elapsed) else old(timings)
    {
      hide Stack, Agrees, StacksAgree, TotalTime, TotalCalls;
      if !enabled {
        return;
      }
      ghost var e := Record(tid, name, elapsed);
      AgreesAfter(log, e, timings, callCounts);
      StackStep(log, e, tid);
      StackOf(log, activeTimers, tid);
      StacksAfter(log, e, activeTimers, activeTimers);
      timings := Plus(timings, name, elapsed);
      callCounts := Increment(callCounts, name);
      log := log + [e];
    }

    /** Also drops the running sections: a stop after it does not see a start before it. */
    method Reset()
      modifies this`timings, this`callCounts, this`activeTimers, this`printed, this`log
      ensures Valid() && log == [] && !printed && timings == map[]
    {
      timings, callCounts, activeTimers, printed, log := map[], map[], map[], false, [];
    }

    function AsBook(): Book
      reads this
    {
      Book(timings, callCounts, hierarchy)
    }

    /** _print_section: marks the name, prints its line, then its children. */
    method PrintSection(name: string, indent: nat, o: Output) returns (q: Output)
      requires Valid()
      ensures q == Section(AsBook(), name, indent, o)
      decreases |timings.Keys - o.printed|
    {
      if name in o.printed || name !in timings {
        return o;
      }
      q := Output(o.printed + {name}, o.lines + [LineFor(AsBook(), name, indent)]);
      ghost var marked := q;
      Shrinks(timings.Keys, o.printed, q.printed);
      var children := Children(AsBook(), name);
      for c := 0 to |children|
        invariant marked.printed <= q.printed
        invariant Sections(AsBook(), children, indent + 1, marked) == Sections(AsBook(), children[c..], indent + 1, q)
      {
        Shrinks(timings.Keys, marked.printed, q.printed);
        assert children[c..][1..] == children[c + 1..];
        q := PrintSection(children[c], indent + 1, q);
      }
    }

    /**
     * The first report since a reset that has anything to say: the tree, then the other
     * sections from slowest to fastest, so that every recorded section has exactly one line.
     */
    method PrintReport() returns (tree: seq<Line>, others: seq<Line>)
      requires Valid()
      modifies this`printed
      ensures printed == (old(printed) || timings != map[])
      ensures old(printed) || timings == map[] ==> tree == [] && others == []
      ensures !old(printed) && timings != map[] ==>
                && tree == Tree(AsBook(), topLevel).lines
                && OneLineEach(AsBook(), timings.Keys, tree + others)
                && SlowestFirst(others)
    {
      tree, others := [], [];
      if printed || timings == map[] {
        return;
      }
      printed := true;
      var shown := PrintTree();
      tree := shown.lines;
      others := PrintOthers(AsBook(), shown);
    }

    method PrintTree() returns (shown: Output)
      requires Valid()
      ensures shown == Tree(AsBook(), topLevel)
      ensures OneLineEach(AsBook(), shown.printed, shown.lines)
    {
      shown := NOTHING;
      for t := 0 to |topLevel|
        invariant Tree(AsBook(), topLevel) == Sections(AsBook(), topLevel[t..], 0, shown)
      {
        assert topLevel[t..][1..] == topLevel[t + 1..];
        if topLevel[t] in timings {
          shown := PrintSection(topLevel[t], 0, shown);
        }
      }
      TreePrintsOnce(AsBook(), topLevel);
    }
  }
}
