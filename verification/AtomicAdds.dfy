// hl.atomic_add from concurrent programs: a memory of cells, and additions that land one
// at a time in any order at all. Shared by the kernels that accumulate into their output.
module AtomicAdds {
  import opened FiniteSets
  import opened Sums

  /**
   * What the programs of a grid add: program t adds amount(i, j, t) to cell (i, j) when
   * issued(i, j, t) holds, and does not touch the cell otherwise.
   */
  datatype Plan = Plan(programs: nat, issued: (int, int, int) -> bool, amount: (int, int, int) -> real)

  datatype State = State(mem: (int, int) -> real, landed: set<(int, int, int)>)

  ghost predicate Init(s: State) {
    s.landed == {} && forall i, j :: s.mem(i, j) == 0.0
  }

  /** One pending addition lands. */
  ghost predicate Land(p: Plan, s: State, s': State, i: int, j: int, t: int) {
    && 0 <= t < p.programs && p.issued(i, j, t) && (i, j, t) !in s.landed
    && s'.landed == s.landed + {(i, j, t)}
    && forall x, y :: s'.mem(x, y) == if (x, y) == (i, j) then s.mem(i, j) + p.amount(i, j, t) else s.mem(x, y)
  }

  /** A run with the order in which the additions land. */
  ghost predicate IsRun(p: Plan, run: seq<State>, order: seq<(int, int, int)>) {
    && |run| == |order| + 1
    && Init(run[0])
    && forall k :: 0 <= k < |order| ==> Land(p, run[k], run[k + 1], order[k].0, order[k].1, order[k].2)
  }

  /** Nothing is left to land. */
  ghost predicate Complete(p: Plan, s: State) {
    forall i, j, t :: 0 <= t < p.programs && p.issued(i, j, t) ==> (i, j, t) in s.landed
  }

  function LandedTerms(p: Plan, landed: set<(int, int, int)>, i: int, j: int): int -> real {
    t => if (i, j, t) in landed then p.amount(i, j, t) else 0.0
  }

  function IssuedTerms(p: Plan, i: int, j: int): int -> real {
    t => if p.issued(i, j, t) then p.amount(i, j, t) else 0.0
  }

  ghost predicate Inv(p: Plan, s: State) {
    && (forall i, j, t :: (i, j, t) in s.landed ==> 0 <= t < p.programs && p.issued(i, j, t))
    && (forall i, j :: s.mem(i, j) == Sum(LandedTerms(p, s.landed, i, j), 0, p.programs))
  }

  lemma LandKeepsInv(p: Plan, s: State, s': State, i: int, j: int, t: int)
    requires Inv(p, s) && Land(p, s, s', i, j, t)
    ensures Inv(p, s')
  {
    forall x, y
      ensures s'.mem(x, y) == Sum(LandedTerms(p, s'.landed, x, y), 0, p.programs)
    {
      var before, after := LandedTerms(p, s.landed, x, y), LandedTerms(p, s'.landed, x, y);
      if (x, y) == (i, j) {
        SumUpdate(before, after, 0, p.programs, t);
      } else {
        SumEq(before, after, 0, p.programs);
      }
    }
  }

  lemma {:induction false} RunInv(p: Plan, run: seq<State>, order: seq<(int, int, int)>, k: nat)
    requires IsRun(p, run, order) && k < |run|
    ensures Inv(p, run[k])
  {
    if k == 0 {
      forall i, j
        ensures run[0].mem(i, j) == Sum(LandedTerms(p, run[0].landed, i, j), 0, p.programs)
      {
        SumZero(LandedTerms(p, run[0].landed, i, j), 0, p.programs);
      }
    } else {
      RunInv(p, run, order, k - 1);
      var add := order[k - 1];
      LandKeepsInv(p, run[k - 1], run[k], add.0, add.1, add.2);
    }
  }

  /** The order does not matter: a finished cell holds the sum of what was added to it, each once. */
  lemma CompleteRunSums(p: Plan, run: seq<State>, order: seq<(int, int, int)>, i: int, j: int)
    requires IsRun(p, run, order) && Complete(p, run[|run| - 1])
    ensures run[|run| - 1].mem(i, j) == Sum(IssuedTerms(p, i, j), 0, p.programs)
  {
    var s := run[|run| - 1];
    RunInv(p, run, order, |run| - 1);
    SumEq(LandedTerms(p, s.landed, i, j), IssuedTerms(p, i, j), 0, p.programs);
  }

  // Complete runs exist: an addition can always land, and only finitely many were issued.

  /** `all` holds every addition that the plan issues. */
  ghost predicate Lists(p: Plan, all: set<(int, int, int)>) {
    forall i, j, t :: 0 <= t < p.programs && p.issued(i, j, t) ==> (i, j, t) in all
  }

  /** Additions never wait for each other. */
  lemma NoDeadlock(p: Plan, s: State) returns (add: (int, int, int), next: State)
    requires !Complete(p, s)
    ensures Land(p, s, next, add.0, add.1, add.2)
  {
    var i, j, t :| 0 <= t < p.programs && p.issued(i, j, t) && (i, j, t) !in s.landed;
    add := (i, j, t);
    next := State((x, y) => if (x, y) == (i, j) then s.mem(i, j) + p.amount(i, j, t) else s.mem(x, y), s.landed + {add});
  }

  /** Each step lands a new addition, so no run is longer than the list of additions. */
  lemma {:induction false} RunsAreBounded(p: Plan, run: seq<State>, order: seq<(int, int, int)>, all: set<(int, int, int)>, k: nat)
    requires IsRun(p, run, order) && Lists(p, all) && k < |run|
    ensures |run[k].landed| == k <= |all|
  {
    if k > 0 {
      RunsAreBounded(p, run, order, all, k - 1);
      var add := order[k - 1];
      assert run[k].landed == run[k - 1].landed + {(add.0, add.1, add.2)};
    }
    RunInv(p, run, order, k);
    forall x | x in run[k].landed
      ensures x in all
    {
      var (i, j, t) := x;
      assert (i, j, t) in run[k].landed;
      assert p.issued(i, j, t);
    }
    SubsetSize(run[k].landed, all);
  }

  /** Every run can be continued until all additions have landed. */
  lemma {:induction false} ExtendsToComplete(p: Plan, run: seq<State>, order: seq<(int, int, int)>, all: set<(int, int, int)>)
    returns (longer: seq<State>, continued: seq<(int, int, int)>)
    requires IsRun(p, run, order) && Lists(p, all)
    ensures IsRun(p, longer, continued) && run <= longer && order <= continued
    ensures Complete(p, longer[|longer| - 1])
    decreases |all| - |order|
  {
    longer, continued := run, order;
    var s := run[|run| - 1];
    if !Complete(p, s) {
      var add, next := NoDeadlock(p, s);
      RunsAreBounded(p, run + [next], order + [add], all, |order| + 1);
      longer, continued := ExtendsToComplete(p, run + [next], order + [add], all);
    }
  }

  /** From a memory of zeros, some order completes. */
  lemma CompleteRunExists(p: Plan, all: set<(int, int, int)>) returns (run: seq<State>, order: seq<(int, int, int)>)
    requires Lists(p, all)
    ensures IsRun(p, run, order) && Complete(p, run[|run| - 1])
  {
    run, order := ExtendsToComplete(p, [State((i, j) => 0.0, {})], [], all);
  }
}
