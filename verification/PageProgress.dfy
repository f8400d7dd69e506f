/**
 The page counter of a PDF job (backend/jobs/worker.go: the section of process
 guarded by progressMu). Chunks finish in any order; each finished chunk counts
 its units towards their pages.
 */
module PageProgress {
  import opened Chunking

  /** unitDoneByPage and job.ProcessedPages */
  datatype Progress = Progress(done: seq<nat>, processed: nat)

  /** The units that belong to page `p`. */
  function UnitsOf(units: seq<Unit>, p: int): nat {
    if units == [] then 0
    else UnitsOf(units[..|units| - 1], p) + if units[|units| - 1].pageIndex == p then 1 else 0
  }

  function CountUnit(g: Progress, targets: seq<nat>, u: Unit): Progress
    requires |g.done| == |targets|
  {
    if u.pageIndex < 0 || u.pageIndex >= |g.done| then g
    else
      var n := g.done[u.pageIndex] + 1;
      Progress(g.done[u.pageIndex := n], if n == targets[u.pageIndex] then g.processed + 1 else g.processed)
  }

  function CountUnits(g: Progress, targets: seq<nat>, units: seq<Unit>): (r: Progress)
    requires |g.done| == |targets|
    ensures |r.done| == |targets|
  {
    if units == [] then g
    else CountUnit(CountUnits(g, targets, units[..|units| - 1]), targets, units[|units| - 1])
  }

  /** The pages whose units are all done. */
  ghost function CompletePages(done: seq<nat>, targets: seq<nat>): set<nat>
    requires |done| == |targets|
  {
    set p: nat | p < |done| && targets[p] > 0 && done[p] == targets[p]
  }

  /** The counter is the number of complete pages, and no page is over-counted. */
  ghost predicate Exact(g: Progress, targets: seq<nat>) {
    && |g.done| == |targets|
    && (forall p :: 0 <= p < |targets| ==> g.done[p] <= targets[p])
    && g.processed == |CompletePages(g.done, targets)|
  }

  class Tracker {
    const targets: seq<nat>
    var unitDone: seq<nat>
    var processedPages: nat

    ghost predicate Valid()
      reads this
    {
      |unitDone| == |targets|
    }

    ghost function State(): Progress
      reads this
    {
      Progress(unitDone, processedPages)
    }

    constructor (targets: seq<nat>)
      ensures Valid() && this.targets == targets && processedPages == 0
      ensures unitDone == seq(|targets|, _ => 0)
    {
      this.targets := targets;
      unitDone := seq(|targets|, _ => 0);
      processedPages := 0;
    }

    /** A freshly translated chunk reports its units. */
    method CompleteChunk(units: seq<Unit>)
      requires Valid()
      modifies this
      ensures Valid() && State() == CountUnits(old(State()), targets, units)
    {
      for i := 0 to |units|
        invariant Valid() && State() == CountUnits(old(State()), targets, units[..i])
      {
        var u := units[i];
        assert units[..i + 1][..i] == units[..i];
        if 0 <= u.pageIndex < |unitDone| {
          unitDone := unitDone[u.pageIndex := unitDone[u.pageIndex] + 1];
          if unitDone[u.pageIndex] == targets[u.pageIndex] {
            processedPages := processedPages + 1;
          }
        }
      }
      assert units[..|units|] == units;
    }
  }

  lemma {:induction false} UnitsOfConcat(a: seq<Unit>, b: seq<Unit>, p: int)
    ensures UnitsOf(a + b, p) == UnitsOf(a, p) + UnitsOf(b, p)
  {
    if b == [] {
      assert a + b == a;
    } else {
      UnitsOfConcat(a, b[..|b| - 1], p);
      assert (a + b)[..|a + b| - 1] == a + b[..|b| - 1];
    }
  }

  lemma {:induction false} CompletePagesUpdate(done: seq<nat>, targets: seq<nat>, p: nat, n: nat)
    requires |done| == |targets| && p < |targets|
    ensures CompletePages(done[p := n], targets) ==
            if 0 < targets[p] == n then CompletePages(done, targets) + {p} else CompletePages(done, targets) - {p}
  {
    var was, now := CompletePages(done, targets), CompletePages(done[p := n], targets);
    forall q: nat | q != p
      ensures q in now <==> q in was
    {
    }
  }

  lemma {:induction false} CountUnitExact(g: Progress, targets: seq<nat>, u: Unit)
    requires Exact(g, targets)
    requires 0 <= u.pageIndex < |targets| ==> g.done[u.pageIndex] < targets[u.pageIndex]
    ensures Exact(CountUnit(g, targets, u), targets)
  {
    if 0 <= u.pageIndex < |targets| {
      var p: nat := u.pageIndex;
      CompletePagesUpdate(g.done, targets, p, g.done[p] + 1);
      NotComplete(g.done, targets, p);
      hide CompletePages;
      var complete := CompletePages(g.done, targets);
      assert complete - {p} == complete && |complete + {p}| == |complete| + 1;
    }
  }

  lemma {:induction false} NotComplete(done: seq<nat>, targets: seq<nat>, p: nat)
    requires |done| == |targets| && p < |targets| && done[p] < targets[p]
    ensures p !in CompletePages(done, targets)
  {
  }

  lemma {:induction false} CountUnitsDone(g: Progress, targets: seq<nat>, units: seq<Unit>, p: nat)
    requires |g.done| == |targets| && p < |targets|
    ensures CountUnits(g, targets, units).done[p] == g.done[p] + UnitsOf(units, p)
  {
    if units != [] {
      CountUnitsDone(g, targets, units[..|units| - 1], p);
    }
  }

  lemma {:induction false} UnitsOfPrefix(units: seq<Unit>, p: int)
    requires units != []
    ensures UnitsOf(units[..|units| - 1], p) <= UnitsOf(units, p)
    ensures units[|units| - 1].pageIndex == p ==> UnitsOf(units[..|units| - 1], p) < UnitsOf(units, p)
  {
  }

  /** Counting keeps the counter exact, as long as no page receives more units than it has. */
  lemma {:induction false} CountUnitsExact(g: Progress, targets: seq<nat>, units: seq<Unit>)
    requires Exact(g, targets)
    requires forall p :: 0 <= p < |targets| ==> g.done[p] + UnitsOf(units, p) <= targets[p]
    ensures Exact(CountUnits(g, targets, units), targets)
  {
    if units != [] {
      var front, u := units[..|units| - 1], units[|units| - 1];
      forall p | 0 <= p < |targets|
        ensures g.done[p] + UnitsOf(front, p) <= targets[p]
      {
        UnitsOfPrefix(units, p);
      }
      CountUnitsExact(g, targets, front);
      if 0 <= u.pageIndex < |targets| {
        UnitsOfPrefix(units, u.pageIndex);
        CountUnitsDone(g, targets, front, u.pageIndex);
      }
      CountUnitExact(CountUnits(g, targets, front), targets, u);
    }
  }

  /** The counter never decreases. */
  lemma {:induction false} CountUnitsMonotone(g: Progress, targets: seq<nat>, units: seq<Unit>)
    requires |g.done| == |targets|
    ensures g.processed <= CountUnits(g, targets, units).processed
  {
    if units != [] {
      CountUnitsMonotone(g, targets, units[..|units| - 1]);
    }
  }

  /** A run of chunk completions, in the order in which they happened. */
  function Run(targets: seq<nat>, completions: seq<seq<Unit>>): (r: Progress)
    ensures |r.done| == |targets|
  {
    if completions == [] then Progress(seq(|targets|, _ => 0), 0)
    else CountUnits(Run(targets, completions[..|completions| - 1]), targets, completions[|completions| - 1])
  }

  function Together(completions: seq<seq<Unit>>): seq<Unit> {
    if completions == [] then [] else Together(completions[..|completions| - 1]) + completions[|completions| - 1]
  }

  lemma {:induction false} CompletePagesBound(done: seq<nat>, targets: seq<nat>)
    requires |done| == |targets|
    ensures |CompletePages(done, targets)| <= |targets|
  {
    if targets != [] {
      var n := |targets| - 1;
      var front := CompletePages(done[..n], targets[..n]);
      CompletePagesBound(done[..n], targets[..n]);
      assert CompletePages(done, targets) == if targets[n] > 0 && done[n] == targets[n] then front + {n} else front;
    } else {
      assert CompletePages(done, targets) == {};
    }
  }

  /**
   Under every order of completions, the counter is the number of pages all of whose
   units were freshly translated: no page counts twice, and the total is a bound.
   */
  lemma {:induction false} RunExact(targets: seq<nat>, completions: seq<seq<Unit>>)
    requires forall p :: 0 <= p < |targets| ==> UnitsOf(Together(completions), p) <= targets[p]
    ensures var g := Run(targets, completions);
            && Exact(g, targets) && g.processed <= |targets|
            && forall p :: 0 <= p < |targets| ==> g.done[p] == UnitsOf(Together(completions), p)
  {
    var g := Run(targets, completions);
    if completions == [] {
      assert CompletePages(g.done, targets) == {};
    } else {
      var front, last := completions[..|completions| - 1], completions[|completions| - 1];
      forall p | 0 <= p < |targets|
        ensures UnitsOf(Together(front), p) + UnitsOf(last, p) == UnitsOf(Together(completions), p)
      {
        UnitsOfConcat(Together(front), last, p);
      }
      RunExact(targets, front);
      CountUnitsExact(Run(targets, front), targets, last);
      forall p | 0 <= p < |targets|
        ensures g.done[p] == UnitsOf(Together(completions), p)
      {
        CountUnitsDone(Run(targets, front), targets, last, p);
      }
    }
    CompletePagesBound(g.done, targets);
  }
}
