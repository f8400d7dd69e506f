/**
 What the goroutines of a batch leave behind (backend/jobs/worker.go: the chunk results of process), and the page
 counter they share.
 */
module BatchResults {
  import opened Text
  import opened Options
  import opened Chunking
  import opened ChunkTranslation
  import opened Checkpoints
  import opened PageProgress

  /** One chunk's outcome; `isNew` tells a translation from a checkpoint hit. */
  datatype PageResult = PageResult(units: seq<Unit>, error: Option<Failure>, isNew: bool, slow: bool)

  // ---- Honest results ---------------------------------------------------------------

  /** By `now` the job had ended, or a translation of the chunk had failed. */
  ghost predicate GaveUp(env: Env, now: nat, units: seq<Unit>) {
    || (exists t: nat :: t <= now && env.jobDone(t))
    || (units != [] && exists m: Meter :: FailedBy(env, now, m, units))
  }

  ghost predicate FailedBy(env: Env, now: nat, m: Meter, units: seq<Unit>)
    requires units != []
  {
    ChunkResult(env, m, units).outcome.Failed? && ChunkResult(env, m, units).meter.tick <= now
  }

  /** A result is a translation produced in an allowed environment, or the chunk itself with its failure. */
  ghost predicate Honest(P: Env -> bool, env: Env, now: nat, units: seq<Unit>, r: PageResult) {
    if r.error.None? then Produced(P, units, r.units)
    else
      && r.units == units && !r.isNew && GaveUp(env, now, units)
      && (Uncancelled(env) ==> !r.error.value.canceled)
  }

  ghost predicate AllHonest(P: Env -> bool, env: Env, now: nat, chunks: seq<Chunk>, results: seq<PageResult>) {
    |chunks| == |results| && forall i :: 0 <= i < |chunks| ==> Honest(P, env, now, chunks[i].units, results[i])
  }

  ghost predicate AllIn(J: seq<Unit> -> bool, chunks: seq<Chunk>) {
    forall i :: 0 <= i < |chunks| ==> J(chunks[i].units)
  }

  lemma {:induction false} HonestLater(P: Env -> bool, env: Env, now: nat, later: nat, units: seq<Unit>, r: PageResult)
    requires now <= later && Honest(P, env, now, units, r)
    ensures Honest(P, env, later, units, r)
  {
    hide ChunkResult, Produced;
    if r.error.Some? && units != [] {
      if m: Meter :| FailedBy(env, now, m, units) {
        assert FailedBy(env, later, m, units);
      }
    }
  }

  lemma {:induction false} AllHonestLater(P: Env -> bool, env: Env, now: nat, later: nat, chunks: seq<Chunk>,
                                          results: seq<PageResult>)
    requires now <= later && AllHonest(P, env, now, chunks, results)
    ensures AllHonest(P, env, later, chunks, results)
  {
    hide Honest;
    forall i | 0 <= i < |chunks|
      ensures Honest(P, env, later, chunks[i].units, results[i])
    {
      HonestLater(P, env, now, later, chunks[i].units, results[i]);
    }
  }

  lemma {:induction false} HonestNothing(P: Env -> bool, env: Env, now: nat)
    ensures AllHonest(P, env, now, [], []) && Flatten([]) == []
  {
  }

  lemma {:induction false} AllHonestConcat(P: Env -> bool, env: Env, now: nat, a: seq<Chunk>, x: seq<PageResult>,
                                           b: seq<Chunk>, y: seq<PageResult>)
    requires AllHonest(P, env, now, a, x) && AllHonest(P, env, now, b, y)
    ensures AllHonest(P, env, now, a + b, x + y)
  {
    hide Honest;
  }

  /** What one call of translateChunk leaves is honest. */
  lemma {:induction false} TranslatedHonest(P: Env -> bool, env: Env, m: Meter, units: seq<Unit>, slow: bool)
    requires P(env) && units != []
    ensures var r := ChunkResult(env, m, units);
            Honest(P, env, r.meter.tick, units, ResultOf(units, r.outcome, slow))
    ensures var r := ChunkResult(env, m, units); r.outcome.Translated? ==> SamePages(r.outcome.units, units)
  {
    var r := ChunkResult(env, m, units);
    if r.outcome.Translated? {
      ChunkResultShape(env, m, units);
    } else {
      assert FailedBy(env, r.meter.tick, m, units);
      if Uncancelled(env) {
        ChunkResultUncancelled(env, m, units);
      }
    }
    hide ChunkResult;
  }

  function ResultOf(units: seq<Unit>, outcome: Outcome, slow: bool): PageResult {
    match outcome
    case Translated(out) => PageResult(out, None, true, slow)
    case Failed(failure) => PageResult(units, Some(failure), false, slow)
  }

  // ---- The page counter ------------------------------------------------------------------

  /** How many freshly translated units the results hold for page `p`. */
  function FreshUnits(results: seq<PageResult>, p: int): nat {
    if results == [] then 0
    else
      var r := results[|results| - 1];
      FreshUnits(results[..|results| - 1], p) + if r.isNew then UnitsOf(r.units, p) else 0
  }

  lemma {:induction false} FreshUnitsUpdate(results: seq<PageResult>, i: nat, r: PageResult, p: int)
    requires i < |results| && !results[i].isNew
    ensures FreshUnits(results[i := r], p) == FreshUnits(results, p) + if r.isNew then UnitsOf(r.units, p) else 0
  {
    hide UnitsOf;
    var n := |results| - 1;
    if i < n {
      FreshUnitsUpdate(results[..n], i, r, p);
      assert results[i := r][..n] == results[..n][i := r];
    } else {
      assert results[i := r][..n] == results[..n];
    }
  }

  lemma {:induction false} FreshUnitsConcat(a: seq<PageResult>, b: seq<PageResult>, p: int)
    ensures FreshUnits(a + b, p) == FreshUnits(a, p) + FreshUnits(b, p)
  {
    hide UnitsOf;
    if b == [] {
      assert a + b == a;
    } else {
      FreshUnitsConcat(a, b[..|b| - 1], p);
      assert (a + b)[..|a + b| - 1] == a + b[..|b| - 1];
    }
  }

  /** Fresh results carry no more units of a page than their chunks do. */
  lemma {:induction false} FreshUnitsBound(chunks: seq<Chunk>, results: seq<PageResult>, p: int)
    requires |chunks| == |results|
    requires forall i :: 0 <= i < |results| && results[i].isNew ==> SamePages(results[i].units, chunks[i].units)
    ensures FreshUnits(results, p) <= UnitsOf(Flatten(chunks), p)
  {
    if chunks != [] {
      var n := |chunks| - 1;
      FreshUnitsBound(chunks[..n], results[..n], p);
      UnitsOfConcat(Flatten(chunks[..n]), chunks[n].units, p);
      if results[n].isNew {
        SamePagesUnitsOf(results[n].units, chunks[n].units, p);
      }
    }
  }

  lemma {:induction false} SamePagesUnitsOf(a: seq<Unit>, b: seq<Unit>, p: int)
    requires SamePages(a, b)
    ensures UnitsOf(a, p) == UnitsOf(b, p)
  {
    if a != [] {
      SamePagesUnitsOf(a[..|a| - 1], b[..|b| - 1], p);
    }
  }

  /** Counting one more fresh result keeps the page counter exact. */
  lemma {:induction false} CountStep(start: Progress, g: Progress, targets: seq<nat>, batch: seq<Chunk>,
                                     results: seq<PageResult>, i: nat, r: PageResult)
    requires |batch| == |results| && i < |results| && !results[i].isNew && r.isNew
    requires forall k :: 0 <= k < |results| && results[k].isNew ==> SamePages(results[k].units, batch[k].units)
    requires SamePages(r.units, batch[i].units)
    requires Exact(g, targets) && Counted(start, g, targets, results)
    requires HasRoom(start, targets, Flatten(batch))
    ensures var g' := CountUnits(g, targets, r.units);
            Exact(g', targets) && Counted(start, g', targets, results[i := r])
  {
    hide UnitsOf, Flatten, Exact, CountUnits;
    forall p | 0 <= p < |targets|
      ensures g.done[p] + UnitsOf(r.units, p) == start.done[p] + FreshUnits(results[i := r], p) <= targets[p]
    {
      FreshUnitsUpdate(results, i, r, p);
      FreshUnitsBound(batch, results[i := r], p);
    }
    assert |g.done| == |targets|;
    CountUnitsExact(g, targets, r.units);
    forall p | 0 <= p < |targets|
      ensures CountUnits(g, targets, r.units).done[p] == start.done[p] + FreshUnits(results[i := r], p)
    {
      CountUnitsDone(g, targets, r.units, p);
    }
  }

  /** `g` is `start` plus the fresh units of the results. */
  ghost predicate Counted(start: Progress, g: Progress, targets: seq<nat>, results: seq<PageResult>) {
    && |start.done| == |g.done| == |targets|
    && forall p :: 0 <= p < |targets| ==> g.done[p] == start.done[p] + FreshUnits(results, p)
  }

  /** The units still to come do not exceed any page's target. */
  ghost predicate HasRoom(g: Progress, targets: seq<nat>, units: seq<Unit>) {
    |g.done| == |targets| && forall p :: 0 <= p < |targets| ==> g.done[p] + UnitsOf(units, p) <= targets[p]
  }

  lemma {:induction false} NoFreshUnits(results: seq<PageResult>)
    requires forall i :: 0 <= i < |results| ==> !results[i].isNew
    ensures forall p :: FreshUnits(results, p) == 0
  {
    if results != [] {
      NoFreshUnits(results[..|results| - 1]);
    }
  }

  lemma {:induction false} CountedHit(start: Progress, g: Progress, targets: seq<nat>, results: seq<PageResult>,
                                      i: nat, r: PageResult)
    requires i < |results| && !results[i].isNew && !r.isNew && Counted(start, g, targets, results)
    ensures Counted(start, g, targets, results[i := r])
  {
    forall p | 0 <= p < |targets|
      ensures g.done[p] == start.done[p] + FreshUnits(results[i := r], p)
    {
      FreshUnitsUpdate(results, i, r, p);
    }
  }

  lemma {:induction false} StartExact(g: Progress, targets: seq<nat>, units: seq<Unit>)
    requires g == Progress(seq(|targets|, _ => 0), 0)
    requires forall p :: 0 <= p < |targets| ==> targets[p] == UnitsOf(units, p)
    ensures Exact(g, targets) && HasRoom(g, targets, units)
  {
    assert CompletePages(g.done, targets) == {};
  }

  lemma {:induction false} ExactBound(g: Progress, targets: seq<nat>)
    requires Exact(g, targets)
    ensures g.processed <= |targets|
  {
    CompletePagesBound(g.done, targets);
  }

  lemma {:induction false} CountedNothing(g: Progress, targets: seq<nat>)
    requires |g.done| == |targets|
    ensures Counted(g, g, targets, [])
  {
  }

  lemma {:induction false} RoomLength(g: Progress, targets: seq<nat>, units: seq<Unit>)
    requires HasRoom(g, targets, units)
    ensures |g.done| == |targets|
  {
  }

  lemma {:induction false} CountedTrans(a: Progress, b: Progress, c: Progress, targets: seq<nat>, x: seq<PageResult>,
                                        y: seq<PageResult>)
    requires Counted(a, b, targets, x) && Counted(b, c, targets, y)
    ensures Counted(a, c, targets, x + y)
  {
    hide FreshUnits;
    forall p | 0 <= p < |targets|
      ensures c.done[p] == a.done[p] + FreshUnits(x + y, p)
    {
      FreshUnitsConcat(x, y, p);
    }
  }

  lemma {:induction false} RoomCut(g: Progress, targets: seq<nat>, batch: seq<Unit>, rest: seq<Unit>)
    requires HasRoom(g, targets, batch + rest)
    ensures HasRoom(g, targets, batch)
  {
    forall p | 0 <= p < |targets|
      ensures g.done[p] + UnitsOf(batch, p) <= targets[p]
    {
      UnitsOfConcat(batch, rest, p);
    }
  }

  lemma {:induction false} RoomLeft(start: Progress, g: Progress, targets: seq<nat>, batch: seq<Chunk>,
                                    results: seq<PageResult>, rest: seq<Unit>)
    requires |batch| == |results| && Counted(start, g, targets, results)
    requires forall i :: 0 <= i < |batch| && results[i].isNew ==> SamePages(results[i].units, batch[i].units)
    requires HasRoom(start, targets, Flatten(batch) + rest)
    ensures HasRoom(g, targets, rest)
  {
    forall p | 0 <= p < |targets|
      ensures g.done[p] + UnitsOf(rest, p) <= targets[p]
    {
      UnitsOfConcat(Flatten(batch), rest, p);
      FreshUnitsBound(batch, results, p);
    }
  }

  // ---- Chunks of units ------------------------------------------------------------------

  lemma {:induction false} FlattenConcat(a: seq<Chunk>, b: seq<Chunk>)
    ensures Flatten(a + b) == Flatten(a) + Flatten(b)
  {
    assert Flatten([]) == [];
    hide *;
    if b == [] {
      assert a + b == a;
    } else {
      var front, last := b[..|b| - 1], b[|b| - 1];
      FlattenConcat(a, front);
      FlattenSnoc(a + front, last);
      FlattenSnoc(front, last);
      assert b == front + [last];
      assert a + b == a + front + [last];
    }
  }

  lemma {:induction false} FlattenCut(chunks: seq<Chunk>, k: nat)
    requires 0 < k <= |chunks| && forall i :: 0 <= i < |chunks| ==> chunks[i].units != []
    ensures Flatten(chunks) == Flatten(chunks[..k]) + Flatten(chunks[k..])
    ensures Flatten(chunks[..k]) != []
    ensures Flatten(chunks)[|Flatten(chunks[..k])|..] == Flatten(chunks[k..])
  {
    FlattenConcat(chunks[..k], chunks[k..]);
    assert chunks[..k] + chunks[k..] == chunks;
    assert Flatten(chunks[..k]) == Flatten(chunks[..k][..k - 1]) + chunks[k - 1].units;
  }
}
