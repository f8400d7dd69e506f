/**
 The chunked translation of a document (backend/jobs/worker.go: the batch loop and the reassembly in process).
 Goroutines of a batch are steps picked in an arbitrary order: a chunk looks up its checkpoint and, on a miss, is
 translated, then reports its units to the page counter, then stores its checkpoint; other chunks may act in between.
 */
module Pipeline {
  import opened Numbers
  import opened Options
  import opened Text
  import opened Chunking
  import opened ChunkTranslation
  import opened Checkpoints
  import opened JobChunks
  import opened PageProgress
  import opened BatchResults
  import opened Reassembly

  /** Where a goroutine is: before the lookup, the translation, the report, the store, or at its end. */
  datatype Phase = Start | Missed | Answered | Reported | Done {
    function StepsLeft(): nat {
      match this
      case Start => 4
      case Missed => 3
      case Answered => 2
      case Reported => 1
      case Done => 0
    }
  }

  /** A goroutine: its phase, the answer it has not reported yet, and its entry in the results. */
  datatype Slot = Slot(phase: Phase, answer: PageResult, result: PageResult)

  const NO_RESULT := PageResult([], None, false, false)

  /** Only a reported chunk has a fresh result; an answer not yet reported is fresh and on the chunk's pages. */
  ghost predicate Consistent(units: seq<Unit>, s: Slot) {
    && (s.result.isNew ==> SamePages(s.result.units, units) && (s.phase == Reported || s.phase == Done))
    && (s.phase == Answered ==> s.answer.isNew && s.answer.error.None? && SamePages(s.answer.units, units))
    && (s.phase == Reported ==> s.result.isNew && s.result.error.None?)
  }

  /** What the goroutine holds so far is honest. */
  ghost predicate HonestSlot(P: Env -> bool, env: Env, now: nat, units: seq<Unit>, s: Slot) {
    && (s.phase == Answered ==> Honest(P, env, now, units, s.answer))
    && (s.phase == Reported || s.phase == Done ==> Honest(P, env, now, units, s.result))
  }

  ghost predicate AllConsistent(batch: seq<Chunk>, slots: seq<Slot>) {
    |batch| == |slots| && forall i :: 0 <= i < |batch| ==> Consistent(batch[i].units, slots[i])
  }

  ghost predicate AllHonestSlots(P: Env -> bool, env: Env, now: nat, batch: seq<Chunk>, slots: seq<Slot>) {
    |batch| == |slots| && forall i :: 0 <= i < |batch| ==> HonestSlot(P, env, now, batch[i].units, slots[i])
  }

  function Results(slots: seq<Slot>): (results: seq<PageResult>)
    ensures |results| == |slots|
  {
    seq(|slots|, i requires 0 <= i < |slots| => slots[i].result)
  }

  /** Steps that the goroutines of a batch still have to take. */
  function Remaining(slots: seq<Slot>): nat {
    if slots == [] then 0 else Remaining(slots[..|slots| - 1]) + slots[|slots| - 1].phase.StepsLeft()
  }

  lemma {:induction false} RemainingUpdate(slots: seq<Slot>, i: nat, s: Slot)
    requires i < |slots| && s.phase.StepsLeft() < slots[i].phase.StepsLeft()
    ensures Remaining(slots[i := s]) < Remaining(slots)
  {
    var n := |slots| - 1;
    if i < n {
      RemainingUpdate(slots[..n], i, s);
      assert slots[i := s][..n] == slots[..n][i := s];
    } else {
      assert slots[i := s][..n] == slots[..n];
    }
  }

  // ---- The worker on one job ------------------------------------------------------------

  class Processor {
    const worker: Worker
    const hash: string -> string
    const source: string
    const target: string
    /** Whether the job store keeps checkpoints at all. */
    const hasStore: bool
    var checkpoints: Store

    constructor (worker: Worker, hash: string -> string, source: string, target: string, hasStore: bool,
                 checkpoints: Store)
      ensures this.worker == worker && this.hash == hash && this.source == source && this.target == target
      ensures this.hasStore == hasStore && this.checkpoints == checkpoints
    {
      this.worker, this.hash, this.source, this.target := worker, hash, source, target;
      this.hasStore, this.checkpoints := hasStore, checkpoints;
    }

    /**
     The store, if there is one, holds for each of the chunks `J` only what an allowed attempt made of it, and tells
     them apart.
     */
    ghost predicate Reliable(P: Env -> bool, J: seq<Unit> -> bool)
      reads this
    {
      hasStore ==>
        && Injective(hash) && Distinct(source, target, J)
        && Sound(checkpoints, hash, source, target, P, J)
    }

    /** The lookup of a chunk's goroutine; it may fail, and then counts as a miss. */
    method Lookup(units: seq<Unit>, ghost P: Env -> bool, ghost J: seq<Unit> -> bool)
        returns (found: Option<seq<Unit>>, lookupFails: bool)
      ensures lookupFails || !hasStore || hash(Preimage(source, target, units)) !in checkpoints ==> found.None?
      ensures !lookupFails && hasStore && hash(Preimage(source, target, units)) in checkpoints ==> found.Some?
      ensures found.Some? ==>
                && hasStore && hash(Preimage(source, target, units)) in checkpoints
                && found.value == checkpoints[hash(Preimage(source, target, units))]
      ensures found.Some? && Reliable(P, J) && J(units) ==> Produced(P, units, found.value)
    {
      var key := ChunkCheckpointKey(hash, units, source, target);
      lookupFails := *;
      if hasStore && !lookupFails && key in checkpoints {
        SoundHit(checkpoints, hash, source, target, P, J, units);
        found := Some(checkpoints[key]);
      } else {
        found := None;
      }
    }

    /**
     The translation of a chunk, unless the job has ended first. It starts at any moment since the batch began, so that
     the translations of a batch overlap in time; the clock then shows the latest moment reached.
     */
    method Translate(units: seq<Unit>, since: nat, ghost P: Env -> bool) returns (r: PageResult)
      requires units != [] && P(worker.env) && since <= worker.meter.tick
      modifies worker
      ensures old(worker.meter.tick) <= worker.meter.tick
      ensures Honest(P, worker.env, worker.meter.tick, units, r)
      ensures r.isNew == r.error.None? && (r.isNew ==> SamePages(r.units, units))
    {
      var latest := worker.meter.tick;
      var start :| since <= start;
      if Stops(worker.env, worker.env.jobDone, start) {
        worker.meter := worker.meter.(tick := Max(latest, start));
        return PageResult(units, Some(worker.env.contextError(start)), false, false);
      }
      worker.meter := worker.meter.(tick := start);
      ghost var before := worker.meter;
      var outcome := worker.TranslateChunk(units);
      var slow: bool := *;
      TranslatedHonest(P, worker.env, before, units, slow);
      hide ChunkResult, Honest;
      assert ChunkResult(worker.env, before, units) == Result(outcome, worker.meter);
      r := match outcome
        case Translated(out) => PageResult(out, None, true, slow)
        case Failed(failure) => PageResult(units, Some(failure), false, slow);
      assert r == ResultOf(units, outcome, slow);
      HonestLater(P, worker.env, worker.meter.tick, Max(latest, worker.meter.tick), units, r);
      worker.meter := worker.meter.(tick := Max(latest, worker.meter.tick));
    }

    /** The checkpoint of a fresh translation; storing it may fail. */
    method Save(units: seq<Unit>, out: seq<Unit>, ghost P: Env -> bool, ghost J: seq<Unit> -> bool)
        returns (storeFails: bool)
      modifies this
      ensures checkpoints ==
                if !hasStore || storeFails then old(checkpoints)
                else old(checkpoints)[hash(Preimage(source, target, units)) := out]
      ensures old(Reliable(P, J)) && (hasStore ==> J(units)) && Produced(P, units, out) ==> Reliable(P, J)
    {
      var key := ChunkCheckpointKey(hash, units, source, target);
      storeFails := *;
      if hasStore && !storeFails {
        if Reliable(P, J) && J(units) && Produced(P, units, out) {
          SoundSet(checkpoints, hash, source, target, P, J, units, out);
        }
        hide Sound;
        checkpoints := checkpoints[key := out];
      }
    }

    /** One step of one goroutine. */
    method Step(units: seq<Unit>, s: Slot, tracker: Tracker, since: nat, ghost P: Env -> bool,
                ghost J: seq<Unit> -> bool) returns (t: Slot)
      requires units != [] && P(worker.env) && tracker.Valid() && s.phase != Done && Consistent(units, s)
      requires since <= worker.meter.tick
      modifies this, worker, tracker
      ensures old(worker.meter.tick) <= worker.meter.tick
      ensures t.phase.StepsLeft() < s.phase.StepsLeft() && Consistent(units, t)
      ensures tracker.Valid()
      ensures if s.phase == Answered
              then t.result == s.answer
                   && tracker.State() == CountUnits(old(tracker.State()), tracker.targets, s.answer.units)
              else tracker.State() == old(tracker.State())
                   && (t.result == s.result || (!t.result.isNew && !s.result.isNew))
      ensures (hasStore ==> J(units)) && old(Reliable(P, J))
              && HonestSlot(P, worker.env, old(worker.meter.tick), units, s)
              ==> Reliable(P, J) && HonestSlot(P, worker.env, worker.meter.tick, units, t)
    {
      hide SamePages, CountUnits, GaveUp, Produced;
      match s.phase
      case Start =>
        var found, _ := Lookup(units, P, J);
        if found.Some? {
          t := Slot(Done, s.answer, PageResult(found.value, None, false, false));
        } else {
          t := s.(phase := Missed);
        }
      case Missed =>
        var r := Translate(units, since, P);
        if r.error.None? {
          t := Slot(Answered, r, s.result);
        } else {
          t := Slot(Done, s.answer, r);
        }
      case Answered =>
        tracker.CompleteChunk(s.answer.units);
        t := Slot(Reported, s.answer, s.answer);
      case Reported =>
        var _ := Save(units, s.result.units, P, J);
        t := s.(phase := Done);
    }

    /** All goroutines of a batch, in any interleaving of their steps. */
    method RunBatch(batch: seq<Chunk>, tracker: Tracker, ghost P: Env -> bool, ghost J: seq<Unit> -> bool)
        returns (results: seq<PageResult>)
      requires P(worker.env) && tracker.Valid()
      requires forall i :: 0 <= i < |batch| ==> batch[i].units != []
      requires Exact(tracker.State(), tracker.targets) && HasRoom(tracker.State(), tracker.targets, Flatten(batch))
      modifies this, worker, tracker
      ensures |results| == |batch| && old(worker.meter.tick) <= worker.meter.tick
      ensures tracker.Valid() && Exact(tracker.State(), tracker.targets)
      ensures Counted(old(tracker.State()), tracker.State(), tracker.targets, results)
      ensures forall i :: 0 <= i < |batch| && results[i].isNew ==> SamePages(results[i].units, batch[i].units)
      ensures old(Reliable(P, J)) && (hasStore ==> AllIn(J, batch))
              ==> Reliable(P, J) && AllHonest(P, worker.env, worker.meter.tick, batch, results)
    {
      hide UnitsOf, Exact, CountUnits, Counted, HasRoom, SamePages, Honest, HonestSlot, Reliable, Consistent,
           Results;
      ghost var safe := Reliable(P, J) && (hasStore ==> AllIn(J, batch));
      ghost var start := tracker.State();
      var since := worker.meter.tick;
      var slots := seq(|batch|, _ => Slot(Start, NO_RESULT, NO_RESULT));
      StartSlots(P, worker.env, worker.meter.tick, batch, start, tracker.targets, slots);
      while exists i :: 0 <= i < |batch| && slots[i].phase != Done
        invariant tracker.Valid() && Exact(tracker.State(), tracker.targets)
        invariant AllConsistent(batch, slots) && old(worker.meter.tick) <= worker.meter.tick
        invariant Counted(start, tracker.State(), tracker.targets, Results(slots))
        invariant safe ==> Reliable(P, J) && AllHonestSlots(P, worker.env, worker.meter.tick, batch, slots)
        decreases Remaining(slots)
      {
        var i :| 0 <= i < |batch| && slots[i].phase != Done;
        ghost var g, now := tracker.State(), worker.meter.tick;
        var t := Step(batch[i].units, slots[i], tracker, since, P, J);
        ReportedSlot(start, g, tracker.State(), tracker.targets, batch, slots, i, t);
        if safe {
          LaterSlots(P, worker.env, now, worker.meter.tick, batch, slots);
        }
        RemainingUpdate(slots, i, t);
        slots := slots[i := t];
      }
      results := Results(slots);
      FinishedSlots(P, worker.env, worker.meter.tick, batch, slots);
    }

    /** A batch of the units still to be translated. */
    method RunNextBatch(remaining: seq<Unit>, batch: seq<Chunk>, tracker: Tracker, ghost P: Env -> bool,
                        ghost J: seq<Unit> -> bool)
        returns (results: seq<PageResult>)
      requires P(worker.env) && tracker.Valid()
      requires forall i :: 0 <= i < |batch| ==> batch[i].units != []
      requires Flatten(batch) <= remaining
      requires Exact(tracker.State(), tracker.targets) && HasRoom(tracker.State(), tracker.targets, remaining)
      modifies this, worker, tracker
      ensures |results| == |batch| && old(worker.meter.tick) <= worker.meter.tick
      ensures tracker.Valid() && Exact(tracker.State(), tracker.targets)
      ensures HasRoom(tracker.State(), tracker.targets, remaining[|Flatten(batch)|..])
      ensures Counted(old(tracker.State()), tracker.State(), tracker.targets, results)
      ensures old(Reliable(P, J)) && (hasStore ==> AllIn(J, batch))
              ==> Reliable(P, J) && AllHonest(P, worker.env, worker.meter.tick, batch, results)
    {
      hide UnitsOf, Exact, CountUnits, HasRoom, Counted, AllHonest, AllIn, Flatten, Reliable;
      ghost var before, rest := tracker.State(), remaining[|Flatten(batch)|..];
      assert remaining == Flatten(batch) + rest;
      RoomCut(before, tracker.targets, Flatten(batch), rest);
      results := RunBatch(batch, tracker, P, J);
      RoomLeft(before, tracker.State(), tracker.targets, batch, results, rest);
    }

    /** The batch loop: all units, batch by batch, with chunk sizes that shrink after a slow batch. */
    method TranslateUnits(units: seq<Unit>, range: Range, concurrency: int, tracker: Tracker, ghost P: Env -> bool,
                          ghost J: seq<Unit> -> bool)
        returns (allResults: seq<PageResult>, ghost doneChunks: seq<Chunk>, ghost batches: seq<Batch>)
      requires ValidRange(range) && P(worker.env) && tracker.Valid()
      requires Exact(tracker.State(), tracker.targets) && HasRoom(tracker.State(), tracker.targets, units)
      modifies this, worker, tracker
      ensures tracker.Valid() && Exact(tracker.State(), tracker.targets)
      ensures Counted(old(tracker.State()), tracker.State(), tracker.targets, allResults)
      ensures Flatten(doneChunks) == units && forall i :: 0 <= i < |doneChunks| ==> doneChunks[i].units != []
      ensures Batched(units, range, concurrency, batches)
      ensures doneChunks == AllChunks(batches) && allResults == AllResults(batches)
      ensures old(Reliable(P, J)) && (hasStore ==> AllChunksIn(J, units, range))
              ==> Reliable(P, J) && AllHonest(P, worker.env, worker.meter.tick, doneChunks, allResults)
    {
      hide *;
      ghost var safe := Reliable(P, J) && (hasStore ==> AllChunksIn(J, units, range));
      ghost var start := tracker.State();
      doneChunks, allResults, batches := [], [], [];
      NoBatches(units, range, concurrency);
      var remaining := units;
      var current := range;
      RoomLength(start, tracker.targets, units);
      CountedNothing(start, tracker.targets);
      HonestNothing(P, worker.env, worker.meter.tick);
      NotReduced(range);
      while |remaining| > 0
        invariant tracker.Valid() && ValidRange(current)
        invariant Exact(tracker.State(), tracker.targets) && HasRoom(tracker.State(), tracker.targets, remaining)
        invariant Counted(start, tracker.State(), tracker.targets, allResults)
        invariant Flatten(doneChunks) + remaining == units
        invariant Batched(units, range, concurrency, batches)
        invariant doneChunks == AllChunks(batches) && allResults == AllResults(batches)
        invariant |remaining| > 0 ==> current == Reductions(range, SlowBatches(batches))
        invariant forall i :: 0 <= i < |doneChunks| ==> doneChunks[i].units != []
        invariant safe ==> Reliable(P, J) && AllHonest(P, worker.env, worker.meter.tick, doneChunks, allResults)
        decreases |remaining|
      {
        ghost var before, now := tracker.State(), worker.meter.tick;
        var batch := NextBatch(remaining, current, concurrency);
        if safe && hasStore {
          BatchIn(J, units, range, Flatten(doneChunks), remaining, SlowBatches(batches), batch);
        }
        var results := RunNextBatch(remaining, batch, tracker, P, J);
        CountedTrans(start, before, tracker.State(), tracker.targets, allResults, results);
        var consumed, slow := Consume(batch, results);
        FlattenConcat(doneChunks, batch);
        if safe {
          AllHonestLater(P, worker.env, now, worker.meter.tick, doneChunks, allResults);
          AllHonestConcat(P, worker.env, worker.meter.tick, doneChunks, allResults, batch, results);
        }
        SlowIs(Batch(batch, results));
        OneMoreBatch(units, range, concurrency, batches, Flatten(doneChunks), remaining, Batch(batch, results));
        ghost var reductions := SlowBatches(batches);
        batches := batches + [Batch(batch, results)];
        allResults, doneChunks := allResults + results, doneChunks + batch;
        remaining := remaining[consumed..];
        if slow && |remaining| > 0 {
          ReducedValid(current);
          ReducedOnce(range, reductions);
          current := ReduceRange(current.min, current.max);
        }
      }
    }

    /**
     The whole translation, from normalised pages to translated pages. With a store that is reliable on chunks that
     include the job's (see KeysSuffice), or without one, and for every service: one that echoes or fails recoverably
     keeps the words of each page; one that translates unit by unit gives each unit's translation, or the unit in a
     degraded chunk; and for one that answers by text the pages do not show which results earlier attempts had stored.
     */
    method TranslatePages(pages: seq<string>, range: Range, concurrency: int, ghost P: Env -> bool,
                          ghost J: seq<Unit> -> bool, ghost f: string -> string, ghost g: string -> Reply)
        returns (out: Option<seq<string>>, degraded: nat, tracker: Tracker, ghost chunks: seq<Chunk>,
                 ghost results: seq<PageResult>)
      requires ValidRange(range) && P(worker.env)
      modifies this, worker
      ensures fresh(tracker) && tracker.Valid() && |tracker.targets| == |pages|
      ensures Exact(tracker.State(), tracker.targets) && tracker.processedPages <= |pages|
      ensures out.Some? ==> |out.value| == |pages|
      ensures (hasStore ==> AllChunksIn(J, PageUnits(pages, range.max), range)) && old(Reliable(P, J)) ==>
                && Reliable(P, J)
                && Ended(P, worker.env, worker.meter.tick, pages, range.max, chunks, results, out, degraded)
                && ((forall e: Env :: P(e) ==> Echoes(e)) ==> out.Some? && KeepsWords(out.value, pages))
                && (Cooperative(P, f) ==> out.Some? && TranslationOf(out.value, pages, f, degraded == 0))
                && (AllAttempts(P, g) && out.Some? ==> SettledPages(g, pages, range.max, chunks, out.value, degraded))
    {
      var units := BuildChunkUnits(pages, range.max);
      var targets := UnitTargets(units, |pages|);
      tracker := new Tracker(targets);
      hide UnitsOf, Exact, CountUnits, HasRoom, Counted, UnitWise, Uncancelled, PageTexts, Errors, Reliable,
           DocumentUnits, TranslationOf, AllHonest, Cooperative, Echoes, KeepsWords, AllAttempts, SettledPages,
           Reassembled, Flatten, AllChunksIn, PageUnits;
      StartExact(tracker.State(), tracker.targets, units);
      var allResults, doneChunks, batches := TranslateUnits(units, range, concurrency, tracker, P, J);
      chunks, results := doneChunks, allResults;
      ExactBound(tracker.State(), tracker.targets);
      out, degraded := Reassemble(allResults, |pages|);
      ReassembledLength(worker.env, worker.meter.tick, allResults, |pages|, out, degraded);
      if (hasStore ==> AllChunksIn(J, units, range)) && old(Reliable(P, J)) {
        assert Ended(P, worker.env, worker.meter.tick, pages, range.max, chunks, results, out, degraded);
        hide Ended;
        if forall e: Env :: P(e) ==> Echoes(e) {
          EndedEcho(P, worker.env, worker.meter.tick, pages, range.max, chunks, results, out, degraded);
        }
        if Cooperative(P, f) {
          EndedTranslation(P, worker.env, worker.meter.tick, pages, range.max, chunks, results, out, degraded, f);
        }
        if AllAttempts(P, g) && out.Some? {
          EndedSettled(P, worker.env, worker.meter.tick, pages, range.max, chunks, results, out, degraded, g);
        }
      }
    }

    /** The reassembly: page parts in result order, until an unrecoverable failure. */
    method Reassemble(results: seq<PageResult>, pageCount: nat) returns (out: Option<seq<string>>, degraded: nat)
      ensures Reassembled(worker.env, worker.meter.tick, results, pageCount, out, degraded)
    {
      hide Join, TrimSpace;
      var parts: seq<seq<string>> := seq(pageCount, _ => []);
      degraded := 0;
      var tick := worker.meter.tick;
      for i := 0 to |results|
        invariant degraded == Errors(results[..i]) && tick >= worker.meter.tick
        invariant degraded > 0 ==> StillRunning(worker.env, worker.meter.tick)
        invariant NoneCanceled(results[..i])
        invariant |parts| == pageCount
        invariant forall p :: 0 <= p < pageCount ==> parts[p] == PartsOf(ResultUnits(results[..i]), p)
      {
        var r := results[i];
        assert results[..i + 1][..i] == results[..i];
        if r.error.Some? {
          var stop := worker.env.jobDone(tick);
          if stop || r.error.value.canceled {
            return None, degraded;
          }
          assert StillRunning(worker.env, worker.meter.tick);
          tick := tick + 1;
          degraded := degraded + 1;
        }
        forall p | 0 <= p < pageCount
          ensures PartsOf(ResultUnits(results[..i + 1]), p) ==
                    PartsOf(ResultUnits(results[..i]), p) + PartsOf(r.units, p)
        {
          PartsOfConcat(ResultUnits(results[..i]), r.units, p);
        }
        hide PartsOf;
        parts := AppendParts(parts, r.units);
      }
      assert results[..|results|] == results;
      var translated := [];
      for p := 0 to pageCount
        invariant translated == PageTexts(ResultUnits(results), pageCount)[..p]
      {
        translated := translated + [TrimSpace(Join(parts[p], " "))];
      }
      out := Some(translated);
    }
  }

  // ---- Lemmas about a batch -------------------------------------------------------------------

  lemma {:induction false} StartSlots(P: Env -> bool, env: Env, now: nat, batch: seq<Chunk>, g: Progress,
                                      targets: seq<nat>, slots: seq<Slot>)
    requires slots == seq(|batch|, _ => Slot(Start, NO_RESULT, NO_RESULT)) && |g.done| == |targets|
    ensures AllConsistent(batch, slots) && AllHonestSlots(P, env, now, batch, slots)
    ensures Counted(g, g, targets, Results(slots))
  {
    NoFreshUnits(Results(slots));
  }

  /** A step keeps the counter exact: a chunk is counted when it reports, and only then. */
  lemma {:induction false} ReportedSlot(start: Progress, g: Progress, h: Progress, targets: seq<nat>, batch: seq<Chunk>,
                                        slots: seq<Slot>, i: nat, t: Slot)
    requires AllConsistent(batch, slots) && i < |batch| && slots[i].phase != Done && Consistent(batch[i].units, t)
    requires Exact(g, targets) && Counted(start, g, targets, Results(slots)) && HasRoom(start, targets, Flatten(batch))
    requires if slots[i].phase == Answered
             then t.result == slots[i].answer && h == CountUnits(g, targets, slots[i].answer.units)
             else h == g && (t.result == slots[i].result || (!t.result.isNew && !slots[i].result.isNew))
    ensures AllConsistent(batch, slots[i := t])
    ensures Exact(h, targets) && Counted(start, h, targets, Results(slots[i := t]))
  {
    hide SamePages, Counted, HasRoom, Exact, CountUnits, Flatten;
    assert Consistent(batch[i].units, slots[i]);
    assert Results(slots[i := t]) == Results(slots)[i := t.result];
    if slots[i].phase == Answered {
      CountStep(start, g, targets, batch, Results(slots), i, t.result);
    } else if t.result == slots[i].result {
      assert Results(slots)[i := t.result] == Results(slots);
    } else {
      CountedHit(start, g, targets, Results(slots), i, t.result);
    }
  }

  lemma {:induction false} LaterSlots(P: Env -> bool, env: Env, now: nat, later: nat, batch: seq<Chunk>,
                                      slots: seq<Slot>)
    requires now <= later && AllHonestSlots(P, env, now, batch, slots)
    ensures AllHonestSlots(P, env, later, batch, slots)
  {
    hide Honest;
    forall i | 0 <= i < |batch|
      ensures HonestSlot(P, env, later, batch[i].units, slots[i])
    {
      assert HonestSlot(P, env, now, batch[i].units, slots[i]);
      if slots[i].phase == Answered {
        HonestLater(P, env, now, later, batch[i].units, slots[i].answer);
      }
      if slots[i].phase == Reported || slots[i].phase == Done {
        HonestLater(P, env, now, later, batch[i].units, slots[i].result);
      }
    }
  }

  lemma {:induction false} FinishedSlots(P: Env -> bool, env: Env, now: nat, batch: seq<Chunk>, slots: seq<Slot>)
    requires AllConsistent(batch, slots) && forall i :: 0 <= i < |batch| ==> slots[i].phase == Done
    ensures forall i :: 0 <= i < |batch| && Results(slots)[i].isNew ==>
              SamePages(Results(slots)[i].units, batch[i].units)
    ensures AllHonestSlots(P, env, now, batch, slots) ==> AllHonest(P, env, now, batch, Results(slots))
  {
    hide Honest, SamePages;
    forall i | 0 <= i < |batch|
      ensures Results(slots)[i].isNew ==> SamePages(Results(slots)[i].units, batch[i].units)
    {
      assert Consistent(batch[i].units, slots[i]);
    }
    if AllHonestSlots(P, env, now, batch, slots) {
      forall i | 0 <= i < |batch|
        ensures Honest(P, env, now, batch[i].units, Results(slots)[i])
      {
        assert HonestSlot(P, env, now, batch[i].units, slots[i]);
      }
    }
  }

  lemma {:induction false} SoundHit(store: Store, hash: string -> string, source: string, target: string,
                                    P: Env -> bool, J: seq<Unit> -> bool, units: seq<Unit>)
    requires hash(Preimage(source, target, units)) in store
    ensures Sound(store, hash, source, target, P, J) && J(units)
            ==> Produced(P, units, store[hash(Preimage(source, target, units))])
  {
  }

  // ---- Loops without state of the processor ------------------------------------------------------

  method AppendParts(before: seq<seq<string>>, units: seq<Unit>) returns (parts: seq<seq<string>>)
    ensures |parts| == |before|
    ensures forall p :: 0 <= p < |parts| ==> parts[p] == before[p] + PartsOf(units, p)
  {
    parts := before;
    for i := 0 to |units|
      invariant |parts| == |before|
      invariant forall p :: 0 <= p < |parts| ==> parts[p] == before[p] + PartsOf(units[..i], p)
    {
      var u := units[i];
      assert units[..i + 1][..i] == units[..i];
      if 0 <= u.pageIndex < |parts| {
        parts := parts[u.pageIndex := parts[u.pageIndex] + [u.text]];
      }
    }
    assert units[..|units|] == units;
  }

  /** How many of `n` chunks run together. */
  function Width(concurrency: int, n: nat): (width: nat)
    ensures width <= n
  {
    Min(Max(concurrency, 1), n)
  }

  /** The chunks of the remaining units, as many as run together. */
  method NextBatch(remaining: seq<Unit>, current: Range, concurrency: int) returns (batch: seq<Chunk>)
    requires |remaining| > 0
    ensures forall i :: 0 <= i < |batch| ==> batch[i].units != []
    ensures Flatten(batch) != [] && Flatten(batch) <= remaining
    ensures var chunks := TextChunks(remaining, current.min, current.max);
            batch == chunks[..Width(concurrency, |chunks|)]
  {
    hide *;
    var chunks := BuildTextChunks(remaining, current.min, current.max);
    PackedChunks(remaining, current.min, current.max);
    var batchSize := if concurrency <= 0 then 1 else concurrency;
    if batchSize > |chunks| {
      batchSize := |chunks|;
    }
    batch := chunks[..batchSize];
    WidthIs(concurrency, |chunks|);
    FlattenCut(chunks, batchSize);
  }

  lemma {:induction false} WidthIs(concurrency: int, n: nat)
    ensures Width(concurrency, n) == var w := if concurrency <= 0 then 1 else concurrency; if w > n then n else w
  {
  }

  // ---- The batches of a run ------------------------------------------------------------------------

  datatype Batch = Batch(chunks: seq<Chunk>, results: seq<PageResult>) {
    ghost predicate Slow() {
      exists i :: 0 <= i < |results| && results[i].slow
    }
  }

  lemma {:induction false} SlowIs(b: Batch)
    ensures b.Slow() <==> exists i :: 0 <= i < |b.results| && b.results[i].slow
  {
  }

  ghost function AllChunks(batches: seq<Batch>): seq<Chunk> {
    if batches == [] then [] else AllChunks(batches[..|batches| - 1]) + batches[|batches| - 1].chunks
  }

  ghost function AllResults(batches: seq<Batch>): seq<PageResult> {
    if batches == [] then [] else AllResults(batches[..|batches| - 1]) + batches[|batches| - 1].results
  }

  ghost function SlowBatches(batches: seq<Batch>): nat {
    if batches == [] then 0
    else SlowBatches(batches[..|batches| - 1]) + if batches[|batches| - 1].Slow() then 1 else 0
  }

  /** A batch holds the first chunks of what is left, at a range reduced once for each slow batch before it. */
  ghost predicate BatchAfter(units: seq<Unit>, range: Range, concurrency: int, before: seq<Batch>, b: Batch) {
    var done := Flatten(AllChunks(before));
    && |done| < |units| && units[..|done|] == done
    && var r := Reductions(range, SlowBatches(before));
       var chunks := TextChunks(units[|done|..], r.min, r.max);
       b.chunks == chunks[..Width(concurrency, |chunks|)] && |b.results| == |b.chunks|
  }

  ghost predicate Batched(units: seq<Unit>, range: Range, concurrency: int, batches: seq<Batch>) {
    forall k :: 0 <= k < |batches| ==> BatchAfter(units, range, concurrency, batches[..k], batches[k])
  }

  lemma {:induction false} NoBatches(units: seq<Unit>, range: Range, concurrency: int)
    ensures Batched(units, range, concurrency, []) && AllChunks([]) == [] && AllResults([]) == []
    ensures SlowBatches([]) == 0
  {
  }

  lemma {:induction false} OneMoreBatch(units: seq<Unit>, range: Range, concurrency: int, batches: seq<Batch>,
                                        done: seq<Unit>, remaining: seq<Unit>, b: Batch)
    requires Batched(units, range, concurrency, batches)
    requires done == Flatten(AllChunks(batches)) && units == done + remaining && remaining != []
    requires var r := Reductions(range, SlowBatches(batches)); var chunks := TextChunks(remaining, r.min, r.max);
             b.chunks == chunks[..Width(concurrency, |chunks|)] && |b.results| == |b.chunks|
    ensures Batched(units, range, concurrency, batches + [b])
    ensures AllChunks(batches + [b]) == AllChunks(batches) + b.chunks
    ensures AllResults(batches + [b]) == AllResults(batches) + b.results
    ensures SlowBatches(batches + [b]) == SlowBatches(batches) + if b.Slow() then 1 else 0
  {
    var more := batches + [b];
    assert more[..|batches|] == batches;
    hide TextChunks, Reductions, Flatten, Width;
    assert units[..|done|] == done && units[|done|..] == remaining;
    assert BatchAfter(units, range, concurrency, batches, b);
    hide BatchAfter;
    forall k | 0 <= k < |more|
      ensures BatchAfter(units, range, concurrency, more[..k], more[k])
    {
      assert k < |batches| ==> more[..k] == batches[..k];
    }
  }

  lemma {:induction false} NotReduced(range: Range)
    ensures Reductions(range, 0) == range
  {
  }

  lemma {:induction false} ReducedValid(r: Range)
    requires ValidRange(r)
    ensures ValidRange(ReduceRange(r.min, r.max))
  {
    ReduceRangeStep(r);
  }

  lemma {:induction false} ReducedOnce(range: Range, k: nat)
    ensures var r := Reductions(range, k); Reductions(range, k + 1) == ReduceRange(r.min, r.max)
  {
  }

  /** Each chunk of a batch is one of the job's. */
  lemma {:induction false} BatchIn(J: seq<Unit> -> bool, units: seq<Unit>, range: Range, before: seq<Unit>,
                                   remaining: seq<Unit>, reductions: nat, batch: seq<Chunk>)
    requires AllChunksIn(J, units, range) && units == before + remaining
    requires batch <= TextChunks(remaining, Reductions(range, reductions).min, Reductions(range, reductions).max)
    ensures AllIn(J, batch)
  {
    hide TextChunks, Reductions;
    assert units[|before|..] == remaining;
    forall i | 0 <= i < |batch|
      ensures J(batch[i].units)
    {
      assert ChunkAt(units, range, |before|, reductions, i, batch[i].units);
    }
  }

  lemma {:induction false} PackedChunks(units: seq<Unit>, minWords: int, maxWords: int)
    requires |units| > 0
    ensures var chunks := TextChunks(units, minWords, maxWords);
            |chunks| > 0 && Flatten(chunks) == units && forall i :: 0 <= i < |chunks| ==> chunks[i].units != []
  {
    TextChunksPacking(units, minWords, maxWords);
    PackingNonEmpty(TextChunks(units, minWords, maxWords), units, minWords, maxWords);
    hide TextChunks, Packing, Flatten;
  }

  /** The totals of the loop over a finished batch. */
  method Consume(batch: seq<Chunk>, results: seq<PageResult>) returns (consumed: nat, slow: bool)
    requires |batch| == |results|
    ensures consumed == |Flatten(batch)|
    ensures slow <==> exists i :: 0 <= i < |results| && results[i].slow
  {
    consumed, slow := 0, false;
    for i := 0 to |results|
      invariant consumed == |Flatten(batch[..i])|
      invariant slow <==> exists k :: 0 <= k < i && results[k].slow
    {
      assert batch[..i + 1][..i] == batch[..i];
      slow := slow || results[i].slow;
      consumed := consumed + |batch[i].units|;
    }
    assert batch[..|batch|] == batch;
  }

  /** unitTargetsByPage */
  method UnitTargets(units: seq<Unit>, pageCount: nat) returns (targets: seq<nat>)
    ensures |targets| == pageCount
    ensures forall p :: 0 <= p < pageCount ==> targets[p] == UnitsOf(units, p)
  {
    targets := seq(pageCount, _ => 0);
    for i := 0 to |units|
      invariant |targets| == pageCount
      invariant forall p :: 0 <= p < pageCount ==> targets[p] == UnitsOf(units[..i], p)
    {
      assert units[..i + 1][..i] == units[..i];
      var p := units[i].pageIndex;
      if 0 <= p < |targets| {
        targets := targets[p := targets[p] + 1];
      }
    }
    assert units[..|units|] == units;
  }

  lemma {:induction false} ReassembledLength(env: Env, now: nat, results: seq<PageResult>, pageCount: nat,
                                             out: Option<seq<string>>, degraded: nat)
    requires Reassembled(env, now, results, pageCount, out, degraded)
    ensures out.Some? ==> |out.value| == pageCount
  {
  }
}
