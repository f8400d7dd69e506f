/**
 What the protocol promises only as long as certain faults stay out, with the exact faults: each guarantee holds in all
 runs if and only if the faults named are excluded, whatever else happens.
 */
module QueueLimits {
  import opened JobQueue
  import opened QueueProtocol
  import opened QueueSafety
  import opened QueueCalm

  /** Which faults a run may contain. */
  datatype Faults = Faults(crash: bool, recoverHeld: bool, requeueFails: bool, deadLetterFails: bool)

  ghost predicate Permitted(w: World, step: Step, f: Faults) {
    && (step.Crash? ==> f.crash)
    && (RecoversHeld(w, step) ==> f.recoverHeld)
    && (step.RequeueFails? ==> f.requeueFails)
    && (step.DeadLetterFails? ==> f.deadLetterFails)
  }

  ghost predicate RunWithin(steps: seq<Step>, f: Faults)
    requires Runnable(steps)
  {
    steps == []
    || (RunWithin(steps[..|steps| - 1], f) && Permitted(After(steps[..|steps| - 1]), steps[|steps| - 1], f))
  }

  /** The guarantee holds after every run with no other faults. */
  ghost predicate Always(f: Faults, guarantee: World -> bool) {
    forall steps: seq<Step> :: Runnable(steps) && RunWithin(steps, f) ==> guarantee(After(steps))
  }

  // ---- Every inflight id has a mark: as long as nothing crashes -------------------------------------

  ghost predicate AllMarked(w: World) {
    forall id :: id in w.redis.inflight ==> id in w.redis.marks
  }

  /** Without crashes only the held job is inflight, and it has its mark. */
  ghost predicate InflightMarked(w: World) {
    || w.redis.inflight == []
    || (w.worker.pc != Idle && w.worker.pc != HalfAcked && w.redis.inflight == [w.worker.id]
        && w.worker.id in w.redis.marks)
  }

  lemma {:induction false} RecoverMarked(w: World, ids: seq<Id>)
    requires InflightMarked(w)
    ensures InflightMarked(w.(redis := JobQueue.Recover(w.redis, ids)))
  {
    if ids != [] {
      RecoverMarked(w, ids[..|ids| - 1]);
      assert RemoveFirst([w.worker.id], w.worker.id) == [];
    }
  }

  lemma {:induction false} PromoteFrame(r: Redis, ids: seq<Id>)
    ensures var s := JobQueue.Promote(r, ids);
            s.inflight == r.inflight && s.marks == r.marks && s.jobs == r.jobs && s.dead == r.dead
  {
    if ids != [] {
      PromoteFrame(r, ids[..|ids| - 1]);
    }
  }

  lemma {:induction false} StepMarked(w: World, step: Step)
    requires InflightMarked(w) && Enabled(w, step) && !step.Crash?
    ensures InflightMarked(Next(w, step))
  {
    if step.Recover? {
      RecoverMarked(w, step.ids);
    } else if step.Promote? {
      PromoteFrame(w.redis, step.ids);
    }
    hide RemoveAll, JobQueue.Recover, JobQueue.Promote, Enumerates;
  }

  lemma {:induction false} RunMarked(steps: seq<Step>, f: Faults)
    requires Runnable(steps) && RunWithin(steps, f) && !f.crash
    ensures InflightMarked(After(steps))
  {
    hide Next, Enabled, InflightMarked;
    if steps == [] {
      assert InflightMarked(START) by { StartMarked(); }
    } else {
      RunMarked(steps[..|steps| - 1], f);
      StepMarked(After(steps[..|steps| - 1]), steps[|steps| - 1]);
    }
  }

  lemma {:induction false} StartMarked()
    ensures InflightMarked(START)
  {
  }

  /** A mark for every inflight id, exactly as long as nothing crashes. */
  lemma {:induction false} AllMarkedIff(f: Faults)
    ensures Always(f, w => AllMarked(w)) <==> !f.crash
  {
    if f.crash {
      var steps := UnmarkedCopy(f);
      hide After, Runnable, RunWithin;
      assert 7 in After(steps).redis.inflight && !AllMarked(After(steps));
    } else {
      hide After, Runnable, RunWithin;
      forall steps: seq<Step> | Runnable(steps) && RunWithin(steps, f)
        ensures AllMarked(After(steps))
      {
        RunMarked(steps, f);
      }
    }
  }

  // ---- Failed jobs are dead-lettered: unless the hand-over fails -----------------------------------------

  /** A failed job is in the dead-letter list, or the worker still has to decide about it. */
  ghost predicate FailedIsKept(w: World) {
    forall id :: id in w.redis.jobs && w.redis.jobs[id].status == Failed ==>
      || id in w.redis.dead
      || (w.worker.id == id && (w.worker.pc == Working || w.worker.pc == Failing || w.worker.pc == DeadWritten))
  }

  /** Replays write pending jobs. */
  ghost predicate ReplaysPending(w: World) {
    forall k :: 0 <= k < |w.replays| ==> w.replays[k].payload.status == Pending
  }

  lemma {:induction false} StepReplaysPending(w: World, step: Step)
    requires ReplaysPending(w) && Enabled(w, step) && !step.Crash?
    ensures ReplaysPending(Next(w, step))
  {
    hide RemoveFirst, RemoveAll, JobQueue.Recover, JobQueue.Promote, Enumerates;
  }

  lemma {:induction false} StepKept(w: World, step: Step)
    requires FailedIsKept(w) && ReplaysPending(w) && Enabled(w, step)
    requires !step.Crash? && !step.RequeueFails? && !step.DeadLetterFails?
    ensures FailedIsKept(Next(w, step))
  {
    if step.Recover? {
      RecoverFrame(w.redis, step.ids);
    } else if step.Promote? {
      PromoteFrame(w.redis, step.ids);
    } else if step.ReplayEval? {
      RemoveAllMembers(w.redis.dead, w.replays[step.index].id);
    }
    hide RemoveFirst, RemoveAll, JobQueue.Recover, JobQueue.Promote, Enumerates;
  }

  lemma {:induction false} RunKept(steps: seq<Step>, f: Faults)
    requires Runnable(steps) && RunWithin(steps, f) && !f.crash && !f.requeueFails && !f.deadLetterFails
    ensures FailedIsKept(After(steps)) && ReplaysPending(After(steps))
  {
    hide Next, Enabled;
    if steps != [] {
      hide FailedIsKept, ReplaysPending;
      RunKept(steps[..|steps| - 1], f);
      StepKept(After(steps[..|steps| - 1]), steps[|steps| - 1]);
      StepReplaysPending(After(steps[..|steps| - 1]), steps[|steps| - 1]);
    }
  }

  /** Failed implies dead-lettered, once the worker is done with a job, exactly if none of three faults occurs. */
  lemma {:induction false} FailedIsKeptIff(f: Faults)
    ensures Always(f, w => FailedIsKept(w)) <==> !f.crash && !f.requeueFails && !f.deadLetterFails
  {
    if f.crash || f.requeueFails || f.deadLetterFails {
      var steps := FailedAside(f);
      hide After, Runnable, RunWithin;
      assert !FailedIsKept(After(steps));
    } else {
      hide After, Runnable, RunWithin;
      forall steps: seq<Step> | Runnable(steps) && RunWithin(steps, f)
        ensures FailedIsKept(After(steps))
      {
        RunKept(steps, f);
      }
    }
  }

  // ---- Finished jobs stay finished: without crashes and recovery of a held job ---------------------------

  /** The worker never has a completed job to process. */
  predicate NotRunAgain(w: World) {
    w.worker.pc == Working ==> w.worker.job.status != Completed
  }

  /** What waits is pending, and so is what is about to be requeued. */
  ghost predicate WaitingPending(w: World) {
    && (forall id :: Waiting(w.redis, id) && id in w.redis.jobs ==> w.redis.jobs[id].status == Pending)
    && (w.worker.pc == RetryWritten ==> w.worker.job.status == Pending)
    && (w.worker.pc == Working ==> w.worker.job.status == Pending || w.worker.job.status == Processing)
  }

  lemma {:induction false} PendingPop(w: World, now: int)
    requires Calm(w) && WaitingPending(w) && Enabled(w, Pop(now))
    ensures WaitingPending(Next(w, Pop(now)))
  {
    var r := w.redis;
    var id := r.queue[|r.queue| - 1];
    PopClaims(w, now);
    hide Calm, Next, Claims;
    assert Waiting(r, id);
    var v := Next(w, Pop(now));
    assert forall x :: Waiting(v.redis, x) ==> Waiting(r, x);
  }

  /** The worker writes about the job it holds, which waits nowhere. */
  lemma {:induction false} PendingWrite(w: World, step: Step)
    requires Calm(w) && WaitingPending(w) && Enabled(w, step) && Writing(step)
    ensures WaitingPending(Next(w, step))
  {
    HeldIsNotWaiting(w);
    hide Calm, Claims, Budget, Limit;
  }

  lemma {:induction false} PendingHandOver(w: World, step: Step)
    requires Calm(w) && WaitingPending(w) && Enabled(w, step)
    requires step.Requeue? || step.DeadLetter? || step.DeadLetterFails?
    ensures WaitingPending(Next(w, step))
  {
    assert Holding(w.worker) && w.redis.jobs[w.worker.id] == w.worker.job;
    hide Calm, Claims, RemoveFirst;
    var v := Next(w, step);
    assert forall x :: x != w.worker.id && Waiting(v.redis, x) ==> Waiting(w.redis, x);
  }

  lemma {:induction false} PendingPromote(w: World, ids: seq<Id>, limit: int)
    requires WaitingPending(w) && Enabled(w, Step.Promote(ids, limit))
    ensures WaitingPending(Next(w, Step.Promote(ids, limit)))
  {
    PromoteFrame(w.redis, ids);
    PromoteWaiting(w.redis, ids);
    hide JobQueue.Promote;
  }

  lemma {:induction false} PromoteWaiting(r: Redis, ids: seq<Id>)
    ensures forall id :: Waiting(JobQueue.Promote(r, ids), id) ==> Waiting(r, id) || id in ids
  {
    if ids != [] {
      PromoteWaiting(r, ids[..|ids| - 1]);
    }
  }

  lemma {:induction false} PendingOutside(w: World, step: Step)
    requires WaitingPending(w) && Enabled(w, step) && ReplaysReady(w)
    requires step.Enqueue? || step.ReplayRead? || step.ReplayEval? || step.ReplayEnd? || step.AckList? || step.AckSet?
    requires step.ReplayEval? && w.replays[step.index].id in w.redis.dead ==>
               !(Holding(w.worker) && w.worker.id == w.replays[step.index].id)
    requires step.ReplayEval? ==> w.replays[step.index].payload.status == Pending
    ensures WaitingPending(Next(w, step))
  {
    hide RemoveFirst, RemoveAll;
    var v := Next(w, step);
    if step.Enqueue? {
      assert forall x :: Waiting(v.redis, x) ==> Waiting(w.redis, x) || x == step.id;
    }
    if step.ReplayEval? {
      assert forall x :: Waiting(v.redis, x) ==> Waiting(w.redis, x) || x == w.replays[step.index].id;
    }
  }

  lemma {:induction false} StepPending(w: World, step: Step)
    requires Calm(w) && WaitingPending(w) && ReplaysPending(w) && Enabled(w, step) && CalmStep(w, step)
    ensures WaitingPending(Next(w, step))
  {
    hide Next, Enabled, WaitingPending, CalmStep, SingleClaims, InflightIsHeld, Budgets, Claims;
    match step
    case Pop(now) => PendingPop(w, now);
    case Promote(ids, limit) => PendingPromote(w, ids, limit);
    case Recover(_, _) => CalmRecover(w, step);
    case Crash(_) => CrashIsNotCalm(w, step);
    case ReplayEval(k) =>
      EvalIndex(w, k);
      ReplayClaims(w, k);
      PendingOutside(w, step);
    case Enqueue(_, _) => PendingOutside(w, step);
    case ReplayRead(_) => PendingOutside(w, step);
    case ReplayEnd(_) => PendingOutside(w, step);
    case AckList => PendingOutside(w, step);
    case AckSet => PendingOutside(w, step);
    case Requeue(_, _) => PendingHandOver(w, step);
    case DeadLetter(_) => PendingHandOver(w, step);
    case DeadLetterFails => PendingHandOver(w, step);
    case _ => PendingWrite(w, step);
  }

  lemma {:induction false} EvalIndex(w: World, k: nat)
    requires Enabled(w, ReplayEval(k))
    ensures k < |w.replays|
  {
  }

  lemma {:induction false} CrashIsNotCalm(w: World, step: Step)
    requires CalmStep(w, step)
    ensures !step.Crash?
  {
  }

  lemma {:induction false} StartPending()
    ensures WaitingPending(START) && ReplaysPending(START) && Calm(START)
  {
  }

  lemma {:induction false} PermittedIsCalm(w: World, step: Step, f: Faults)
    requires Permitted(w, step, f) && !f.crash && !f.recoverHeld
    ensures CalmStep(w, step)
  {
  }

  lemma {:induction false} RunPending(steps: seq<Step>, f: Faults)
    requires Runnable(steps) && RunWithin(steps, f) && !f.crash && !f.recoverHeld
    ensures Calm(After(steps)) && WaitingPending(After(steps)) && ReplaysPending(After(steps))
  {
    hide Next, Enabled, Calm, WaitingPending, ReplaysPending, Permitted, CalmStep;
    if steps == [] {
      StartPending();
    } else {
      var w, step := After(steps[..|steps| - 1]), steps[|steps| - 1];
      RunPending(steps[..|steps| - 1], f);
      PermittedIsCalm(w, step, f);
      CrashIsNotCalm(w, step);
      StepCalm(w, step);
      StepPending(w, step);
      StepReplaysPending(w, step);
    }
  }

  /** No completed job is processed again, exactly without crashes and recovery of a held job. */
  lemma {:induction false} NotRunAgainIff(f: Faults)
    ensures Always(f, w => NotRunAgain(w)) <==> !f.crash && !f.recoverHeld
  {
    if f.crash || f.recoverHeld {
      var steps := CompletedRunsAgain(f);
      hide After, Runnable, RunWithin;
      assert !NotRunAgain(After(steps));
    } else {
      hide After, Runnable, RunWithin, Calm;
      forall steps: seq<Step> | Runnable(steps) && RunWithin(steps, f)
        ensures NotRunAgain(After(steps))
      {
        RunPending(steps, f);
      }
    }
  }

  // ---- Attempts stay within the limit: under the same condition ----------------------------------------------

  predicate WithinLimit(w: World) {
    forall id :: id in w.redis.jobs ==> w.redis.jobs[id].attempt <= Limit(w.redis.jobs[id])
  }

  lemma {:induction false} CalmWithinLimit(w: World)
    requires Calm(w)
    ensures WithinLimit(w)
  {
    forall id | id in w.redis.jobs
      ensures w.redis.jobs[id].attempt <= Limit(w.redis.jobs[id])
    {
      assert Budget(w, id);
    }
  }

  lemma {:induction false} WithinLimitIff(f: Faults)
    ensures Always(f, w => WithinLimit(w)) <==> !f.crash && !f.recoverHeld
  {
    if f.crash || f.recoverHeld {
      var steps := AttemptsExceedLimit(f);
      hide After, Runnable, RunWithin;
      assert 7 in After(steps).redis.jobs && !WithinLimit(After(steps));
    } else {
      hide After, Runnable, RunWithin, Calm;
      forall steps: seq<Step> | Runnable(steps) && RunWithin(steps, f)
        ensures WithinLimit(After(steps))
      {
        RunPending(steps, f);
        CalmWithinLimit(After(steps));
      }
    }
  }

  /** A job carried on until its rank is zero is finished: completed or failed. */
  lemma {:induction false} RankZeroIsFinished(w: World, id: Id)
    requires Safe(w) && Calm(w) && Rank(w, id) == 0
    ensures !Open(w.redis, id)
  {
    if id in w.redis.jobs {
      RankBound(w, id);
    }
    hide Rank;
    assert Open(w.redis, id) ==> Located(w.redis, id);
  }

  // ---- Runs that break them -----------------------------------------------------------------------------------

  lemma {:induction false} Append(steps: seq<Step>, step: Step, f: Faults) returns (more: seq<Step>)
    requires Runnable(steps) && RunWithin(steps, f) && Enabled(After(steps), step) && Permitted(After(steps), step, f)
    ensures Runnable(more) && RunWithin(more, f) && After(more) == Next(After(steps), step)
  {
    Extend(START, steps, step);
    more := steps + [step];
    assert more[..|more| - 1] == steps;
  }

  lemma {:induction false} NothingDone(f: Faults) returns (steps: seq<Step>)
    ensures Runnable(steps) && RunWithin(steps, f) && After(steps) == START
  {
    steps := [];
  }

  /** A world in which only job 7 matters. */
  function Only(queue: seq<Id>, inflight: seq<Id>, marks: ZSet, retry: ZSet, job: Job, worker: Worker,
                runs: nat): World {
    World(Redis(queue, inflight, marks, retry, [], map[], map[7 := job]), worker, [], map[7 := runs])
  }

  /** One job, just popped. No caller sets a limit, so that the default of three attempts applies. */
  lemma {:induction false} Popped(f: Faults) returns (steps: seq<Step>)
    ensures Runnable(steps) && RunWithin(steps, f)
    ensures var job := Job(Pending, 0, 0);
            After(steps) == Only([], [7], map[7 := 0], map[], job, Worker(Working, 7, job), 1)
  {
    var job := Job(Pending, 0, 0);
    steps := NothingDone(f);
    hide After, Runnable, RunWithin;
    steps := Append(steps, Step.Enqueue(7, 0), f);
    assert After(steps) == Only([7], [], map[], map[], job, NO_WORKER, 0);
    steps := Append(steps, Pop(0), f);
    assert After(steps) == Only([], [7], map[7 := 0], map[], job, Worker(Working, 7, job), 1);
  }

  /** One job whose first execution failed. */
  lemma {:induction false} FailedOnce(f: Faults) returns (steps: seq<Step>)
    ensures Runnable(steps) && RunWithin(steps, f)
    ensures var job := Job(Failed, 0, 0);
            After(steps) == Only([], [7], map[7 := 0], map[], job, Worker(Failing, 7, job), 1)
  {
    var job := Job(Failed, 0, 0);
    steps := Popped(f);
    hide After, Runnable, RunWithin;
    steps := Append(steps, Finish(Failed), f);
    assert After(steps) == Only([], [7], map[7 := 0], map[], job, Worker(Failing, 7, job), 1);
  }

  lemma {:induction false} PromoteSingle(r: Redis, id: Id)
    ensures JobQueue.Promote(r, [id]) == PromoteOne(r, id)
  {
    assert [id][..0] == [];
    assert JobQueue.Promote(r, []) == r;
  }

  lemma {:induction false} RecoverSingle(r: Redis, id: Id)
    ensures JobQueue.Recover(r, [id]) == RecoverOne(r, id)
  {
    assert [id][..0] == [];
    assert JobQueue.Recover(r, []) == r;
  }

  lemma {:induction false} RequeueThenCrash(w: World)
    requires w == Only([], [7], map[7 := 0], map[], Job(Failed, 0, 0), Worker(Failing, 7, Job(Failed, 0, 0)), 1)
    ensures Enabled(w, WriteRetry(false)) && var a := Next(w, WriteRetry(false));
            && Enabled(a, Step.Requeue(2000, 0)) && var b := Next(a, Step.Requeue(2000, 0));
            Next(b, Crash([])) == Only([], [7], map[7 := 0], map[7 := 2], Job(Pending, 1, 3), NO_WORKER, 1)
  {
    var job := Job(Pending, 1, 3);
    assert Next(w, WriteRetry(false)) == Only([], [7], map[7 := 0], map[], job, Worker(RetryWritten, 7, job), 1);
  }

  /** The run up to the crash: the job waits for its retry while its inflight entry survives. */
  lemma {:induction false} CrashAfterRequeue(f: Faults) returns (steps: seq<Step>)
    requires f.crash
    ensures Runnable(steps) && RunWithin(steps, f)
    ensures After(steps) == Only([], [7], map[7 := 0], map[7 := 2], Job(Pending, 1, 3), NO_WORKER, 1)
  {
    steps := FailedOnce(f);
    RequeueThenCrash(After(steps));
    hide After, Runnable, RunWithin, Next;
    steps := Append(steps, WriteRetry(false), f);
    steps := Append(steps, Step.Requeue(2000, 0), f);
    steps := Append(steps, Crash([]), f);
  }

  lemma {:induction false} PromoteThenPop(w: World)
    requires w == Only([], [7], map[7 := 0], map[7 := 2], Job(Pending, 1, 3), NO_WORKER, 1)
    ensures Enabled(w, Step.Promote([7], 2)) && var a := Next(w, Step.Promote([7], 2));
            && Enabled(a, Pop(2000))
            && Next(a, Pop(2000)) ==
              Only([], [7, 7], map[7 := 2], map[], Job(Pending, 1, 3), Worker(Working, 7, Job(Pending, 1, 3)), 2)
  {
    hide JobQueue.Promote;
    PromoteSingle(w.redis, 7);
    assert Next(w, Step.Promote([7], 2)) == Only([7], [7], map[7 := 0], map[], Job(Pending, 1, 3), NO_WORKER, 1);
  }

  /** The retry after the crash: the list holds two copies, the mark set one mark. */
  lemma {:induction false} SecondAttempt(f: Faults) returns (steps: seq<Step>)
    requires f.crash
    ensures Runnable(steps) && RunWithin(steps, f)
    ensures var job := Job(Pending, 1, 3);
            After(steps) == Only([], [7, 7], map[7 := 2], map[], job, Worker(Working, 7, job), 2)
  {
    steps := CrashAfterRequeue(f);
    PromoteThenPop(After(steps));
    hide After, Runnable, RunWithin, Next, Enabled;
    steps := Append(steps, Step.Promote([7], 2), f);
    steps := Append(steps, Pop(2000), f);
  }

  /** A crash between Requeue and Ack can leave an inflight copy without a mark, out of recovery's sight. */
  lemma {:induction false} UnmarkedCopy(f: Faults) returns (steps: seq<Step>)
    requires f.crash
    ensures Runnable(steps) && RunWithin(steps, f)
    ensures After(steps) == Only([], [7], map[], map[], Job(Completed, 1, 3), NO_WORKER, 2)
  {
    var job := Job(Completed, 1, 3);
    steps := SecondAttempt(f);
    hide After, Runnable, RunWithin;
    steps := Append(steps, Finish(Completed), f);
    assert After(steps) == Only([], [7, 7], map[7 := 2], map[], job, Worker(Settled, 7, job), 2);
    steps := Append(steps, AckList, f);
    assert After(steps) == Only([], [7], map[7 := 2], map[], job, Worker(HalfAcked, 7, job), 2);
    steps := Append(steps, AckSet, f);
  }

  /** A job that completes once more on the queue: after a crash, or because recovery took it for stale. */
  lemma {:induction false} CompletedInQueue(f: Faults) returns (steps: seq<Step>)
    requires f.crash || f.recoverHeld
    ensures Runnable(steps) && RunWithin(steps, f)
    ensures After(steps) == Only([7], [], map[], map[], Job(Completed, 0, 0), NO_WORKER, 1)
  {
    var pending, job := Job(Pending, 0, 0), Job(Completed, 0, 0);
    steps := Popped(f);
    hide After, Runnable, JobQueue.Recover, RunWithin;
    assert Enumerates([7], map[7 := 0], 0);
    if f.crash {
      steps := Append(steps, Finish(Completed), f);
      assert After(steps) == Only([], [7], map[7 := 0], map[], job, Worker(Settled, 7, job), 1);
      steps := Append(steps, Crash([]), f);
      assert After(steps) == Only([], [7], map[7 := 0], map[], job, NO_WORKER, 1);
      RecoverSingle(After(steps).redis, 7);
      steps := Append(steps, Step.Recover([7], 0), f);
    } else {
      steps := SlowCompletion(steps, f);
    }
  }

  lemma {:induction false} SlowCompletion(popped: seq<Step>, f: Faults) returns (steps: seq<Step>)
    requires f.recoverHeld && Runnable(popped) && RunWithin(popped, f)
    requires var job := Job(Pending, 0, 0);
             After(popped) == Only([], [7], map[7 := 0], map[], job, Worker(Working, 7, job), 1)
    ensures Runnable(steps) && RunWithin(steps, f)
    ensures After(steps) == Only([7], [], map[], map[], Job(Completed, 0, 0), NO_WORKER, 1)
  {
    var pending, job := Job(Pending, 0, 0), Job(Completed, 0, 0);
    hide After, Runnable, JobQueue.Recover, RunWithin;
    assert Enumerates([7], map[7 := 0], 0);
    RecoverSingle(After(popped).redis, 7);
    steps := Append(popped, Step.Recover([7], 0), f);
    assert After(steps) == Only([7], [], map[], map[], pending, Worker(Working, 7, pending), 1);
    steps := Append(steps, Finish(Completed), f);
    assert After(steps) == Only([7], [], map[], map[], job, Worker(Settled, 7, job), 1);
    steps := Append(steps, AckList, f);
    assert After(steps) == Only([7], [], map[], map[], job, Worker(HalfAcked, 7, job), 1);
    steps := Append(steps, AckSet, f);
  }

  lemma {:induction false} CompletedRunsAgain(f: Faults) returns (steps: seq<Step>)
    requires f.crash || f.recoverHeld
    ensures Runnable(steps) && RunWithin(steps, f) && !NotRunAgain(After(steps))
  {
    steps := CompletedInQueue(f);
    hide After, Runnable, RunWithin;
    steps := Append(steps, Pop(700_000), f);
  }

  /** A failed job that no replay can reach: its worker died, or could not requeue it, or could not record it. */
  lemma {:induction false} CrashAside(f: Faults) returns (steps: seq<Step>)
    requires f.crash
    ensures Runnable(steps) && RunWithin(steps, f) && !FailedIsKept(After(steps))
  {
    steps := FailedOnce(f);
    hide After, Runnable, RunWithin;
    steps := Append(steps, Crash([]), f);
    assert 7 in After(steps).redis.jobs;
  }

  lemma {:induction false} RequeueAside(f: Faults) returns (steps: seq<Step>)
    requires f.requeueFails
    ensures Runnable(steps) && RunWithin(steps, f) && !FailedIsKept(After(steps))
  {
    steps := FailedOnce(f);
    hide After, Runnable, RunWithin;
    steps := Append(steps, WriteRetry(false), f);
    steps := Append(steps, RequeueFails, f);
    assert 7 in After(steps).redis.jobs;
  }

  lemma {:induction false} DeadLetterAside(f: Faults) returns (steps: seq<Step>)
    requires f.deadLetterFails
    ensures Runnable(steps) && RunWithin(steps, f) && !FailedIsKept(After(steps))
  {
    steps := FailedOnce(f);
    hide After, Runnable, RunWithin;
    steps := Append(steps, WriteTerminal(false, false), f);
    steps := Append(steps, DeadLetterFails, f);
    assert 7 in After(steps).redis.jobs;
  }

  lemma {:induction false} FailedAside(f: Faults) returns (steps: seq<Step>)
    requires f.crash || f.requeueFails || f.deadLetterFails
    ensures Runnable(steps) && RunWithin(steps, f) && !FailedIsKept(After(steps))
  {
    hide *;
    if f.crash {
      steps := CrashAside(f);
    } else if f.requeueFails {
      steps := RequeueAside(f);
    } else {
      steps := DeadLetterAside(f);
    }
  }

  /** Job 7 is queued, and no worker holds it. */
  ghost predicate Queued(w: World, job: Job) {
    && w.redis.queue == [7] && w.redis.inflight == [] && w.redis.marks == map[] && w.redis.jobs == map[7 := job]
    && w.worker == NO_WORKER
  }

  /** Popped at second `t` and held. */
  lemma {:induction false} PopQueued(w: World, job: Job, t: nat)
    requires Queued(w, job)
    ensures Enabled(w, Pop(1000 * t)) && var a := Next(w, Pop(1000 * t));
            && a.redis == w.redis.(queue := [], inflight := [7], marks := map[7 := t])
            && a.worker == Worker(Working, 7, job)
  {
    assert 7 in w.redis.jobs;
  }

  lemma {:induction false} FailForGood(w: World, job: Job)
    requires w.worker == Worker(Working, 7, job) && w.redis.jobs == map[7 := job]
    ensures Enabled(w, Finish(Failed)) && var a := Next(w, Finish(Failed));
            && Enabled(a, WriteTerminal(false, false)) && var b := Next(a, WriteTerminal(false, false));
            && b.worker == Worker(DeadWritten, 7, AfterFailure(job, Failed))
            && b.redis == w.redis.(jobs := map[7 := AfterFailure(job, Failed)])
  {
  }

  /** A permanent failure whose worker dies before it is dead-lettered comes back from recovery. */
  lemma {:induction false} CrashRound(before: seq<Step>, job: Job, t: nat, f: Faults) returns (steps: seq<Step>)
    requires f.crash && Runnable(before) && RunWithin(before, f) && Queued(After(before), job)
    ensures Runnable(steps) && RunWithin(steps, f) && Queued(After(steps), AfterFailure(job, Failed))
  {
    hide After, Runnable, JobQueue.Recover, RunWithin, AfterFailure;
    PopQueued(After(before), job, t);
    steps := Append(before, Pop(1000 * t), f);
    FailForGood(After(steps), job);
    steps := Append(steps, Finish(Failed), f);
    steps := Append(steps, WriteTerminal(false, false), f);
    steps := CrashAndRecover(steps, AfterFailure(job, Failed), t, f);
  }

  lemma {:induction false} CrashAndRecover(before: seq<Step>, job: Job, t: nat, f: Faults) returns (steps: seq<Step>)
    requires f.crash && Runnable(before) && RunWithin(before, f)
    requires var r := After(before).redis;
             r.queue == [] && r.inflight == [7] && r.marks == map[7 := t] && r.jobs == map[7 := job]
    ensures Runnable(steps) && RunWithin(steps, f) && Queued(After(steps), job)
  {
    hide After, Runnable, JobQueue.Recover, RunWithin;
    steps := Append(before, Crash([]), f);
    RecoverSingle(After(steps).redis, 7);
    assert Enumerates([7], After(steps).redis.marks, t);
    steps := Append(steps, Step.Recover([7], t), f);
  }

  /** So does one whose worker is slow: recovery has queued its job again by the time it is dead-lettered. */
  lemma {:induction false} SlowRound(before: seq<Step>, job: Job, t: nat, f: Faults) returns (steps: seq<Step>)
    requires f.recoverHeld && Runnable(before) && RunWithin(before, f) && Queued(After(before), job)
    ensures Runnable(steps) && RunWithin(steps, f) && Queued(After(steps), AfterFailure(job, Failed))
  {
    hide After, Runnable, JobQueue.Recover, RunWithin, AfterFailure;
    PopQueued(After(before), job, t);
    steps := Append(before, Pop(1000 * t), f);
    RecoverSingle(After(steps).redis, 7);
    assert Enumerates([7], After(steps).redis.marks, t);
    steps := Append(steps, Step.Recover([7], t), f);
    FailForGood(After(steps), job);
    steps := Append(steps, Finish(Failed), f);
    steps := Append(steps, WriteTerminal(false, false), f);
    steps := DeadLetterAndAck(steps, AfterFailure(job, Failed), f);
  }

  lemma {:induction false} DeadLetterAndAck(before: seq<Step>, job: Job, f: Faults) returns (steps: seq<Step>)
    requires Runnable(before) && RunWithin(before, f) && After(before).worker == Worker(DeadWritten, 7, job)
    requires var r := After(before).redis;
             r.queue == [7] && r.inflight == [] && r.marks == map[] && r.jobs == map[7 := job]
    ensures Runnable(steps) && RunWithin(steps, f) && Queued(After(steps), job)
  {
    hide After, Runnable, RunWithin;
    steps := Append(before, Step.DeadLetter(""), f);
    steps := Append(steps, AckList, f);
    steps := Append(steps, AckSet, f);
  }

  /** Round after round, the attempts of one job grow without bound. */
  lemma {:induction false} AttemptsGrow(rounds: nat, f: Faults) returns (steps: seq<Step>)
    requires f.crash || f.recoverHeld
    ensures Runnable(steps) && RunWithin(steps, f)
    ensures Queued(After(steps), if rounds == 0 then Job(Pending, 0, 0) else Job(Failed, rounds, 3))
  {
    hide After, Runnable, RunWithin, Next, Enabled;
    if rounds == 0 {
      steps := JustQueued(f);
    } else {
      var job := if rounds == 1 then Job(Pending, 0, 0) else Job(Failed, rounds - 1, 3);
      steps := AttemptsGrow(rounds - 1, f);
      hide Queued;
      assert AfterFailure(job, Failed) == Job(Failed, rounds, 3);
      if f.crash {
        steps := CrashRound(steps, job, 600 * rounds, f);
      } else {
        steps := SlowRound(steps, job, 600 * rounds, f);
      }
    }
  }

  lemma {:induction false} JustQueued(f: Faults) returns (steps: seq<Step>)
    ensures Runnable(steps) && RunWithin(steps, f) && Queued(After(steps), Job(Pending, 0, 0))
  {
    steps := NothingDone(f);
    hide After, Runnable, RunWithin;
    steps := Append(steps, Step.Enqueue(7, 0), f);
  }

  /** Four failures of a job that may be tried three times. */
  lemma {:induction false} AttemptsExceedLimit(f: Faults) returns (steps: seq<Step>)
    requires f.crash || f.recoverHeld
    ensures Runnable(steps) && RunWithin(steps, f)
    ensures After(steps).redis.jobs == map[7 := Job(Failed, 4, 3)]
  {
    steps := AttemptsGrow(4, f);
    hide After, Runnable, RunWithin;
  }
}
