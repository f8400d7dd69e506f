/**
 Runs without a crash and without recovery of the held job: a job is in one place at
 a time, its attempts stay within its limit, and every enqueue or replay leads to a
 bounded number of executions, whatever replays and overload do meanwhile.
 */
module QueueCalm {
  import opened JobQueue
  import opened QueueProtocol

  /** The worker holds the only claim on its job: it has not yet handed it on. */
  predicate Holding(worker: Worker) {
    worker.pc == Working || worker.pc == Failing || worker.pc == RetryWritten || worker.pc == DeadWritten
  }

  /** How many places claim the job: queue entries, a retry entry, dead-letter entries, the worker. */
  function Claims(w: World, id: Id): nat {
    multiset(w.redis.queue)[id] + (if id in w.redis.retry then 1 else 0) + multiset(w.redis.dead)[id]
    + if Holding(w.worker) && w.worker.id == id then 1 else 0
  }

  /** One claim at most, and only on known jobs. */
  ghost predicate SingleClaims(w: World) {
    forall id :: Claims(w, id) <= 1 && (Claims(w, id) > 0 ==> id in w.redis.jobs)
  }

  /** The inflight list is exactly the held job, and so are the marks. */
  ghost predicate InflightIsHeld(w: World) {
    && w.redis.inflight == (if w.worker.pc == Idle || w.worker.pc == HalfAcked then [] else [w.worker.id])
    && w.redis.marks.Keys == (if w.worker.pc == Idle then {} else {w.worker.id})
    && (Holding(w.worker) ==> w.worker.id in w.redis.jobs && w.redis.jobs[w.worker.id] == w.worker.job)
  }

  predicate Waiting(r: Redis, id: Id) {
    id in r.queue || id in r.retry
  }

  predicate Executing(pc: Pc) {
    pc == Working || pc == Failing
  }

  /** Attempts and executions of one job. */
  ghost predicate Budget(w: World, id: Id) {
    id in w.redis.jobs && id in w.runs
    && var job := w.redis.jobs[id];
       && 0 <= job.attempt <= Limit(job) && w.runs[id] <= Limit(job)
       && (Waiting(w.redis, id) ==> w.runs[id] == job.attempt < Limit(job))
       && (w.worker.id == id && Executing(w.worker.pc) ==> w.runs[id] == job.attempt + 1 <= Limit(job))
       && (w.worker.id == id && w.worker.pc == RetryWritten ==> w.runs[id] == job.attempt < Limit(job))
  }

  ghost predicate Budgets(w: World) {
    forall id :: id in w.redis.jobs ==> Budget(w, id)
  }

  ghost predicate ReplaysReady(w: World) {
    forall k :: 0 <= k < |w.replays| ==>
      w.replays[k].id in w.redis.jobs && w.replays[k].payload.attempt == 0 && w.replays[k].payload.maxAttempts > 0
  }

  ghost predicate Calm(w: World) {
    SingleClaims(w) && InflightIsHeld(w) && Budgets(w) && ReplaysReady(w)
  }

  /** Recovery runs while the held job's mark is stale. */
  ghost predicate RecoversHeld(w: World, step: Step) {
    && step.Recover? && w.worker.pc != Idle
    && w.worker.id in w.redis.marks && w.redis.marks[w.worker.id] <= step.limit
  }

  /** No crash, and the held job's mark is not stale when recovery runs. */
  ghost predicate CalmStep(w: World, step: Step) {
    && !step.Crash?
    && !RecoversHeld(w, step)
  }

  ghost predicate CalmRun(steps: seq<Step>)
    requires Runnable(steps)
  {
    steps == [] || (CalmRun(steps[..|steps| - 1]) && CalmStep(After(steps[..|steps| - 1]), steps[|steps| - 1]))
  }

  // ---- One lemma per kind of step ----------------------------------------------------------------

  lemma {:induction false} CalmEnqueue(w: World, id: Id, maxAttempts: int)
    requires Calm(w) && Enabled(w, Step.Enqueue(id, maxAttempts))
    ensures Calm(Next(w, Step.Enqueue(id, maxAttempts)))
  {
    var v := Next(w, Step.Enqueue(id, maxAttempts));
    assert Claims(w, id) == 0;
    forall x
      ensures Claims(v, x) == Claims(w, x) + if x == id then 1 else 0
    {
    }
    forall x | x in v.redis.jobs
      ensures Budget(v, x)
    {
      assert x != id ==> Budget(w, x);
      assert x in v.redis.queue <==> x == id || x in w.redis.queue;
    }
  }

  lemma {:induction false} FirstMember(ids: seq<Id>)
    ensures ids == [] || ids[0] in ids
  {
  }

  lemma {:induction false} CalmRecover(w: World, step: Step)
    requires Calm(w) && step.Recover? && Enabled(w, step) && CalmStep(w, step)
    ensures Next(w, step) == w
  {
    FirstMember(step.ids);
    assert forall id :: id in step.ids ==> id in w.redis.marks.Keys;
  }

  lemma {:induction false} PromoteCounts(r: Redis, ids: seq<Id>)
    requires forall i, j :: 0 <= i < j < |ids| ==> ids[i] != ids[j]
    requires forall id :: id in ids ==> id in r.retry
    ensures var s := JobQueue.Promote(r, ids);
            && s == r.(queue := s.queue, retry := s.retry)
            && (forall id :: multiset(s.queue)[id] == multiset(r.queue)[id] + if id in ids then 1 else 0)
            && (forall id :: id in s.retry <==> id in r.retry && id !in ids)
  {
    if ids != [] {
      var n := |ids| - 1;
      PromoteCounts(r, ids[..n]);
      assert ids[n] !in ids[..n];
      assert forall id :: id in ids <==> id in ids[..n] || id == ids[n];
    }
  }

  lemma {:induction false} PromoteClaims(w: World, ids: seq<Id>, limit: int)
    requires SingleClaims(w) && Enabled(w, Step.Promote(ids, limit))
    ensures var v := Next(w, Step.Promote(ids, limit));
            && v == w.(redis := w.redis.(queue := v.redis.queue, retry := v.redis.retry))
            && (forall x :: Claims(v, x) == Claims(w, x))
            && (forall x :: Waiting(v.redis, x) <==> Waiting(w.redis, x))
            && (forall x :: x in ids ==> x in w.redis.retry && x !in v.redis.retry)
            && (forall x :: x !in ids ==> (x in v.redis.retry <==> x in w.redis.retry))
  {
    var v := Next(w, Step.Promote(ids, limit));
    forall i, j | 0 <= i < j < |ids|
      ensures ids[i] != ids[j]
    {
      assert Before(w.redis.retry, ids[i], ids[j]);
    }
    PromoteCounts(w.redis, ids);
    hide JobQueue.Promote, SingleClaims;
    forall x
      ensures Claims(v, x) == Claims(w, x) && (Waiting(v.redis, x) <==> Waiting(w.redis, x))
    {
      assert x in ids ==> x in w.redis.retry;
      assert x in v.redis.queue <==> multiset(v.redis.queue)[x] > 0;
      assert x in w.redis.queue <==> multiset(w.redis.queue)[x] > 0;
    }
  }

  lemma {:induction false} CalmPromote(w: World, ids: seq<Id>, limit: int)
    requires Calm(w) && Enabled(w, Step.Promote(ids, limit))
    ensures Calm(Next(w, Step.Promote(ids, limit)))
  {
    PromoteClaims(w, ids, limit);
    hide Claims, Waiting, JobQueue.Promote, Enabled;
    var v := Next(w, Step.Promote(ids, limit));
    forall x | x in v.redis.jobs
      ensures Budget(v, x)
    {
      assert Budget(w, x);
    }
  }

  lemma {:induction false} PopNext(w: World, now: int)
    requires Enabled(w, Pop(now)) && w.redis.queue[|w.redis.queue| - 1] in w.redis.jobs
    ensures var id := w.redis.queue[|w.redis.queue| - 1];
            Next(w, Pop(now)) == w.(redis := PopMark(w.redis, now), worker := Worker(Working, id, w.redis.jobs[id]),
                                    runs := w.runs[id := if id in w.runs then w.runs[id] + 1 else 1])
  {
  }

  lemma {:induction false} PopClaims(w: World, now: int)
    requires SingleClaims(w) && Enabled(w, Pop(now))
    ensures var v, id := Next(w, Pop(now)), w.redis.queue[|w.redis.queue| - 1];
            && id in w.redis.jobs && id !in v.redis.queue && id !in v.redis.retry
            && (forall x :: Claims(v, x) == Claims(w, x))
            && (forall x :: x in v.redis.queue ==> x in w.redis.queue)
            && v == w.(redis := PopMark(w.redis, now), worker := Worker(Working, id, w.redis.jobs[id]),
                       runs := w.runs[id := if id in w.runs then w.runs[id] + 1 else 1])
  {
    var r := w.redis;
    var n := |r.queue| - 1;
    var id := r.queue[n];
    assert r.queue == r.queue[..n] + [id];
    assert Claims(w, id) > 0;
    var v := Next(w, Pop(now));
    PopNext(w, now);
    hide Next, Enabled;
    PopCounts(w, v, id);
    hide Claims;
    assert forall x :: x in v.redis.queue ==> x in r.queue;
  }

  /** The claim of the popped entry becomes the worker's. */
  lemma {:induction false} PopCounts(w: World, v: World, id: Id)
    requires SingleClaims(w) && !Holding(w.worker) && v.worker == Worker(Working, id, v.worker.job)
    requires w.redis.queue == v.redis.queue + [id] && v.redis.retry == w.redis.retry && v.redis.dead == w.redis.dead
    ensures id !in v.redis.queue && id !in v.redis.retry
    ensures forall x :: Claims(v, x) == Claims(w, x)
  {
    assert multiset(w.redis.queue) == multiset(v.redis.queue) + multiset{id};
    assert Claims(w, id) <= 1;
    assert id in v.redis.queue <==> multiset(v.redis.queue)[id] > 0;
  }

  lemma {:induction false} CalmPop(w: World, now: int)
    requires Calm(w) && Enabled(w, Pop(now))
    ensures Calm(Next(w, Pop(now))) && Next(w, Pop(now)).worker.pc == Working
  {
    PopClaims(w, now);
    var v := Next(w, Pop(now));
    hide Next, Enabled, Claims;
    forall x | x in v.redis.jobs
      ensures Budget(v, x)
    {
      assert Budget(w, x);
    }
  }

  /** The worker writes about the job it holds and goes on. */
  predicate Writing(step: Step) {
    step.Progress? || step.Finish? || step.WriteRetry? || step.WriteTerminal? || step.RequeueFails?
  }

  /** What such a write may say, and where it may lead. */
  ghost predicate Wrote(w: World, pc: Pc, job: Job) {
    && Limit(job) == Limit(w.worker.job)
    && job.attempt == w.worker.job.attempt + (if w.worker.pc == Failing then 1 else 0)
    && match w.worker.pc
       case Working => pc == Working || pc == Failing || pc == Settled
       case Failing => pc == DeadWritten || (pc == RetryWritten && job.attempt < Limit(job))
       case RetryWritten => pc == Settled
       case _ => false
  }

  lemma {:induction false} WriteShape(w: World, step: Step)
    requires Enabled(w, step) && Writing(step)
    ensures var v := Next(w, step);
            && v == Write(w, v.worker.pc, v.worker.job) && Wrote(w, v.worker.pc, v.worker.job)
            && (v.worker.pc == Working <==> step.Progress?)
  {
  }

  lemma {:induction false} WriteClaims(w: World, pc: Pc, job: Job)
    requires SingleClaims(w) && Holding(w.worker)
    ensures SingleClaims(Write(w, pc, job))
  {
    assert Claims(w, w.worker.id) <= 1;
    forall x
      ensures Claims(Write(w, pc, job), x) <= Claims(w, x)
    {
    }
  }

  lemma {:induction false} WriteBudgets(w: World, pc: Pc, job: Job)
    requires Calm(w) && Holding(w.worker) && Wrote(w, pc, job)
    ensures Budgets(Write(w, pc, job))
  {
    HeldIsNotWaiting(w);
    hide SingleClaims, ReplaysReady;
    forall x | x in Write(w, pc, job).redis.jobs
      ensures Budget(Write(w, pc, job), x)
    {
      assert Budget(w, x);
    }
  }

  lemma {:induction false} CalmWrite(w: World, step: Step)
    requires Calm(w) && Enabled(w, step) && Writing(step)
    ensures Calm(Next(w, step))
  {
    WriteShape(w, step);
    var v := Next(w, step);
    hide Next, Enabled, Writing;
    WriteClaims(w, v.worker.pc, v.worker.job);
    WriteBudgets(w, v.worker.pc, v.worker.job);
    hide SingleClaims, Budgets, Limit;
  }

  ghost function AfterRequeue(w: World, delay: int, now: int): World {
    Move(w, Requeued(w.redis, w.worker.id, delay, now), Settled)
  }

  lemma {:induction false} RequeueBudgets(w: World, delay: int, now: int)
    requires Budgets(w) && w.worker.pc == RetryWritten && w.worker.id in w.redis.jobs
    ensures Budgets(AfterRequeue(w, delay, now))
  {
    var v, id := AfterRequeue(w, delay, now), w.worker.id;
    assert Budget(w, id);
    forall x | x in v.redis.jobs
      ensures Budget(v, x)
    {
      assert Budget(w, x);
      assert x in v.redis.queue ==> x in w.redis.queue || x == id;
    }
  }

  lemma {:induction false} RequeueClaims(w: World, delay: int, now: int)
    requires SingleClaims(w) && w.worker.pc == RetryWritten
    ensures SingleClaims(AfterRequeue(w, delay, now))
  {
    var v := AfterRequeue(w, delay, now);
    assert Claims(w, w.worker.id) == 1;
    forall x
      ensures Claims(v, x) == Claims(w, x)
    {
    }
  }

  lemma {:induction false} CalmRequeue(w: World, delay: int, now: int)
    requires Calm(w) && Enabled(w, Step.Requeue(delay, now))
    ensures Calm(Next(w, Step.Requeue(delay, now)))
  {
    assert Next(w, Step.Requeue(delay, now)) == AfterRequeue(w, delay, now);
    RequeueBudgets(w, delay, now);
    RequeueClaims(w, delay, now);
    hide Next, Enabled, SingleClaims, Budgets;
  }

  lemma {:induction false} CalmDeadLetter(w: World, reason: string)
    requires Calm(w) && Enabled(w, Step.DeadLetter(reason))
    ensures Calm(Next(w, Step.DeadLetter(reason)))
  {
    var id := w.worker.id;
    var v := Move(w, DeadLettered(w.redis, id, reason), Settled);
    assert Next(w, Step.DeadLetter(reason)) == v;
    hide Next, Enabled;
    assert Claims(w, id) == 1;
    forall x
      ensures Claims(v, x) == Claims(w, x)
    {
    }
    forall x | x in v.redis.jobs
      ensures Budget(v, x)
    {
      assert Budget(w, x);
    }
  }

  lemma {:induction false} CalmDeadLetterFails(w: World)
    requires Calm(w) && Enabled(w, DeadLetterFails)
    ensures Calm(Next(w, DeadLetterFails))
  {
    var v := Move(w, w.redis, Settled);
    assert Next(w, DeadLetterFails) == v;
    hide Next, Enabled;
    forall x
      ensures Claims(v, x) <= Claims(w, x)
    {
    }
    forall x | x in v.redis.jobs
      ensures Budget(v, x)
    {
      assert Budget(w, x);
    }
  }

  lemma {:induction false} AckShape(w: World, step: Step)
    requires Calm(w) && Enabled(w, step) && (step.AckList? || step.AckSet?)
    ensures var v := Next(w, step);
            && InflightIsHeld(v) && !Holding(v.worker) && !Executing(v.worker.pc) && v.worker.pc != RetryWritten
            && v == w.(redis := w.redis.(inflight := v.redis.inflight, marks := v.redis.marks), worker := v.worker)
            && !Holding(w.worker)
  {
    hide SingleClaims, Budgets, ReplaysReady;
  }

  lemma {:induction false} CalmAck(w: World, step: Step)
    requires Calm(w) && Enabled(w, step) && (step.AckList? || step.AckSet?)
    ensures Calm(Next(w, step))
  {
    hide Next, Enabled, RemoveFirst, Holding, Executing, InflightIsHeld, Limit;
    AckShape(w, step);
    var v := Next(w, step);
    forall x
      ensures Claims(v, x) == Claims(w, x)
    {
    }
    forall x | x in v.redis.jobs
      ensures Budget(v, x)
    {
      assert Budget(w, x);
    }
  }

  lemma {:induction false} ReplayClaims(w: World, k: nat)
    requires SingleClaims(w) && Enabled(w, ReplayEval(k))
    ensures SingleClaims(Next(w, ReplayEval(k)))
    ensures var id := w.replays[k].id;
            id in w.redis.dead ==> !Waiting(w.redis, id) && !(Holding(w.worker) && w.worker.id == id)
  {
    var v, p := Next(w, ReplayEval(k)), w.replays[k];
    RemoveAllCounts(w.redis.dead, p.id);
    assert v == AfterReplay(w, k);
    hide RemoveAll, Next, Enabled;
    assert Claims(w, p.id) <= 1;
    assert p.id in w.redis.queue <==> multiset(w.redis.queue)[p.id] > 0;
    assert p.id in w.redis.dead <==> multiset(w.redis.dead)[p.id] > 0;
    forall x
      ensures Claims(v, x) == Claims(w, x)
    {
    }
  }

  ghost function AfterReplay(w: World, k: nat): World
    requires k < |w.replays|
  {
    var p := w.replays[k];
    w.(redis := Replayed(w.redis, p.id, p.payload), replays := WithoutReplay(w.replays, k),
       runs := if p.id in w.redis.dead then w.runs[p.id := 0] else w.runs)
  }

  /** A replay starts a fresh budget for a dead-lettered job and leaves the others alone. */
  lemma {:induction false} ReplayBudgets(w: World, k: nat)
    requires Budgets(w) && ReplaysReady(w) && k < |w.replays|
    requires var id := w.replays[k].id;
             id in w.redis.dead ==> !Waiting(w.redis, id) && !(Holding(w.worker) && w.worker.id == id)
    ensures Budgets(AfterReplay(w, k))
  {
    hide RemoveAll;
    var v, p := AfterReplay(w, k), w.replays[k];
    if p.id in w.redis.dead {
      assert p.id in w.redis.jobs;
      assert Budget(v, p.id);
      forall x | x in v.redis.jobs && x != p.id
        ensures Budget(v, x)
      {
        assert Budget(w, x);
        assert x in v.redis.queue ==> x in w.redis.queue;
      }
    } else {
      forall x | x in v.redis.jobs
        ensures Budget(v, x)
      {
        assert Budget(w, x);
      }
    }
  }

  lemma {:induction false} ReplayRest(w: World, k: nat)
    requires InflightIsHeld(w) && ReplaysReady(w) && k < |w.replays|
    requires var id := w.replays[k].id; id in w.redis.dead ==> !(Holding(w.worker) && w.worker.id == id)
    ensures InflightIsHeld(AfterReplay(w, k)) && ReplaysReady(AfterReplay(w, k))
  {
    hide RemoveAll;
  }

  lemma {:induction false} CalmReplayEval(w: World, k: nat)
    requires Calm(w) && Enabled(w, ReplayEval(k))
    ensures Calm(Next(w, ReplayEval(k)))
  {
    ReplayClaims(w, k);
    assert Next(w, ReplayEval(k)) == AfterReplay(w, k);
    hide AfterReplay, Next, SingleClaims, InflightIsHeld, Budgets, ReplaysReady;
    ReplayBudgets(w, k);
    ReplayRest(w, k);
  }

  lemma {:induction false} ReplayOtherShape(w: World, step: Step)
    requires ReplaysReady(w) && Budgets(w) && Enabled(w, step) && (step.ReplayRead? || step.ReplayEnd?)
    ensures var v := Next(w, step); v == w.(replays := v.replays) && ReplaysReady(v)
  {
  }

  lemma {:induction false} CalmReplayOther(w: World, step: Step)
    requires Calm(w) && Enabled(w, step) && (step.ReplayRead? || step.ReplayEnd?)
    ensures Calm(Next(w, step))
  {
    ReplayOtherShape(w, step);
    var v := Next(w, step);
    hide Next, Enabled;
    forall x
      ensures Claims(v, x) == Claims(w, x)
    {
    }
    hide Claims;
    forall x | x in v.redis.jobs
      ensures Budget(v, x)
    {
      assert Budget(w, x);
    }
  }

  lemma {:induction false} StepCalm(w: World, step: Step)
    requires Calm(w) && Enabled(w, step) && CalmStep(w, step)
    ensures Calm(Next(w, step))
  {
    hide Calm, Next, Enabled;
    match step
    case Enqueue(id, maxAttempts) => CalmEnqueue(w, id, maxAttempts);
    case Recover(_, _) => CalmRecover(w, step);
    case Promote(ids, limit) => CalmPromote(w, ids, limit);
    case Pop(now) => CalmPop(w, now);
    case Requeue(delay, now) => CalmRequeue(w, delay, now);
    case DeadLetter(reason) => CalmDeadLetter(w, reason);
    case DeadLetterFails => CalmDeadLetterFails(w);
    case AckList => CalmAck(w, step);
    case AckSet => CalmAck(w, step);
    case ReplayEval(k) => CalmReplayEval(w, k);
    case ReplayRead(_) => CalmReplayOther(w, step);
    case ReplayEnd(_) => CalmReplayOther(w, step);
    case _ => CalmWrite(w, step);
  }

  lemma {:induction false} StartCalm()
    ensures Calm(START)
  {
  }

  lemma {:induction false} RunCalm(steps: seq<Step>)
    requires Runnable(steps) && CalmRun(steps)
    ensures Calm(After(steps))
  {
    hide Calm, Next, Enabled, CalmStep;
    if steps == [] {
      StartCalm();
    } else {
      RunCalm(steps[..|steps| - 1]);
      StepCalm(After(steps[..|steps| - 1]), steps[|steps| - 1]);
    }
  }

  /**
   Without crashes: no id is twice in queue plus retry set, the inflight list is the
   held job, attempts and executions per enqueue or replay never exceed the limit.
   */
  lemma {:induction false} CalmRunsAreBounded(steps: seq<Step>, id: Id)
    requires Runnable(steps) && CalmRun(steps) && id in After(steps).redis.jobs
    ensures var w := After(steps); var r := w.redis;
            && multiset(r.queue)[id] + (if id in r.retry then 1 else 0) <= 1
            && r.inflight == (if w.worker.pc == Idle || w.worker.pc == HalfAcked then [] else [w.worker.id])
            && r.jobs[id].attempt <= Limit(r.jobs[id])
            && id in w.runs && w.runs[id] <= Limit(r.jobs[id])
  {
    RunCalm(steps);
    hide After, Runnable;
    var w := After(steps);
    assert Budget(w, id);
    assert Claims(w, id) <= 1;
  }

  // ---- Progress ------------------------------------------------------------------------------------

  /** How far a job is from its end: attempts left first, then the place within the attempt. */
  function Rank(w: World, id: Id): int {
    if id !in w.redis.jobs then 0
    else
      var left := Limit(w.redis.jobs[id]) - w.redis.jobs[id].attempt;
      if Holding(w.worker) && w.worker.id == id then
        8 * left + (match w.worker.pc case RetryWritten => 6 case Working => 3 case Failing => 2 case _ => 1)
      else if id in w.redis.retry then 8 * left + 5
      else if id in w.redis.queue then 8 * left + 4
      else 0
  }

  /** The steps that carry the job on. */
  ghost predicate Advances(w: World, step: Step, id: Id) {
    match step
    case Promote(ids, _) => id in ids
    case Pop(_) => w.redis.queue != [] && w.redis.queue[|w.redis.queue| - 1] == id
    case Finish(_) => w.worker.id == id
    case WriteRetry(_) => w.worker.id == id
    case WriteTerminal(_, _) => w.worker.id == id
    case Requeue(_, _) => w.worker.id == id
    case RequeueFails => w.worker.id == id
    case DeadLetter(_) => w.worker.id == id
    case DeadLetterFails => w.worker.id == id
    case _ => false
  }

  /** The steps that give the job a new life. */
  ghost predicate Revives(w: World, step: Step, id: Id) {
    || (step.Enqueue? && step.id == id)
    || (step.ReplayEval? && step.index < |w.replays| && w.replays[step.index].id == id && id in w.redis.dead)
  }

  ghost predicate Falls(w: World, step: Step, id: Id, v: World) {
    Rank(v, id) <= Rank(w, id) && (Advances(w, step, id) ==> Rank(v, id) < Rank(w, id))
  }

  lemma {:induction false} RankWorker(w: World, step: Step, id: Id)
    requires Calm(w) && Enabled(w, step)
    requires Writing(step)
    ensures Falls(w, step, id, Next(w, step))
  {
    WriteShape(w, step);
    hide Next, Enabled;
    HeldIsNotWaiting(w);
    assert w.redis.jobs[w.worker.id] == w.worker.job;
    hide Calm, Claims, Budget, Waiting, Limit;
  }

  lemma {:induction false} HeldIsNotWaiting(w: World)
    requires Calm(w) && Holding(w.worker)
    ensures w.worker.id !in w.redis.queue && w.worker.id !in w.redis.retry
    ensures w.worker.id in w.redis.jobs && Budget(w, w.worker.id)
  {
    assert Claims(w, w.worker.id) == 1;
    assert w.worker.id in w.redis.queue <==> multiset(w.redis.queue)[w.worker.id] > 0;
  }

  lemma {:induction false} RankRequeue(w: World, delay: int, now: int, id: Id)
    requires Calm(w) && w.worker.pc == RetryWritten
    ensures Falls(w, Step.Requeue(delay, now), id, AfterRequeue(w, delay, now))
  {
    HeldIsNotWaiting(w);
    hide Calm, Claims;
    var v := AfterRequeue(w, delay, now);
    assert id != w.worker.id ==> (id in v.redis.queue <==> id in w.redis.queue);
  }

  lemma {:induction false} RankHandOver(w: World, step: Step, id: Id)
    requires Calm(w) && Enabled(w, step)
    requires step.Requeue? || step.DeadLetter? || step.DeadLetterFails?
    ensures Falls(w, step, id, Next(w, step))
  {
    if step.Requeue? {
      assert Next(w, step) == AfterRequeue(w, step.delay, step.now);
      RankRequeue(w, step.delay, step.now, id);
      hide Falls, Next, AfterRequeue, Calm, Enabled;
    } else {
      HeldIsNotWaiting(w);
      hide Calm, Claims;
    }
  }

  lemma {:induction false} LastMember(ids: seq<Id>, id: Id)
    ensures ids != [] && id != ids[|ids| - 1] ==> (id in ids[..|ids| - 1] <==> id in ids)
  {
    if ids != [] {
      assert ids == ids[..|ids| - 1] + [ids[|ids| - 1]];
    }
  }

  lemma {:induction false} RankPop(w: World, now: int, id: Id)
    requires Calm(w) && Enabled(w, Pop(now))
    ensures Falls(w, Pop(now), id, Next(w, Pop(now)))
  {
    PopClaims(w, now);
    assert id in w.redis.jobs ==> Budget(w, id);
    LastMember(w.redis.queue, id);
    hide Next, Enabled, Calm, Claims, Limit;
  }

  lemma {:induction false} RankPromote(w: World, ids: seq<Id>, limit: int, id: Id)
    requires Calm(w) && Enabled(w, Step.Promote(ids, limit))
    ensures Falls(w, Step.Promote(ids, limit), id, Next(w, Step.Promote(ids, limit)))
  {
    PromoteClaims(w, ids, limit);
    assert Claims(w, id) <= 1;
    assert id in w.redis.queue <==> multiset(w.redis.queue)[id] > 0;
    assert !(id in w.redis.retry && Holding(w.worker) && w.worker.id == id);
    assert !(id in w.redis.retry && id in w.redis.queue);
    assert id in w.redis.retry ==> id in w.redis.jobs;
    hide Next, Enabled, Calm, Claims, Before, Enumerates;
  }

  lemma {:induction false} RankSame(w: World, step: Step, id: Id)
    requires Enabled(w, step)
    requires step.AckList? || step.AckSet? || step.ReplayRead? || step.ReplayEnd?
    ensures Falls(w, step, id, Next(w, step))
  {
    hide RemoveFirst;
  }

  lemma {:induction false} RankEnqueue(w: World, step: Step, id: Id)
    requires Enabled(w, step) && step.Enqueue? && id != step.id
    ensures Falls(w, step, id, Next(w, step))
  {
    assert id in Next(w, step).redis.queue <==> id in w.redis.queue;
  }

  lemma {:induction false} RankReplay(w: World, k: nat, id: Id)
    requires k < |w.replays| && !(w.replays[k].id == id && id in w.redis.dead)
    ensures Falls(w, ReplayEval(k), id, AfterReplay(w, k))
  {
    hide RemoveAll;
    var v := AfterReplay(w, k);
    assert id in v.redis.queue <==> id in w.redis.queue;
    assert id in v.redis.retry <==> id in w.redis.retry;
  }

  lemma {:induction false} RankReplayEval(w: World, k: nat, id: Id)
    requires Enabled(w, ReplayEval(k)) && !Revives(w, ReplayEval(k), id)
    ensures Falls(w, ReplayEval(k), id, Next(w, ReplayEval(k)))
  {
    assert Next(w, ReplayEval(k)) == AfterReplay(w, k);
    RankReplay(w, k, id);
    hide AfterReplay, Next, Falls;
  }

  /** No step but an enqueue or a replay raises a job's rank, and every step that carries it on lowers it. */
  lemma {:induction false} RankFalls(w: World, step: Step, id: Id)
    requires Calm(w) && Enabled(w, step) && CalmStep(w, step) && !Revives(w, step, id)
    ensures Falls(w, step, id, Next(w, step))
  {
    hide Calm, Next, Enabled, Rank;
    match step
    case Promote(ids, limit) => RankPromote(w, ids, limit, id);
    case Recover(_, _) => CalmRecover(w, step);
    case Pop(now) => RankPop(w, now, id);
    case Requeue(_, _) => RankHandOver(w, step, id);
    case DeadLetter(_) => RankHandOver(w, step, id);
    case DeadLetterFails => RankHandOver(w, step, id);
    case Progress(_) => RankWorker(w, step, id);
    case Finish(_) => RankWorker(w, step, id);
    case WriteRetry(_) => RankWorker(w, step, id);
    case WriteTerminal(_, _) => RankWorker(w, step, id);
    case RequeueFails => RankWorker(w, step, id);
    case Enqueue(_, _) => RankEnqueue(w, step, id);
    case ReplayEval(k) => RankReplayEval(w, k, id);
    case _ => RankSame(w, step, id);
  }

  lemma {:induction false} RankBound(w: World, id: Id)
    requires Calm(w) && id in w.redis.jobs
    ensures 0 <= Rank(w, id) <= 8 * Limit(w.redis.jobs[id]) + 6
    ensures Rank(w, id) == 0 <==> !Waiting(w.redis, id) && !(Holding(w.worker) && w.worker.id == id)
  {
    assert Budget(w, id);
  }

  /** A calm stretch of steps in which nobody enqueues or replays the job. */
  ghost predicate Undisturbed(w: World, steps: seq<Step>, id: Id)
    requires RunnableFrom(w, steps)
  {
    steps == []
    || (Undisturbed(w, steps[..|steps| - 1], id)
        && CalmStep(AfterFrom(w, steps[..|steps| - 1]), steps[|steps| - 1])
        && !Revives(AfterFrom(w, steps[..|steps| - 1]), steps[|steps| - 1], id))
  }

  ghost function AdvanceCount(w: World, steps: seq<Step>, id: Id): nat
    requires RunnableFrom(w, steps)
  {
    if steps == [] then 0
    else AdvanceCount(w, steps[..|steps| - 1], id)
         + if Advances(AfterFrom(w, steps[..|steps| - 1]), steps[|steps| - 1], id) then 1 else 0
  }

  /** A job is carried on at most as often as its rank says: then it is completed, failed or dead-lettered. */
  lemma {:induction false} AdvancesAreBounded(w: World, steps: seq<Step>, id: Id)
    requires Calm(w) && RunnableFrom(w, steps) && Undisturbed(w, steps, id)
    ensures Calm(AfterFrom(w, steps)) && AdvanceCount(w, steps, id) + Rank(AfterFrom(w, steps), id) <= Rank(w, id)
  {
    hide Calm, Next, Enabled, Rank, CalmStep, Advances, Revives;
    if steps != [] {
      var front, last := steps[..|steps| - 1], steps[|steps| - 1];
      AdvancesAreBounded(w, front, id);
      StepCalm(AfterFrom(w, front), last);
      RankFalls(AfterFrom(w, front), last, id);
    }
  }
}
