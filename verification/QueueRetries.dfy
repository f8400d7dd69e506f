/**
 How often a failing job is tried: in calm runs a transient failure is retried exactly until the limit is used up, and
 delays keep what they promise to whoever waits.
 */
module QueueRetries {
  import opened JobQueue
  import opened QueueProtocol
  import opened QueueSafety
  import opened QueueCalm

  /** The executions that a job may use while the queue is overloaded, or not. */
  function Allowance(job: Job, overloaded: bool): int {
    if overloaded && Limit(job) > 1 then Limit(job) - 1 else Limit(job)
  }

  /** A transient failure is retried exactly while executions are left, any other failure never. */
  lemma {:induction false} RetryDecision(w: World, overloaded: bool)
    requires Calm(w) && w.worker.pc == Failing
    ensures var id, job := w.worker.id, w.worker.job;
            && id in w.runs
            && (Enabled(w, WriteRetry(overloaded)) <==> w.runs[id] < Allowance(job, overloaded))
            && (Enabled(w, WriteTerminal(true, overloaded)) <==> w.runs[id] >= Allowance(job, overloaded))
            && Enabled(w, WriteTerminal(false, overloaded))
            && w.runs[id] <= Limit(job)
  {
    assert Budget(w, w.worker.id);
  }

  // ---- Transient failures use up the limit ------------------------------------------------------------

  /** Each dead-lettered job, and one about to be, was executed as often as its limit allows. */
  ghost predicate Exhausted(w: World) {
    && (forall id :: id in w.redis.dead ==>
          id in w.redis.jobs && id in w.runs && w.runs[id] == Limit(w.redis.jobs[id]))
    && (w.worker.pc == DeadWritten ==> w.worker.id in w.runs && w.runs[w.worker.id] == Limit(w.worker.job))
  }

  /** Whatever fails in the step fails for now only, and the queue is not overloaded. */
  predicate TransientStep(step: Step) {
    (step.WriteTerminal? ==> step.retryable && !step.overloaded) && (step.WriteRetry? ==> !step.overloaded)
  }

  lemma {:induction false} DeadIsElsewhere(w: World, id: Id)
    requires Calm(w) && id in w.redis.dead
    ensures id in w.redis.jobs && id !in w.redis.queue && !(Holding(w.worker) && w.worker.id == id)
  {
    assert Claims(w, id) <= 1;
    assert id in w.redis.queue <==> multiset(w.redis.queue)[id] > 0;
    assert id in w.redis.dead <==> multiset(w.redis.dead)[id] > 0;
  }

  lemma {:induction false} ExhaustedWrite(w: World, step: Step)
    requires Calm(w) && Exhausted(w) && Enabled(w, step) && Writing(step) && TransientStep(step)
    ensures Exhausted(Next(w, step))
  {
    WriteShape(w, step);
    if w.worker.pc == Failing {
      RetryDecision(w, false);
    }
    forall id | id in w.redis.dead
      ensures !(Holding(w.worker) && w.worker.id == id)
    {
      DeadIsElsewhere(w, id);
    }
    hide Calm, Wrote;
  }

  lemma {:induction false} ExhaustedPop(w: World, now: int)
    requires Calm(w) && Exhausted(w) && Enabled(w, Pop(now))
    ensures Exhausted(Next(w, Pop(now)))
  {
    PopClaims(w, now);
    forall id | id in w.redis.dead
      ensures id !in w.redis.queue
    {
      DeadIsElsewhere(w, id);
    }
    hide Calm, Next, Enabled, Claims;
  }

  lemma {:induction false} ExhaustedHandOver(w: World, step: Step)
    requires Calm(w) && Exhausted(w) && Enabled(w, step)
    requires step.Requeue? || step.DeadLetter? || step.DeadLetterFails? || step.AckList? || step.AckSet?
    ensures Exhausted(Next(w, step))
  {
    hide Calm, RemoveFirst, Limit, Holding;
    HeldIsWritten(w);
  }

  lemma {:induction false} ExhaustedOutside(w: World, step: Step)
    requires Calm(w) && Exhausted(w) && Enabled(w, step)
    requires step.Enqueue? || step.ReplayRead? || step.ReplayEnd?
    ensures Exhausted(Next(w, step))
  {
    hide Calm;
    HeldIsKnown(w);
  }

  lemma {:induction false} HeldIsKnown(w: World)
    requires Calm(w)
    ensures w.worker.pc == DeadWritten ==> w.worker.id in w.redis.jobs
  {
  }

  lemma {:induction false} ExhaustedPromote(w: World, ids: seq<Id>, limit: int)
    requires Calm(w) && Exhausted(w) && Enabled(w, Step.Promote(ids, limit))
    ensures Exhausted(Next(w, Step.Promote(ids, limit)))
  {
    hide Next, Enabled, Calm, Claims, Waiting, Limit;
    CalmClaims(w);
    PromoteClaims(w, ids, limit);
  }

  lemma {:induction false} CalmClaims(w: World)
    requires Calm(w)
    ensures SingleClaims(w)
  {
  }

  lemma {:induction false} ExhaustedReplay(w: World, k: nat)
    requires Calm(w) && Exhausted(w) && Enabled(w, ReplayEval(k))
    ensures Exhausted(Next(w, ReplayEval(k)))
  {
    hide Calm, RemoveAll, Claims, Limit, Waiting, SingleClaims;
    CalmClaims(w);
    ReplayClaims(w, k);
    RemoveAllMembers(w.redis.dead, w.replays[k].id);
  }

  lemma {:induction false} HeldIsWritten(w: World)
    requires Calm(w)
    ensures w.worker.pc == DeadWritten ==>
              w.worker.id in w.redis.jobs && w.redis.jobs[w.worker.id] == w.worker.job
  {
  }

  lemma {:induction false} StepExhausted(w: World, step: Step)
    requires Calm(w) && Exhausted(w) && Enabled(w, step) && CalmStep(w, step) && TransientStep(step)
    ensures Exhausted(Next(w, step))
  {
    hide Calm, Next, Enabled, Exhausted;
    match step
    case Pop(now) => ExhaustedPop(w, now);
    case Recover(_, _) => CalmRecover(w, step);
    case Requeue(_, _) => ExhaustedHandOver(w, step);
    case DeadLetter(_) => ExhaustedHandOver(w, step);
    case DeadLetterFails => ExhaustedHandOver(w, step);
    case AckList => ExhaustedHandOver(w, step);
    case AckSet => ExhaustedHandOver(w, step);
    case Enqueue(_, _) => ExhaustedOutside(w, step);
    case Promote(ids, limit) => ExhaustedPromote(w, ids, limit);
    case ReplayRead(_) => ExhaustedOutside(w, step);
    case ReplayEval(k) => ExhaustedReplay(w, k);
    case ReplayEnd(_) => ExhaustedOutside(w, step);
    case _ => ExhaustedWrite(w, step);
  }

  /** In a calm run with transient failures only, a job is dead-lettered after exactly its limit of executions. */
  lemma {:induction false} TransientFailuresExhaust(steps: seq<Step>)
    requires Runnable(steps) && CalmRun(steps) && forall k :: 0 <= k < |steps| ==> TransientStep(steps[k])
    ensures Exhausted(After(steps))
  {
    hide Next, Enabled, Exhausted, Calm, CalmStep;
    if steps == [] {
      NothingExhausted();
    } else {
      var front, last := steps[..|steps| - 1], steps[|steps| - 1];
      TransientFailuresExhaust(front);
      RunCalm(front);
      StepExhausted(After(front), last);
    }
  }

  lemma {:induction false} NothingExhausted()
    ensures Exhausted(START)
  {
  }

  // ---- Delays -----------------------------------------------------------------------------------------

  /** The base delay doubles from two seconds up to a minute. */
  lemma {:induction false} BaseDelayDoubles(attempt: int)
    requires attempt >= 1
    ensures var doubled := 2000 * Power2(attempt - 1); BaseDelay(attempt) == if doubled < 60000 then doubled else 60000
  {
    Power2Grows(5, attempt - 1);
    assert Power2(0) == 1 && Power2(1) == 2 && Power2(2) == 4 && Power2(3) == 8 && Power2(4) == 16 && Power2(5) == 32;
  }

  lemma {:induction false} Power2Grows(m: nat, n: int)
    ensures m <= n ==> Power2(m) <= Power2(n)
  {
    if m < n {
      Power2Grows(m, n - 1);
    }
  }

  /** Recovery at `now` takes a mark set at `popped` exactly from 600 whole seconds on. */
  lemma {:induction false} StaleIff(z: ZSet, id: Id, popped: int, ids: seq<Id>, now: int)
    requires id in z && z[id] == Unix(popped) && Enumerates(ids, z, StaleLimit(now, DEFAULT_RECOVER_MS))
    ensures id in ids <==> Unix(now) >= Unix(popped) + 600
    ensures now <= popped + 599_000 ==> id !in ids
    ensures now >= popped + 600_000 ==> id in ids
  {
  }

  /** A step while the job is held, and before its mark is stale. */
  ghost predicate InTime(step: Step, popped: int) {
    && !step.AckSet? && !step.Crash?
    && (step.Recover? ==> exists now :: step.limit == StaleLimit(now, DEFAULT_RECOVER_MS) && now <= popped + 599_000)
  }

  lemma {:induction false} RecoverMarks(r: Redis, ids: seq<Id>, id: Id)
    requires id !in ids
    ensures var s := JobQueue.Recover(r, ids);
            (id in s.marks <==> id in r.marks) && (id in r.marks ==> s.marks[id] == r.marks[id])
  {
    if ids != [] {
      RecoverMarks(r, ids[..|ids| - 1], id);
    }
  }

  lemma {:induction false} PromoteMarks(r: Redis, ids: seq<Id>)
    ensures JobQueue.Promote(r, ids).marks == r.marks
  {
    if ids != [] {
      PromoteMarks(r, ids[..|ids| - 1]);
    }
  }

  /** The worker holds the job it popped, and the mark says when. */
  ghost predicate HeldSince(w: World, id: Id, popped: int) {
    w.worker.pc != Idle && w.worker.id == id && id in w.redis.marks && w.redis.marks[id] == Unix(popped)
  }

  lemma {:induction false} StepHeld(w: World, step: Step, id: Id, popped: int)
    requires HeldSince(w, id, popped) && Enabled(w, step) && InTime(step, popped)
    ensures HeldSince(Next(w, step), id, popped) && !RecoversHeld(w, step)
  {
    if step.Recover? {
      var now :| step.limit == StaleLimit(now, DEFAULT_RECOVER_MS) && now <= popped + 599_000;
      StaleIff(w.redis.marks, id, popped, step.ids, now);
      RecoverMarks(w.redis, step.ids, id);
    } else if step.Promote? {
      PromoteMarks(w.redis, step.ids);
    }
    hide RemoveFirst, RemoveAll, JobQueue.Recover, JobQueue.Promote;
  }

  /** No recovery within the time takes a job from its worker: slow jobs alone make a run that is not calm. */
  lemma {:induction false} HeldJobIsSpared(w: World, popped: int, steps: seq<Step>)
    requires Enabled(w, Pop(popped)) && RunnableFrom(Next(w, Pop(popped)), steps)
    requires forall k :: 0 <= k < |steps| ==> InTime(steps[k], popped)
    ensures var v := Next(w, Pop(popped));
            HeldSince(AfterFrom(v, steps), v.worker.id, popped)
    ensures var v := Next(w, Pop(popped));
            steps != [] ==> !RecoversHeld(AfterFrom(v, steps[..|steps| - 1]), steps[|steps| - 1])
  {
    var v := Next(w, Pop(popped));
    if steps == [] {
      assert HeldSince(v, v.worker.id, popped);
    } else {
      hide Next, Enabled, HeldSince, InTime, RecoversHeld;
      HeldJobIsSpared(w, popped, steps[..|steps| - 1]);
      StepHeld(AfterFrom(v, steps[..|steps| - 1]), steps[|steps| - 1], v.worker.id, popped);
    }
  }

  /** A retry scheduled with a delay comes up once that has passed, to the second. */
  lemma {:induction false} RetryComesDue(w: World, delay: int, requeued: int, ids: seq<Id>, now: int)
    requires w.worker.pc == RetryWritten && delay > 0
    requires var v := Next(w, Step.Requeue(delay, requeued)); Enabled(v, Step.Promote(ids, Unix(now)))
    ensures w.worker.id in ids <==> Unix(now) >= Unix(requeued + delay)
    ensures w.worker.id in ids ==> now > requeued + delay - 1000
    ensures w.worker.id !in ids ==> now < requeued + delay
  {
  }

  // ---- Dead letters ---------------------------------------------------------------------------------------

  /** Each dead-lettered job has its reason, and no other job has one. */
  ghost predicate Listed(w: World) {
    forall id :: id in w.redis.dead <==> id in w.redis.deadMeta
  }

  lemma {:induction false} PromoteDead(r: Redis, ids: seq<Id>)
    ensures var s := JobQueue.Promote(r, ids); s.dead == r.dead && s.deadMeta == r.deadMeta
  {
    if ids != [] {
      PromoteDead(r, ids[..|ids| - 1]);
    }
  }

  lemma {:induction false} StepListed(w: World, step: Step)
    requires Listed(w) && Enabled(w, step)
    ensures Listed(Next(w, step))
    ensures step.DeadLetter? ==>
              var v := Next(w, step).redis;
              w.worker.id in v.dead && v.deadMeta[w.worker.id] == step.reason && w.worker.id !in v.retry
  {
    if step.Recover? {
      RecoverFrame(w.redis, step.ids);
    } else if step.Promote? {
      PromoteDead(w.redis, step.ids);
    } else if step.ReplayEval? {
      RemoveAllMembers(w.redis.dead, w.replays[step.index].id);
    }
    hide RemoveFirst, RemoveAll, JobQueue.Recover, JobQueue.Promote, Enumerates;
  }

  /** In every reachable world the dead-letter list and the recorded reasons agree. */
  lemma {:induction false} DeadAreListed(steps: seq<Step>)
    requires Runnable(steps)
    ensures Listed(After(steps))
  {
    hide Next, Enabled, Listed;
    if steps == [] {
      NothingListed();
    } else {
      DeadAreListed(steps[..|steps| - 1]);
      StepListed(After(steps[..|steps| - 1]), steps[|steps| - 1]);
    }
  }

  lemma {:induction false} NothingListed()
    ensures Listed(START)
  {
  }

  /** A replay writes the job with its old limit and nothing used up. */
  lemma {:induction false} ReplayRenews(w: World, id: Id, k: nat)
    requires Enabled(w, ReplayRead(id)) && k == |w.replays|
    ensures var v := Next(w, ReplayRead(id));
            && Enabled(v, ReplayEval(k))
            && (id in w.redis.dead ==>
                  var job := Next(v, ReplayEval(k)).redis.jobs[id];
                  job.status == Pending && job.attempt == 0 && Limit(job) == Limit(w.redis.jobs[id]))
  {
  }
}
