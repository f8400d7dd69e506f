/**
 No job is lost: in every run, with crashes and stale recovery at any point, a job
 that is not finished can still be found, and one recovery brings it back.
 */
module QueueSafety {
  import opened JobQueue
  import opened QueueProtocol

  predicate Unfinished(job: Job) {
    job.status == Pending || job.status == Processing
  }

  /** Queued, waiting for a retry, or inflight with a mark that recovery will find. */
  predicate Located(r: Redis, id: Id) {
    id in r.queue || id in r.retry || (id in r.inflight && id in r.marks)
  }

  predicate Open(r: Redis, id: Id) {
    id in r.jobs && Unfinished(r.jobs[id])
  }

  /** What the worker guarantees for the job it holds, by program point. */
  predicate WorkerSafe(w: World) {
    var r, id := w.redis, w.worker.id;
    match w.worker.pc
    case Idle => true
    case Working => Located(r, id)
    case Failing => Located(r, id)
    case RetryWritten => Located(r, id)
    case DeadWritten => Open(r, id) ==> id in r.queue
    case Settled => Open(r, id) ==> id in r.queue || id in r.retry
    case HalfAcked => Open(r, id) ==> id in r.queue || id in r.retry
  }

  ghost predicate Safe(w: World) {
    (forall id :: Open(w.redis, id) ==> Located(w.redis, id)) && WorkerSafe(w)
  }

  /** Every id the structures mention has a payload, so a pop never finds a vanished one. */
  ghost predicate Known(w: World) {
    var r := w.redis;
    && (forall id :: id in r.queue || id in r.retry || id in r.inflight || id in r.dead ==> id in r.jobs)
    && (forall k :: 0 <= k < |w.replays| ==> w.replays[k].id in r.jobs)
    && (w.worker.pc != Idle ==> w.worker.id in r.jobs)
  }

  lemma {:induction false} RemoveFirstMembers(s: seq<Id>, id: Id)
    ensures forall x :: x != id ==> (x in RemoveFirst(s, id) <==> x in s)
    ensures forall x :: x in RemoveFirst(s, id) ==> x in s
  {
    if s != [] {
      RemoveFirstMembers(s[1..], id);
    }
  }

  lemma {:induction false} RemoveAllMembers(s: seq<Id>, id: Id)
    ensures forall x :: x in RemoveAll(s, id) <==> x in s && x != id
  {
    if s != [] {
      RemoveAllMembers(s[1..], id);
    }
  }

  /** `s` keeps every place that `r` offers a job, or moves it to the queue. */
  ghost predicate Keeps(r: Redis, s: Redis) {
    && s.jobs == r.jobs && s.dead == r.dead
    && (forall id :: id in r.queue ==> id in s.queue)
    && (forall id :: id in r.queue || id in r.retry ==> id in s.queue || id in s.retry)
    && (forall id :: Located(r, id) ==> Located(s, id))
    && (forall id :: id in s.queue ==> id in r.queue || id in r.retry || id in r.inflight)
    && (forall id :: id in s.retry ==> id in r.retry)
    && (forall id :: id in s.inflight ==> id in r.inflight)
  }

  lemma {:induction false} KeepsTrans(a: Redis, b: Redis, c: Redis)
    requires Keeps(a, b) && Keeps(b, c)
    ensures Keeps(a, c)
  {
  }

  lemma {:induction false} RecoverOneKeeps(r: Redis, id: Id)
    ensures Keeps(r, RecoverOne(r, id))
  {
    RemoveFirstMembers(r.inflight, id);
    hide RemoveFirst;
  }

  lemma {:induction false} RecoverKeeps(r: Redis, ids: seq<Id>)
    ensures Keeps(r, JobQueue.Recover(r, ids))
  {
    if ids != [] {
      var s, id := JobQueue.Recover(r, ids[..|ids| - 1]), ids[|ids| - 1];
      RecoverKeeps(r, ids[..|ids| - 1]);
      RecoverOneKeeps(s, id);
      KeepsTrans(r, s, RecoverOne(s, id));
      hide Keeps, RecoverOne;
    }
  }

  lemma {:induction false} PromoteKeeps(r: Redis, ids: seq<Id>)
    requires forall id :: id in ids ==> id in r.retry
    ensures Keeps(r, JobQueue.Promote(r, ids))
  {
    if ids != [] {
      var s, id := JobQueue.Promote(r, ids[..|ids| - 1]), ids[|ids| - 1];
      PromoteKeeps(r, ids[..|ids| - 1]);
      var t := PromoteOne(s, id);
      assert id in r.retry;
      assert forall x :: x in t.queue <==> x == id || x in s.queue;
      assert forall x :: x in t.retry <==> x != id && x in s.retry;
    }
  }

  lemma {:induction false} SafeRecover(w: World, ids: seq<Id>, limit: int)
    requires Safe(w) && Known(w) && Enabled(w, Step.Recover(ids, limit))
    ensures Safe(Next(w, Step.Recover(ids, limit))) && Known(Next(w, Step.Recover(ids, limit)))
  {
    RecoverKeeps(w.redis, ids);
  }

  lemma {:induction false} SafePromote(w: World, ids: seq<Id>, limit: int)
    requires Safe(w) && Known(w) && Enabled(w, Step.Promote(ids, limit))
    ensures Safe(Next(w, Step.Promote(ids, limit))) && Known(Next(w, Step.Promote(ids, limit)))
  {
    PromoteKeeps(w.redis, ids);
  }

  lemma {:induction false} SafePop(w: World, now: int)
    requires Safe(w) && Known(w) && Enabled(w, Pop(now))
    ensures Safe(Next(w, Pop(now))) && Known(Next(w, Pop(now)))
    ensures Next(w, Pop(now)).worker.pc == Working
  {
    var r := w.redis;
    var n := |r.queue| - 1;
    var s := Next(w, Pop(now)).redis;
    assert r.queue == r.queue[..n] + [r.queue[n]];
    assert forall id :: id in r.queue <==> id in s.queue || id == r.queue[n];
    assert forall id :: id in s.inflight <==> id == r.queue[n] || id in r.inflight;
    forall x | Open(s, x)
      ensures Located(s, x)
    {
      assert Open(w.redis, x) ==> Located(w.redis, x);
    }
  }

  lemma {:induction false} SafeReplay(w: World, k: nat)
    requires Safe(w) && Known(w) && Enabled(w, ReplayEval(k))
    ensures Safe(Next(w, ReplayEval(k))) && Known(Next(w, ReplayEval(k)))
  {
    RemoveAllMembers(w.redis.dead, w.replays[k].id);
    var s := Next(w, ReplayEval(k)).redis;
    assert forall x ::
        x in s.queue <==> x in w.redis.queue || (w.replays[k].id in w.redis.dead && x == w.replays[k].id);
    forall x | Open(s, x)
      ensures Located(s, x)
    {
      assert Open(w.redis, x) ==> Located(w.redis, x);
    }
  }

  lemma {:induction false} SafeAck(w: World, step: Step)
    requires Safe(w) && Known(w) && Enabled(w, step) && (step.AckList? || step.AckSet?)
    ensures Safe(Next(w, step)) && Known(Next(w, step))
  {
    RemoveFirstMembers(w.redis.inflight, w.worker.id);
    var s := Next(w, step).redis;
    forall x | Open(s, x)
      ensures Located(s, x)
    {
      assert Open(w.redis, x) ==> Located(w.redis, x);
    }
  }

  /** The steps of an enqueuer, a replay request or a crash that touch no queue structure but the queue. */
  lemma {:induction false} SafeOutside(w: World, step: Step)
    requires Safe(w) && Known(w) && Enabled(w, step)
    requires step.Enqueue? || step.ReplayRead? || step.ReplayEnd? || step.Crash?
    ensures Safe(Next(w, step)) && Known(Next(w, step))
  {
    var s := Next(w, step).redis;
    assert forall x :: x in w.redis.queue ==> x in s.queue;
    forall x | Open(s, x)
      ensures Located(s, x)
    {
      assert Open(w.redis, x) ==> Located(w.redis, x);
    }
  }

  /** The worker's writes between pop and Ack. */
  lemma {:induction false} SafeWorker(w: World, step: Step)
    requires Safe(w) && Known(w) && Enabled(w, step)
    requires step.Progress? || step.Finish? || step.WriteRetry? || step.WriteTerminal? || step.RequeueFails?
    ensures Safe(Next(w, step)) && Known(Next(w, step))
  {
    var s := Next(w, step).redis;
    forall x | Open(s, x)
      ensures Located(s, x)
    {
      assert Open(w.redis, x) ==> Located(w.redis, x);
    }
  }

  /** The worker's hand-over of a failed job. */
  lemma {:induction false} SafeHandOver(w: World, step: Step)
    requires Safe(w) && Known(w) && Enabled(w, step)
    requires step.Requeue? || step.DeadLetter? || step.DeadLetterFails?
    ensures Safe(Next(w, step)) && Known(Next(w, step))
  {
    var s := Next(w, step).redis;
    assert forall x :: x in w.redis.queue ==> x in s.queue;
    forall x | Open(s, x)
      ensures Located(s, x)
    {
      assert Open(w.redis, x) ==> Located(w.redis, x);
    }
  }

  /** Every step keeps every unfinished job findable. */
  lemma {:induction false} StepSafe(w: World, step: Step)
    requires Safe(w) && Known(w) && Enabled(w, step)
    ensures Safe(Next(w, step)) && Known(Next(w, step))
  {
    hide Safe, Known, Enabled, Next;
    match step
    case Recover(ids, limit) => SafeRecover(w, ids, limit);
    case Promote(ids, limit) => SafePromote(w, ids, limit);
    case Pop(now) => SafePop(w, now);
    case ReplayEval(k) => SafeReplay(w, k);
    case AckList => SafeAck(w, step);
    case AckSet => SafeAck(w, step);
    case Enqueue(_, _) => SafeOutside(w, step);
    case ReplayRead(_) => SafeOutside(w, step);
    case ReplayEnd(_) => SafeOutside(w, step);
    case Crash(_) => SafeOutside(w, step);
    case Requeue(_, _) => SafeHandOver(w, step);
    case DeadLetter(_) => SafeHandOver(w, step);
    case DeadLetterFails => SafeHandOver(w, step);
    case _ => SafeWorker(w, step);
  }

  /** In every reachable world an unfinished job is queued, due for a retry, or inflight with a mark. */
  lemma {:induction false} NoJobIsLost(steps: seq<Step>)
    requires Runnable(steps)
    ensures Safe(After(steps)) && Known(After(steps))
  {
    if steps != [] {
      NoJobIsLost(steps[..|steps| - 1]);
      StepSafe(After(steps[..|steps| - 1]), steps[|steps| - 1]);
    }
  }

  // ---- Recovery -----------------------------------------------------------------------------

  lemma {:induction false} RecoverSpares(r: Redis, ids: seq<Id>, id: Id)
    requires id !in ids && id in r.inflight
    ensures id in JobQueue.Recover(r, ids).inflight
  {
    if ids != [] {
      RecoverSpares(r, ids[..|ids| - 1], id);
      RemoveFirstMembers(JobQueue.Recover(r, ids[..|ids| - 1]).inflight, ids[|ids| - 1]);
    }
  }

  lemma {:induction false} RecoverQueues(r: Redis, ids: seq<Id>, id: Id)
    requires id in ids && id in r.inflight
    ensures id in JobQueue.Recover(r, ids).queue
  {
    var front := ids[..|ids| - 1];
    if id in front {
      RecoverQueues(r, front, id);
    } else {
      RecoverSpares(r, front, id);
    }
  }

  lemma {:induction false} PromoteQueues(r: Redis, ids: seq<Id>, id: Id)
    requires id in ids
    ensures id in JobQueue.Promote(r, ids).queue
  {
    var front := ids[..|ids| - 1];
    if id in front {
      PromoteQueues(r, front, id);
    }
  }

  /** After any run without a live worker, one full recovery and one full promotion queue every unfinished job. */
  lemma {:induction false} RecoveryRequeuesAll(steps: seq<Step>, stale: seq<Id>, limit: int, due: seq<Id>, now: int)
    requires Runnable(steps) && After(steps).worker.pc == Idle
    requires var r := After(steps).redis;
             && Enumerates(stale, r.marks, limit) && (forall id :: id in r.marks ==> r.marks[id] <= limit)
             && var s := JobQueue.Recover(r, stale);
                Enumerates(due, s.retry, now) && forall id :: id in s.retry ==> s.retry[id] <= now
    ensures var r := After(steps).redis;
            forall id :: Open(r, id) ==> id in JobQueue.Promote(JobQueue.Recover(r, stale), due).queue
  {
    NoJobIsLost(steps);
    var r := After(steps).redis;
    var s := JobQueue.Recover(r, stale);
    hide RemoveFirst, AfterFrom, RunnableFrom;
    RecoverKeeps(r, stale);
    PromoteKeeps(s, due);
    forall id | Open(r, id)
      ensures id in JobQueue.Promote(s, due).queue
    {
      assert Located(r, id);
      if id in r.inflight && id in r.marks {
        assert id in stale;
        RecoverQueues(r, stale, id);
      }
      if id in s.retry {
        assert id in due;
        PromoteQueues(s, due, id);
      }
    }
  }
}
