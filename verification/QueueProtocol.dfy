/**
 The job queue as a protocol: one worker, stale recovery in the background and
 concurrent replays over the store's operations, with a crash possible between any
 two steps (backend/jobs/worker.go: Run, process, handleFailedJob).
 */
module QueueProtocol {
  import opened JobQueue

  // ---- Deciding what a failure means ------------------------------------------------------

  /** MaxAttempts with its default applied. */
  function Limit(job: Job): int {
    if job.maxAttempts <= 0 then DEFAULT_MAX_ATTEMPTS else job.maxAttempts
  }

  /** The limit that applies while the queue is overloaded. */
  function EffectiveLimit(job: Job, overloaded: bool): int {
    if overloaded && Limit(job) > 1 then Limit(job) - 1 else Limit(job)
  }

  predicate Retries(job: Job, retryable: bool, overloaded: bool) {
    retryable && job.attempt + 1 < EffectiveLimit(job, overloaded)
  }

  /** The job after one more failed attempt. */
  function AfterFailure(job: Job, status: Status): Job {
    Job(status, job.attempt + 1, Limit(job))
  }

  function Power2(n: nat): nat {
    if n == 0 then 1 else 2 * Power2(n - 1)
  }

  /** The base delay in milliseconds: doubling from two seconds, capped at a minute. */
  function BaseDelay(attempt: int): int {
    if attempt <= 1 then 2000 else if attempt <= 5 then 1000 * Power2(attempt) else 60000
  }

  /** retryDelayForAttempt; `jitter` is the random part, below a quarter of the base. */
  method RetryDelay(attempt: int, jitter: int) returns (delay: int)
    requires 0 <= jitter && 4 * jitter <= BaseDelay(attempt)
    ensures delay == BaseDelay(attempt) + jitter
    ensures 2000 <= delay <= 75000
  {
    if attempt <= 1 {
      return 2000 + jitter;
    }
    delay := 2000;
    var i := 1;
    while i < attempt && delay < 60000
      invariant 1 <= i <= attempt && i <= 6
      invariant delay == 1000 * Power2(i)
      invariant i == 6 <==> delay >= 60000
    {
      assert Power2(i + 1) == 2 * Power2(i);
      delay := delay * 2;
      i := i + 1;
      assert Power2(1) == 2 && Power2(2) == 4 && Power2(3) == 8 && Power2(4) == 16 && Power2(5) == 32
             && Power2(6) == 64;
    }
    if delay > 60000 {
      delay := 60000;
    }
    delay := delay + jitter;
  }

  // ---- Worlds and steps --------------------------------------------------------------------

  /**
   Where the worker is: idle, processing, about to handle a failure, after writing
   a retry or a terminal failure, before the two halves of Ack.
   */
  datatype Pc = Idle | Working | Failing | RetryWritten | DeadWritten | Settled | HalfAcked

  datatype Worker = Worker(pc: Pc, id: Id, job: Job)

  /** A replay request that has read its job but not yet run its script. */
  datatype Replay = Replay(id: Id, payload: Job)

  /** `runs` counts the executions started since the last enqueue or replay of a job. */
  datatype World = World(redis: Redis, worker: Worker, replays: seq<Replay>, runs: map<Id, nat>)

  /**
   A crash ends the worker, or only its current job when a queue command fails; replay requests of the same process may
   be lost with it or go on.
   */
  datatype Step =
    | Enqueue(id: Id, maxAttempts: int)
    | Recover(ids: seq<Id>, limit: int)
    | Promote(ids: seq<Id>, limit: int)
    | Pop(now: int)
    | Progress(status: Status)
    | Finish(status: Status)
    | WriteRetry(overloaded: bool)
    | WriteTerminal(retryable: bool, overloaded: bool)
    | Requeue(delay: int, now: int)
    | RequeueFails
    | DeadLetter(reason: string)
    | DeadLetterFails
    | AckList
    | AckSet
    | ReplayRead(id: Id)
    | ReplayEval(index: nat)
    | ReplayEnd(index: nat)
    | Crash(kept: seq<Replay>)

  const NO_WORKER := Worker(Idle, 0, Job(Pending, 0, 0))

  ghost predicate Enabled(w: World, step: Step) {
    match step
    case Enqueue(id, maxAttempts) => id !in w.redis.jobs
    case Recover(ids, limit) => Enumerates(ids, w.redis.marks, limit)
    case Promote(ids, limit) => Enumerates(ids, w.redis.retry, limit)
    case Pop(now) => w.worker.pc == Idle && w.redis.queue != []
    case Progress(status) => w.worker.pc == Working && (status == w.worker.job.status || status == Processing)
    case Finish(status) => w.worker.pc == Working && (status == Completed || status == Failed)
    case WriteRetry(overloaded) => w.worker.pc == Failing && Retries(w.worker.job, true, overloaded)
    case WriteTerminal(retryable, overloaded) => w.worker.pc == Failing && !Retries(w.worker.job, retryable, overloaded)
    case Requeue(delay, now) => w.worker.pc == RetryWritten
    case RequeueFails => w.worker.pc == RetryWritten
    case DeadLetter(reason) => w.worker.pc == DeadWritten
    case DeadLetterFails => w.worker.pc == DeadWritten
    case AckList => w.worker.pc == Settled
    case AckSet => w.worker.pc == HalfAcked
    case ReplayRead(id) => id in w.redis.jobs
    case ReplayEval(index) => index < |w.replays|
    case ReplayEnd(index) => index < |w.replays|
    case Crash(kept) => forall k :: 0 <= k < |kept| ==> kept[k] in w.replays
  }

  function WithoutReplay(replays: seq<Replay>, index: nat): seq<Replay>
    requires index < |replays|
  {
    replays[..index] + replays[index + 1..]
  }

  /** The worker writes its job and moves on. */
  function Write(w: World, pc: Pc, job: Job): World {
    w.(redis := SetJob(w.redis, w.worker.id, job), worker := Worker(pc, w.worker.id, job))
  }

  function Move(w: World, redis: Redis, pc: Pc): World {
    w.(redis := redis, worker := w.worker.(pc := pc))
  }

  ghost function Next(w: World, step: Step): World
    requires Enabled(w, step)
  {
    var r, id := w.redis, w.worker.id;
    match step
    case Enqueue(new_, maxAttempts) =>
      w.(redis := PushJob(r, new_, Job(Pending, 0, maxAttempts)), runs := w.runs[new_ := 0])
    case Recover(ids, _) => w.(redis := JobQueue.Recover(r, ids))
    case Promote(ids, _) => w.(redis := JobQueue.Promote(r, ids))
    case Pop(now) =>
      var popped := r.queue[|r.queue| - 1];
      var held := PopMark(r, now);
      if popped in r.jobs
      then w.(redis := held, worker := Worker(Working, popped, r.jobs[popped]),
              runs := w.runs[popped := if popped in w.runs then w.runs[popped] + 1 else 1])
      else w.(redis := held, worker := Worker(Settled, popped, NO_WORKER.job))
    case Progress(status) => Write(w, Working, w.worker.job.(status := status))
    case Finish(status) => Write(w, if status == Failed then Failing else Settled, w.worker.job.(status := status))
    case WriteRetry(_) => Write(w, RetryWritten, AfterFailure(w.worker.job, Pending))
    case WriteTerminal(_, _) => Write(w, DeadWritten, AfterFailure(w.worker.job, Failed))
    case Requeue(delay, now) => Move(w, Requeued(r, id, delay, now), Settled)
    case RequeueFails => Write(w, Settled, w.worker.job.(status := Failed))
    case DeadLetter(reason) => Move(w, DeadLettered(r, id, reason), Settled)
    case DeadLetterFails => Move(w, r, Settled)
    case AckList => Move(w, AckInflight(r, id), HalfAcked)
    case AckSet => w.(redis := AckMark(r, id), worker := NO_WORKER)
    case ReplayRead(target) => w.(replays := w.replays + [Replay(target, ReplayJob(r.jobs[target]))])
    case ReplayEval(k) =>
      var p := w.replays[k];
      w.(redis := Replayed(r, p.id, p.payload), replays := WithoutReplay(w.replays, k),
         runs := if p.id in r.dead then w.runs[p.id := 0] else w.runs)
    case ReplayEnd(k) => w.(replays := WithoutReplay(w.replays, k))
    case Crash(kept) => w.(worker := NO_WORKER, replays := kept)
  }

  ghost const START := World(Redis([], [], map[], map[], [], map[], map[]), NO_WORKER, [], map[])

  /** From `w`, each step is enabled when it is taken. */
  ghost predicate RunnableFrom(w: World, steps: seq<Step>)
    decreases |steps|, 0
  {
    || steps == []
    || (RunnableFrom(w, steps[..|steps| - 1]) && Enabled(AfterFrom(w, steps[..|steps| - 1]), steps[|steps| - 1]))
  }

  /** The world that the steps lead to from `w`. */
  ghost function AfterFrom(w: World, steps: seq<Step>): World
    requires RunnableFrom(w, steps)
    decreases |steps|, 1
  {
    if steps == [] then w else Next(AfterFrom(w, steps[..|steps| - 1]), steps[|steps| - 1])
  }

  ghost predicate Runnable(steps: seq<Step>) {
    RunnableFrom(START, steps)
  }

  ghost function After(steps: seq<Step>): World
    requires Runnable(steps)
  {
    AfterFrom(START, steps)
  }

  lemma {:induction false} Extend(w: World, steps: seq<Step>, step: Step)
    requires RunnableFrom(w, steps) && Enabled(AfterFrom(w, steps), step)
    ensures RunnableFrom(w, steps + [step]) && AfterFrom(w, steps + [step]) == Next(AfterFrom(w, steps), step)
  {
    assert (steps + [step])[..|steps|] == steps;
  }

  // ---- The worker's code as runs of the protocol ------------------------------------------------

  /** How a failure is classified, and which queue commands fail while it is handled. */
  datatype Handling = Handling(retryable: bool, overloaded: bool, requeueFails: bool, deadLetterFails: bool,
                               reason: string)

  /** What handling a failure does: two steps, chosen by the kind of failure. */
  ghost function HandlingSteps(job: Job, h: Handling, delay: int, now: int): seq<Step> {
    if Retries(job, h.retryable, h.overloaded)
    then [WriteRetry(h.overloaded), if h.requeueFails then RequeueFails else Step.Requeue(delay, now)]
    else [WriteTerminal(h.retryable, h.overloaded),
          if h.deadLetterFails then DeadLetterFails else Step.DeadLetter(h.reason)]
  }

  /** The job that handleFailedJob leaves, and the store. */
  function HandledJob(job: Job, h: Handling): Job {
    AfterFailure(job, if Retries(job, h.retryable, h.overloaded) && !h.requeueFails then Pending else Failed)
  }

  function HandledStore(r: Redis, id: Id, job: Job, h: Handling, delay: int, now: int): Redis {
    var failed, pending := SetJob(r, id, AfterFailure(job, Failed)), SetJob(r, id, AfterFailure(job, Pending));
    if !Retries(job, h.retryable, h.overloaded) then
      if h.deadLetterFails then failed else DeadLettered(failed, id, h.reason)
    else if h.requeueFails then SetJob(pending, id, AfterFailure(job, Failed))
    else Requeued(pending, id, delay, now)
  }

  /** handleFailedJob */
  method HandleFailedJob(store: Store, id: Id, job: Job, h: Handling, jitter: int, now: int)
      returns (after: Job, ghost delay: int)
    requires 0 <= jitter && 4 * jitter <= BaseDelay(job.attempt + 1)
    modifies store
    ensures delay == BaseDelay(job.attempt + 1) + jitter + (if h.overloaded then 3000 else 0) > 0
    ensures after == HandledJob(job, h)
    ensures after.attempt == job.attempt + 1
    ensures after.status == Pending <==>
              && h.retryable && !h.requeueFails
              && job.attempt + 1 < Limit(job) - (if h.overloaded && Limit(job) > 1 then 1 else 0)
    ensures after.status != Pending ==> after.status == Failed
    ensures store.State() == HandledStore(old(store.State()), id, job, h, delay, now)
  {
    hide BaseDelay, SetJob, Requeued, DeadLettered;
    var limit := if job.maxAttempts <= 0 then DEFAULT_MAX_ATTEMPTS else job.maxAttempts;
    var effective := limit;
    if h.overloaded && effective > 1 {
      effective := effective - 1;
    }
    var attempt := job.attempt + 1;
    var wait := RetryDelay(attempt, jitter);
    if h.overloaded {
      wait := wait + 3000;
    }
    delay := wait;
    if h.retryable && attempt < effective {
      after := Job(Pending, attempt, limit);
      store.Update(id, after);
      if h.requeueFails {
        after := after.(status := Failed);
        store.Update(id, after);
        return;
      }
      store.Requeue(id, wait, now);
      return;
    }
    after := Job(Failed, attempt, limit);
    store.Update(id, after);
    if !h.deadLetterFails {
      store.DeadLetter(id, h.reason);
    }
  }

  /** Where the job goes: to its retry when it is pending, else, unless a command fails, to the dead letters. */
  lemma {:induction false} HandledGoes(r: Redis, id: Id, job: Job, h: Handling, delay: int, now: int)
    requires delay > 0
    ensures var s, after := HandledStore(r, id, job, h, delay, now), HandledJob(job, h);
            && id in s.jobs && s.jobs[id] == after && s.queue == r.queue && s.inflight == r.inflight
            && (after.status == Pending ==> s.retry == r.retry[id := Unix(now + delay)] && s.dead == r.dead)
            && (after.status == Failed && !h.requeueFails && !h.deadLetterFails ==>
                  s.dead == [id] + r.dead && id in s.deadMeta && s.deadMeta[id] == h.reason && id !in s.retry)
  {
  }

  /** Handling a failure is two steps of the protocol. */
  lemma {:induction false} HandlingIsARun(w: World, h: Handling, delay: int, now: int)
    requires w.worker.pc == Failing
    ensures var job := w.worker.job;
            var steps := HandlingSteps(job, h, delay, now);
            && RunnableFrom(w, steps)
            && AfterFrom(w, steps).redis == HandledStore(w.redis, w.worker.id, job, h, delay, now)
            && AfterFrom(w, steps).worker == Worker(Settled, w.worker.id, HandledJob(job, h))
  {
    HandlingEnabled(w, h, delay, now);
    TwoSteps(w, HandlingSteps(w.worker.job, h, delay, now));
    hide RunnableFrom, AfterFrom, Enabled, RemoveFirst, RemoveAll;
  }

  lemma {:induction false} HandlingEnabled(w: World, h: Handling, delay: int, now: int)
    requires w.worker.pc == Failing
    ensures var steps := HandlingSteps(w.worker.job, h, delay, now);
            |steps| == 2 && Enabled(w, steps[0]) && Enabled(Next(w, steps[0]), steps[1])
  {
  }

  lemma {:induction false} TwoSteps(w: World, steps: seq<Step>)
    requires |steps| == 2 && Enabled(w, steps[0]) && Enabled(Next(w, steps[0]), steps[1])
    ensures RunnableFrom(w, steps) && AfterFrom(w, steps) == Next(Next(w, steps[0]), steps[1])
  {
    Extend(w, [], steps[0]);
    Extend(w, [steps[0]], steps[1]);
    assert steps == [steps[0]] + [steps[1]] && [] + [steps[0]] == [steps[0]];
  }

  /** process: any number of progress writes, then a final status. */
  method Process(store: Store, id: Id, job: Job, ghost w: World, ghost before: seq<Step>)
    returns (after: Job, ghost steps: seq<Step>)
    requires RunnableFrom(w, before) && AfterFrom(w, before).redis == store.State()
             && AfterFrom(w, before).worker == Worker(Working, id, job)
    modifies store
    ensures RunnableFrom(w, steps) && AfterFrom(w, steps).redis == store.State()
    ensures after.status == Completed || after.status == Failed
    ensures AfterFrom(w, steps).worker == Worker(if after.status == Failed then Failing else Settled, id, after)
  {
    after, steps := job, before;
    var writes: nat := *;
    hide RunnableFrom, AfterFrom;
    while writes > 0
      invariant RunnableFrom(w, steps) && AfterFrom(w, steps).redis == store.State()
                && AfterFrom(w, steps).worker == Worker(Working, id, after)
      decreases writes
    {
      var translating: bool := *;
      var status := if translating then Processing else after.status;
      Extend(w, steps, Progress(status));
      steps := steps + [Progress(status)];
      after := after.(status := status);
      store.Update(id, after);
      writes := writes - 1;
    }
    var completed: bool := *;
    var status := if completed then Completed else Failed;
    Extend(w, steps, Finish(status));
    steps := steps + [Finish(status)];
    after := after.(status := status);
    store.Update(id, after);
  }

  /** The part of the loop after process: failures are handled, whatever kind they are. */
  method SettleJob(store: Store, id: Id, job: Job, now: int, ghost w: World, ghost before: seq<Step>)
      returns (ghost steps: seq<Step>)
    requires RunnableFrom(w, before) && AfterFrom(w, before).redis == store.State()
    requires AfterFrom(w, before).worker == Worker(if job.status == Failed then Failing else Settled, id, job)
    modifies store
    ensures RunnableFrom(w, steps) && AfterFrom(w, steps).redis == store.State()
    ensures AfterFrom(w, steps).worker.pc == Settled && AfterFrom(w, steps).worker.id == id
  {
    hide RunnableFrom, AfterFrom, HandledStore, HandledJob, HandlingSteps, BaseDelay;
    steps := before;
    if job.status == Failed {
      var h: Handling := *;
      var jitter: int := *;
      BaseDelayPositive(job.attempt + 1);
      if jitter < 0 || 4 * jitter > BaseDelay(job.attempt + 1) {
        jitter := 0;
      }
      ghost var failing, delay := AfterFrom(w, before), 0;
      var after;
      after, delay := HandleFailedJob(store, id, job, h, jitter, now);
      HandlingIsARun(failing, h, delay, now);
      steps := Compose(w, before, HandlingSteps(job, h, delay, now));
    }
  }

  lemma {:induction false} BaseDelayPositive(attempt: int)
    ensures BaseDelay(attempt) >= 2000
  {
    if 1 < attempt <= 5 {
      assert Power2(1) == 2;
      assert attempt == 2 || attempt == 3 || attempt == 4 || attempt == 5;
      assert Power2(2) == 4 && Power2(3) == 8 && Power2(4) == 16 && Power2(5) == 32;
    }
  }

  /** One pass of the worker loop, undisturbed, is a run of the protocol back to an idle worker. */
  method RunOnce(store: Store, now: int, ghost w: World) returns (ghost steps: seq<Step>)
    requires w.redis == store.State() && w.worker.pc == Idle
    modifies store
    ensures RunnableFrom(w, steps) && store.State() == AfterFrom(w, steps).redis
            && AfterFrom(w, steps).worker.pc == Idle
  {
    var popped, stale, due := store.Dequeue(now);
    steps := DequeueSteps(w, stale, due, now);
    hide RunnableFrom, AfterFrom, JobQueue.Recover, JobQueue.Promote, Enumerates;
    if popped.None? {
      return;
    }
    var (id, job) := popped.value;
    var after;
    after, steps := Process(store, id, job, w, steps);
    steps := SettleJob(store, id, after, now, w, steps);
    Extend(w, steps, AckList);
    Extend(w, steps + [AckList], AckSet);
    steps := steps + [AckList] + [AckSet];
    store.Ack(id);
  }

  lemma {:induction false} Compose(w: World, first: seq<Step>, second: seq<Step>) returns (steps: seq<Step>)
    requires RunnableFrom(w, first) && RunnableFrom(AfterFrom(w, first), second)
    ensures steps == first + second && RunnableFrom(w, steps)
            && AfterFrom(w, steps) == AfterFrom(AfterFrom(w, first), second)
  {
    steps := first + second;
    if second == [] {
      assert steps == first;
    } else {
      var front := Compose(w, first, second[..|second| - 1]);
      Extend(w, front, second[|second| - 1]);
      assert steps == front + [second[|second| - 1]];
    }
  }

  /** The pop of one Dequeue, after recovery and promotion. */
  lemma {:induction false} PopSteps(w: World, before: seq<Step>, now: int) returns (steps: seq<Step>)
    requires RunnableFrom(w, before) && AfterFrom(w, before).worker.pc == Idle
    ensures RunnableFrom(w, steps)
    ensures var r := AfterFrom(w, before).redis; var v := AfterFrom(w, steps);
            if r.queue == [] then v.redis == r && v.worker.pc == Idle
            else
              var id := r.queue[|r.queue| - 1];
              if id in r.jobs then v.redis == PopMark(r, now) && v.worker == Worker(Working, id, r.jobs[id])
              else v.redis == AckMark(AckInflight(PopMark(r, now), id), id) && v.worker.pc == Idle
  {
    hide RunnableFrom, AfterFrom, JobQueue.Recover, JobQueue.Promote, Enumerates, RemoveFirst;
    steps := before;
    var r := AfterFrom(w, before).redis;
    if r.queue != [] {
      Extend(w, steps, Pop(now));
      steps := steps + [Pop(now)];
      if r.queue[|r.queue| - 1] !in r.jobs {
        Extend(w, steps, AckList);
        Extend(w, steps + [AckList], AckSet);
        steps := steps + [AckList] + [AckSet];
      }
    }
  }

  /** The steps of one Dequeue. */
  lemma {:induction false} DequeueSteps(w: World, stale: seq<Id>, due: seq<Id>, now: int) returns (steps: seq<Step>)
    requires w.worker.pc == Idle
    requires Enumerates(stale, w.redis.marks, StaleLimit(now, DEFAULT_RECOVER_MS))
             && Enumerates(due, w.redis.retry, Unix(now))
    ensures RunnableFrom(w, steps)
    ensures var r := JobQueue.Promote(JobQueue.Recover(w.redis, stale), due); var v := AfterFrom(w, steps);
            if r.queue == [] then v.redis == r && v.worker.pc == Idle
            else
              var id := r.queue[|r.queue| - 1];
              if id in r.jobs then v.redis == PopMark(r, now) && v.worker == Worker(Working, id, r.jobs[id])
              else v.redis == AckMark(AckInflight(PopMark(r, now), id), id) && v.worker.pc == Idle
  {
    hide RunnableFrom, AfterFrom, JobQueue.Recover, JobQueue.Promote, Enumerates, PopMark, AckMark, AckInflight;
    steps := SweepSteps(w, stale, StaleLimit(now, DEFAULT_RECOVER_MS), due, Unix(now));
    steps := PopSteps(w, steps, now);
  }

  /** The two scripts at the head of Dequeue. */
  lemma {:induction false} SweepSteps(w: World, stale: seq<Id>, limit: int, due: seq<Id>, now: int)
    returns (steps: seq<Step>)
    requires Enumerates(stale, w.redis.marks, limit) && Enumerates(due, w.redis.retry, now)
    ensures RunnableFrom(w, steps)
    ensures AfterFrom(w, steps) == w.(redis := JobQueue.Promote(JobQueue.Recover(w.redis, stale), due))
  {
    RecoverFrame(w.redis, stale);
    steps := [Step.Recover(stale, limit), Step.Promote(due, now)];
    TwoSteps(w, steps);
    hide RunnableFrom, AfterFrom, JobQueue.Recover, JobQueue.Promote, Enumerates;
  }
}
