/**
 First in, first out: in every run, crashes and recovery included, jobs are taken in the order in which they arrived
 at the queue, whatever brought them there.
 */
module QueueOrder {
  import opened JobQueue
  import opened QueueProtocol
  import opened QueueSafety

  /** The waiting line, the next to be taken first; the queue pushes at its head and pops at its end. */
  function Line(queue: seq<Id>): (line: seq<Id>)
    ensures |line| == |queue|
  {
    seq(|queue|, i requires 0 <= i < |queue| => queue[|queue| - 1 - i])
  }

  /** Those of the ids that are inflight, in order. */
  function Rescued(inflight: seq<Id>, ids: seq<Id>): seq<Id> {
    if ids == [] then []
    else Rescued(inflight, ids[..|ids| - 1]) + if ids[|ids| - 1] in inflight then [ids[|ids| - 1]] else []
  }

  /** Who joins the line in a step, in order. */
  ghost function Arrivals(w: World, step: Step): seq<Id>
    requires Enabled(w, step)
  {
    match step
    case Enqueue(id, _) => [id]
    case Promote(ids, _) => ids
    case Recover(ids, _) => Rescued(w.redis.inflight, ids)
    case Requeue(delay, _) => if delay <= 0 then [w.worker.id] else []
    case ReplayEval(k) => if w.replays[k].id in w.redis.dead then [w.replays[k].id] else []
    case _ => []
  }

  /** Who leaves it. */
  function Takes(w: World, step: Step): seq<Id> {
    if step.Pop? && w.redis.queue != [] then [Line(w.redis.queue)[0]] else []
  }

  // ---- One step ------------------------------------------------------------------------------

  lemma {:induction false} LineCons(id: Id, queue: seq<Id>)
    ensures Line([id] + queue) == Line(queue) + [id]
  {
    var line := Line([id] + queue);
    assert forall i :: 0 <= i < |queue| ==> line[i] == ([id] + queue)[|queue| - i] == queue[|queue| - 1 - i];
  }

  lemma {:induction false} LinePop(queue: seq<Id>)
    requires queue != []
    ensures Line(queue) == [queue[|queue| - 1]] + Line(queue[..|queue| - 1])
  {
  }

  lemma {:induction false} PromoteLine(r: Redis, ids: seq<Id>)
    ensures Line(JobQueue.Promote(r, ids).queue) == Line(r.queue) + ids
  {
    if ids == [] {
      assert Line(r.queue) + [] == Line(r.queue);
    } else {
      var n := |ids| - 1;
      PromoteLine(r, ids[..n]);
      LineCons(ids[n], JobQueue.Promote(r, ids[..n]).queue);
      assert ids == ids[..n] + [ids[n]];
      hide Line;
      assert Line(r.queue) + ids[..n] + [ids[n]] == Line(r.queue) + ids;
    }
  }

  lemma {:induction false} RecoverInflight(r: Redis, ids: seq<Id>, id: Id)
    requires id !in ids
    ensures id in JobQueue.Recover(r, ids).inflight <==> id in r.inflight
  {
    if ids != [] {
      var n := |ids| - 1;
      RecoverInflight(r, ids[..n], id);
      RemoveFirstMembers(JobQueue.Recover(r, ids[..n]).inflight, ids[n]);
      hide RemoveFirst;
    }
  }

  lemma {:induction false} RecoverLine(r: Redis, ids: seq<Id>)
    requires forall i, j :: 0 <= i < j < |ids| ==> ids[i] != ids[j]
    ensures Line(JobQueue.Recover(r, ids).queue) == Line(r.queue) + Rescued(r.inflight, ids)
  {
    if ids == [] {
      assert Line(r.queue) + [] == Line(r.queue);
    } else {
      var n := |ids| - 1;
      var s := JobQueue.Recover(r, ids[..n]);
      RecoverLine(r, ids[..n]);
      RecoverInflight(r, ids[..n], ids[n]);
      LineCons(ids[n], s.queue);
      hide Line, RemoveFirst;
      var before := Rescued(r.inflight, ids[..n]);
      assert Line(r.queue) + before + [ids[n]] == Line(r.queue) + (before + [ids[n]]);
      assert before + [] == before;
    }
  }

  lemma {:induction false} EnumeratesDistinct(ids: seq<Id>, z: ZSet, limit: int)
    requires Enumerates(ids, z, limit)
    ensures forall i, j :: 0 <= i < j < |ids| ==> ids[i] != ids[j]
  {
    forall i, j | 0 <= i < j < |ids|
      ensures ids[i] != ids[j]
    {
      assert Before(z, ids[i], ids[j]);
    }
  }

  /** A step that takes nobody leaves the line as it is, with its arrivals at the end. */
  lemma {:induction false} LineGrows(w: World, step: Step)
    requires Enabled(w, step) && !step.Pop?
    ensures Line(Next(w, step).redis.queue) == Line(w.redis.queue) + Arrivals(w, step)
  {
    if step.Promote? {
      PromoteLine(w.redis, step.ids);
    } else if step.Recover? {
      EnumeratesDistinct(step.ids, w.redis.marks, step.limit);
      RecoverLine(w.redis, step.ids);
    } else if step.Enqueue? {
      LineCons(step.id, w.redis.queue);
    } else if step.Requeue? {
      LineCons(w.worker.id, w.redis.queue);
    } else if step.ReplayEval? {
      LineCons(w.replays[step.index].id, w.redis.queue);
    }
    hide Line, Rescued, JobQueue.Promote, JobQueue.Recover, RemoveFirst, RemoveAll, Enumerates;
    assert Line(w.redis.queue) + [] == Line(w.redis.queue);
  }

  /** A pop takes the front of the line, to be executed or, without a payload, to be acknowledged. */
  lemma {:induction false} PopTakesFront(w: World, now: int)
    requires Enabled(w, Pop(now))
    ensures var v := Next(w, Pop(now));
            && Takes(w, Pop(now)) == [v.worker.id] && v.worker.pc != Idle
            && Line(w.redis.queue) == [v.worker.id] + Line(v.redis.queue)
  {
    LinePop(w.redis.queue);
    hide Line;
  }

  // ---- Runs ----------------------------------------------------------------------------------

  ghost function Arrived(w: World, steps: seq<Step>): seq<Id>
    requires RunnableFrom(w, steps)
  {
    if steps == [] then []
    else
      var before := AfterFrom(w, steps[..|steps| - 1]);
      Arrived(w, steps[..|steps| - 1]) + Arrivals(before, steps[|steps| - 1])
  }

  ghost function Taken(w: World, steps: seq<Step>): seq<Id>
    requires RunnableFrom(w, steps)
  {
    if steps == [] then []
    else Taken(w, steps[..|steps| - 1]) + Takes(AfterFrom(w, steps[..|steps| - 1]), steps[|steps| - 1])
  }

  lemma {:induction false} StepKeepsLine(w: World, step: Step)
    requires Enabled(w, step)
    ensures Line(w.redis.queue) + Arrivals(w, step) == Takes(w, step) + Line(Next(w, step).redis.queue)
  {
    if step.Pop? {
      PopTakesFront(w, step.now);
      hide Line;
      assert Line(w.redis.queue) + [] == Line(w.redis.queue);
    } else {
      LineGrows(w, step);
      hide Line;
      var line := Line(Next(w, step).redis.queue);
      assert [] + line == line;
    }
  }

  lemma {:induction false} Joined(a: seq<Id>, b: seq<Id>, c: seq<Id>, d: seq<Id>, e: seq<Id>, f: seq<Id>, g: seq<Id>)
    requires a + b == c + d && d + e == f + g
    ensures a + (b + e) == c + f + g
  {
    assert a + (b + e) == a + b + e;
    assert c + d + e == c + (d + e);
    assert c + (f + g) == c + f + g;
  }

  /** Who stood in line and who arrived, in order, are those who were taken, in order, and those who stand in line. */
  lemma {:induction false} FirstInFirstOut(w: World, steps: seq<Step>)
    requires RunnableFrom(w, steps)
    ensures Line(w.redis.queue) + Arrived(w, steps) == Taken(w, steps) + Line(AfterFrom(w, steps).redis.queue)
  {
    hide Next, Enabled, Arrivals, Takes, Line;
    if steps == [] {
      assert Line(w.redis.queue) + [] == [] + Line(w.redis.queue);
    } else {
      var front, last := steps[..|steps| - 1], steps[|steps| - 1];
      var v := AfterFrom(w, front);
      FirstInFirstOut(w, front);
      StepKeepsLine(v, last);
      Joined(Line(w.redis.queue), Arrived(w, front), Taken(w, front), Line(v.redis.queue), Arrivals(v, last),
             Takes(v, last), Line(Next(v, last).redis.queue));
    }
  }

  /** An id with `n` ahead of it is what the pop after `n` others takes, and until then has so many fewer ahead. */
  lemma {:induction false} TakenInTurn(w: World, steps: seq<Step>, n: nat)
    requires RunnableFrom(w, steps) && n < |w.redis.queue|
    ensures var id, taken := Line(w.redis.queue)[n], Taken(w, steps);
            if n < |taken| then taken[n] == id
            else
              var left := Line(AfterFrom(w, steps).redis.queue);
              n - |taken| < |left| && left[n - |taken|] == id
  {
    hide *;
    FirstInFirstOut(w, steps);
    PlaceOf(Line(w.redis.queue), Arrived(w, steps), Taken(w, steps), Line(AfterFrom(w, steps).redis.queue), n);
  }

  lemma {:induction false} PlaceOf(a: seq<Id>, b: seq<Id>, c: seq<Id>, d: seq<Id>, n: nat)
    requires a + b == c + d && n < |a|
    ensures if n < |c| then c[n] == a[n] else n - |c| < |d| && d[n - |c|] == a[n]
  {
    assert (a + b)[n] == a[n];
    assert |a| + |b| == |c| + |d|;
    assert (c + d)[n] == if n < |c| then c[n] else d[n - |c|];
  }

  /** The ids enqueued in the steps, in order. */
  function Enqueued(steps: seq<Step>): seq<Id> {
    if steps == [] then []
    else Enqueued(steps[..|steps| - 1]) + if steps[|steps| - 1].Enqueue? then [steps[|steps| - 1].id] else []
  }

  /** No step brings a job back to the queue. */
  ghost predicate OnlyNewcomers(steps: seq<Step>) {
    forall k :: 0 <= k < |steps| ==>
      !steps[k].Promote? && !steps[k].Recover? && !steps[k].Requeue? && !steps[k].ReplayEval?
  }

  lemma {:induction false} NewcomersArrive(w: World, steps: seq<Step>)
    requires RunnableFrom(w, steps) && OnlyNewcomers(steps)
    ensures Arrived(w, steps) == Enqueued(steps)
  {
    hide Next, Enabled;
    if steps != [] {
      NewcomersArrive(w, steps[..|steps| - 1]);
    }
  }

  /** Jobs that come one after the other to an empty queue are taken one after the other. */
  lemma {:induction false} EnqueuedInTurn(w: World, steps: seq<Step>)
    requires RunnableFrom(w, steps) && OnlyNewcomers(steps) && w.redis.queue == []
    ensures Taken(w, steps) <= Enqueued(steps)
    ensures Enqueued(steps) == Taken(w, steps) + Line(AfterFrom(w, steps).redis.queue)
  {
    FirstInFirstOut(w, steps);
    NewcomersArrive(w, steps);
    hide Taken, Enqueued, Arrived, AfterFrom, RunnableFrom;
    assert Line(w.redis.queue) == [];
    assert [] + Arrived(w, steps) == Arrived(w, steps);
  }
}
