/**
 The Redis structures of the job queue and the operations of the store on them
 (backend/jobs/store.go). Lists are sequences with the head (LPUSH side) first,
 sorted sets are maps from member to score, and payloads are the stored jobs.
 */
module JobQueue {
  import opened Options

  type Id = nat

  datatype Status = Pending | Processing | Completed | Failed

  datatype Job = Job(status: Status, attempt: int, maxAttempts: int)

  type ZSet = map<Id, int>

  datatype Redis = Redis(
    queue: seq<Id>,
    inflight: seq<Id>,
    marks: ZSet,
    retry: ZSet,
    dead: seq<Id>,
    deadMeta: map<Id, string>,
    jobs: map<Id, Job>)

  const DEFAULT_MAX_ATTEMPTS := 3

  /** Instants and delays are in milliseconds; scores are Unix seconds. */
  function Unix(instant: int): int {
    instant / 1000
  }

  const DEFAULT_RECOVER_MS := 600_000

  /** Marks up to this score are stale. */
  function StaleLimit(now: int, olderThan: int): int {
    Unix(now - if olderThan <= 0 then DEFAULT_RECOVER_MS else olderThan)
  }

  /** LREM key 1 id: the first occurrence from the head. */
  function RemoveFirst(s: seq<Id>, id: Id): seq<Id> {
    if s == [] then [] else if s[0] == id then s[1..] else [s[0]] + RemoveFirst(s[1..], id)
  }

  /** LREM key 0 id: every occurrence. */
  function RemoveAll(s: seq<Id>, id: Id): seq<Id> {
    if s == [] then [] else if s[0] == id then RemoveAll(s[1..], id) else [s[0]] + RemoveAll(s[1..], id)
  }

  lemma {:induction false} RemoveAllCounts(s: seq<Id>, id: Id)
    ensures multiset(RemoveAll(s, id)) == multiset(s)[id := 0]
  {
    if s != [] {
      assert s == [s[0]] + s[1..];
      RemoveAllCounts(s[1..], id);
    }
  }

  /** ZRANGEBYSCORE z -inf limit: the due members, each once, by ascending score and then member. */
  ghost predicate Enumerates(ids: seq<Id>, z: ZSet, limit: int) {
    && (forall id :: id in ids <==> id in z && z[id] <= limit)
    && (forall i, j :: 0 <= i < j < |ids| ==> Before(z, ids[i], ids[j]))
  }

  ghost predicate Before(z: ZSet, a: Id, b: Id) {
    a in z && b in z && (z[a] < z[b] || (z[a] == z[b] && a < b))
  }

  /** One turn of the recovery script. */
  function RecoverOne(r: Redis, id: Id): Redis {
    if id in r.inflight
    then r.(inflight := RemoveFirst(r.inflight, id), queue := [id] + r.queue, marks := r.marks - {id})
    else r.(marks := r.marks - {id})
  }

  function Recover(r: Redis, ids: seq<Id>): Redis {
    if ids == [] then r else RecoverOne(Recover(r, ids[..|ids| - 1]), ids[|ids| - 1])
  }

  /** One turn of the promotion script. */
  function PromoteOne(r: Redis, id: Id): Redis {
    r.(queue := [id] + r.queue, retry := r.retry - {id})
  }

  function Promote(r: Redis, ids: seq<Id>): Redis {
    if ids == [] then r else PromoteOne(Promote(r, ids[..|ids| - 1]), ids[|ids| - 1])
  }

  /** BRPOPLPUSH with the mark that follows it. */
  function PopMark(r: Redis, now: int): Redis
    requires r.queue != []
  {
    var id := r.queue[|r.queue| - 1];
    r.(queue := r.queue[..|r.queue| - 1], inflight := [id] + r.inflight, marks := r.marks[id := Unix(now)])
  }

  function PushJob(r: Redis, id: Id, job: Job): Redis {
    r.(jobs := r.jobs[id := job], queue := [id] + r.queue)
  }

  function SetJob(r: Redis, id: Id, job: Job): Redis {
    r.(jobs := r.jobs[id := job])
  }

  function AckInflight(r: Redis, id: Id): Redis {
    r.(inflight := RemoveFirst(r.inflight, id))
  }

  function AckMark(r: Redis, id: Id): Redis {
    r.(marks := r.marks - {id})
  }

  function Requeued(r: Redis, id: Id, delay: int, now: int): Redis {
    if delay <= 0 then r.(queue := [id] + r.queue) else r.(retry := r.retry[id := Unix(now + delay)])
  }

  function DeadLettered(r: Redis, id: Id, reason: string): Redis {
    r.(dead := [id] + r.dead, deadMeta := r.deadMeta[id := reason], retry := r.retry - {id})
  }

  /** The payload a replay writes, from the payload it read. */
  function ReplayJob(read: Job): Job {
    Job(Pending, 0, if read.maxAttempts <= 0 then DEFAULT_MAX_ATTEMPTS else read.maxAttempts)
  }

  /** The replay script. */
  function Replayed(r: Redis, id: Id, payload: Job): Redis {
    if id !in r.dead then r
    else
      r.(dead := RemoveAll(r.dead, id), deadMeta := r.deadMeta - {id}, retry := r.retry - {id},
         jobs := r.jobs[id := payload], queue := [id] + r.queue)
  }

  // ---- The store ----------------------------------------------------------------------

  class Store {
    var queue: seq<Id>
    var inflight: seq<Id>
    var marks: ZSet
    var retry: ZSet
    var dead: seq<Id>
    var deadMeta: map<Id, string>
    var jobs: map<Id, Job>

    ghost function State(): Redis
      reads this
    {
      Redis(queue, inflight, marks, retry, dead, deadMeta, jobs)
    }

    constructor ()
      ensures State() == Redis([], [], map[], map[], [], map[], map[])
    {
      queue, inflight, marks, retry, dead, deadMeta, jobs := [], [], map[], map[], [], map[], map[];
    }

    method Enqueue(id: Id, job: Job)
      modifies this
      ensures State() == PushJob(old(State()), id, job)
    {
      jobs := jobs[id := job];
      queue := [id] + queue;
    }

    method Update(id: Id, job: Job)
      modifies this
      ensures State() == SetJob(old(State()), id, job)
    {
      jobs := jobs[id := job];
    }

    method RecoverStale(now: int, olderThan: int) returns (moved: nat, ghost ids: seq<Id>)
      modifies this
      ensures Enumerates(ids, old(marks), StaleLimit(now, olderThan))
      ensures State() == Recover(old(State()), ids)
      ensures |queue| == |old(queue)| + moved
    {
      var stale := RangeByScore(marks, StaleLimit(now, olderThan));
      ids := stale;
      moved := 0;
      for i := 0 to |stale|
        invariant State() == Recover(old(State()), stale[..i])
        invariant |queue| == |old(queue)| + moved
      {
        var id := stale[i];
        assert stale[..i + 1][..i] == stale[..i];
        if id in inflight {
          inflight := RemoveFirst(inflight, id);
          queue := [id] + queue;
          moved := moved + 1;
        }
        marks := marks - {id};
      }
      assert stale[..|stale|] == stale;
    }

    method PromoteDueRetries(now: int) returns (moved: nat, ghost ids: seq<Id>)
      modifies this
      ensures Enumerates(ids, old(retry), Unix(now))
      ensures State() == Promote(old(State()), ids)
      ensures moved == |ids|
    {
      var due := RangeByScore(retry, Unix(now));
      ids := due;
      moved := 0;
      for i := 0 to |due|
        invariant State() == Promote(old(State()), due[..i])
        invariant moved == i
      {
        assert due[..i + 1][..i] == due[..i];
        queue := [due[i]] + queue;
        retry := retry - {due[i]};
        moved := moved + 1;
      }
      assert due[..|due|] == due;
    }

    method Ack(id: Id)
      modifies this
      ensures State() == AckMark(AckInflight(old(State()), id), id)
    {
      inflight := RemoveFirst(inflight, id);
      marks := marks - {id};
    }

    method Requeue(id: Id, delay: int, now: int)
      modifies this
      ensures State() == Requeued(old(State()), id, delay, now)
    {
      if delay <= 0 {
        queue := [id] + queue;
        return;
      }
      retry := retry[id := Unix(now + delay)];
    }

    method DeadLetter(id: Id, reason: string)
      modifies this
      ensures State() == DeadLettered(old(State()), id, reason)
    {
      dead := [id] + dead;
      deadMeta := deadMeta[id := reason];
      retry := retry - {id};
    }

    /** The script of ReplayDead; the payload comes from an earlier read. */
    method ReplayEval(id: Id, payload: Job) returns (removed: nat)
      modifies this
      ensures State() == Replayed(old(State()), id, payload)
      ensures removed == old(multiset(dead)[id])
    {
      RemoveAllCounts(dead, id);
      var remaining := RemoveAll(dead, id);
      RemoveAllLength(dead, id);
      removed := |dead| - |remaining|;
      if removed == 0 {
        return;
      }
      dead := remaining;
      deadMeta := deadMeta - {id};
      retry := retry - {id};
      jobs := jobs[id := payload];
      queue := [id] + queue;
    }

    /** Recovery, promotion, pop and mark, then the payload; a vanished payload is acknowledged. */
    method Dequeue(now: int) returns (popped: Option<(Id, Job)>, ghost stale: seq<Id>, ghost due: seq<Id>)
      modifies this
      ensures Enumerates(stale, old(marks), StaleLimit(now, DEFAULT_RECOVER_MS))
              && Enumerates(due, old(retry), Unix(now))
      ensures var before := Promote(Recover(old(State()), stale), due);
              if before.queue == [] then popped.None? && State() == before
              else
                var id := before.queue[|before.queue| - 1];
                var held := PopMark(before, now);
                if id in before.jobs then popped == Some((id, before.jobs[id])) && State() == held
                else popped.None? && State() == AckMark(AckInflight(held, id), id)
    {
      var moved;
      moved, stale := RecoverStale(now, DEFAULT_RECOVER_MS);
      RecoverFrame(old(State()), stale);
      moved, due := PromoteDueRetries(now);
      if |queue| == 0 {
        return None, stale, due;
      }
      var id := queue[|queue| - 1];
      queue, inflight := queue[..|queue| - 1], [id] + inflight;
      marks := marks[id := Unix(now)];
      if id !in jobs {
        Ack(id);
        return None, stale, due;
      }
      popped := Some((id, jobs[id]));
    }
  }

  lemma {:induction false} RecoverFrame(r: Redis, ids: seq<Id>)
    ensures var s := Recover(r, ids);
            s.retry == r.retry && s.dead == r.dead && s.deadMeta == r.deadMeta && s.jobs == r.jobs
  {
    if ids != [] {
      RecoverFrame(r, ids[..|ids| - 1]);
    }
  }

  lemma {:induction false} RemoveAllLength(s: seq<Id>, id: Id)
    ensures |RemoveAll(s, id)| == |s| - multiset(s)[id]
  {
    if s != [] {
      assert s == [s[0]] + s[1..];
      RemoveAllLength(s[1..], id);
    }
  }

  /** Selects the due members in score order. */
  method RangeByScore(z: ZSet, limit: int) returns (ids: seq<Id>)
    ensures Enumerates(ids, z, limit)
  {
    var left := map id | id in z && z[id] <= limit :: z[id];
    ids := [];
    while left != map[]
      invariant forall id :: id in left ==> id in z && left[id] == z[id] <= limit
      invariant forall id :: id in z && z[id] <= limit <==> id in left || id in ids
      invariant forall i, j :: 0 <= i < j < |ids| ==> Before(z, ids[i], ids[j])
      invariant forall i, id :: 0 <= i < |ids| && id in left ==> Before(z, ids[i], id)
      decreases |left|
    {
      var first := LeastMember(left);
      ids := ids + [first];
      left := left - {first};
    }
  }

  method LeastMember(z: ZSet) returns (least: Id)
    requires z != map[]
    ensures least in z && forall id :: id in z && id != least ==> Before(z, least, id)
  {
    least :| least in z;
    var rest := z.Keys - {least};
    while rest != {}
      invariant least in z && rest <= z.Keys && least !in rest
      invariant forall id :: id in z && id != least && id !in rest ==> Before(z, least, id)
      decreases |rest|
    {
      var id :| id in rest;
      if z[id] < z[least] || (z[id] == z[least] && id < least) {
        least := id;
      }
      rest := rest - {id};
    }
  }
}
