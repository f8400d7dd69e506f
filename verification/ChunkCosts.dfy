/**
 What a chunk costs exactly, and which branch answers it (backend/jobs/worker.go: translateChunk), by how the service
 treats combined payloads.
 */
module ChunkCosts {
  import opened Text
  import opened Chunking
  import opened ChunkTranslation

  /** So many more requests with retries, service calls and splits than before. */
  ghost predicate Costs(m: Meter, after: Meter, tries: nat, calls: nat, splits: nat) {
    after.tries == m.tries + tries && after.calls == m.calls + calls && after.splits == m.splits + splits
  }

  ghost predicate NothingDone(env: Env) {
    forall t: nat :: !env.jobDone(t) && !env.chunkDone(t)
  }

  /** A request that the service answers at once. */
  lemma {:induction false} AtOnce(env: Env, done: nat -> bool, m: Meter, text: string)
    requires !Stops(env, done, m.tick) && env.reply(m.tick + 1, text).Ok?
    ensures var r := WithRetry(env, done, m, text);
            r.reply == env.reply(m.tick + 1, text) && Costs(m, r.meter, 1, 1, 0)
  {
  }

  /** A request that fails for good. */
  lemma {:induction false} ForGood(env: Env, done: nat -> bool, m: Meter, text: string)
    requires !Stops(env, done, m.tick) && env.reply(m.tick + 1, text).Err? && !Transient(env.reply(m.tick + 1, text))
    ensures var r := WithRetry(env, done, m, text);
            r.reply == env.reply(m.tick + 1, text) && Costs(m, r.meter, 1, 1, 0)
  {
  }

  /** An answer in as many pieces as units is taken apart, trimmed, with one call in all. */
  lemma {:induction false} CombinedTaken(env: Env, m: Meter, units: seq<Unit>, answer: string)
    requires |units| > 1 && !Stops(env, env.chunkDone, m.tick)
    requires env.reply(m.tick + 1, Join(Texts(units), CHUNK_SEP)) == Ok(answer)
    requires |Split(answer, CHUNK_SEP)| == |units|
    ensures var r := ChunkResult(env, m, units);
            && r.outcome.Translated? && |r.outcome.units| == |units| && Costs(m, r.meter, 1, 1, 0)
            && forall i :: 0 <= i < |units| ==>
                 var piece := Split(answer, CHUNK_SEP)[i];
                 r.outcome.units[i] == Unit(units[i].pageIndex, TrimSpace(piece), |Fields(piece)|)
  {
    AtOnce(env, env.chunkDone, m, Join(Texts(units), CHUNK_SEP));
    hide WithRetry, Split, Join, TrimSpace, Fields;
  }

  lemma {:induction false} OneByOneCosts(env: Env, m: Meter, units: seq<Unit>)
    requires NothingDone(env) && forall t: nat, i :: 0 <= i < |units| ==> env.reply(t, units[i].text).Ok?
    ensures var r := OneByOne(env, m, units); r.outcome.Translated? && Costs(m, r.meter, |units|, |units|, 0)
  {
    hide WithRetry, Fields;
    if units != [] {
      var front, u := units[..|units| - 1], units[|units| - 1];
      OneByOneCosts(env, m, front);
      AtOnce(env, env.jobDone, OneByOne(env, m, front).meter, u.text);
    }
  }

  /** An answer in another number of pieces costs one more call a unit, and no split. */
  lemma {:induction false} AlteredCosts(env: Env, m: Meter, units: seq<Unit>, answer: string)
    requires |units| > 1 && NothingDone(env)
    requires env.reply(m.tick + 1, Join(Texts(units), CHUNK_SEP)) == Ok(answer)
    requires |Split(answer, CHUNK_SEP)| != |units|
    requires forall t: nat, i :: 0 <= i < |units| ==> env.reply(t, units[i].text).Ok?
    ensures var r := ChunkResult(env, m, units);
            r.outcome.Translated? && Costs(m, r.meter, 1 + |units|, 1 + |units|, 0)
  {
    AtOnce(env, env.chunkDone, m, Join(Texts(units), CHUNK_SEP));
    hide WithRetry, Split, Join, OneByOne, NothingDone;
    OneByOneCosts(env, First(env, m, units).meter, units);
  }

  /** Whatever is sent together fails for good. */
  ghost predicate OnlyAlone(env: Env) {
    forall t: nat, texts: seq<string> :: |texts| > 1 ==>
      env.reply(t, Join(texts, CHUNK_SEP)).Err? && !Transient(env.reply(t, Join(texts, CHUNK_SEP)))
  }

  /** With a service that fails on combined payloads, n units cost exactly 2n - 1 calls and n - 1 splits. */
  lemma {:induction false} SplittingCosts(env: Env, m: Meter, units: seq<Unit>)
    requires units != [] && NothingDone(env) && OnlyAlone(env)
    requires forall t: nat, i :: 0 <= i < |units| ==> env.reply(t, units[i].text).Ok?
    ensures var r := ChunkResult(env, m, units);
            r.outcome.Translated? && Costs(m, r.meter, 2 * |units| - 1, 2 * |units| - 1, |units| - 1)
    decreases |units|
  {
    hide WithRetry, Fields, Join, Combined, OneByOne;
    if |units| == 1 {
      AtOnce(env, env.chunkDone, m, units[0].text);
    } else {
      ForGood(env, env.chunkDone, m, Join(Texts(units), CHUNK_SEP));
      hide OnlyAlone, Single;
      var r := First(env, m, units);
      var mid := |units| / 2;
      SplittingCosts(env, Splitting(r.meter), units[..mid]);
      SplittingCosts(env, ChunkResult(env, Splitting(r.meter), units[..mid]).meter, units[mid..]);
    }
  }

  /** Once the job has ended, nothing is called or split, and its end is what the chunk reports. */
  lemma {:induction false} EndedCosts(env: Env, m: Meter, units: seq<Unit>)
    requires units != [] && forall t: nat :: t >= m.tick ==> env.jobDone(t) && env.chunkDone(t) && !env.goesOn(t)
    ensures var r := ChunkResult(env, m, units);
            && Costs(m, r.meter, 1, 0, 0)
            && r.outcome.Failed? && exists t: nat :: t >= m.tick && r.outcome.failure == env.contextError(t)
  {
    hide Attempts, Join, Fields, Combined;
  }

  /** A failure that arrives after the job's end, of a unit or of a combined payload, is reported as that end. */
  lemma {:induction false} EndReported(env: Env, m: Meter, units: seq<Unit>)
    requires units != [] && forall t: nat :: t > m.tick ==> env.jobDone(t)
    requires First(env, m, units).reply.Err?
    ensures var r := ChunkResult(env, m, units);
            r.outcome.Failed? && exists t: nat :: t > m.tick && r.outcome.failure == env.contextError(t)
  {
    RetriesExact(env, env.chunkDone, m, Join(Texts(units), CHUNK_SEP));
    WithRetryLater(env, env.chunkDone, m, Join(Texts(units), CHUNK_SEP));
    assert |units| == 1 ==> Join(Texts(units), CHUNK_SEP) == units[0].text;
    hide WithRetry, Join, Fields, Combined;
  }

  lemma {:induction false} WithRetryLater(env: Env, done: nat -> bool, m: Meter, text: string)
    ensures WithRetry(env, done, m, text).meter.tick > m.tick
  {
    AttemptsCost(env, done, Tick(m.(tries := m.tries + 1)), text, 0);
    hide Attempts;
  }

  /** Timeouts of the combined call do not reach the fallback, which runs under the job's own context. */
  lemma {:induction false} FallbackIgnoresTimeouts(env: Env, chunkDone: nat -> bool, m: Meter, units: seq<Unit>)
    ensures OneByOne(env, m, units) == OneByOne(env.(chunkDone := chunkDone), m, units)
  {
    hide *;
    if units == [] {
      NoneOneByOne(env, m);
      NoneOneByOne(env.(chunkDone := chunkDone), m);
    } else {
      var front, u := units[..|units| - 1], units[|units| - 1];
      assert units == front + [u];
      FallbackIgnoresTimeouts(env, chunkDone, m, front);
      OneByOneSnoc(env, m, front, u);
      OneByOneSnoc(env.(chunkDone := chunkDone), m, front, u);
      CallIgnoresTimeouts(env, chunkDone, OneByOne(env, m, front).meter, u.text);
    }
  }

  lemma {:induction false} NoneOneByOne(env: Env, m: Meter)
    ensures OneByOne(env, m, []) == Result(Translated([]), m)
  {
  }

  lemma {:induction false} CallIgnoresTimeouts(env: Env, chunkDone: nat -> bool, m: Meter, text: string)
    ensures WithRetry(env, env.jobDone, m, text) == WithRetry(env.(chunkDone := chunkDone), env.jobDone, m, text)
  {
    RetryIgnoresTimeouts(env, chunkDone, Tick(m.(tries := m.tries + 1)), text, 0);
    hide Attempts;
  }

  lemma {:induction false} RetryIgnoresTimeouts(env: Env, chunkDone: nat -> bool, m: Meter, text: string, attempt: nat)
    requires attempt <= MAX_RETRIES
    ensures Attempts(env, env.jobDone, m, text, attempt) ==
            Attempts(env.(chunkDone := chunkDone), env.jobDone, m, text, attempt)
    decreases MAX_RETRIES - attempt
  {
    if attempt < MAX_RETRIES {
      var m2 := Tick(Tick(m).(calls := m.calls + 1)).(retries := m.retries + 1);
      RetryIgnoresTimeouts(env, chunkDone, Tick(m2), text, attempt + 1);
    }
  }
}
