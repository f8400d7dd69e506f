/**
 Attempts that are cut short (backend/jobs/worker.go: translateWithRetry and translateChunk under a job context
 that may end at any moment). As long as chunk calls end only with the job, an interrupted attempt never stores
 anything that an undisturbed one would not have produced; chunk timeouts of their own break this.
 */
module Interruptions {
  import opened Text
  import opened Chunking
  import opened ChunkTranslation
  import opened JobChunks

  /** The service answers a text always in the same way. */
  ghost predicate ByText(env: Env, f: string -> Reply) {
    forall t: nat, s: string :: env.reply(t, s) == f(s)
  }

  ghost predicate JobStaysDone(env: Env) {
    forall t: nat, u: nat :: t <= u && env.jobDone(t) ==> env.jobDone(u)
  }

  /** No chunk call ends before the job does. */
  ghost predicate NoChunkTimeout(env: Env) {
    forall t: nat :: env.chunkDone(t) ==> env.jobDone(t)
  }

  /** An attempt of a job with this service, which may be interrupted at any moment. */
  ghost predicate Attempt(env: Env, f: string -> Reply) {
    ByText(env, f) && JobStaysDone(env) && NoChunkTimeout(env)
  }

  /** The service under contexts that never end. */
  function Steady(f: string -> Reply): Env {
    Env((t, s) => f(s), t => false, t => false, t => false, t => Failure(false, false))
  }

  const ZERO: Meter := Meter(0, 0, 0, 0, 0)

  /** What the service makes of a chunk when nothing interrupts it. */
  function Settled(f: string -> Reply, units: seq<Unit>): Outcome
    requires units != []
  {
    ChunkResult(Steady(f), ZERO, units).outcome
  }

  /** A translation is the undisturbed one; a failure is too, unless the job has ended by now. */
  ghost predicate Agrees(env: Env, m: Meter, r: Result, undisturbed: Outcome) {
    && m.tick <= r.meter.tick
    && (r.outcome.Translated? ==> r.outcome == undisturbed)
    && (r.outcome.Failed? ==> undisturbed.Failed? || env.jobDone(r.meter.tick))
  }

  lemma {:induction false} SteadyIsDeterministic(f: string -> Reply)
    ensures Deterministic(Steady(f))
  {
  }

  lemma {:induction false} AttemptsInterrupted(env: Env, f: string -> Reply, done: nat -> bool, m: Meter, text: string,
                                               attempt: nat)
    requires attempt <= MAX_RETRIES && ByText(env, f)
    ensures var r := Attempts(env, done, m, text, attempt);
            m.tick <= r.meter.tick && if f(text).Ok? then r.reply == f(text) else r.reply.Err?
    decreases MAX_RETRIES - attempt
  {
    var m1 := Tick(m).(calls := m.calls + 1);
    var m2 := Tick(m1).(retries := m.retries + 1);
    if attempt < MAX_RETRIES {
      AttemptsInterrupted(env, f, done, Tick(m2), text, attempt + 1);
    }
  }

  lemma {:induction false} WithRetryInterrupted(env: Env, f: string -> Reply, done: nat -> bool, m: Meter, text: string)
    requires Attempt(env, f) && forall t: nat :: done(t) ==> env.jobDone(t)
    ensures var r := WithRetry(env, done, m, text);
            && m.tick <= r.meter.tick
            && (r.reply.Ok? ==> r.reply == f(text))
            && (r.reply.Err? ==> f(text).Err? || env.jobDone(r.meter.tick))
  {
    AttemptsInterrupted(env, f, done, Tick(m.(tries := m.tries + 1)), text, 0);
    hide Attempts;
  }

  lemma {:induction false} SteadyReply(f: string -> Reply, done: nat -> bool, m: Meter, text: string)
    requires forall t: nat :: !done(t)
    ensures WithRetry(Steady(f), done, m, text).reply == f(text)
  {
    SteadyIsDeterministic(f);
    WithRetryDeterministic(Steady(f), done, m, text);
  }

  lemma {:induction false} OneByOneInterrupted(env: Env, f: string -> Reply, m: Meter, n: Meter, units: seq<Unit>)
    requires Attempt(env, f)
    ensures Agrees(env, m, OneByOne(env, m, units), OneByOne(Steady(f), n, units).outcome)
  {
    if units != [] {
      var front, u := units[..|units| - 1], units[|units| - 1];
      var before, steady := OneByOne(env, m, front), OneByOne(Steady(f), n, front);
      OneByOneInterrupted(env, f, m, n, front);
      WithRetryInterrupted(env, f, env.jobDone, before.meter, u.text);
      SteadyReply(f, Steady(f).jobDone, steady.meter, u.text);
      hide WithRetry, Fields, Retexted, ByText;
    }
  }

  lemma {:induction false} CombinedInterrupted(env: Env, f: string -> Reply, m: Meter, n: Meter, units: seq<Unit>,
                                               translated: string)
    requires Attempt(env, f)
    ensures Agrees(env, m, Combined(env, m, units, translated), Combined(Steady(f), n, units, translated).outcome)
  {
    OneByOneInterrupted(env, f, m, n, units);
    hide Split, OneByOne, Rezip;
  }

  lemma {:induction false} SingleInterrupted(env: Env, f: string -> Reply, m: Meter, n: Meter, u: Unit)
    requires Attempt(env, f)
    ensures Agrees(env, m, Single(env, m, u), Single(Steady(f), n, u).outcome)
  {
    WithRetryInterrupted(env, f, env.chunkDone, m, u.text);
    SteadyReply(f, Steady(f).chunkDone, n, u.text);
    hide WithRetry, Fields, Retexted, ByText;
  }

  lemma {:induction false} FirstInterrupted(env: Env, f: string -> Reply, m: Meter, n: Meter, units: seq<Unit>)
    requires Attempt(env, f)
    ensures var r, s := First(env, m, units), First(Steady(f), n, units);
            && m.tick <= r.meter.tick
            && (r.reply.Ok? ==> r.reply == s.reply)
            && (r.reply.Err? ==> s.reply.Err? || env.jobDone(r.meter.tick))
  {
    hide Join, WithRetry;
    WithRetryInterrupted(env, f, env.chunkDone, m, Join(Texts(units), CHUNK_SEP));
    SteadyReply(f, Steady(f).chunkDone, n, Join(Texts(units), CHUNK_SEP));
  }

  /**
   For a service that answers by text: whatever moment the job ends at, a chunk that is still translated is
   translated as without interruption, and a chunk fails only if it fails without interruption or the job has ended.
   */
  lemma {:induction false} ChunkInterrupted(env: Env, f: string -> Reply, m: Meter, n: Meter, units: seq<Unit>)
    requires Attempt(env, f) && units != []
    ensures Agrees(env, m, ChunkResult(env, m, units), ChunkResult(Steady(f), n, units).outcome)
    decreases |units|
  {
    hide First, Combined, Single, ByText;
    if |units| == 1 {
      SingleInterrupted(env, f, m, n, units[0]);
    } else {
      FirstInterrupted(env, f, m, n, units);
      var r, s := First(env, m, units), First(Steady(f), n, units);
      var mid := |units| / 2;
      if r.reply.Ok? {
        CombinedInterrupted(env, f, r.meter, s.meter, units, r.reply.text);
      } else if !env.jobDone(r.meter.tick) {
        var left := ChunkResult(env, Splitting(r.meter), units[..mid]);
        var steady := ChunkResult(Steady(f), Splitting(s.meter), units[..mid]);
        ChunkInterrupted(env, f, Splitting(r.meter), Splitting(s.meter), units[..mid]);
        ChunkInterrupted(env, f, left.meter, steady.meter, units[mid..]);
      }
    }
  }

  /** Against the one undisturbed outcome, at whatever moment the attempt starts. */
  lemma {:induction false} ChunkSettled(env: Env, f: string -> Reply, m: Meter, units: seq<Unit>)
    requires Attempt(env, f) && units != []
    ensures Agrees(env, m, ChunkResult(env, m, units), Settled(f, units))
  {
    ChunkInterrupted(env, f, m, ZERO, units);
    hide ChunkResult, Attempt, Agrees;
  }

  // ---- Chunk timeouts -------------------------------------------------------------------------------

  /** `c` is a chunk of some document, with the worker at this range. */
  ghost predicate DocumentChunk(range: Range, c: seq<Unit>) {
    c != [] && exists pages: seq<string>, units: seq<Unit> ::
      DocumentUnits(units, pages, range.max) && JobChunk(units, range, c)
  }

  /** Attempts never store a translation of a document's chunk that an undisturbed one would not give. */
  ghost predicate Transparent(range: Range, chunkTimeouts: bool) {
    forall env: Env, f: string -> Reply, m: Meter, c: seq<Unit>
      {:trigger ByText(env, f), ChunkResult(env, m, c)} ::
      ByText(env, f) && JobStaysDone(env) && (chunkTimeouts || NoChunkTimeout(env)) && DocumentChunk(range, c)
      && ChunkResult(env, m, c).outcome.Translated?
      ==> ChunkResult(env, m, c).outcome == Settled(f, c)
  }

  const TOGETHER: string := "A" + CHUNK_SEP + "B"

  /** Translates two texts otherwise together than each alone. */
  function InContext(text: string): Reply {
    Ok(if text == TOGETHER then "x" + CHUNK_SEP + "y" else "z")
  }

  /** The first chunk call times out, the job goes on. */
  function FirstCallTimesOut(): Env {
    Env((t, s) => InContext(s), t => false, t => t == 0, t => false, t => Failure(true, false))
  }

  const PAIR: seq<Unit> := [Unit(0, "A", 1), Unit(1, "B", 1)]

  /** The two pages of a document of two words, which is one chunk whenever the maximum leaves room for two words. */
  lemma {:induction false} PairIsChunk(range: Range)
    requires ValidRange(range) && range.max > 1
    ensures DocumentChunk(range, PAIR)
  {
    PairUnits(range.max);
    PairPacked(range);
    hide TextChunks, DocumentUnits;
    assert PAIR[0..] == PAIR && Reductions(range, 0) == range;
    assert ChunkAt(PAIR, range, 0, 0, 0, PAIR);
  }

  lemma {:induction false} PairUnits(budget: int)
    requires budget > 1
    ensures DocumentUnits(PAIR, ["A", "B"], budget)
  {
    WordUnit(PAIR[0], budget);
    WordUnit(PAIR[1], budget);
    hide CanonicalUnit, PageWords, Fields;
    forall p | 0 <= p < 2
      ensures PageWords(PAIR, p) == Fields(["A", "B"][p])
    {
      PairWords(p);
    }
  }

  lemma {:induction false} WordUnit(u: Unit, budget: int)
    requires IsWord(u.text) && u.words == 1 <= budget
    ensures CanonicalUnit(u, budget)
  {
    FieldsOfWord(u.text);
    hide Fields;
  }

  lemma {:induction false} PairWords(p: int)
    ensures PageWords(PAIR, p) == if p == 0 then Fields("A") else if p == 1 then Fields("B") else []
  {
    PageWordsConcat([PAIR[0]], [PAIR[1]], p);
    OneUnitWords(PAIR[0], p);
    OneUnitWords(PAIR[1], p);
    hide *;
    assert PAIR == [PAIR[0]] + [PAIR[1]];
  }

  lemma {:induction false} PairPacked(range: Range)
    requires ValidRange(range) && range.max > 1
    ensures TextChunks(PAIR, range.min, range.max) == [Chunk(PAIR, 2)]
  {
    var a, b := Unit(0, "A", 1), Unit(1, "B", 1);
    PackSnoc([], a, range.min, range.max);
    PackSnoc([a], b, range.min, range.max);
    assert [] + [a] == [a] && [a] + [b] == PAIR;
  }

  lemma {:induction false} PairTogether()
    ensures Join(Texts(PAIR), CHUNK_SEP) == TOGETHER
    ensures Split("x" + CHUNK_SEP + "y", CHUNK_SEP) == ["x", "y"]
  {
    assert Texts(PAIR) == ["A", "B"] && ["A", "B"][1..] == ["B"] && ["x", "y"][1..] == ["y"];
    assert Join(["x", "y"], CHUNK_SEP) == "x" + CHUNK_SEP + "y";
    SplitOfJoin(["x", "y"], CHUNK_SEP);
  }

  lemma {:induction false} PairUndisturbed()
    ensures var r := Settled(InContext, PAIR); r.Translated? && |r.units| == 2 && r.units[0].text == "x"
  {
    PairTogether();
    SteadyReply(InContext, Steady(InContext).chunkDone, ZERO, TOGETHER);
    assert TrimSpace("x") == "x";
    hide Join, Split, WithRetry, Fields, TrimSpace;
    var r := First(Steady(InContext), ZERO, PAIR);
    assert r.reply == Ok("x" + CHUNK_SEP + "y");
  }

  lemma {:induction false} SingleAlone(env: Env, m: Meter, u: Unit)
    requires env == FirstCallTimesOut() && m.tick > 0 && u.text != TOGETHER
    ensures Single(env, m, u).outcome == Translated([Retexted(u, "z")])
  {
    hide Fields;
  }

  lemma {:induction false} FirstTimesOut(env: Env)
    requires env == FirstCallTimesOut()
    ensures First(env, ZERO, PAIR).reply.Err? && First(env, ZERO, PAIR).meter.tick == 1
  {
    hide Join;
  }

  lemma {:induction false} PairTimedOut()
    ensures var r := ChunkResult(FirstCallTimesOut(), ZERO, PAIR).outcome;
            r.Translated? && |r.units| == 2 && r.units[0].text == "z"
  {
    var env := FirstCallTimesOut();
    FirstTimesOut(env);
    hide First, Fields, Single;
    var m := Splitting(First(env, ZERO, PAIR).meter);
    assert PAIR[..1] == [PAIR[0]] && PAIR[1..] == [PAIR[1]];
    assert |TOGETHER| > 1;
    SingleAlone(env, m, PAIR[0]);
    var left := ChunkResult(env, m, PAIR[..1]);
    assert left == Single(env, m, PAIR[0]);
    SingleTicks(env, m, PAIR[0]);
    SingleAlone(env, left.meter, PAIR[1]);
  }

  lemma {:induction false} SingleTicks(env: Env, m: Meter, u: Unit)
    requires env == FirstCallTimesOut()
    ensures Single(env, m, u).meter.tick >= m.tick
  {
    AttemptsInterrupted(env, InContext, env.chunkDone, Tick(m.(tries := m.tries + 1)), u.text, 0);
    hide Attempts, Fields;
  }

  lemma {:induction false} PairIsByText()
    ensures ByText(FirstCallTimesOut(), InContext) && JobStaysDone(FirstCallTimesOut())
  {
  }

  lemma {:induction false} TimeoutsShow(range: Range)
    requires ValidRange(range) && range.max > 1
    ensures !Transparent(range, true)
  {
    var env := FirstCallTimesOut();
    PairUndisturbed();
    PairTimedOut();
    PairIsByText();
    PairIsChunk(range);
    hide ChunkResult, Settled, ByText, JobStaysDone, NoChunkTimeout, DocumentChunk;
    assert ChunkResult(env, ZERO, PAIR).outcome != Settled(InContext, PAIR);
  }

  lemma {:induction false} NoTimeoutsDoNotShow(range: Range)
    ensures Transparent(range, false)
  {
    hide ChunkResult, Settled, ByText, JobStaysDone, NoChunkTimeout, JobChunk, DocumentUnits;
    forall env: Env, f: string -> Reply, m: Meter, c: seq<Unit> |
      ByText(env, f) && JobStaysDone(env) && NoChunkTimeout(env) && DocumentChunk(range, c)
      && ChunkResult(env, m, c).outcome.Translated?
      ensures ChunkResult(env, m, c).outcome == Settled(f, c)
    {
      ChunkSettled(env, f, m, c);
    }
  }

  /** A chunk of one unit is not split, whatever times out. */
  lemma {:induction false} OneUnitSettled(env: Env, f: string -> Reply, m: Meter, c: seq<Unit>)
    requires ByText(env, f) && |c| == 1 && ChunkResult(env, m, c).outcome.Translated?
    ensures ChunkResult(env, m, c).outcome == Settled(f, c)
  {
    var text := c[0].text;
    AttemptsInterrupted(env, f, env.chunkDone, Tick(m.(tries := m.tries + 1)), text, 0);
    SteadyReply(f, Steady(f).chunkDone, ZERO, text);
    hide Attempts, Fields, ByText;
    assert WithRetry(env, env.chunkDone, m, text).reply == f(text);
  }

  /** At a maximum of one word every chunk is one unit. */
  lemma {:induction false} OneWordChunks(range: Range, c: seq<Unit>)
    requires ValidRange(range) && range.max == 1 && DocumentChunk(range, c)
    ensures |c| == 1
  {
    hide JobChunk, DocumentUnits;
    var pages: seq<string>, units: seq<Unit> :| DocumentUnits(units, pages, 1) && JobChunk(units, range, c);
    var start := JobChunkRun(units, range, c);
    DocumentWithin(units, pages, 1);
    hide PackedRun;
    FullStart(units, range, start, c);
    FullUnitAlone(units, range, start, c);
  }

  lemma {:induction false} DocumentWithin(units: seq<Unit>, pages: seq<string>, budget: int)
    requires DocumentUnits(units, pages, budget)
    ensures WordsWithin(units, budget)
  {
    CanonicalWithin(units, budget);
  }

  lemma {:induction false} FullStart(units: seq<Unit>, range: Range, start: nat, c: seq<Unit>)
    requires PackedRun(units, range, start, c) && WordsWithin(units, 1)
    ensures start < |units| && units[start].words == 1
  {
    hide PackedWithin;
  }

  /**
   Chunk timeouts are exactly what breaks it: a chunk split after one is translated without its context. Only at a
   maximum of one word there is nothing to split.
   */
  lemma {:induction false} TransparentIff(range: Range, chunkTimeouts: bool)
    requires ValidRange(range)
    ensures Transparent(range, chunkTimeouts) <==> !chunkTimeouts || range.max == 1
  {
    NoTimeoutsDoNotShow(range);
    if range.max == 1 {
      NeverSplit(range, chunkTimeouts);
    } else {
      TimeoutsShow(range);
    }
    hide *;
  }

  lemma {:induction false} NeverSplit(range: Range, chunkTimeouts: bool)
    requires ValidRange(range) && range.max == 1
    ensures Transparent(range, chunkTimeouts)
  {
    hide ChunkResult, Settled, ByText, JobStaysDone, NoChunkTimeout, JobChunk, DocumentUnits;
    forall env: Env, f: string -> Reply, m: Meter, c: seq<Unit> |
      ByText(env, f) && JobStaysDone(env) && DocumentChunk(range, c)
      && ChunkResult(env, m, c).outcome.Translated?
      ensures ChunkResult(env, m, c).outcome == Settled(f, c)
    {
      OneWordChunks(range, c);
      OneUnitSettled(env, f, m, c);
    }
  }
}
