/**
 Translating one chunk (backend/jobs/worker.go: translateWithRetry, translateChunk).

 The translation service, the job context and the per-chunk timeouts form an
 environment: arbitrary functions of a tick that advances with every observation,
 so a lemma about all environments speaks about every pattern of replies,
 failures, timeouts and cancellations.
 */
module ChunkTranslation {
  import opened Text
  import opened Chunking

  const CHUNK_SEP: string := "\n\n[[[LK_PAGE_BREAK]]]\n\n"
  const MAX_RETRIES: nat := 3

  datatype Failure = Failure(retryable: bool, canceled: bool)

  datatype Reply = Ok(text: string) | Err(failure: Failure)

  datatype Env = Env(
    reply: (nat, string) -> Reply,  // the service's answer to a text
    jobDone: nat -> bool,           // the job context is cancelled or expired
    chunkDone: nat -> bool,         // the context of the current chunk call is
    goesOn: nat -> bool,            // a select that could also go on does so, although the context is done
    contextError: nat -> Failure)   // what ctx.Err() reports

  /** What a run has done so far; `tries` counts translateWithRetry calls, `calls` service calls. */
  datatype Meter = Meter(tick: nat, calls: nat, tries: nat, retries: nat, splits: nat)

  datatype Outcome = Translated(units: seq<Unit>) | Failed(failure: Failure)

  datatype Replied = Replied(reply: Reply, meter: Meter)

  datatype Result = Result(outcome: Outcome, meter: Meter)

  function Tick(m: Meter): Meter {
    m.(tick := m.tick + 1)
  }

  /** A select between a done context and a free slot, or an elapsed delay, may pick either. */
  predicate Stops(env: Env, done: nat -> bool, tick: nat) {
    done(tick) && !env.goesOn(tick)
  }

  /** The back-off loop from attempt number `attempt` on. */
  function Attempts(env: Env, done: nat -> bool, m: Meter, text: string, attempt: nat): Replied
    requires attempt <= MAX_RETRIES
    decreases MAX_RETRIES - attempt
  {
    var r := env.reply(m.tick, text);
    var m1 := Tick(m).(calls := m.calls + 1);
    if r.Ok? then Replied(r, m1)
    else if !r.failure.retryable || attempt >= MAX_RETRIES || done(m1.tick) then Replied(r, Tick(m1))
    else
      var m2 := Tick(m1).(retries := m.retries + 1);
      if Stops(env, done, m2.tick) then Replied(Err(env.contextError(m2.tick)), Tick(m2))
      else Attempts(env, done, Tick(m2), text, attempt + 1)
  }

  function WithRetry(env: Env, done: nat -> bool, m: Meter, text: string): Replied {
    var m0 := m.(tries := m.tries + 1);
    if Stops(env, done, m0.tick) then Replied(Err(env.contextError(m0.tick)), Tick(m0))
    else Attempts(env, done, Tick(m0), text, 0)
  }

  // ---- What the back-off comes to --------------------------------------------------------

  /** When call number `k` is made, if the first is made at `first`: each failure is followed by two observations. */
  function CallAt(first: nat, k: nat): nat {
    first + 3 * k
  }

  predicate Transient(reply: Reply) {
    reply.Err? && reply.failure.retryable
  }

  /**
   After `n` calls the reply is final: the answer to the last call, unless it was a transient failure within the
   budget of an undone context, whose back-off was then cut short.
   */
  ghost predicate FinalReply(env: Env, done: nat -> bool, last: nat, text: string, n: nat, reply: Reply) {
    if Transient(env.reply(last, text)) && n <= MAX_RETRIES && !done(last + 1)
    then Stops(env, done, last + 2) && reply == Err(env.contextError(last + 2))
    else reply == env.reply(last, text)
  }

  /** Calls `from` up to `n`: a call is repeated exactly after a transient failure within the budget. */
  ghost predicate RetriedAs(env: Env, done: nat -> bool, first: nat, text: string, from: nat, n: nat, reply: Reply) {
    && from < n <= MAX_RETRIES + 1
    && (forall k: nat :: from <= k < n - 1 ==>
          && Transient(env.reply(CallAt(first, k), text))
          && !done(CallAt(first, k) + 1) && !Stops(env, done, CallAt(first, k) + 2))
    && FinalReply(env, done, CallAt(first, n - 1), text, n, reply)
  }

  lemma {:induction false} AttemptsRetried(env: Env, done: nat -> bool, m: Meter, text: string, attempt: nat,
                                           first: nat)
    requires attempt <= MAX_RETRIES && m.tick == CallAt(first, attempt)
    ensures var r := Attempts(env, done, m, text, attempt);
            && r.meter.calls > m.calls
            && RetriedAs(env, done, first, text, attempt, attempt + r.meter.calls - m.calls, r.reply)
    decreases MAX_RETRIES - attempt
  {
    hide Attempts, Stops;
    AttemptsStep(env, done, m, text, attempt);
    var reply := env.reply(m.tick, text);
    var m1 := Tick(m).(calls := m.calls + 1);
    var m2 := Tick(m1).(retries := m.retries + 1);
    if Transient(reply) && attempt < MAX_RETRIES && !done(m1.tick) && !Stops(env, done, m2.tick) {
      AttemptsRetried(env, done, Tick(m2), text, attempt + 1, first);
    }
  }

  lemma {:induction false} AttemptsStep(env: Env, done: nat -> bool, m: Meter, text: string, attempt: nat)
    requires attempt <= MAX_RETRIES
    ensures var r := env.reply(m.tick, text);
            var m1 := Tick(m).(calls := m.calls + 1);
            var m2 := Tick(m1).(retries := m.retries + 1);
            Attempts(env, done, m, text, attempt) ==
              if r.Ok? then Replied(r, m1)
              else if !r.failure.retryable || attempt >= MAX_RETRIES || done(m1.tick) then Replied(r, Tick(m1))
              else if Stops(env, done, m2.tick) then Replied(Err(env.contextError(m2.tick)), Tick(m2))
              else Attempts(env, done, Tick(m2), text, attempt + 1)
  {
    hide Stops;
  }

  /** The calls that translateWithRetry makes, from the service and the contexts alone. */
  lemma {:induction false} RetriesExact(env: Env, done: nat -> bool, m: Meter, text: string)
    ensures var r := WithRetry(env, done, m, text); var calls := r.meter.calls - m.calls;
            if Stops(env, done, m.tick) then calls == 0 && r.reply == Err(env.contextError(m.tick))
            else calls > 0 && RetriedAs(env, done, m.tick + 1, text, 0, calls, r.reply)
  {
    hide Attempts, Stops;
    var m0 := m.(tries := m.tries + 1);
    assert CallAt(m.tick + 1, 0) == m.tick + 1;
    AttemptsRetried(env, done, Tick(m0), text, 0, m.tick + 1);
  }

  /** Undisturbed, a transient failure is given up only after all calls, and a permanent one is not repeated. */
  lemma {:induction false} FailuresOfRetries(env: Env, done: nat -> bool, m: Meter, text: string)
    requires forall t: nat :: !done(t)
    ensures var r := WithRetry(env, done, m, text); var calls := r.meter.calls - m.calls;
            && (Transient(r.reply) ==> calls == MAX_RETRIES + 1)
            && ((forall t: nat :: !Transient(env.reply(t, text))) ==> calls == 1)
            && r.meter.retries - m.retries == calls - 1
  {
    RetriesExact(env, done, m, text);
    RetriesCounted(env, done, m, text);
    hide Attempts, WithRetry;
  }

  lemma {:induction false} AttemptsCounted(env: Env, done: nat -> bool, m: Meter, text: string, attempt: nat)
    requires attempt <= MAX_RETRIES && forall t: nat :: !done(t)
    ensures var r := Attempts(env, done, m, text, attempt).meter; r.retries - m.retries == r.calls - m.calls - 1
    decreases MAX_RETRIES - attempt
  {
    var m1 := Tick(m).(calls := m.calls + 1);
    var m2 := Tick(m1).(retries := m.retries + 1);
    if attempt < MAX_RETRIES {
      AttemptsCounted(env, done, Tick(m2), text, attempt + 1);
    }
  }

  lemma {:induction false} RetriesCounted(env: Env, done: nat -> bool, m: Meter, text: string)
    requires forall t: nat :: !done(t)
    ensures var r := WithRetry(env, done, m, text).meter; r.retries - m.retries == r.calls - m.calls - 1
  {
    AttemptsCounted(env, done, Tick(m.(tries := m.tries + 1)), text, 0);
    hide Attempts;
  }

  /** Undisturbed, an answer that comes after at most the allowed number of transient failures is the reply. */
  lemma {:induction false} AnswerAfterRetries(env: Env, done: nat -> bool, m: Meter, text: string, first: nat, k: nat)
    requires first == m.tick + 1 && k <= MAX_RETRIES && forall t: nat :: !done(t)
    requires forall i: nat :: i < k ==> Transient(env.reply(CallAt(first, i), text))
    requires env.reply(CallAt(first, k), text).Ok?
    ensures var r := WithRetry(env, done, m, text);
            r.reply == env.reply(CallAt(first, k), text) && r.meter.calls == m.calls + k + 1
  {
    RetriesExact(env, done, m, text);
    hide Attempts, WithRetry, CallAt;
    var n: nat := WithRetry(env, done, m, text).meter.calls - m.calls;
    TransientAt(env, text, first, n - 1, k);
  }

  lemma {:induction false} TransientAt(env: Env, text: string, first: nat, last: nat, k: nat)
    requires forall i: nat :: i < k ==> Transient(env.reply(CallAt(first, i), text))
    ensures last < k ==> Transient(env.reply(CallAt(first, last), text))
  {
  }

  // ---- One chunk ---------------------------------------------------------------------------

  function Texts(units: seq<Unit>): seq<string> {
    seq(|units|, i requires 0 <= i < |units| => units[i].text)
  }

  function Retexted(u: Unit, text: string): Unit {
    Unit(u.pageIndex, text, |Fields(text)|)
  }

  /** One translated piece per unit, trimmed. */
  function Rezip(units: seq<Unit>, pieces: seq<string>): seq<Unit>
    requires |pieces| == |units|
  {
    seq(|units|, i requires 0 <= i < |units| => Unit(units[i].pageIndex, TrimSpace(pieces[i]), |Fields(pieces[i])|))
  }

  /** The fallback for altered delimiters: the units one by one, stopping at the first failure. */
  function OneByOne(env: Env, m: Meter, units: seq<Unit>): Result {
    if units == [] then Result(Translated([]), m)
    else
      var u := units[|units| - 1];
      var before := OneByOne(env, m, units[..|units| - 1]);
      if before.outcome.Failed? then before
      else
        var r := WithRetry(env, env.jobDone, before.meter, u.text);
        match r.reply
        case Ok(text) => Result(Translated(before.outcome.units + [Retexted(u, text)]), r.meter)
        case Err(f) => Result(Failed(f), r.meter)
  }

  function Single(env: Env, m: Meter, u: Unit): Result {
    var r := WithRetry(env, env.chunkDone, m, u.text);
    match r.reply
    case Ok(text) => Result(Translated([Retexted(u, text)]), r.meter)
    case Err(f) => Result(Failed(if env.jobDone(r.meter.tick) then env.contextError(r.meter.tick) else f),
                          Tick(r.meter))
  }

  /** The reply to a combined payload, cut at the separator when that gives one piece per unit. */
  function Combined(env: Env, m: Meter, units: seq<Unit>, translated: string): Result {
    var pieces := Split(translated, CHUNK_SEP);
    if |pieces| != |units| then OneByOne(env, m, units) else Result(Translated(Rezip(units, pieces)), m)
  }

  /** The attempt at the whole chunk. */
  function First(env: Env, m: Meter, units: seq<Unit>): Replied {
    WithRetry(env, env.chunkDone, m, Join(Texts(units), CHUNK_SEP))
  }

  function Splitting(m: Meter): Meter {
    Tick(m).(splits := m.splits + 1)
  }

  /** translateChunk: any failure of a combined payload splits the chunk in two. */
  function ChunkResult(env: Env, m: Meter, units: seq<Unit>): Result
    requires units != []
    decreases |units|
  {
    if |units| == 1 then Single(env, m, units[0])
    else
      var r := First(env, m, units);
      if r.reply.Ok? then Combined(env, r.meter, units, r.reply.text)
      else if env.jobDone(r.meter.tick) then Result(Failed(env.contextError(r.meter.tick)), Tick(r.meter))
      else
        var mid := |units| / 2;
        var left := ChunkResult(env, Splitting(r.meter), units[..mid]);
        if left.outcome.Failed? then left
        else
          var right := ChunkResult(env, left.meter, units[mid..]);
          if right.outcome.Failed? then right
          else Result(Translated(left.outcome.units + right.outcome.units), right.meter)
  }

  // ---- The worker's methods ----------------------------------------------------------

  class Worker {
    const env: Env
    var meter: Meter

    constructor (env: Env)
      ensures this.env == env && meter == Meter(0, 0, 0, 0, 0)
    {
      this.env := env;
      meter := Meter(0, 0, 0, 0, 0);
    }

    method TranslateWithRetry(done: nat -> bool, text: string) returns (reply: Reply)
      modifies this
      ensures Replied(reply, meter) == WithRetry(env, done, old(meter), text)
      ensures var start, calls := old(meter.tick), meter.calls - old(meter.calls);
              if Stops(env, done, start) then calls == 0 && reply == Err(env.contextError(start))
              else calls > 0 && RetriedAs(env, done, start + 1, text, 0, calls, reply)
    {
      hide Attempts, RetriedAs, Stops;
      RetriesExact(env, done, meter, text);
      meter := meter.(tries := meter.tries + 1);
      var stop := Stops(env, done, meter.tick);
      var at := meter.tick;
      meter := Tick(meter);
      if stop {
        return Err(env.contextError(at));
      }
      var attempt := 0;
      while true
        invariant attempt <= MAX_RETRIES
        invariant Attempts(env, done, meter, text, attempt) == WithRetry(env, done, old(meter), text)
        decreases MAX_RETRIES - attempt
      {
        AttemptsStep(env, done, meter, text, attempt);
        reply := env.reply(meter.tick, text);
        meter := Tick(meter).(calls := meter.calls + 1);
        if reply.Ok? {
          return;
        }
        stop := done(meter.tick);
        meter := Tick(meter);
        if !reply.failure.retryable || attempt >= MAX_RETRIES || stop {
          return;
        }
        meter := meter.(retries := meter.retries + 1);
        stop := Stops(env, done, meter.tick);
        at := meter.tick;
        meter := Tick(meter);
        if stop {
          return Err(env.contextError(at));
        }
        attempt := attempt + 1;
      }
    }

    method TranslateOneByOne(units: seq<Unit>) returns (outcome: Outcome)
      modifies this
      ensures Result(outcome, meter) == OneByOne(env, old(meter), units)
    {
      var out := [];
      for i := 0 to |units|
        invariant Result(Translated(out), meter) == OneByOne(env, old(meter), units[..i])
      {
        OneByOneSnoc(env, old(meter), units[..i], units[i]);
        assert units[..i + 1] == units[..i] + [units[i]];
        var part := TranslateWithRetry(env.jobDone, units[i].text);
        if part.Err? {
          OneByOneStops(env, old(meter), units, i + 1);
          return Failed(part.failure);
        }
        out := out + [Retexted(units[i], part.text)];
      }
      assert units[..|units|] == units;
      outcome := Translated(out);
    }

    /** The single-unit branch of translateChunk. */
    method TranslateSingle(u: Unit) returns (outcome: Outcome)
      modifies this
      ensures Result(outcome, meter) == Single(env, old(meter), u)
    {
      var reply := TranslateWithRetry(env.chunkDone, u.text);
      if reply.Ok? {
        return Translated([Retexted(u, reply.text)]);
      }
      var stop, at := env.jobDone(meter.tick), meter.tick;
      meter := Tick(meter);
      return Failed(if stop then env.contextError(at) else reply.failure);
    }

    /** The branch of translateChunk that handles a reply to the combined payload. */
    method TakeApart(units: seq<Unit>, translated: string) returns (outcome: Outcome)
      modifies this
      ensures Result(outcome, meter) == Combined(env, old(meter), units, translated)
    {
      hide Split, TrimSpace, Fields;
      var split := Split(translated, CHUNK_SEP);
      if |split| != |units| {
        outcome := TranslateOneByOne(units);
        return;
      }
      var out: seq<Unit> := [];
      for i := 0 to |split|
        invariant out == Rezip(units, split)[..i]
      {
        out := out + [Unit(units[i].pageIndex, TrimSpace(split[i]), |Fields(split[i])|)];
      }
      assert out == Rezip(units, split);
      assert Combined(env, meter, units, translated) == Result(Translated(Rezip(units, split)), meter);
      outcome := Translated(out);
    }

    method TranslateChunk(units: seq<Unit>) returns (outcome: Outcome)
      requires units != []
      modifies this
      ensures Result(outcome, meter) == ChunkResult(env, old(meter), units)
      decreases |units|
    {
      hide Single, Combined, WithRetry, Join;
      if |units| == 1 {
        outcome := TranslateSingle(units[0]);
        return;
      }
      var payload := Join(Texts(units), CHUNK_SEP);
      var reply := TranslateWithRetry(env.chunkDone, payload);
      if reply.Ok? {
        outcome := TakeApart(units, reply.text);
        return;
      }
      var stop, at := env.jobDone(meter.tick), meter.tick;
      if stop {
        meter := Tick(meter);
        return Failed(env.contextError(at));
      }
      var mid := |units| / 2;
      meter := Splitting(meter);
      var left := TranslateChunk(units[..mid]);
      if left.Failed? {
        return left;
      }
      var right := TranslateChunk(units[mid..]);
      if right.Failed? {
        return right;
      }
      outcome := Translated(left.units + right.units);
    }
  }

  lemma {:induction false} OneByOneSnoc(env: Env, m: Meter, front: seq<Unit>, u: Unit)
    ensures var before := OneByOne(env, m, front);
            OneByOne(env, m, front + [u]) ==
            if before.outcome.Failed? then before
            else
              var r := WithRetry(env, env.jobDone, before.meter, u.text);
              if r.reply.Ok? then Result(Translated(before.outcome.units + [Retexted(u, r.reply.text)]), r.meter)
              else Result(Failed(r.reply.failure), r.meter)
  {
    assert (front + [u])[..|front|] == front;
  }

  lemma {:induction false} OneByOneStops(env: Env, m: Meter, units: seq<Unit>, i: nat)
    requires i <= |units| && OneByOne(env, m, units[..i]).outcome.Failed?
    ensures OneByOne(env, m, units) == OneByOne(env, m, units[..i])
    decreases |units| - i
  {
    if i < |units| {
      assert units[..i + 1][..i] == units[..i];
      OneByOneStops(env, m, units, i + 1);
    } else {
      assert units[..i] == units;
    }
  }

  // ---- Structure: one unit out per unit in, page by page -------------------------------

  ghost predicate SamePages(out: seq<Unit>, units: seq<Unit>) {
    |out| == |units| && forall i :: 0 <= i < |units| ==> out[i].pageIndex == units[i].pageIndex
  }

  lemma {:induction false} OneByOneShape(env: Env, m: Meter, units: seq<Unit>)
    ensures var r := OneByOne(env, m, units); r.outcome.Translated? ==> SamePages(r.outcome.units, units)
  {
    if units != [] {
      OneByOneShape(env, m, units[..|units| - 1]);
    }
  }

  lemma {:induction false} CombinedShape(env: Env, m: Meter, units: seq<Unit>, translated: string)
    ensures var r := Combined(env, m, units, translated); r.outcome.Translated? ==> SamePages(r.outcome.units, units)
  {
    hide Split, Fields, TrimSpace;
    OneByOneShape(env, m, units);
  }

  /** Whatever fails, times out or alters the delimiters, success means one unit per unit on the same pages in order. */
  lemma {:induction false} ChunkResultShape(env: Env, m: Meter, units: seq<Unit>)
    requires units != []
    ensures var r := ChunkResult(env, m, units); r.outcome.Translated? ==> SamePages(r.outcome.units, units)
    decreases |units|
  {
    hide First, Combined, Single, SamePages;
    if |units| == 1 {
      SingleShape(env, m, units[0]);
      assert units == [units[0]];
    } else {
      var r := First(env, m, units);
      if r.reply.Ok? {
        CombinedShape(env, r.meter, units, r.reply.text);
      } else {
        var mid := |units| / 2;
        var left := ChunkResult(env, Splitting(r.meter), units[..mid]);
        var right := ChunkResult(env, left.meter, units[mid..]);
        ChunkResultShape(env, Splitting(r.meter), units[..mid]);
        ChunkResultShape(env, left.meter, units[mid..]);
        SamePagesConcat(left.outcome, right.outcome, units, mid);
      }
    }
  }

  lemma {:induction false} SingleShape(env: Env, m: Meter, u: Unit)
    ensures var r := Single(env, m, u); r.outcome.Translated? ==> SamePages(r.outcome.units, [u])
  {
    hide WithRetry, Fields;
  }

  lemma {:induction false} SamePagesConcat(a: Outcome, b: Outcome, units: seq<Unit>, mid: nat)
    requires mid <= |units|
    ensures a.Translated? && b.Translated? && SamePages(a.units, units[..mid]) && SamePages(b.units, units[mid..]) ==>
              SamePages(a.units + b.units, units)
  {
  }

  // ---- Cost -------------------------------------------------------------------------

  /** From `a` to `b`: at most `tries` retried requests, four service calls each, and `splits` splits. */
  ghost predicate Within(a: Meter, b: Meter, tries: int, splits: int) {
    && a.tick <= b.tick
    && a.tries <= b.tries <= a.tries + tries
    && a.splits <= b.splits <= a.splits + splits
    && a.calls <= b.calls <= a.calls + (MAX_RETRIES + 1) * (b.tries - a.tries)
  }

  lemma {:induction false} AttemptsUnfold(env: Env, done: nat -> bool, m: Meter, text: string, attempt: nat)
    requires attempt <= MAX_RETRIES
    ensures var m1 := Tick(m).(calls := m.calls + 1);
            var m2 := Tick(m1).(retries := m.retries + 1);
            var end := Attempts(env, done, m, text, attempt).meter;
            || end == m1 || end == Tick(m1) || end == Tick(m2)
            || (attempt < MAX_RETRIES && end == Attempts(env, done, Tick(m2), text, attempt + 1).meter)
  {
    hide *;
    AttemptsStep(env, done, m, text, attempt);
  }

  lemma {:induction false} AttemptsCost(env: Env, done: nat -> bool, m: Meter, text: string, attempt: nat)
    requires attempt <= MAX_RETRIES
    ensures var b := Attempts(env, done, m, text, attempt).meter;
            && m.tick <= b.tick && b.tries == m.tries && b.splits == m.splits
            && m.calls <= b.calls <= m.calls + MAX_RETRIES + 1 - attempt
    decreases MAX_RETRIES - attempt
  {
    var m1 := Tick(m).(calls := m.calls + 1);
    var m2 := Tick(m1).(retries := m.retries + 1);
    AttemptsUnfold(env, done, m, text, attempt);
    hide Attempts;
    if attempt < MAX_RETRIES {
      AttemptsCost(env, done, Tick(m2), text, attempt + 1);
    }
  }

  lemma {:induction false} WithRetryCost(env: Env, done: nat -> bool, m: Meter, text: string)
    ensures Within(m, WithRetry(env, done, m, text).meter, 1, 0)
  {
    AttemptsCost(env, done, Tick(m.(tries := m.tries + 1)), text, 0);
  }

  lemma {:induction false} OneByOneCost(env: Env, m: Meter, units: seq<Unit>)
    ensures Within(m, OneByOne(env, m, units).meter, |units|, 0)
  {
    if units != [] {
      var before := OneByOne(env, m, units[..|units| - 1]);
      OneByOneCost(env, m, units[..|units| - 1]);
      WithRetryCost(env, env.jobDone, before.meter, units[|units| - 1].text);
    }
  }

  /** n units cost at most 2n-1 retried requests (four service calls each) and n-1 splits. */
  lemma {:induction false} ChunkResultCost(env: Env, m: Meter, units: seq<Unit>)
    requires units != []
    ensures Within(m, ChunkResult(env, m, units).meter, 2 * |units| - 1, |units| - 1)
    decreases |units|
  {
    if |units| == 1 {
      hide WithRetry;
      WithRetryCost(env, env.chunkDone, m, units[0].text);
    } else {
      FirstCost(env, m, units);
      hide First, Combined;
      var r := First(env, m, units);
      var mid := |units| / 2;
      if r.reply.Ok? {
        CombinedCost(env, r.meter, units, r.reply.text);
      } else if !env.jobDone(r.meter.tick) {
        var left := ChunkResult(env, Splitting(r.meter), units[..mid]);
        ChunkResultCost(env, Splitting(r.meter), units[..mid]);
        ChunkResultCost(env, left.meter, units[mid..]);
      }
    }
  }

  lemma {:induction false} FirstCost(env: Env, m: Meter, units: seq<Unit>)
    ensures Within(m, First(env, m, units).meter, 1, 0)
  {
    hide WithRetry, Join;
    WithRetryCost(env, env.chunkDone, m, Join(Texts(units), CHUNK_SEP));
  }

  lemma {:induction false} CombinedCost(env: Env, m: Meter, units: seq<Unit>, translated: string)
    ensures Within(m, Combined(env, m, units, translated).meter, |units|, 0)
  {
    hide Split, OneByOne;
    OneByOneCost(env, m, units);
  }

  // ---- Content ----------------------------------------------------------------------

  /** A text that survives trimming and cannot be confused with the separator. */
  ghost predicate Plain(s: string) {
    Free('\n', s) && TrimSpace(s) == s
  }

  ghost predicate AllPlain(units: seq<Unit>) {
    forall i :: 0 <= i < |units| ==> Plain(units[i].text)
  }

  /**
   An answer with `f` of each text. One to a combined payload may come with altered separators, as long as that shows in
   the number of its pieces, and with blanks around the pieces.
   */
  ghost predicate AnswersBy(f: string -> string, texts: seq<string>, answer: string)
    requires texts != []
  {
    if |texts| == 1 then answer == f(texts[0])
    else
      var pieces := Split(answer, CHUNK_SEP);
      |pieces| == |texts| ==> forall i :: 0 <= i < |texts| ==> TrimSpace(pieces[i]) == f(texts[i])
  }

  /** Whenever the service answers, it answers unit by unit with `f`. */
  ghost predicate UnitWise(env: Env, f: string -> string) {
    forall t: nat, texts: seq<string> ::
      texts != [] && (forall i :: 0 <= i < |texts| ==> Plain(texts[i])) ==>
        var r := env.reply(t, Join(texts, CHUNK_SEP)); r.Ok? ==> AnswersBy(f, texts, r.text)
  }

  /** Every output unit is `f` of its input unit. */
  ghost predicate Mapped(out: seq<Unit>, units: seq<Unit>, f: string -> string) {
    |out| == |units| && forall i :: 0 <= i < |units| ==> out[i] == Retexted(units[i], f(units[i].text))
  }

  lemma {:induction false} UnitWiseSingle(env: Env, f: string -> string, t: nat, s: string)
    requires UnitWise(env, f) && Plain(s)
    ensures var r := env.reply(t, s); r.Ok? ==> r.text == f(s)
  {
    assert Join([s], CHUNK_SEP) == s;
    assert forall i :: 0 <= i < |[s]| ==> Plain([s][i]);
  }

  /** A successful retried request returns one of the service's answers to that text. */
  lemma {:induction false} AttemptsAnswer(env: Env, done: nat -> bool, m: Meter, text: string, attempt: nat)
    requires attempt <= MAX_RETRIES
    ensures var r := Attempts(env, done, m, text, attempt).reply; r.Ok? ==> exists t: nat :: env.reply(t, text) == r
    decreases MAX_RETRIES - attempt
  {
    var m1 := Tick(m).(calls := m.calls + 1);
    var m2 := Tick(m1).(retries := m.retries + 1);
    if attempt < MAX_RETRIES {
      AttemptsAnswer(env, done, Tick(m2), text, attempt + 1);
    }
  }

  lemma {:induction false} WithRetrySingle(env: Env, f: string -> string, done: nat -> bool, m: Meter, s: string)
    requires UnitWise(env, f) && Plain(s)
    ensures var r := WithRetry(env, done, m, s).reply; r.Ok? ==> r.text == f(s)
  {
    AttemptsAnswer(env, done, Tick(m.(tries := m.tries + 1)), s, 0);
    var r := WithRetry(env, done, m, s).reply;
    if r.Ok? {
      var t: nat :| env.reply(t, s) == r;
      UnitWiseSingle(env, f, t, s);
    }
  }

  lemma {:induction false} OneMapped(u: Unit, f: string -> string)
    ensures Mapped([], [], f) && Mapped([Retexted(u, f(u.text))], [u], f)
  {
  }

  lemma {:induction false} OneByOneMapped(env: Env, f: string -> string, m: Meter, units: seq<Unit>)
    requires UnitWise(env, f) && AllPlain(units)
    ensures var r := OneByOne(env, m, units); r.outcome.Translated? ==> Mapped(r.outcome.units, units, f)
  {
    if units != [] {
      var front, u := units[..|units| - 1], units[|units| - 1];
      var before := OneByOne(env, m, front);
      OneByOneMapped(env, f, m, front);
      WithRetrySingle(env, f, env.jobDone, before.meter, u.text);
      hide WithRetry, UnitWise, Plain, Mapped, Retexted;
      if before.outcome.Translated? {
        MappedConcat(before.outcome.units, [Retexted(u, f(u.text))], units, |units| - 1, f) by {
          OneMapped(u, f);
          assert units[|units| - 1..] == [u];
        }
      }
    }
  }

  /** Whether the reply to the combined payload can be taken apart or not. */
  lemma {:induction false} CombinedMapped(env: Env, f: string -> string, m: Meter, units: seq<Unit>, translated: string)
    requires UnitWise(env, f) && AllPlain(units) && |units| > 1 && AnswersBy(f, Texts(units), translated)
    ensures var r := Combined(env, m, units, translated); r.outcome.Translated? ==> Mapped(r.outcome.units, units, f)
  {
    OneByOneMapped(env, f, m, units);
    hide UnitWise, OneByOne, Split, Fields, TrimSpace, Plain;
    var pieces := Split(translated, CHUNK_SEP);
    if |pieces| == |units| {
      forall i | 0 <= i < |units|
        ensures Rezip(units, pieces)[i] == Retexted(units[i], f(units[i].text))
      {
        TrimSpaceFields(pieces[i]);
        assert f(Texts(units)[i]) == f(units[i].text);
      }
    }
  }

  /**
   A unit-wise service yields exactly the unit-wise translation, however the chunk was split or retried and whichever
   separators were altered.
   */
  lemma {:induction false} ChunkResultMapped(env: Env, f: string -> string, m: Meter, units: seq<Unit>)
    requires UnitWise(env, f) && AllPlain(units) && units != []
    ensures var r := ChunkResult(env, m, units); r.outcome.Translated? ==> Mapped(r.outcome.units, units, f)
    decreases |units|
  {
    if |units| == 1 {
      SingleMapped(env, f, m, units[0]);
      hide Single;
      assert units == [units[0]];
    } else {
      hide First, Combined, UnitWise, Plain, Mapped;
      var r := First(env, m, units);
      if r.reply.Ok? {
        FirstMapped(env, f, m, units);
      } else {
        var mid := |units| / 2;
        var left := ChunkResult(env, Splitting(r.meter), units[..mid]);
        var right := ChunkResult(env, left.meter, units[mid..]);
        ChunkResultMapped(env, f, Splitting(r.meter), units[..mid]);
        ChunkResultMapped(env, f, left.meter, units[mid..]);
        if left.outcome.Translated? && right.outcome.Translated? {
          MappedConcat(left.outcome.units, right.outcome.units, units, mid, f);
        }
      }
    }
  }

  lemma {:induction false} MappedConcat(a: seq<Unit>, b: seq<Unit>, units: seq<Unit>, mid: nat, f: string -> string)
    requires mid <= |units| && Mapped(a, units[..mid], f) && Mapped(b, units[mid..], f)
    ensures Mapped(a + b, units, f)
  {
  }

  lemma {:induction false} SingleMapped(env: Env, f: string -> string, m: Meter, u: Unit)
    requires UnitWise(env, f) && Plain(u.text)
    ensures var r := Single(env, m, u); r.outcome.Translated? ==> Mapped(r.outcome.units, [u], f)
  {
    WithRetrySingle(env, f, env.chunkDone, m, u.text);
    hide WithRetry, Fields, UnitWise;
  }

  lemma {:induction false} FirstMapped(env: Env, f: string -> string, m: Meter, units: seq<Unit>)
    requires UnitWise(env, f) && AllPlain(units) && |units| > 1
    requires First(env, m, units).reply.Ok?
    ensures var r := First(env, m, units); var c := Combined(env, r.meter, units, r.reply.text);
            c.outcome.Translated? ==> Mapped(c.outcome.units, units, f)
  {
    hide Join, Combined, Attempts, Plain, AnswersBy;
    var payload := Join(Texts(units), CHUNK_SEP);
    var r := First(env, m, units);
    FirstAnswer(env, m, units);
    var t: nat :| env.reply(t, payload) == r.reply;
    assert forall i :: 0 <= i < |Texts(units)| ==> Plain(Texts(units)[i]);
    CombinedMapped(env, f, r.meter, units, r.reply.text);
  }

  lemma {:induction false} FirstAnswer(env: Env, m: Meter, units: seq<Unit>)
    ensures var r := First(env, m, units).reply;
            r.Ok? ==> exists t: nat :: env.reply(t, Join(Texts(units), CHUNK_SEP)) == r
  {
    hide Join, Attempts;
    AttemptsAnswer(env, env.chunkDone, Tick(m.(tries := m.tries + 1)), Join(Texts(units), CHUNK_SEP), 0);
  }

  // ---- Failures -----------------------------------------------------------------------

  /** No cancellation: the job context stays alive and no failure is a cancellation. */
  ghost predicate Uncancelled(env: Env) {
    && (forall t: nat :: !env.jobDone(t) && !env.contextError(t).canceled)
    && forall t: nat, s: string :: env.reply(t, s).Err? ==> !env.reply(t, s).failure.canceled
  }

  lemma {:induction false} AttemptsUncancelled(env: Env, done: nat -> bool, m: Meter, text: string, attempt: nat)
    requires attempt <= MAX_RETRIES && Uncancelled(env)
    ensures var r := Attempts(env, done, m, text, attempt).reply; r.Err? ==> !r.failure.canceled
    decreases MAX_RETRIES - attempt
  {
    var m1 := Tick(m).(calls := m.calls + 1);
    var m2 := Tick(m1).(retries := m.retries + 1);
    if attempt < MAX_RETRIES {
      AttemptsUncancelled(env, done, Tick(m2), text, attempt + 1);
    }
  }

  lemma {:induction false} OneByOneUncancelled(env: Env, m: Meter, units: seq<Unit>)
    requires Uncancelled(env)
    ensures var r := OneByOne(env, m, units).outcome; r.Failed? ==> !r.failure.canceled
  {
    if units != [] {
      var before := OneByOne(env, m, units[..|units| - 1]);
      OneByOneUncancelled(env, m, units[..|units| - 1]);
      WithRetryUncancelled(env, env.jobDone, before.meter, units[|units| - 1].text);
    }
  }

  lemma {:induction false} WithRetryUncancelled(env: Env, done: nat -> bool, m: Meter, text: string)
    requires Uncancelled(env)
    ensures var r := WithRetry(env, done, m, text).reply; r.Err? ==> !r.failure.canceled
  {
    hide Attempts;
    AttemptsUncancelled(env, done, Tick(m.(tries := m.tries + 1)), text, 0);
  }

  lemma {:induction false} CombinedUncancelled(env: Env, m: Meter, units: seq<Unit>, translated: string)
    requires Uncancelled(env)
    ensures var r := Combined(env, m, units, translated).outcome; r.Failed? ==> !r.failure.canceled
  {
    hide Split, OneByOne;
    OneByOneUncancelled(env, m, units);
  }

  /** Without cancellation every chunk failure is recoverable. */
  lemma {:induction false} ChunkResultUncancelled(env: Env, m: Meter, units: seq<Unit>)
    requires Uncancelled(env) && units != []
    ensures var r := ChunkResult(env, m, units).outcome; r.Failed? ==> !r.failure.canceled
    decreases |units|
  {
    if |units| == 1 {
      hide WithRetry;
      WithRetryUncancelled(env, env.chunkDone, m, units[0].text);
    } else {
      hide First, Combined;
      var r := First(env, m, units);
      var mid := |units| / 2;
      if r.reply.Ok? {
        CombinedUncancelled(env, r.meter, units, r.reply.text);
      } else {
        var left := ChunkResult(env, Splitting(r.meter), units[..mid]);
        ChunkResultUncancelled(env, Splitting(r.meter), units[..mid]);
        ChunkResultUncancelled(env, left.meter, units[mid..]);
      }
    }
  }

  /** Every unit on its own is translated at once, whenever it is sent. */
  ghost predicate UnitsSucceed(env: Env, units: seq<Unit>) {
    && (forall t: nat :: !env.jobDone(t) && !env.chunkDone(t))
    && forall t: nat, i :: 0 <= i < |units| ==> env.reply(t, units[i].text).Ok?
  }

  lemma {:induction false} OneByOneSucceeds(env: Env, m: Meter, units: seq<Unit>)
    requires UnitsSucceed(env, units)
    ensures OneByOne(env, m, units).outcome.Translated?
  {
    if units != [] {
      OneByOneSucceeds(env, m, units[..|units| - 1]);
    }
  }

  lemma {:induction false} CombinedSucceeds(env: Env, m: Meter, units: seq<Unit>, translated: string)
    requires UnitsSucceed(env, units)
    ensures Combined(env, m, units, translated).outcome.Translated?
  {
    hide Split, OneByOne;
    OneByOneSucceeds(env, m, units);
  }

  /** Splitting before retrying pays off: failures of combined payloads alone never fail a chunk. */
  lemma {:induction false} ChunkResultSucceeds(env: Env, m: Meter, units: seq<Unit>)
    requires units != [] && UnitsSucceed(env, units)
    ensures ChunkResult(env, m, units).outcome.Translated?
    decreases |units|
  {
    if |units| > 1 {
      hide First, Combined;
      var r := First(env, m, units);
      var mid := |units| / 2;
      if r.reply.Ok? {
        CombinedSucceeds(env, r.meter, units, r.reply.text);
      } else {
        ChunkResultSucceeds(env, Splitting(r.meter), units[..mid]);
        ChunkResultSucceeds(env, ChunkResult(env, Splitting(r.meter), units[..mid]).meter, units[mid..]);
      }
    } else {
      hide Fields;
      assert Single(env, m, units[0]).outcome.Translated?;
    }
  }

  // ---- Determinism --------------------------------------------------------------------

  /** The reply depends on the text alone, and no context ends. */
  ghost predicate Deterministic(env: Env) {
    && (forall t: nat :: !env.jobDone(t) && !env.chunkDone(t))
    && forall t: nat, s: string :: env.reply(t, s) == env.reply(0, s)
  }

  /** Two deterministic environments with the same service. */
  ghost predicate SameService(env: Env, env': Env) {
    Deterministic(env) && Deterministic(env') && forall s: string :: env.reply(0, s) == env'.reply(0, s)
  }

  lemma {:induction false} AttemptsDeterministic(env: Env, done: nat -> bool, m: Meter, text: string, attempt: nat)
    requires attempt <= MAX_RETRIES && Deterministic(env) && forall t: nat :: !done(t)
    ensures Attempts(env, done, m, text, attempt).reply == env.reply(0, text)
    decreases MAX_RETRIES - attempt
  {
    var m1 := Tick(m).(calls := m.calls + 1);
    var m2 := Tick(m1).(retries := m.retries + 1);
    if attempt < MAX_RETRIES {
      AttemptsDeterministic(env, done, Tick(m2), text, attempt + 1);
    }
  }

  lemma {:induction false} WithRetryDeterministic(env: Env, done: nat -> bool, m: Meter, text: string)
    requires Deterministic(env) && forall t: nat :: !done(t)
    ensures WithRetry(env, done, m, text).reply == env.reply(0, text)
  {
    AttemptsDeterministic(env, done, Tick(m.(tries := m.tries + 1)), text, 0);
  }

  lemma {:induction false} OneByOneDeterministic(env: Env, env': Env, m: Meter, n: Meter, units: seq<Unit>)
    requires SameService(env, env')
    ensures OneByOne(env, m, units).outcome == OneByOne(env', n, units).outcome
  {
    if units != [] {
      var front, u := units[..|units| - 1], units[|units| - 1];
      OneByOneDeterministic(env, env', m, n, front);
      hide WithRetry, Fields;
      WithRetryDeterministic(env, env.jobDone, OneByOne(env, m, front).meter, u.text);
      WithRetryDeterministic(env', env'.jobDone, OneByOne(env', n, front).meter, u.text);
    }
  }

  lemma {:induction false} CombinedDeterministic(env: Env, env': Env, m: Meter, n: Meter, units: seq<Unit>,
                                                 translated: string)
    requires SameService(env, env')
    ensures Combined(env, m, units, translated).outcome == Combined(env', n, units, translated).outcome
  {
    hide Split, OneByOne;
    OneByOneDeterministic(env, env', m, n, units);
  }

  lemma {:induction false} FirstDeterministic(env: Env, env': Env, m: Meter, n: Meter, units: seq<Unit>)
    requires SameService(env, env')
    ensures First(env, m, units).reply == First(env', n, units).reply
  {
    hide Join, WithRetry;
    WithRetryDeterministic(env, env.chunkDone, m, Join(Texts(units), CHUNK_SEP));
    WithRetryDeterministic(env', env'.chunkDone, n, Join(Texts(units), CHUNK_SEP));
  }

  /** With a deterministic service the outcome of a chunk depends neither on the time nor on the attempt. */
  lemma {:induction false} ChunkResultDeterministic(env: Env, env': Env, m: Meter, n: Meter, units: seq<Unit>)
    requires SameService(env, env') && units != []
    ensures ChunkResult(env, m, units).outcome == ChunkResult(env', n, units).outcome
    decreases |units|
  {
    if |units| == 1 {
      hide WithRetry, Fields;
      WithRetryDeterministic(env, env.chunkDone, m, units[0].text);
      WithRetryDeterministic(env', env'.chunkDone, n, units[0].text);
    } else {
      FirstDeterministic(env, env', m, n, units);
      hide First, Combined;
      var r, s := First(env, m, units), First(env', n, units);
      var mid := |units| / 2;
      if r.reply.Ok? {
        CombinedDeterministic(env, env', r.meter, s.meter, units, r.reply.text);
      } else {
        var left := ChunkResult(env, Splitting(r.meter), units[..mid]);
        var left' := ChunkResult(env', Splitting(s.meter), units[..mid]);
        ChunkResultDeterministic(env, env', Splitting(r.meter), Splitting(s.meter), units[..mid]);
        ChunkResultDeterministic(env, env', left.meter, left'.meter, units[mid..]);
      }
    }
  }
}
