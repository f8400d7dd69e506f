/**
 Translation with retry and failover over ordered providers (backend/services/orchestrator.go). What a
 provider answers to each of its calls, and when the request is cancelled, is arbitrary.
 */
module Orchestrator {
  import opened Options
  import opened ProviderHealth

  datatype Error =
    | ProviderError(message: string)
    | ContextError
    | Exhausted(provider: string, last: Option<Error>)

  datatype Reply = Text(text: string) | Fails(error: Error)

  datatype Config = Config(maxRetries: int, initialBackoff: int, maxBackoff: int)

  /** Indexed by the provider's place in the tried order and the attempt. */
  datatype Env = Env(
    reply: (nat, nat) -> Reply,
    cancelledBefore: nat -> bool,
    cancelledAt: (nat, nat) -> bool,
    interrupted: (nat, nat) -> bool,
    transient: Error -> bool)

  // ---- One provider ---------------------------------------------------------------------------------

  /** `retries` is the count the source returns; `calls` how often the provider was called. */
  datatype Try = Done(text: string, retries: int, calls: nat) | GaveUp(error: Error, retries: int, calls: nat)

  /** The provider at place `pi` from the given attempt on, after as many transient failures. */
  function TryFrom(env: Env, c: Config, name: string, pi: nat, attempt: nat, last: Option<Error>): Try
    decreases c.maxRetries + 1 - attempt
  {
    if attempt > c.maxRetries then GaveUp(Exhausted(name, last), c.maxRetries, attempt)
    else if env.cancelledAt(pi, attempt) then GaveUp(ContextError, attempt, attempt)
    else
      match env.reply(pi, attempt)
      case Text(text) => Done(text, attempt, attempt + 1)
      case Fails(error) =>
        if !env.transient(error) then GaveUp(error, attempt, attempt + 1)
        else if attempt == c.maxRetries then GaveUp(Exhausted(name, Some(error)), c.maxRetries, attempt + 1)
        else if env.interrupted(pi, attempt) then GaveUp(ContextError, attempt, attempt + 1)
        else TryFrom(env, c, name, pi, attempt + 1, Some(error))
  }

  /** The base of the wait after the given attempt. */
  function Backoff(c: Config, attempt: nat): int {
    if attempt == 0 then c.initialBackoff
    else
      var doubled := Backoff(c, attempt - 1) * 2;
      if doubled > c.maxBackoff then c.maxBackoff else doubled
  }

  lemma {:induction false} BackoffUnfold(c: Config, attempt: nat)
    ensures Backoff(c, attempt) ==
              if attempt == 0 then c.initialBackoff
              else
                var doubled := Backoff(c, attempt - 1) * 2;
                if doubled > c.maxBackoff then c.maxBackoff else doubled
  {
  }

  /** `waits` are the bases of the waits made, before jitter. */
  method TryProviderWithRetry(env: Env, c: Config, name: string, pi: nat) returns (result: Try, waits: seq<int>)
    ensures result == TryFrom(env, c, name, pi, 0, None)
    ensures TriedAs(env, c, name, pi, 0, result) && (result.GaveUp? ==> GivenUp(env, c, name, pi, result))
    ensures |waits| <= result.calls && forall k: nat :: k < |waits| ==> waits[k] == Backoff(c, k)
  {
    hide TryFrom, Backoff, TriedAs, GivenUp;
    TryExact(env, c, name, pi, 0, None);
    BackoffUnfold(c, 0);
    var backoff := c.initialBackoff;
    var lastErr := None;
    var attempt: nat := 0;
    waits := [];
    while attempt <= c.maxRetries
      invariant attempt == 0 || attempt <= c.maxRetries
      invariant TryFrom(env, c, name, pi, 0, None) == TryFrom(env, c, name, pi, attempt, lastErr)
      invariant backoff == Backoff(c, attempt)
      invariant |waits| == attempt && forall k: nat :: k < |waits| ==> waits[k] == Backoff(c, k)
      decreases c.maxRetries - attempt
    {
      TryUnfold(env, c, name, pi, attempt, lastErr);
      if env.cancelledAt(pi, attempt) {
        return GaveUp(ContextError, attempt, attempt), waits;
      }
      var reply := env.reply(pi, attempt);
      if reply.Text? {
        return Done(reply.text, attempt, attempt + 1), waits;
      }
      if !env.transient(reply.error) {
        return GaveUp(reply.error, attempt, attempt + 1), waits;
      }
      lastErr := Some(reply.error);
      if attempt == c.maxRetries {
        return GaveUp(Exhausted(name, lastErr), c.maxRetries, attempt + 1), waits;
      }
      waits := waits + [backoff];
      if env.interrupted(pi, attempt) {
        return GaveUp(ContextError, attempt, attempt + 1), waits;
      }
      BackoffUnfold(c, attempt + 1);
      backoff := backoff * 2;
      if backoff > c.maxBackoff {
        backoff := c.maxBackoff;
      }
      attempt := attempt + 1;
    }
    TryUnfold(env, c, name, pi, attempt, lastErr);
    result := GaveUp(Exhausted(name, lastErr), c.maxRetries, attempt);
  }

  lemma {:induction false} TryUnfold(env: Env, c: Config, name: string, pi: nat, attempt: nat, last: Option<Error>)
    ensures TryFrom(env, c, name, pi, attempt, last) ==
      if attempt > c.maxRetries then GaveUp(Exhausted(name, last), c.maxRetries, attempt)
      else if env.cancelledAt(pi, attempt) then GaveUp(ContextError, attempt, attempt)
      else
        match env.reply(pi, attempt)
        case Text(text) => Done(text, attempt, attempt + 1)
        case Fails(error) =>
          if !env.transient(error) then GaveUp(error, attempt, attempt + 1)
          else if attempt == c.maxRetries then GaveUp(Exhausted(name, Some(error)), c.maxRetries, attempt + 1)
          else if env.interrupted(pi, attempt) then GaveUp(ContextError, attempt, attempt + 1)
          else TryFrom(env, c, name, pi, attempt + 1, Some(error))
  {
  }

  /** Call `k` failed for now, and the wait after it was not cut short. */
  ghost predicate Passing(env: Env, pi: nat, k: nat) {
    env.reply(pi, k).Fails? && env.transient(env.reply(pi, k).error) && !env.interrupted(pi, k)
  }

  /** Why the calls end after number `calls - 1`: it failed for good, the budget is used up, or the request ended. */
  ghost predicate GivenUp(env: Env, c: Config, name: string, pi: nat, t: Try)
    requires t.GaveUp?
  {
    if t.calls == 0 || (Passing(env, pi, t.calls - 1) && t.calls <= c.maxRetries) then
      if t.calls > c.maxRetries then t == GaveUp(Exhausted(name, None), c.maxRetries, 0)
      else env.cancelledAt(pi, t.calls) && t.error == ContextError && t.retries == t.calls
    else
      var reply := env.reply(pi, t.calls - 1);
      && reply.Fails?
      && if !env.transient(reply.error) then t.error == reply.error && t.retries == t.calls - 1
         else if t.calls == c.maxRetries + 1 then
           t.error == Exhausted(name, Some(reply.error)) && t.retries == c.maxRetries
         else env.interrupted(pi, t.calls - 1) && t.error == ContextError && t.retries == t.calls - 1
  }

  /** The calls to one provider, from number `from` on, by what the provider answers and when the request ends. */
  ghost predicate TriedAs(env: Env, c: Config, name: string, pi: nat, from: nat, t: Try) {
    && from <= t.calls && (from < t.calls ==> t.calls <= c.maxRetries + 1)
    && (forall k: nat :: from <= k < t.calls ==> !env.cancelledAt(pi, k))
    && (forall k: nat :: from <= k < t.calls - 1 ==> Passing(env, pi, k))
    && match t
       case Done(text, retries, calls) => from < calls == retries + 1 && env.reply(pi, calls - 1) == Text(text)
       case GaveUp(_, _, calls) => calls > from ==> GivenUp(env, c, name, pi, t)
  }

  lemma {:induction false} TryExact(env: Env, c: Config, name: string, pi: nat, attempt: nat, last: Option<Error>)
    requires if attempt == 0 then last.None? else attempt <= c.maxRetries && Passing(env, pi, attempt - 1)
    ensures var t := TryFrom(env, c, name, pi, attempt, last);
            TriedAs(env, c, name, pi, attempt, t) && (t.GaveUp? ==> GivenUp(env, c, name, pi, t))
    decreases c.maxRetries + 1 - attempt
  {
    hide TryFrom;
    TryUnfold(env, c, name, pi, attempt, last);
    if attempt < c.maxRetries && Passing(env, pi, attempt) && !env.cancelledAt(pi, attempt) {
      TryExact(env, c, name, pi, attempt + 1, Some(env.reply(pi, attempt).error));
      assert TryFrom(env, c, name, pi, attempt, last) ==
             TryFrom(env, c, name, pi, attempt + 1, Some(env.reply(pi, attempt).error));
      OneMoreTry(env, c, name, pi, attempt, TryFrom(env, c, name, pi, attempt, last));
    }
  }

  lemma {:induction false} OneMoreTry(env: Env, c: Config, name: string, pi: nat, attempt: nat, t: Try)
    requires TriedAs(env, c, name, pi, attempt + 1, t) && (t.GaveUp? ==> GivenUp(env, c, name, pi, t))
    requires Passing(env, pi, attempt) && attempt <= c.maxRetries && !env.cancelledAt(pi, attempt)
    ensures TriedAs(env, c, name, pi, attempt, t)
  {
    hide Passing, GivenUp;
  }

  /** No wait has a base above the maximum, except the first one when it starts above. */
  lemma {:induction false} BackoffBounded(c: Config)
    ensures (forall k: nat :: Backoff(c, k) <= c.maxBackoff) <==> c.initialBackoff <= c.maxBackoff
    ensures forall k: nat :: k > 0 ==> Backoff(c, k) <= c.maxBackoff
  {
    if c.initialBackoff > c.maxBackoff {
      assert Backoff(c, 0) > c.maxBackoff;
    }
  }

  function Pow2(k: nat): nat { if k == 0 then 1 else 2 * Pow2(k - 1) }

  /** Exponential until the maximum. */
  lemma {:induction false} BackoffDoubles(c: Config, k: nat)
    requires 0 <= c.initialBackoff <= c.maxBackoff
    ensures var b := c.initialBackoff * Pow2(k); Backoff(c, k) == if b <= c.maxBackoff then b else c.maxBackoff
  {
    if k > 0 {
      BackoffDoubles(c, k - 1);
      var p := Pow2(k - 1);
      assert Pow2(k) == 2 * p;
      hide Pow2;
      Doubling(c.initialBackoff, p);
    }
  }

  lemma {:induction false} Doubling(a: nat, p: nat)
    ensures a * (2 * p) == 2 * (a * p) && a * p >= 0
  {
  }

  // ---- All providers -----------------------------------------------------------------------------------

  datatype Result =
    | Translated(text: string, provider: nat)
    | Cancelled
    | NoProviders
    | AllExhausted(last: Error)

  /** What the request came to, the outcome of each provider tried, and the provider calls made. */
  datatype Run = Run(result: Result, outcomes: seq<Outcome>, calls: nat)

  function OutcomeOf(env: Env, t: Try): Outcome {
    match t
    case Done(_, _, _) => Success
    case GaveUp(error, _, _) => if env.transient(error) then Transient else Permanent
  }

  function TranslateFrom(env: Env, c: Config, order: seq<string>, pi: nat, last: Option<Error>): Run
    requires pi <= |order|
    decreases |order| - pi
  {
    if pi == |order| then Run(if last.None? then NoProviders else AllExhausted(last.value), [], 0)
    else if env.cancelledBefore(pi) then Run(Cancelled, [], 0)
    else
      var t := TryFrom(env, c, order[pi], pi, 0, None);
      match t
      case Done(text, _, calls) => Run(Translated(text, pi), [Success], calls)
      case GaveUp(error, _, calls) =>
        var rest := TranslateFrom(env, c, order, pi + 1, Some(error));
        Run(rest.result, [OutcomeOf(env, t)] + rest.outcomes, calls + rest.calls)
  }

  /** Attempt `a` of provider `pi` succeeds within the budget, after transient failures only. */
  ghost predicate SucceedsAt(env: Env, c: Config, pi: nat, a: nat) {
    && a <= c.maxRetries && env.reply(pi, a).Text?
    && forall k: nat :: k < a ==> env.reply(pi, k).Fails? && env.transient(env.reply(pi, k).error)
  }

  ghost predicate Undisturbed(env: Env) {
    && (forall pi: nat :: !env.cancelledBefore(pi))
    && (forall pi: nat, a: nat :: !env.cancelledAt(pi, a))
    && (forall pi: nat, a: nat :: !env.interrupted(pi, a))
  }

  ghost predicate AllTransient(env: Env, pi: nat, n: nat) {
    forall k: nat :: k < n ==> env.reply(pi, k).Fails? && env.transient(env.reply(pi, k).error)
  }

  /** A provider is called at most once more than the retries allow, and never when they are negative. */
  lemma {:induction false} TryCalls(env: Env, c: Config, name: string, pi: nat, attempt: nat, last: Option<Error>)
    requires attempt == 0 || attempt <= c.maxRetries
    ensures attempt <= TryFrom(env, c, name, pi, attempt, last).calls
    ensures TryFrom(env, c, name, pi, attempt, last).calls <= if c.maxRetries < 0 then 0 else c.maxRetries + 1
    decreases c.maxRetries + 1 - attempt
  {
    hide TryFrom;
    TryUnfold(env, c, name, pi, attempt, last);
    if attempt < c.maxRetries && env.reply(pi, attempt).Fails? {
      TryCalls(env, c, name, pi, attempt + 1, Some(env.reply(pi, attempt).error));
    }
  }

  /** Undisturbed, a provider gives its first successful attempt within the budget, else it is given up. */
  lemma {:induction false} TryFinds(env: Env, c: Config, name: string, pi: nat, attempt: nat, last: Option<Error>)
    requires Undisturbed(env) && AllTransient(env, pi, attempt)
    ensures var t := TryFrom(env, c, name, pi, attempt, last);
            match t
            case Done(text, retries, _) =>
              retries >= 0 && SucceedsAt(env, c, pi, retries) && env.reply(pi, retries) == Text(text)
            case GaveUp(_, _, _) => forall a: nat :: a >= attempt ==> !SucceedsAt(env, c, pi, a)
    decreases c.maxRetries + 1 - attempt
  {
    hide TryFrom;
    TryUnfold(env, c, name, pi, attempt, last);
    if attempt <= c.maxRetries {
      var reply := env.reply(pi, attempt);
      if reply.Fails? && env.transient(reply.error) {
        TryFinds(env, c, name, pi, attempt + 1, Some(reply.error));
      }
    }
  }

  ghost predicate Succeeds(env: Env, c: Config, pi: nat) {
    exists a: nat :: SucceedsAt(env, c, pi, a)
  }

  /**
   Undisturbed, the request gets the text of the first provider in the tried order that succeeds within its
   budget, no provider after it is called, and it fails only if none succeeds.
   */
  lemma {:induction false} FirstSuccessWins(env: Env, c: Config, order: seq<string>, pi: nat, last: Option<Error>)
    requires Undisturbed(env) && pi <= |order|
    ensures var run := TranslateFrom(env, c, order, pi, last);
            match run.result
            case Translated(text, winner) =>
              && pi <= winner < |order| && Succeeds(env, c, winner)
              && (exists a: nat :: SucceedsAt(env, c, winner, a) && env.reply(winner, a) == Text(text))
              && (forall q :: pi <= q < winner ==> !Succeeds(env, c, q))
              && |run.outcomes| == winner - pi + 1
            case Cancelled => false
            case NoProviders => last.None? && pi == |order|
            case AllExhausted(_) => forall q :: pi <= q < |order| ==> !Succeeds(env, c, q)
    decreases |order| - pi
  {
    if pi < |order| {
      var t := TryFrom(env, c, order[pi], pi, 0, None);
      TryFinds(env, c, order[pi], pi, 0, None);
      hide TryFrom, SucceedsAt;
      if t.GaveUp? {
        FirstSuccessWins(env, c, order, pi + 1, Some(t.error));
      } else {
        assert SucceedsAt(env, c, pi, t.retries);
      }
    }
  }

  /**
   The recorded outcomes, from the result and the errors alone: a success exactly for the provider whose text is
   returned, which is the last one tried, and for every other what its error calls for.
   */
  ghost predicate RecordsResult(env: Env, c: Config, order: seq<string>, pi: nat, run: Run) {
    && |run.outcomes| <= |order| - pi
    && (forall q :: pi <= q < pi + |run.outcomes| ==> !env.cancelledBefore(q))
    && (match run.result
        case Translated(_, provider) => run.outcomes != [] && provider == pi + |run.outcomes| - 1
        case Cancelled => pi + |run.outcomes| < |order| && env.cancelledBefore(pi + |run.outcomes|)
        case _ => pi + |run.outcomes| == |order|)
    && forall q :: 0 <= q < |run.outcomes| ==>
         if run.result.Translated? && run.result.provider == pi + q then run.outcomes[q] == Success
         else FailureRecorded(env, c, order[pi + q], pi + q, run.outcomes[q])
  }

  /** The provider gave up, and the outcome tells whether its error is transient. */
  ghost predicate FailureRecorded(env: Env, c: Config, name: string, pi: nat, o: Outcome) {
    exists t: Try :: t.GaveUp? && TriedAs(env, c, name, pi, 0, t) && GivenUp(env, c, name, pi, t)
      && o == if env.transient(t.error) then Transient else Permanent
  }

  lemma {:induction false} RunRecordsResult(env: Env, c: Config, order: seq<string>, pi: nat, last: Option<Error>)
    requires pi <= |order|
    ensures RecordsResult(env, c, order, pi, TranslateFrom(env, c, order, pi, last))
    decreases |order| - pi
  {
    hide TryFrom, TriedAs, GivenUp;
    if pi < |order| && !env.cancelledBefore(pi) {
      var t := TryFrom(env, c, order[pi], pi, 0, None);
      TryExact(env, c, order[pi], pi, 0, None);
      if t.GaveUp? {
        var rest := TranslateFrom(env, c, order, pi + 1, Some(t.error));
        RunRecordsResult(env, c, order, pi + 1, Some(t.error));
        FailedFirst(env, c, order, pi, t, rest);
      }
    }
  }

  lemma {:induction false} FailedFirst(env: Env, c: Config, order: seq<string>, pi: nat, t: Try, rest: Run)
    requires pi < |order| && !env.cancelledBefore(pi) && RecordsResult(env, c, order, pi + 1, rest)
    requires t.GaveUp? && TriedAs(env, c, order[pi], pi, 0, t) && GivenUp(env, c, order[pi], pi, t)
    ensures var run := Run(rest.result, [OutcomeOf(env, t)] + rest.outcomes, t.calls + rest.calls);
            RecordsResult(env, c, order, pi, run)
  {
    hide TriedAs, GivenUp;
    var outcomes := [OutcomeOf(env, t)] + rest.outcomes;
    assert FailureRecorded(env, c, order[pi], pi, OutcomeOf(env, t));
    hide FailureRecorded;
    forall q | 0 < q < |outcomes|
      ensures outcomes[q] == rest.outcomes[q - 1] && pi + q == pi + 1 + (q - 1)
    {
    }
  }

  /** A request makes at most P(1 + maxRetries) calls. */
  lemma {:induction false} RunCalls(env: Env, c: Config, order: seq<string>, pi: nat, last: Option<Error>)
    requires pi <= |order|
    ensures TranslateFrom(env, c, order, pi, last).calls
            <= (|order| - pi) * (if c.maxRetries < 0 then 0 else c.maxRetries + 1)
    ensures |TranslateFrom(env, c, order, pi, last).outcomes| <= |order| - pi
    decreases |order| - pi
  {
    if pi < |order| {
      var t := TryFrom(env, c, order[pi], pi, 0, None);
      TryCalls(env, c, order[pi], pi, 0, None);
      hide TryFrom;
      if !env.cancelledBefore(pi) && t.GaveUp? {
        RunCalls(env, c, order, pi + 1, Some(t.error));
      }
      Budget(|order| - pi, if c.maxRetries < 0 then 0 else c.maxRetries + 1);
    }
  }

  lemma {:induction false} Budget(n: nat, b: nat)
    requires n > 0
    ensures n * b == (n - 1) * b + b && (n - 1) * b >= 0
  {
  }

  // ---- The orchestrator and its scores --------------------------------------------------------------------

  type Histories = map<string, seq<Outcome>>

  function HistoryOf(history: Histories, name: string): seq<Outcome> {
    if name in history then history[name] else []
  }

  /** The histories once these outcomes of the first tried providers are added. */
  function Recorded(history: Histories, order: seq<string>, outcomes: seq<Outcome>): Histories
    requires |outcomes| <= |order|
  {
    if outcomes == [] then history
    else
      var last := |outcomes| - 1;
      var before := Recorded(history, order, outcomes[..last]);
      before[order[last] := HistoryOf(before, order[last]) + [outcomes[last]]]
  }

  ghost predicate EndsInSuccess(history: Histories, name: string) {
    var outcomes := HistoryOf(history, name);
    outcomes != [] && outcomes[|outcomes| - 1].Success?
  }

  ghost predicate Distinct(order: seq<string>) {
    forall p, q :: 0 <= p < q < |order| ==> order[p] != order[q]
  }

  /** A provider gets the outcomes of the places at which it was tried, the last of them last. */
  lemma {:induction false} RecordedLast(history: Histories, order: seq<string>, outcomes: seq<Outcome>, q: nat)
      returns (p: nat)
    requires q < |outcomes| <= |order|
    ensures q <= p < |outcomes| && order[p] == order[q]
    ensures var recorded := HistoryOf(Recorded(history, order, outcomes), order[q]);
            recorded != [] && recorded[|recorded| - 1] == outcomes[p]
  {
    var last := |outcomes| - 1;
    if order[last] == order[q] {
      p := last;
    } else {
      p := RecordedLast(history, order, outcomes[..last], q);
    }
  }

  lemma {:induction false} RecordedOthers(history: Histories, order: seq<string>, outcomes: seq<Outcome>, name: string)
    requires |outcomes| <= |order| && name !in order[..|outcomes|]
    ensures HistoryOf(Recorded(history, order, outcomes), name) == HistoryOf(history, name)
  {
    if outcomes != [] {
      var last := |outcomes| - 1;
      assert order[..last + 1] == order[..last] + [order[last]];
      RecordedOthers(history, order, outcomes[..last], name);
    }
  }

  /** Where names are distinct, each provider tried gets exactly the outcome of its place. */
  lemma {:induction false} RecordedAt(history: Histories, order: seq<string>, outcomes: seq<Outcome>, q: nat)
    requires q < |outcomes| <= |order| && Distinct(order)
    ensures HistoryOf(Recorded(history, order, outcomes), order[q]) == HistoryOf(history, order[q]) + [outcomes[q]]
  {
    var last := |outcomes| - 1;
    if q < last {
      RecordedAt(history, order, outcomes[..last], q);
    } else {
      RecordedOthers(history, order, outcomes[..last], order[q]);
    }
  }

  /** After a request, the providers tried whose history ends in a success are those with the winner's name. */
  lemma {:induction false} OnlyWinnerRises(env: Env, c: Config, order: seq<string>, run: Run, history: Histories,
                                           q: nat)
    requires RecordsResult(env, c, order, 0, run) && q < |run.outcomes|
    ensures var after := Recorded(history, order, run.outcomes);
            EndsInSuccess(after, order[q]) <==> run.result.Translated? && order[q] == order[run.result.provider]
  {
    hide FailureRecorded, Recorded;
    var p := RecordedLast(history, order, run.outcomes, q);
    RecordedFailure(env, c, order, run, p);
    if run.result.Translated? && order[q] == order[run.result.provider] {
      RecordedFailure(env, c, order, run, run.result.provider);
      var w := RecordedLast(history, order, run.outcomes, run.result.provider);
    }
  }

  lemma {:induction false} RecordedFailure(env: Env, c: Config, order: seq<string>, run: Run, q: nat)
    requires RecordsResult(env, c, order, 0, run) && q < |run.outcomes|
    ensures run.outcomes[q].Success? <==> run.result.Translated? && run.result.provider == q
    ensures run.result.Translated? ==> run.result.provider == |run.outcomes| - 1
  {
    hide TriedAs, GivenUp;
    assert 0 + q == q;
  }

  class Orchestrator {
    const registry: seq<string>
    const cfg: Config
    var providerHealth: map<string, real>
    ghost var history: Histories

    /** Every stored score is the one its provider's outcomes give. */
    ghost predicate Valid()
      reads this
    {
      providerHealth.Keys == history.Keys && forall n :: n in history ==> providerHealth[n] == Health(history[n])
    }

    constructor (registry: seq<string>, cfg: Config)
      ensures Valid() && this.registry == registry && this.cfg == cfg && history == map[]
    {
      this.registry, this.cfg := registry, cfg;
      providerHealth, history := map[], map[];
    }

    method CurrentProviderHealth(name: string) returns (score: real)
      requires Valid()
      ensures score == Score(providerHealth, name) == Health(HistoryOf(history, name))
    {
      ScoreIsHealth(name);
      if name !in providerHealth || providerHealth[name] <= 0.0 {
        return DEFAULT_SCORE;
      }
      score := providerHealth[name];
    }

    lemma {:induction false} ScoreIsHealth(name: string)
      requires Valid()
      ensures Score(providerHealth, name) == Health(HistoryOf(history, name))
    {
      if name in history {
        HealthInRange(history[name]);
      }
    }

    method UpdateProviderHealth(name: string, o: Outcome)
      requires Valid()
      modifies this
      ensures Valid()
      ensures providerHealth == old(providerHealth)[name := Health(old(HistoryOf(history, name)) + [o])]
      ensures history == old(history)[name := old(HistoryOf(history, name)) + [o]]
    {
      ghost var longer := HistoryOf(history, name) + [o];
      ScoreIsHealth(name);
      HealthInRange(HistoryOf(history, name));
      assert longer[..|longer| - 1] == HistoryOf(history, name);
      var current := if name in providerHealth then providerHealth[name] else 0.0;
      assert Health(longer) == Blend(current, o.Target());
      providerHealth := providerHealth[name := Blend(current, o.Target())];
      history := history[name := longer];
    }

    /** In the order of the next request, four failures in a row rank below four successes in a row. */
    lemma {:induction false} FailingTriedLater(i: nat, j: nat, failing: seq<Outcome>, f: seq<Outcome>,
                                               healthy: seq<Outcome>)
      requires Valid() && i < |Order(providerHealth, registry)| && j < |Order(providerHealth, registry)|
      requires Failures(f) && HistoryOf(history, Order(providerHealth, registry)[i]) == failing + f
      requires HistoryOf(history, Order(providerHealth, registry)[j]) == healthy + [Success, Success, Success, Success]
      ensures j < i
    {
      hide *;
      ScoreIsHealth(Order(providerHealth, registry)[i]);
      ScoreIsHealth(Order(providerHealth, registry)[j]);
      FailingAfterRecovering(providerHealth, registry, i, j, failing, f, healthy);
    }

    /**
     One request. The providers are tried in the order of the scores at its start, and every provider tried gets
     exactly one outcome recorded.
     */
    method Translate(env: Env) returns (result: Result, ghost calls: nat)
      requires Valid()
      modifies this
      ensures Valid()
      ensures var order := Order(old(providerHealth), registry);
              var run := TranslateFrom(env, cfg, order, 0, None);
              && result == run.result && calls == run.calls && |run.outcomes| <= |order|
              && history == Recorded(old(history), order, run.outcomes)
              && RecordsResult(env, cfg, order, 0, run)
              && forall q :: 0 <= q < |run.outcomes| ==>
                   (EndsInSuccess(history, order[q]) <==> result.Translated? && order[q] == order[result.provider])
    {
      var providerList := OrderedProvidersByHealth(providerHealth, registry);
      hide *;
      RequestRecords(env, cfg, providerList, history);
      ghost var run := TranslateFrom(env, cfg, providerList, 0, None);
      ghost var outcomes: seq<Outcome> := [];
      RunCalls(env, cfg, providerList, 0, None);
      ContinuesStart(run);
      RecordedNothing(history, providerList);
      calls := 0;
      if |providerList| == 0 {
        TranslateEnd(env, cfg, providerList, None);
        return NoProviders, 0;
      }
      var lastErr: Option<Error> := None;
      for pi := 0 to |providerList|
        invariant Valid() && |outcomes| == pi && (pi > 0 ==> lastErr.Some?)
        invariant history == Recorded(old(history), providerList, outcomes)
        invariant Continues(run, TranslateFrom(env, cfg, providerList, pi, lastErr), outcomes, calls)
      {
        TranslateUnfold(env, cfg, providerList, pi, lastErr);
        if env.cancelledBefore(pi) {
          ContinuesEnd(run, TranslateFrom(env, cfg, providerList, pi, lastErr), outcomes, calls);
          return Cancelled, calls;
        }
        var attempt, _ := TryProviderWithRetry(env, cfg, providerList[pi], pi);
        var outcome := OutcomeOf(env, attempt);
        RecordedSnoc(old(history), providerList, outcomes, outcome);
        UpdateProviderHealth(providerList[pi], outcome);
        if attempt.Done? {
          ContinuesStep(run, TranslateFrom(env, cfg, providerList, pi, lastErr),
                        Run(Translated(attempt.text, pi), [], 0), outcomes, outcome, calls, attempt.calls);
          ContinuesEnd(run, Run(Translated(attempt.text, pi), [], 0), outcomes + [outcome], calls + attempt.calls);
          return Translated(attempt.text, pi), calls + attempt.calls;
        }
        ContinuesStep(run, TranslateFrom(env, cfg, providerList, pi, lastErr),
                      TranslateFrom(env, cfg, providerList, pi + 1, Some(attempt.error)),
                      outcomes, outcome, calls, attempt.calls);
        outcomes := outcomes + [outcome];
        calls := calls + attempt.calls;
        lastErr := Some(attempt.error);
      }
      TranslateEnd(env, cfg, providerList, lastErr);
      ContinuesEnd(run, TranslateFrom(env, cfg, providerList, |providerList|, lastErr), outcomes, calls);
      result := AllExhausted(lastErr.value);
    }
  }

  lemma {:induction false} RequestRecords(env: Env, c: Config, order: seq<string>, history: Histories)
    ensures |TranslateFrom(env, c, order, 0, None).outcomes| <= |order|
    ensures var run := TranslateFrom(env, c, order, 0, None); var after := Recorded(history, order, run.outcomes);
            && RecordsResult(env, c, order, 0, run)
            && (run.result.Translated? ==> run.result.provider < |order|)
            && forall q :: 0 <= q < |run.outcomes| ==>
                 (EndsInSuccess(after, order[q]) <==>
                  run.result.Translated? && order[q] == order[run.result.provider])
  {
    hide *;
    RunRecordsResult(env, c, order, 0, None);
    var run := TranslateFrom(env, c, order, 0, None);
    RecordsLengths(env, c, order, run);
    forall q | 0 <= q < |run.outcomes|
      ensures EndsInSuccess(Recorded(history, order, run.outcomes), order[q]) <==>
              run.result.Translated? && order[q] == order[run.result.provider]
    {
      OnlyWinnerRises(env, c, order, run, history, q);
    }
  }

  lemma {:induction false} RecordsLengths(env: Env, c: Config, order: seq<string>, run: Run)
    requires RecordsResult(env, c, order, 0, run)
    ensures |run.outcomes| <= |order| && (run.result.Translated? ==> run.result.provider < |order|)
  {
    hide FailureRecorded;
  }

  // ---- Learning from requests ----------------------------------------------------------------------------

  /** What a request leaves: the order tried and the outcomes of the first of its providers. */
  datatype Request = Request(order: seq<string>, outcomes: seq<Outcome>)

  ghost predicate Sensible(r: Request) {
    |r.outcomes| <= |r.order| && Distinct(r.order)
  }

  /** The provider was tried, with or without success. */
  ghost predicate Got(r: Request, name: string, success: bool) {
    exists q :: 0 <= q < |r.outcomes| <= |r.order| && r.order[q] == name && r.outcomes[q].Success? == success
  }

  function AfterRequests(history: Histories, requests: seq<Request>): Histories
    requires forall k :: 0 <= k < |requests| ==> Sensible(requests[k])
  {
    if requests == [] then history
    else
      var last := requests[|requests| - 1];
      assert Sensible(last);
      Recorded(AfterRequests(history, requests[..|requests| - 1]), last.order, last.outcomes)
  }

  /** A provider tried in each of the requests has one outcome more for each, successes and failures as they came. */
  lemma {:induction false} TriedInAll(history: Histories, requests: seq<Request>, name: string, success: bool)
      returns (outcomes: seq<Outcome>)
    requires forall k :: 0 <= k < |requests| ==> Sensible(requests[k])
    requires forall k :: 0 <= k < |requests| ==> Got(requests[k], name, success)
    ensures |outcomes| == |requests| && forall k :: 0 <= k < |requests| ==> outcomes[k].Success? == success
    ensures HistoryOf(AfterRequests(history, requests), name) == HistoryOf(history, name) + outcomes
  {
    outcomes := [];
    if requests != [] {
      var front, last := requests[..|requests| - 1], requests[|requests| - 1];
      var before := TriedInAll(history, front, name, success);
      var q :| 0 <= q < |last.outcomes| && last.order[q] == name && last.outcomes[q].Success? == success;
      RecordedAt(AfterRequests(history, front), last.order, last.outcomes, q);
      hide Recorded, HistoryOf, Distinct;
      outcomes := before + [last.outcomes[q]];
      assert HistoryOf(history, name) + outcomes == HistoryOf(history, name) + before + [last.outcomes[q]];
    } else {
      assert HistoryOf(history, name) + [] == HistoryOf(history, name);
    }
  }

  /** Four requests in which one provider gave up and another's text was taken put the second before the first. */
  lemma {:induction false} FailoverLearns(o: Orchestrator, history: Histories, requests: seq<Request>, i: nat, j: nat)
    requires o.Valid() && |requests| == 4
    requires forall k :: 0 <= k < |requests| ==> Sensible(requests[k])
    requires o.history == AfterRequests(history, requests)
    requires var next := Order(o.providerHealth, o.registry);
             && i < |next| && j < |next|
             && forall k :: 0 <= k < 4 ==> Got(requests[k], next[i], false) && Got(requests[k], next[j], true)
    ensures j < i
  {
    hide *;
    var next := Order(o.providerHealth, o.registry);
    var f := TriedInAll(history, requests, next[i], false);
    var s := TriedInAll(history, requests, next[j], true);
    assert s == [Success, Success, Success, Success];
    FourFailures(f);
    o.FailingTriedLater(i, j, HistoryOf(history, next[i]), f, HistoryOf(history, next[j]));
  }

  lemma {:induction false} FourFailures(f: seq<Outcome>)
    requires |f| == 4 && forall k :: 0 <= k < 4 ==> f[k].Success? == false
    ensures Failures(f)
  {
  }

  lemma {:induction false} RecordedNothing(history: Histories, order: seq<string>)
    ensures Recorded(history, order, []) == history
  {
  }

  lemma {:induction false} RecordedSnoc(history: Histories, order: seq<string>, outcomes: seq<Outcome>, o: Outcome)
    requires |outcomes| < |order|
    ensures var before, name := Recorded(history, order, outcomes), order[|outcomes|];
            Recorded(history, order, outcomes + [o]) == before[name := HistoryOf(before, name) + [o]]
  {
    assert (outcomes + [o])[..|outcomes|] == outcomes;
  }

  lemma {:induction false} TranslateEnd(env: Env, c: Config, order: seq<string>, last: Option<Error>)
    ensures TranslateFrom(env, c, order, |order|, last) ==
              Run(if last.None? then NoProviders else AllExhausted(last.value), [], 0)
  {
  }

  lemma {:induction false} TranslateUnfold(env: Env, c: Config, order: seq<string>, pi: nat, last: Option<Error>)
    requires pi < |order|
    ensures env.cancelledBefore(pi) ==> TranslateFrom(env, c, order, pi, last) == Run(Cancelled, [], 0)
    ensures var t := TryFrom(env, c, order[pi], pi, 0, None);
            !env.cancelledBefore(pi) ==>
              TranslateFrom(env, c, order, pi, last) ==
              var rest := if t.Done? then Run(Translated(t.text, pi), [], 0)
                          else TranslateFrom(env, c, order, pi + 1, Some(t.error));
              Run(rest.result, [OutcomeOf(env, t)] + rest.outcomes, t.calls + rest.calls)
  {
    hide TryFrom;
  }

  /** What is still to run, after these outcomes and calls, completes the whole run. */
  ghost predicate Continues(whole: Run, rest: Run, outcomes: seq<Outcome>, calls: nat) {
    whole == Run(rest.result, outcomes + rest.outcomes, calls + rest.calls)
  }

  lemma {:induction false} ContinuesStart(whole: Run)
    ensures Continues(whole, whole, [], 0)
  {
    assert [] + whole.outcomes == whole.outcomes;
  }

  lemma {:induction false} ContinuesEnd(whole: Run, rest: Run, outcomes: seq<Outcome>, calls: nat)
    requires Continues(whole, rest, outcomes, calls) && rest.outcomes == [] && rest.calls == 0
    ensures whole == Run(rest.result, outcomes, calls)
  {
    assert outcomes + [] == outcomes;
  }

  lemma {:induction false} ContinuesStep(whole: Run, now: Run, rest: Run, outcomes: seq<Outcome>, o: Outcome,
                                         calls: nat, made: nat)
    requires Continues(whole, now, outcomes, calls)
    requires now == Run(rest.result, [o] + rest.outcomes, made + rest.calls)
    ensures Continues(whole, rest, outcomes + [o], calls + made)
  {
    assert outcomes + ([o] + rest.outcomes) == outcomes + [o] + rest.outcomes;
  }
}
