/**
 From chunk results to translated pages (backend/jobs/worker.go: the reassembly at the end of process), and what a
 finished run means for the document.
 */
module Reassembly {
  import opened Options
  import opened Text
  import Normalize
  import opened Chunking
  import opened ChunkTranslation
  import opened Interruptions
  import opened Checkpoints
  import opened BatchResults

  /** The units of the results, one result after the other. */
  function ResultUnits(results: seq<PageResult>): seq<Unit> {
    if results == [] then [] else ResultUnits(results[..|results| - 1]) + results[|results| - 1].units
  }

  function Errors(results: seq<PageResult>): nat {
    if results == [] then 0
    else Errors(results[..|results| - 1]) + if results[|results| - 1].error.Some? then 1 else 0
  }

  /** The texts of page `p`, in order. */
  function PartsOf(units: seq<Unit>, p: int): seq<string> {
    if units == [] then []
    else PartsOf(units[..|units| - 1], p) + if units[|units| - 1].pageIndex == p then [units[|units| - 1].text] else []
  }

  function PageTexts(units: seq<Unit>, pageCount: nat): seq<string> {
    seq(pageCount, p => TrimSpace(Join(PartsOf(units, p), " ")))
  }

  ghost predicate Unrecoverable(env: Env, results: seq<PageResult>) {
    exists i, t: nat ::
      0 <= i < |results| && results[i].error.Some? && (results[i].error.value.canceled || env.jobDone(t))
  }

  /** Some time at or after `now` the job is still running. */
  ghost predicate StillRunning(env: Env, now: nat) {
    exists t: nat :: t >= now && !env.jobDone(t)
  }

  /** What the reassembly of these results gives: None for an unrecoverable failure. */
  ghost predicate NoneCanceled(results: seq<PageResult>) {
    forall i :: 0 <= i < |results| && results[i].error.Some? ==> !results[i].error.value.canceled
  }

  ghost predicate Reassembled(env: Env, now: nat, results: seq<PageResult>, pageCount: nat,
                              out: Option<seq<string>>, degraded: nat) {
    match out
    case None => Unrecoverable(env, results)
    case Some(pages) =>
      && degraded == Errors(results) && pages == PageTexts(ResultUnits(results), pageCount)
      && (degraded > 0 ==> StillRunning(env, now)) && NoneCanceled(results)
  }

  /** A finished run: every unit of the document in one chunk, an honest result a chunk, and the reassembly. */
  ghost predicate Ended(P: Env -> bool, env: Env, now: nat, pages: seq<string>, budget: int, chunks: seq<Chunk>,
                        results: seq<PageResult>, out: Option<seq<string>>, degraded: nat) {
    && P(env)
    && DocumentUnits(Flatten(chunks), pages, budget) && (forall i :: 0 <= i < |chunks| ==> chunks[i].units != [])
    && AllHonest(P, env, now, chunks, results)
    && Reassembled(env, now, results, |pages|, out, degraded)
  }

  // ---- Parts of a page -----------------------------------------------------------------------

  lemma {:induction false} PartsOfSnoc(units: seq<Unit>, u: Unit, p: int)
    ensures PartsOf(units + [u], p) == PartsOf(units, p) + if u.pageIndex == p then [u.text] else []
  {
    assert (units + [u])[..|units|] == units;
  }

  lemma {:induction false} PartsOfConcat(a: seq<Unit>, b: seq<Unit>, p: int)
    ensures PartsOf(a + b, p) == PartsOf(a, p) + PartsOf(b, p)
  {
    assert PartsOf([], p) == [];
    hide *;
    if b == [] {
      assert a + b == a;
    } else {
      var front, u := b[..|b| - 1], b[|b| - 1];
      PartsOfConcat(a, front, p);
      PartsOfSnoc(a + front, u, p);
      PartsOfSnoc(front, u, p);
      assert b == front + [u];
      assert a + b == a + front + [u];
    }
  }

  lemma {:induction false} PartsOfWords(units: seq<Unit>, p: int)
    ensures AllFields(PartsOf(units, p)) == PageWords(units, p)
  {
    hide Fields;
    if units != [] {
      var front, u := units[..|units| - 1], units[|units| - 1];
      PartsOfWords(front, p);
      PageWordsConcat(front, [u], p);
      assert units == front + [u];
      assert PageWords([u], p) == (if u.pageIndex == p then Fields(u.text) else []) + PageWords([], p);
      if u.pageIndex == p {
        AllFieldsSnoc(PartsOf(front, p), u.text);
      } else {
        assert PartsOf(units, p) == PartsOf(front, p);
      }
    }
  }

  /** The words of a reassembled page are the words its units carry. */
  lemma {:induction false} PageTextWords(units: seq<Unit>, pageCount: nat, p: nat)
    requires p < pageCount
    ensures Fields(PageTexts(units, pageCount)[p]) == PageWords(units, p)
  {
    hide Fields, Join, TrimSpace;
    var parts := PartsOf(units, p);
    TrimSpaceFields(Join(parts, " "));
    FieldsOfJoin(parts, " ");
    PartsOfWords(units, p);
  }

  // ---- A unit-wise service ---------------------------------------------------------------------

  /** In every allowed environment the service translates unit by unit with `f`, and nothing is cancelled. */
  ghost predicate Cooperative(P: Env -> bool, f: string -> string) {
    forall e: Env :: P(e) ==> UnitWise(e, f) && Uncancelled(e)
  }

  function Mix(units: seq<Unit>, flags: seq<bool>, f: string -> string): seq<Unit>
    requires |flags| == |units|
  {
    seq(|units|, i requires 0 <= i < |units| => if flags[i] then Retexted(units[i], f(units[i].text)) else units[i])
  }

  /** Each page is, in order, the translation of the page's units; a unit of a degraded chunk stands for itself. */
  ghost predicate TranslationOf(out: seq<string>, pages: seq<string>, f: string -> string, complete: bool) {
    |out| == |pages| && exists units: seq<Unit>, flags: seq<bool>, budget: int ::
      |flags| == |units| && CanonicalUnits(units, budget) && UnitsCover(units, pages) && (complete ==> false !in flags)
      && forall p :: 0 <= p < |pages| ==> Fields(out[p]) == PageWords(Mix(units, flags, f), p)
  }

  /** Which units of the chunks were translated. */
  function Flags(chunks: seq<Chunk>, results: seq<PageResult>): seq<bool>
    requires |chunks| == |results|
  {
    if chunks == [] then []
    else
      var n := |chunks| - 1;
      Flags(chunks[..n], results[..n]) + seq(|chunks[n].units|, _ => results[n].error.None?)
  }

  lemma {:induction false} MixConcat(a: seq<Unit>, fa: seq<bool>, b: seq<Unit>, fb: seq<bool>, f: string -> string)
    requires |a| == |fa| && |b| == |fb|
    ensures Mix(a + b, fa + fb, f) == Mix(a, fa, f) + Mix(b, fb, f)
  {
    hide Retexted;
  }

  lemma {:induction false} HonestMix(P: Env -> bool, env: Env, now: nat, f: string -> string, units: seq<Unit>,
                                     r: PageResult)
    requires Honest(P, env, now, units, r) && Cooperative(P, f) && AllPlain(units)
    ensures r.units == Mix(units, seq(|units|, _ => r.error.None?), f)
  {
    hide UnitWise, Produced, Plain, Retexted;
    if r.error.None? {
      ProducedMapped(P, f, units, r.units);
    }
  }

  lemma {:induction false} AllPlainParts(a: seq<Unit>, b: seq<Unit>)
    requires AllPlain(a + b)
    ensures AllPlain(a) && AllPlain(b)
  {
    hide Plain;
    assert forall i :: 0 <= i < |a| ==> a[i] == (a + b)[i];
    assert forall i :: 0 <= i < |b| ==> b[i] == (a + b)[|a| + i];
  }

  /** Honest results of a cooperative service: each unit is its translation, or itself. */
  lemma {:induction false} ResultUnitsMix(P: Env -> bool, env: Env, now: nat, f: string -> string, chunks: seq<Chunk>,
                                          results: seq<PageResult>)
    requires AllHonest(P, env, now, chunks, results) && Cooperative(P, f) && AllPlain(Flatten(chunks))
    ensures |Flags(chunks, results)| == |Flatten(chunks)|
    ensures ResultUnits(results) == Mix(Flatten(chunks), Flags(chunks, results), f)
    ensures Errors(results) == 0 ==> false !in Flags(chunks, results)
  {
    hide Honest, Cooperative, AllPlain;
    if chunks != [] {
      var n := |chunks| - 1;
      var front, mine := Flatten(chunks[..n]), chunks[n].units;
      AllPlainParts(front, mine);
      ResultUnitsMix(P, env, now, f, chunks[..n], results[..n]);
      HonestMix(P, env, now, f, mine, results[n]);
      var flags := seq(|mine|, _ => results[n].error.None?);
      MixConcat(front, Flags(chunks[..n], results[..n]), mine, flags, f);
    }
  }

  /** Without cancellation no failure stops the reassembly. */
  lemma {:induction false} NoneUnrecoverable(P: Env -> bool, env: Env, now: nat, chunks: seq<Chunk>,
                                             results: seq<PageResult>)
    requires AllHonest(P, env, now, chunks, results) && Uncancelled(env)
    ensures !Unrecoverable(env, results)
  {
    hide Produced, GaveUp;
    forall i, t: nat | 0 <= i < |results| && results[i].error.Some?
      ensures !(results[i].error.value.canceled || env.jobDone(t))
    {
      assert Honest(P, env, now, chunks[i].units, results[i]);
    }
  }

  lemma {:induction false} CanonicalPlain(units: seq<Unit>, budget: int)
    requires CanonicalUnits(units, budget)
    ensures AllPlain(units)
  {
    hide Fields, Join, TrimSpace;
    forall i | 0 <= i < |units|
      ensures Plain(units[i].text)
    {
      var text := units[i].text;
      assert CanonicalUnit(units[i], budget);
      FieldsAreWords(text);
      assert Normalize.Collapsed(text);
      Normalize.CollapsedFacts(text);
      TrimSpaceNoop(text);
    }
  }

  /** A unit-wise service ends with every page made of its units, each translated or, in a degraded chunk, as it was. */
  lemma {:induction false} EndedTranslation(P: Env -> bool, env: Env, now: nat, pages: seq<string>, budget: int,
                                            chunks: seq<Chunk>, results: seq<PageResult>, out: Option<seq<string>>,
                                            degraded: nat, f: string -> string)
    requires Ended(P, env, now, pages, budget, chunks, results, out, degraded) && Cooperative(P, f)
    ensures out.Some? && TranslationOf(out.value, pages, f, degraded == 0)
  {
    hide Fields, Join, TrimSpace, Honest, CanonicalUnits, UnitsCover, CutsFull, UnitWise, Uncancelled;
    NoneUnrecoverable(P, env, now, chunks, results);
    var units := Flatten(chunks);
    CanonicalPlain(units, budget);
    hide AllPlain, Unrecoverable, PageTexts, StillRunning;
    ResultUnitsMix(P, env, now, f, chunks, results);
    var flags := Flags(chunks, results);
    hide Flags, Errors, Mix, ResultUnits, Cooperative, AllHonest, Flatten;
    forall p | 0 <= p < |pages|
      ensures Fields(PageTexts(ResultUnits(results), |pages|)[p]) == PageWords(Mix(units, flags, f), p)
    {
      PageTextWords(ResultUnits(results), |pages|, p);
    }
  }

  // ---- A service that echoes -------------------------------------------------------------------------

  /** The text asked for, or a combined text with altered separators, in another number of pieces. */
  ghost predicate Echoed(s: string, answer: string) {
    answer == s || (|Split(s, CHUNK_SEP)| > 1 && |Split(answer, CHUNK_SEP)| != |Split(s, CHUNK_SEP)|)
  }

  /** Each answer echoes the text asked for; whatever fails can be recovered from. */
  ghost predicate Echoes(env: Env) {
    (forall t: nat, s: string :: env.reply(t, s).Ok? ==> Echoed(s, env.reply(t, s).text)) && Uncancelled(env)
  }

  function Same(s: string): string { s }

  /** Each output page has the words of its page, in order. */
  ghost predicate KeepsWords(out: seq<string>, pages: seq<string>) {
    |out| == |pages| && forall p :: 0 <= p < |pages| ==> Fields(out[p]) == Fields(pages[p])
  }

  lemma {:induction false} EchoIsUnitWise(env: Env)
    requires Echoes(env)
    ensures UnitWise(env, Same)
  {
    hide Join, Split, TrimSpace, Uncancelled;
    forall t: nat, texts: seq<string> | texts != [] && forall i :: 0 <= i < |texts| ==> Plain(texts[i])
      ensures var r := env.reply(t, Join(texts, CHUNK_SEP)); r.Ok? ==> AnswersBy(Same, texts, r.text)
    {
      SplitOfJoin(texts, CHUNK_SEP);
      assert |texts| == 1 ==> Join(texts, CHUNK_SEP) == texts[0] by { JoinOne(texts); }
    }
  }

  lemma {:induction false} JoinOne(texts: seq<string>)
    ensures |texts| == 1 ==> Join(texts, CHUNK_SEP) == texts[0]
  {
  }

  lemma {:induction false} MixOfSame(units: seq<Unit>, flags: seq<bool>, budget: int)
    requires |flags| == |units| && CanonicalUnits(units, budget)
    ensures Mix(units, flags, Same) == units
  {
    hide Fields;
    forall i | 0 <= i < |units|
      ensures Mix(units, flags, Same)[i] == units[i]
    {
      assert CanonicalUnit(units[i], budget);
      assert Same(units[i].text) == units[i].text;
      assert Retexted(units[i], Same(units[i].text)) == units[i];
    }
  }

  /** Whatever fails, times out, is split or reused: an echoing service ends with the words of every page. */
  lemma {:induction false} EndedEcho(P: Env -> bool, env: Env, now: nat, pages: seq<string>, budget: int,
                                     chunks: seq<Chunk>, results: seq<PageResult>, out: Option<seq<string>>,
                                     degraded: nat)
    requires Ended(P, env, now, pages, budget, chunks, results, out, degraded)
    requires forall e: Env :: P(e) ==> Echoes(e)
    ensures out.Some? && KeepsWords(out.value, pages)
  {
    hide UnitWise, Ended, Fields;
    forall e: Env | P(e)
      ensures UnitWise(e, Same) && Uncancelled(e)
    {
      EchoIsUnitWise(e);
    }
    assert Cooperative(P, Same);
    EndedTranslation(P, env, now, pages, budget, chunks, results, out, degraded, Same);
    hide Cooperative, Uncancelled;
    var units: seq<Unit>, flags: seq<bool>, b: int :|
      |flags| == |units| && CanonicalUnits(units, b) && UnitsCover(units, pages)
      && forall p :: 0 <= p < |pages| ==> Fields(out.value[p]) == PageWords(Mix(units, flags, Same), p);
    MixOfSame(units, flags, b);
  }

  // ---- A service that answers by text ------------------------------------------------------------------

  /** The units a chunk ends with when nothing interrupts it: its translation, or itself. */
  function Expected(f: string -> Reply, units: seq<Unit>): seq<Unit> {
    if units == [] then []
    else
      match Settled(f, units)
      case Translated(out) => out
      case Failed(_) => units
  }

  function ExpectedUnits(f: string -> Reply, chunks: seq<Chunk>): seq<Unit> {
    if chunks == [] then []
    else ExpectedUnits(f, chunks[..|chunks| - 1]) + Expected(f, chunks[|chunks| - 1].units)
  }

  function ExpectedFailures(f: string -> Reply, chunks: seq<Chunk>): nat {
    if chunks == [] then 0
    else
      var last := chunks[|chunks| - 1].units;
      ExpectedFailures(f, chunks[..|chunks| - 1]) + if last != [] && Settled(f, last).Failed? then 1 else 0
  }

  ghost predicate AllAttempts(P: Env -> bool, f: string -> Reply) {
    forall e: Env :: P(e) ==> Attempt(e, f)
  }

  /** Reused or fresh, in an attempt that does not end too early a result is what the chunk alone determines. */
  lemma {:induction false} HonestSettled(P: Env -> bool, env: Env, now: nat, f: string -> Reply, units: seq<Unit>,
                                         r: PageResult)
    requires Honest(P, env, now, units, r) && units != [] && P(env) && AllAttempts(P, f)
    requires r.error.Some? ==> StillRunning(env, now)
    ensures r.units == Expected(f, units) && (r.error.Some? <==> Settled(f, units).Failed?)
  {
    hide ChunkResult, Settled, ByText;
    assert Attempt(env, f);
    if r.error.None? {
      ProducedSettled(P, f, units, r.units);
    } else {
      var late: nat :| late >= now && !env.jobDone(late);
      var m: Meter :| FailedBy(env, now, m, units);
      ChunkSettled(env, f, m, units);
    }
  }

  lemma {:induction false} ResultsSettled(P: Env -> bool, env: Env, now: nat, f: string -> Reply, chunks: seq<Chunk>,
                                          results: seq<PageResult>)
    requires AllHonest(P, env, now, chunks, results) && P(env) && AllAttempts(P, f)
    requires forall i :: 0 <= i < |chunks| ==> chunks[i].units != []
    requires Errors(results) > 0 ==> StillRunning(env, now)
    ensures ResultUnits(results) == ExpectedUnits(f, chunks) && Errors(results) == ExpectedFailures(f, chunks)
  {
    hide Honest, AllAttempts, StillRunning, Settled, Expected;
    if chunks != [] {
      var n := |chunks| - 1;
      ResultsSettled(P, env, now, f, chunks[..n], results[..n]);
      HonestSettled(P, env, now, f, chunks[n].units, results[n]);
    }
  }

  /** The pages are what the chunks alone determine, and so is the number of degraded chunks. */
  ghost predicate SettledPages(f: string -> Reply, pages: seq<string>, budget: int, chunks: seq<Chunk>,
                               out: seq<string>, degraded: nat) {
    && DocumentUnits(Flatten(chunks), pages, budget)
    && out == PageTexts(ExpectedUnits(f, chunks), |pages|) && degraded == ExpectedFailures(f, chunks)
  }

  /** So checkpoints of earlier attempts, interrupted or not, never show in the pages of a job. */
  lemma {:induction false} EndedSettled(P: Env -> bool, env: Env, now: nat, pages: seq<string>, budget: int,
                                        chunks: seq<Chunk>, results: seq<PageResult>, out: Option<seq<string>>,
                                        degraded: nat, f: string -> Reply)
    requires Ended(P, env, now, pages, budget, chunks, results, out, degraded) && AllAttempts(P, f) && out.Some?
    ensures SettledPages(f, pages, budget, chunks, out.value, degraded)
  {
    hide Honest, AllAttempts, StillRunning, Settled, Expected, DocumentUnits, PageTexts;
    ResultsSettled(P, env, now, f, chunks, results);
  }

  /**
   Two runs of a job over the same chunks, whatever their stores held and whichever attempts filled them, give the
   same units a chunk and the same pages.
   */
  lemma {:induction false} StoreDoesNotShow(P: Env -> bool, env: Env, now: nat, results: seq<PageResult>,
                                            out: Option<seq<string>>, degraded: nat,
                                            Q: Env -> bool, env': Env, now': nat, results': seq<PageResult>,
                                            out': Option<seq<string>>, degraded': nat,
                                            pages: seq<string>, budget: int, chunks: seq<Chunk>, f: string -> Reply)
    requires Ended(P, env, now, pages, budget, chunks, results, out, degraded) && AllAttempts(P, f) && out.Some?
    requires Ended(Q, env', now', pages, budget, chunks, results', out', degraded') && AllAttempts(Q, f) && out'.Some?
    ensures out == out' && degraded == degraded'
    ensures forall i :: 0 <= i < |chunks| ==> results[i].units == results'[i].units
  {
    EndedSettled(P, env, now, pages, budget, chunks, results, out, degraded, f);
    EndedSettled(Q, env', now', pages, budget, chunks, results', out', degraded', f);
    hide Honest, AllAttempts, Settled, Expected, DocumentUnits, PageTexts, StillRunning;
    forall i | 0 <= i < |chunks|
      ensures results[i].units == results'[i].units
    {
      EndedSettledAt(P, env, now, pages, budget, chunks, results, out, degraded, f, i);
      EndedSettledAt(Q, env', now', pages, budget, chunks, results', out', degraded', f, i);
    }
  }

  lemma {:induction false} EndedSettledAt(P: Env -> bool, env: Env, now: nat, pages: seq<string>, budget: int,
                                          chunks: seq<Chunk>, results: seq<PageResult>, out: Option<seq<string>>,
                                          degraded: nat, f: string -> Reply, i: nat)
    requires Ended(P, env, now, pages, budget, chunks, results, out, degraded) && AllAttempts(P, f) && out.Some?
    requires i < |chunks|
    ensures i < |results| && results[i].units == Expected(f, chunks[i].units)
  {
    hide Honest, AllAttempts, Settled, Expected, DocumentUnits, PageTexts, StillRunning;
    if results[i].error.Some? {
      ErrorsAt(results, i);
    }
    HonestSettled(P, env, now, f, chunks[i].units, results[i]);
  }

  lemma {:induction false} ErrorsAt(results: seq<PageResult>, i: nat)
    requires i < |results| && results[i].error.Some?
    ensures Errors(results) > 0
  {
    if i < |results| - 1 {
      ErrorsAt(results[..|results| - 1], i);
    }
  }
}
