/**
 Fallback over OCR providers (backend/internal/services/ocr_provider_chain.go). What a provider answers is
 arbitrary; the PDF and the image loop differ only in the call and in what makes a result valid.
 */
module OcrChain {
  import opened Options
  import opened Text

  /** An OCR result; of the blocks only their number matters here. */
  datatype Result = Result(text: string, pages: seq<string>, blocks: nat, retries: int, provider: string,
                           engine: string)

  datatype Request = Request(engine: string, isPdf: bool)

  /** `Answer(None)` is a nil result without an error. */
  datatype Reply = Fails | Answer(result: Option<Result>)

  datatype Outcome = Found(result: Result) | NoProviders | BudgetExhausted | AllExhausted

  // ---- Providers for a request ----------------------------------------------------------------------

  /** unicode.ToLower, as far as ASCII letters can result from it. */
  function Lower(c: char): char {
    if 'A' <= c <= 'Z' then (c as int + 32) as char
    else if c == '\U{0130}' then 'i'
    else if c == '\U{212A}' then 'k'
    else c
  }

  function LowerAll(s: string): (lowered: string)
    ensures |lowered| == |s|
  {
    seq(|s|, i requires 0 <= i < |s| => Lower(s[i]))
  }

  function Requested(engine: string): string {
    LowerAll(TrimSpace(engine))
  }

  function Named(providers: seq<string>, name: string): seq<string> {
    if providers == [] then []
    else
      Named(providers[..|providers| - 1], name) +
      if providers[|providers| - 1] == name then [providers[|providers| - 1]] else []
  }

  function Others(providers: seq<string>, name: string): seq<string> {
    if providers == [] then []
    else
      Others(providers[..|providers| - 1], name) +
      if providers[|providers| - 1] != name then [providers[|providers| - 1]] else []
  }

  /** A known engine moves to the front; any other request keeps the configured order. */
  function ForRequest(providers: seq<string>, engine: string): seq<string> {
    var requested := Requested(engine);
    if requested != "paddle" && requested != "unlimited" then providers
    else Named(providers, requested) + Others(providers, requested)
  }

  method ProvidersForRequest(providers: seq<string>, engine: string) returns (ordered: seq<string>)
    ensures ordered == ForRequest(providers, engine)
  {
    hide Requested;
    var requested := Requested(engine);
    if requested != "paddle" && requested != "unlimited" {
      return providers;
    }
    ordered := [];
    for i := 0 to |providers|
      invariant ordered == Named(providers[..i], requested)
    {
      assert providers[..i + 1][..i] == providers[..i];
      if providers[i] == requested {
        ordered := ordered + [providers[i]];
      }
    }
    assert providers[..|providers|] == providers;
    for i := 0 to |providers|
      invariant ordered == Named(providers, requested) + Others(providers[..i], requested)
    {
      assert providers[..i + 1][..i] == providers[..i];
      if providers[i] != requested {
        ordered := ordered + [providers[i]];
      }
    }
  }

  lemma {:induction false} PartitionSnoc(front: seq<string>, last: string, name: string)
    ensures multiset(Named(front + [last], name)) + multiset(Others(front + [last], name))
            == multiset(Named(front, name)) + multiset(Others(front, name)) + multiset{last}
  {
    assert (front + [last])[..|front|] == front;
  }

  lemma {:induction false} PartitionPermutes(providers: seq<string>, name: string)
    ensures multiset(Named(providers, name) + Others(providers, name)) == multiset(providers)
  {
    if providers != [] {
      var front, last := providers[..|providers| - 1], providers[|providers| - 1];
      PartitionPermutes(front, name);
      PartitionSnoc(front, last, name);
      hide Named, Others;
      assert providers == front + [last];
    }
  }

  lemma {:induction false} NamedOnly(providers: seq<string>, name: string, n: string)
    ensures n in Named(providers, name) ==> n == name
    ensures n in Others(providers, name) ==> n != name
  {
    if providers != [] {
      NamedOnly(providers[..|providers| - 1], name, n);
    }
  }

  lemma {:induction false} NothingNamed(providers: seq<string>, name: string)
    requires name !in providers
    ensures Named(providers, name) == [] && Others(providers, name) == providers
  {
    if providers != [] {
      NothingNamed(providers[..|providers| - 1], name);
      assert providers == providers[..|providers| - 1] + [providers[|providers| - 1]];
    }
  }

  /** The names of `a` stand in `b` in the same order. */
  ghost predicate Subsequence(a: seq<string>, b: seq<string>) {
    || a == []
    || (b != []
        && (|| Subsequence(a, b[..|b| - 1])
            || (a[|a| - 1] == b[|b| - 1] && Subsequence(a[..|a| - 1], b[..|b| - 1]))))
  }

  lemma {:induction false} OthersInOrder(providers: seq<string>, name: string)
    ensures Subsequence(Others(providers, name), providers)
  {
    if providers != [] {
      var front, last := providers[..|providers| - 1], providers[|providers| - 1];
      OthersInOrder(front, name);
      assert last != name ==> (Others(front, name) + [last])[..|Others(front, name)|] == Others(front, name);
      assert Others(front, name) + [] == Others(front, name);
    }
  }

  /** The result of moving a known engine: its entries, then all others as they were configured. */
  ghost predicate MovedToFront(ordered: seq<string>, providers: seq<string>, name: string, k: nat) {
    && k <= |ordered|
    && (forall i :: 0 <= i < k ==> ordered[i] == name)
    && (forall i :: k <= i < |ordered| ==> ordered[i] != name)
    && Subsequence(ordered[k..], providers)
  }

  /** With the permutation, this leaves one order only. */
  lemma {:induction false} KeptInOrder(providers: seq<string>, engine: string)
    requires Requested(engine) in {"paddle", "unlimited"}
    ensures exists k :: MovedToFront(ForRequest(providers, engine), providers, Requested(engine), k)
  {
    var name := Requested(engine);
    hide Requested, Subsequence;
    OthersInOrder(providers, name);
    var named, others := Named(providers, name), Others(providers, name);
    forall n
      ensures (n in named ==> n == name) && (n in others ==> n != name)
    {
      NamedOnly(providers, name, n);
    }
    hide Named, Others;
    var ordered := named + others;
    assert ordered[|named|..] == others;
    assert forall i :: 0 <= i < |named| ==> ordered[i] in named;
    assert forall i :: |named| <= i < |ordered| ==> ordered[i] in others;
    assert MovedToFront(ordered, providers, name, |named|);
    assert ForRequest(providers, engine) == ordered;
  }

  /** Every provider is kept once; a requested engine that is configured comes first. */
  lemma {:induction false} ForRequestFacts(providers: seq<string>, engine: string)
    ensures multiset(ForRequest(providers, engine)) == multiset(providers)
    ensures |ForRequest(providers, engine)| == |providers|
    ensures Requested(engine) in {"paddle", "unlimited"} && Requested(engine) in providers ==>
              |providers| > 0 && ForRequest(providers, engine)[0] == Requested(engine)
    ensures Requested(engine) !in {"paddle", "unlimited"} || Requested(engine) !in providers ==>
              ForRequest(providers, engine) == providers
  {
    var requested := Requested(engine);
    hide Requested;
    PartitionPermutes(providers, requested);
    assert |multiset(ForRequest(providers, engine))| == |multiset(providers)|;
    if requested !in providers {
      NothingNamed(providers, requested);
    } else {
      hide Named, Others;
      var all := Named(providers, requested) + Others(providers, requested);
      assert requested in multiset(all);
      NamedOnly(providers, requested, requested);
      if Named(providers, requested) != [] {
        NamedOnly(providers, requested, Named(providers, requested)[0]);
      }
    }
  }

  // ---- The fallback loop ---------------------------------------------------------------------------------

  function EngineForProvider(provider: string): string {
    if provider == "tesseract" then "paddle" else provider
  }

  function EngineFor(request: Request, idx: nat, provider: string): string {
    if request.engine == "auto" && idx == 0 then "auto" else EngineForProvider(provider)
  }

  predicate Valid(reply: Reply, isPdf: bool) {
    reply.Answer? && reply.result.Some?
    && if isPdf then TrimSpace(reply.result.value.text) != "" || reply.result.value.pages != []
       else reply.result.value.blocks != 0
  }

  /** A document needs a word or a page, an image a block. */
  lemma {:induction false} ValidIff(result: Result, isPdf: bool)
    ensures Valid(Answer(Some(result)), isPdf) <==>
            if isPdf then Fields(result.text) != [] || |result.pages| > 0 else result.blocks > 0
    ensures !Valid(Fails, isPdf) && !Valid(Answer(None), isPdf)
  {
    TrimSpaceFields(result.text);
    hide TrimSpace, Fields;
  }

  /** Only the first provider of an automatic request chooses its engine; others are told, tesseract to stand in. */
  lemma {:induction false} EngineTold(request: Request, idx: nat, provider: string)
    ensures provider != "auto" ==>
              (EngineFor(request, idx, provider) == "auto" <==> request.engine == "auto" && idx == 0)
    ensures request.engine != "auto" || idx > 0 ==>
              EngineFor(request, idx, provider) == if provider == "tesseract" then "paddle" else provider
  {
  }

  /** What is handed on: provider and engine made to agree, the fallbacks added to the retries. */
  function Delivered(result: Result, provider: string, fallbacks: nat): Result {
    var engine := if result.engine == "" then provider else result.engine;
    result.(provider := engine, engine := engine, retries := result.retries + fallbacks)
  }

  type Answers = (nat, string, string) -> Reply

  function ReplyAt(answers: Answers, request: Request, providers: seq<string>, idx: nat): Reply
    requires idx < |providers|
  {
    answers(idx, providers[idx], EngineFor(request, idx, providers[idx]))
  }

  /** How many providers a request may try; a negative maximum means all. */
  function Budget(n: nat, maxFallbacks: int): nat {
    if maxFallbacks < 0 || n <= maxFallbacks then n else maxFallbacks + 1
  }

  ghost predicate NoneValid(answers: Answers, request: Request, providers: seq<string>, n: nat)
    requires n <= |providers|
  {
    forall k :: 0 <= k < n ==> !Valid(ReplyAt(answers, request, providers, k), request.isPdf)
  }

  /**
   The result is the first valid one within the budget, with its place added to the retries; no provider after it
   is called, and never more than the budget. Without one the request fails, and says whether providers were left.
   The check of the budget at the head of the loop never fires.
   */
  method ExtractWithFallback(answers: Answers, request: Request, configured: seq<string>, maxFallbacks: int)
      returns (outcome: Outcome, called: nat)
    ensures var providers := ForRequest(configured, request.engine);
            var budget := Budget(|providers|, maxFallbacks);
            && called <= budget <= |providers|
            && (outcome.NoProviders? <==> configured == [])
            && (outcome.Found? ==>
                  && called > 0 && NoneValid(answers, request, providers, called - 1)
                  && Valid(ReplyAt(answers, request, providers, called - 1), request.isPdf)
                  && outcome.result == Delivered(ReplyAt(answers, request, providers, called - 1).result.value,
                                                 providers[called - 1], called - 1))
            && (!outcome.Found? ==> called == budget && NoneValid(answers, request, providers, budget))
            && (outcome.BudgetExhausted? ==> budget < |providers|)
            && (outcome.AllExhausted? ==> budget == |providers| > 0)
  {
    ForRequestFacts(configured, request.engine);
    hide ForRequest, Requested, TrimSpace;
    called := 0;
    if configured == [] {
      return NoProviders, 0;
    }
    var providers := ProvidersForRequest(configured, request.engine);
    var retries := 0;
    var fallbacks := 0;
    for idx := 0 to |providers|
      invariant called == idx && called <= Budget(|providers|, maxFallbacks)
      invariant idx < |providers| ==> fallbacks == retries == idx && called < Budget(|providers|, maxFallbacks)
      invariant NoneValid(answers, request, providers, idx)
    {
      if maxFallbacks >= 0 && fallbacks > maxFallbacks {
        assert false;
      }
      var reply := answers(idx, providers[idx], EngineFor(request, idx, providers[idx]));
      called := called + 1;
      if !Valid(reply, request.isPdf) {
        if idx < |providers| - 1 && (maxFallbacks < 0 || fallbacks < maxFallbacks) {
          fallbacks := fallbacks + 1;
          retries := retries + 1;
        } else if idx < |providers| - 1 {
          return BudgetExhausted, called;
        }
        continue;
      }
      return Found(Delivered(reply.result.value, providers[idx], retries)), called;
    }
    outcome := AllExhausted;
  }

  /** Provider and engine of a delivered result agree, and both are named. */
  lemma {:induction false} DeliveredNames(result: Result, provider: string, fallbacks: nat)
    requires provider != ""
    ensures var d := Delivered(result, provider, fallbacks);
            && d.provider == d.engine != "" && d.retries - result.retries == fallbacks
            && (d.engine == provider || d.engine == result.engine)
  {
  }
}
