/**
 One page window sent to the Unlimited OCR sidecar: _request_unlimited_window in ocr-service/app.py on
 top of request_unlimited_pdf in ocr-service/unlimited_ocr.py. The sidecar is an arbitrary function of
 the number of the call and the request.
 */
module PageRequest {
  import opened Options
  import opened PageText

  datatype Image = Image(width: nat, height: nat, pixels: string)

  datatype Entry = Entry(page: int, text: string)

  /** `answer` is None where the call raises. */
  datatype Sidecar = Sidecar(
    enabled: bool,
    answer: (nat, seq<Image>, seq<int>) -> Option<string>,
    degenerate: string -> bool)

  /** What a request gave, None for an exception, and the number of sidecar calls up to then. */
  datatype Pass = Pass(entries: Option<seq<Entry>>, calls: nat)

  /** Python's zip: the longer argument is cut. */
  function Zip(numbers: seq<int>, texts: seq<string>): (entries: seq<Entry>)
    ensures |entries| == if |numbers| <= |texts| then |numbers| else |texts|
    ensures forall i :: 0 <= i < |entries| ==> entries[i] == Entry(numbers[i], texts[i])
  {
    seq(if |numbers| <= |texts| then |numbers| else |texts|,
        i requires 0 <= i < |numbers| && i < |texts| => Entry(numbers[i], texts[i]))
  }

  function PageNumbers(entries: seq<Entry>): seq<int> {
    seq(|entries|, i requires 0 <= i < |entries| => entries[i].page)
  }

  /** request_unlimited_pdf */
  function Request(s: Sidecar, calls: nat, images: seq<Image>, numbers: seq<int>, strict: bool): Pass {
    if |images| != |numbers| || !s.enabled then Pass(None, calls)
    else
      match s.answer(calls, images, numbers)
      case None => Pass(None, calls + 1)
      case Some(raw) =>
        var texts := SplitPages(raw);
        if strict && |texts| != |images| then Pass(None, calls + 1)
        else Pass(Some(Zip(numbers, texts)), calls + 1)
  }

  /** Python's dict(zip(numbers, images)). */
  function ByPage(images: seq<Image>, numbers: seq<int>): (m: map<int, Image>)
    requires |images| == |numbers|
    ensures forall i :: 0 <= i < |numbers| ==> numbers[i] in m
  {
    if numbers == [] then map[]
    else
      var last := |numbers| - 1;
      ByPage(images[..last], numbers[..last])[numbers[last] := images[last]]
  }

  ghost predicate NumbersIn(pages: seq<Entry>, m: map<int, Image>) {
    forall i :: 0 <= i < |pages| ==> pages[i].page in m
  }

  /** One request after another: the first exception ends it. */
  function Then(first: Pass, second: Pass): Pass {
    if first.entries.None? then first
    else if second.entries.None? then second
    else Pass(Some(first.entries.value + second.entries.value), second.calls)
  }

  /** A page of a larger window whose text collapsed is asked for once more, alone. */
  function RetryOne(s: Sidecar, calls: nat, m: map<int, Image>, page: Entry, alone: bool): Pass
    requires page.page in m
  {
    if !alone && s.degenerate(page.text) then
      var single := Request(s, calls, [m[page.page]], [page.page], false);
      match single.entries
      case None => single
      case Some(entries) =>
        var text := if entries != [] && !s.degenerate(entries[0].text) then entries[0].text else page.text;
        Pass(Some([Entry(page.page, text)]), single.calls)
    else
      Pass(Some([page]), calls)
  }

  ghost function Retried(s: Sidecar, calls: nat, m: map<int, Image>, pages: seq<Entry>, k: nat): Pass
    requires k <= |pages| && NumbersIn(pages, m)
  {
    if k == 0 then Pass(Some([]), calls)
    else
      var before := Retried(s, calls, m, pages, k - 1);
      Then(before, RetryOne(s, before.calls, m, pages[k - 1], |pages| == 1))
  }

  /** _request_unlimited_window as a function of the sidecar's behaviour. */
  ghost function WindowPass(s: Sidecar, calls: nat, images: seq<Image>, numbers: seq<int>): Pass
    decreases |images|
  {
    if images == [] then Pass(Some([]), calls)
    else
      var first := Request(s, calls, images, numbers, false);
      if first.entries.None? then first
      else if |first.entries.value| == |images| then
        Retried(s, first.calls, ByPage(images, numbers), first.entries.value, |images|)
      else if |images| == 1 then
        Pass(Some([Entry(numbers[0], "")]), first.calls)
      else
        var mid := |images| / 2;
        var left := WindowPass(s, first.calls, images[..mid], numbers[..mid]);
        Then(left, WindowPass(s, left.calls, images[mid..], numbers[mid..]))
  }

  ghost predicate Splits(s: Sidecar, calls: nat, images: seq<Image>, numbers: seq<int>) {
    var first := Request(s, calls, images, numbers, false);
    |images| > 1 && first.entries.Some? && |first.entries.value| != |images|
  }

  /** A window is split exactly when more than one page was asked for and fewer came back. */
  lemma {:induction false} WindowSplits(s: Sidecar, calls: nat, images: seq<Image>, numbers: seq<int>)
    requires |images| == |numbers| && Splits(s, calls, images, numbers)
    ensures |images| > 1
    ensures var mid := |images| / 2;
            var left := WindowPass(s, calls + 1, images[..mid], numbers[..mid]);
            && WindowPass(s, calls, images, numbers) ==
              Then(left, WindowPass(s, left.calls, images[mid..], numbers[mid..]))
            && |Request(s, calls, images, numbers, false).entries.value| < |images|
  {
    hide Then, Retried;
  }

  /** An answer with too many texts is cut, not retried: only missing texts split a window. */
  lemma {:induction false} SplitsIff(s: Sidecar, calls: nat, images: seq<Image>, numbers: seq<int>)
    requires |images| == |numbers|
    ensures Splits(s, calls, images, numbers) <==>
            && |images| > 1 && s.enabled && s.answer(calls, images, numbers).Some?
            && |SplitPages(s.answer(calls, images, numbers).value)| < |images|
  {
    hide SplitPages;
  }

  /** Otherwise one request is made, and its degenerate pages are retried. */
  lemma {:induction false} WindowAtOnce(s: Sidecar, calls: nat, images: seq<Image>, numbers: seq<int>)
    requires |images| == |numbers| && images != [] && !Splits(s, calls, images, numbers)
    ensures var first := Request(s, calls, images, numbers, false);
            WindowPass(s, calls, images, numbers) ==
            if first.entries.None? then first
            else if |first.entries.value| == |images| then
              Retried(s, first.calls, ByPage(images, numbers), first.entries.value, |images|)
            else Pass(Some([Entry(numbers[0], "")]), first.calls)
  {
  }

  method RequestWindow(s: Sidecar, calls: nat, images: seq<Image>, numbers: seq<int>) returns (result: Pass)
    ensures result == WindowPass(s, calls, images, numbers)
    decreases |images|
  {
    if images == [] {
      return Pass(Some([]), calls);
    }
    var first := Request(s, calls, images, numbers, false);
    if first.entries.None? {
      return first;
    }
    var pages := first.entries.value;
    if |pages| == |images| {
      result := RetryDegenerate(s, first.calls, ByPage(images, numbers), pages);
      return;
    }
    if |images| == 1 {
      return Pass(Some([Entry(numbers[0], "")]), first.calls);
    }
    var midpoint := |images| / 2;
    var left := RequestWindow(s, first.calls, images[..midpoint], numbers[..midpoint]);
    if left.entries.None? {
      return left;
    }
    var right := RequestWindow(s, left.calls, images[midpoint..], numbers[midpoint..]);
    if right.entries.None? {
      return right;
    }
    result := Pass(Some(left.entries.value + right.entries.value), right.calls);
  }

  method RetryDegenerate(s: Sidecar, calls: nat, imagesByPage: map<int, Image>, pages: seq<Entry>)
      returns (result: Pass)
    requires NumbersIn(pages, imagesByPage)
    ensures result == Retried(s, calls, imagesByPage, pages, |pages|)
  {
    var adjusted: seq<Entry> := [];
    var made := calls;
    for k := 0 to |pages|
      invariant Retried(s, calls, imagesByPage, pages, k) == Pass(Some(adjusted), made)
    {
      var text := pages[k].text;
      if |pages| > 1 && s.degenerate(text) {
        var single := Request(s, made, [imagesByPage[pages[k].page]], [pages[k].page], false);
        if single.entries.None? {
          RetriedFailed(s, calls, imagesByPage, pages, k + 1, |pages|);
          return single;
        }
        made := single.calls;
        if single.entries.value != [] && !s.degenerate(single.entries.value[0].text) {
          text := single.entries.value[0].text;
        }
      }
      adjusted := adjusted + [Entry(pages[k].page, text)];
    }
    result := Pass(Some(adjusted), made);
  }

  lemma {:induction false} RetriedFailed(s: Sidecar, calls: nat, m: map<int, Image>, pages: seq<Entry>, k: nat, n: nat)
    requires k <= n <= |pages| && NumbersIn(pages, m)
    requires Retried(s, calls, m, pages, k).entries.None?
    ensures Retried(s, calls, m, pages, n) == Retried(s, calls, m, pages, k)
  {
    if k < n {
      RetriedFailed(s, calls, m, pages, k, n - 1);
    }
  }

  // ---- Shape and cost ------------------------------------------------------------------------

  /** The one replacement made: a readable page for a degenerate one. */
  predicate Improves(s: Sidecar, before: Entry, after: Entry) {
    after == before || (after.page == before.page && s.degenerate(before.text) && !s.degenerate(after.text))
  }

  ghost predicate AllImprove(s: Sidecar, before: seq<Entry>, after: seq<Entry>) {
    |before| == |after| && forall i :: 0 <= i < |after| ==> Improves(s, before[i], after[i])
  }

  /** A retry never puts a degenerate text in the place of another. */
  lemma {:induction false} RetriedShape(s: Sidecar, calls: nat, m: map<int, Image>, pages: seq<Entry>, k: nat)
    requires k <= |pages| && NumbersIn(pages, m)
    ensures var r := Retried(s, calls, m, pages, k);
            && calls <= r.calls <= calls + (if |pages| > 1 then k else 0)
            && (r.entries.Some? ==> AllImprove(s, pages[..k], r.entries.value))
  {
    if k > 0 {
      RetriedShape(s, calls, m, pages, k - 1);
      assert pages[..k] == pages[..k - 1] + [pages[k - 1]];
      hide SplitPages, Retried;
      assert Retried(s, calls, m, pages, k) ==
             Then(Retried(s, calls, m, pages, k - 1),
                  RetryOne(s, Retried(s, calls, m, pages, k - 1).calls, m, pages[k - 1], |pages| == 1)) by {
        RetriedUnfold(s, calls, m, pages, k);
      }
    }
  }

  lemma {:induction false} RetriedUnfold(s: Sidecar, calls: nat, m: map<int, Image>, pages: seq<Entry>, k: nat)
    requires 0 < k <= |pages| && NumbersIn(pages, m)
    ensures var before := Retried(s, calls, m, pages, k - 1);
            Retried(s, calls, m, pages, k) == Then(before, RetryOne(s, before.calls, m, pages[k - 1], |pages| == 1))
  {
  }

  /** How many of the first `k` pages collapsed. */
  function Collapsed(s: Sidecar, pages: seq<Entry>, k: nat): nat
    requires k <= |pages|
  {
    if k == 0 then 0 else Collapsed(s, pages, k - 1) + if s.degenerate(pages[k - 1].text) then 1 else 0
  }

  /** What page `k` of a larger window ends as: a collapsed one as the readable first text of its own request. */
  ghost predicate RetriedTo(s: Sidecar, calls: nat, m: map<int, Image>, page: Entry, after: Entry)
    requires page.page in m
  {
    && after.page == page.page
    && if !s.degenerate(page.text) then after.text == page.text
       else
         var raw := s.answer(calls, [m[page.page]], [page.page]);
         && raw.Some?
         && var texts := SplitPages(raw.value);
            after.text == if texts != [] && !s.degenerate(texts[0]) then texts[0] else page.text
  }

  lemma {:induction false} RetryOneUsed(s: Sidecar, calls: nat, m: map<int, Image>, page: Entry)
    requires page.page in m && RetryOne(s, calls, m, page, false).entries.Some?
    ensures var r := RetryOne(s, calls, m, page, false);
            && |r.entries.value| == 1 && RetriedTo(s, calls, m, page, r.entries.value[0])
            && r.calls == calls + if s.degenerate(page.text) then 1 else 0
  {
    hide SplitPages;
  }

  ghost predicate AllRetriedTo(s: Sidecar, calls: nat, m: map<int, Image>, pages: seq<Entry>, k: nat, after: seq<Entry>)
    requires k <= |pages| && NumbersIn(pages, m)
  {
    |after| == k && forall i :: 0 <= i < k ==> RetriedTo(s, calls + Collapsed(s, pages, i), m, pages[i], after[i])
  }

  /** Each collapsed page is asked for once more, and a readable answer to that is used. */
  lemma {:induction false} RetryUsed(s: Sidecar, calls: nat, m: map<int, Image>, pages: seq<Entry>, k: nat)
    requires k <= |pages| && |pages| > 1 && NumbersIn(pages, m) && Retried(s, calls, m, pages, k).entries.Some?
    ensures var r := Retried(s, calls, m, pages, k);
            r.calls == calls + Collapsed(s, pages, k) && AllRetriedTo(s, calls, m, pages, k, r.entries.value)
  {
    hide *;
    if k == 0 {
      NothingRetried(s, calls, m, pages);
    } else {
      PageIn(pages, m, k - 1);
      RetriedUnfold(s, calls, m, pages, k);
      var before := Retried(s, calls, m, pages, k - 1);
      var one := RetryOne(s, before.calls, m, pages[k - 1], false);
      ThenBoth(before, one);
      RetryUsed(s, calls, m, pages, k - 1);
      RetryOneUsed(s, before.calls, m, pages[k - 1]);
      CollapsedSnoc(s, pages, k);
      RetriedSnoc(s, calls, m, pages, k, before.entries.value, one.entries.value);
    }
  }

  lemma {:induction false} PageIn(pages: seq<Entry>, m: map<int, Image>, k: nat)
    requires NumbersIn(pages, m) && k < |pages|
    ensures pages[k].page in m
  {
  }

  lemma {:induction false} ThenBoth(p: Pass, q: Pass)
    requires Then(p, q).entries.Some?
    ensures p.entries.Some? && q.entries.Some?
    ensures Then(p, q) == Pass(Some(p.entries.value + q.entries.value), q.calls)
  {
  }

  lemma {:induction false} RetriedSnoc(s: Sidecar, calls: nat, m: map<int, Image>, pages: seq<Entry>, k: nat,
                                       before: seq<Entry>, one: seq<Entry>)
    requires 0 < k <= |pages| && NumbersIn(pages, m) && AllRetriedTo(s, calls, m, pages, k - 1, before)
    requires |one| == 1
    requires RetriedTo(s, calls + Collapsed(s, pages, k - 1), m, pages[k - 1], one[0])
    ensures AllRetriedTo(s, calls, m, pages, k, before + one)
  {
    hide RetriedTo, Collapsed;
    var after := before + one;
    forall i | 0 <= i < k
      ensures RetriedTo(s, calls + Collapsed(s, pages, i), m, pages[i], after[i])
    {
      assert i < k - 1 ==> after[i] == before[i];
    }
  }

  lemma {:induction false} CollapsedSnoc(s: Sidecar, pages: seq<Entry>, k: nat)
    requires 0 < k <= |pages|
    ensures Collapsed(s, pages, k) == Collapsed(s, pages, k - 1) + if s.degenerate(pages[k - 1].text) then 1 else 0
  {
  }

  lemma {:induction false} NothingRetried(s: Sidecar, calls: nat, m: map<int, Image>, pages: seq<Entry>)
    requires NumbersIn(pages, m)
    ensures Retried(s, calls, m, pages, 0) == Pass(Some([]), calls) && Collapsed(s, pages, 0) == 0
    ensures AllRetriedTo(s, calls, m, pages, 0, [])
  {
  }

  lemma {:induction false} ImprovedNumbers(s: Sidecar, before: seq<Entry>, after: seq<Entry>)
    requires AllImprove(s, before, after)
    ensures PageNumbers(after) == PageNumbers(before)
  {
  }

  lemma {:induction false} PageNumbersConcat(a: seq<Entry>, b: seq<Entry>)
    ensures PageNumbers(a + b) == PageNumbers(a) + PageNumbers(b)
  {
  }

  /** A request that does not raise costs one call, and never gives more entries than pages. */
  lemma {:induction false} RequestShape(s: Sidecar, calls: nat, images: seq<Image>, numbers: seq<int>)
    requires |images| == |numbers|
    ensures var r := Request(s, calls, images, numbers, false);
            && calls <= r.calls <= calls + 1
            && (r.entries.Some? ==>
                r.calls == calls + 1 && |r.entries.value| <= |images| && PageNumbers(r.entries.value) <= numbers)
  {
    hide SplitPages;
  }

  /** What a pass over the pages `numbers` promises: their entries in order, at a cost of at most 2n - 1 calls. */
  ghost predicate PassFits(calls: nat, numbers: seq<int>, p: Pass) {
    && calls <= p.calls <= calls + (if numbers == [] then 0 else 2 * |numbers| - 1)
    && (p.entries.Some? ==> PageNumbers(p.entries.value) == numbers)
  }

  lemma {:induction false} ThenFits(calls: nat, a: seq<int>, p: Pass, b: seq<int>, q: Pass)
    requires a != [] && b != [] && PassFits(calls + 1, a, p) && PassFits(p.calls, b, q)
    ensures PassFits(calls, a + b, Then(p, q))
  {
    if p.entries.Some? && q.entries.Some? {
      PageNumbersConcat(p.entries.value, q.entries.value);
    }
  }

  lemma {:induction false} RetriedFits(s: Sidecar, calls: nat, images: seq<Image>, numbers: seq<int>)
    requires |images| == |numbers| && images != [] && !Splits(s, calls, images, numbers)
    ensures PassFits(calls, numbers, WindowPass(s, calls, images, numbers))
  {
    RequestShape(s, calls, images, numbers);
    WindowAtOnce(s, calls, images, numbers);
    hide WindowPass;
    var first, n := Request(s, calls, images, numbers, false), |images|;
    hide Request;
    if first.entries.Some? && |first.entries.value| == n {
      var r := Retried(s, first.calls, ByPage(images, numbers), first.entries.value, n);
      RetriedShape(s, first.calls, ByPage(images, numbers), first.entries.value, n);
      if r.entries.Some? {
        assert first.entries.value[..n] == first.entries.value;
        ImprovedNumbers(s, first.entries.value, r.entries.value);
      }
    }
  }

  /**
   For every sidecar: a window of n pages that does not raise gives n entries with the given page numbers
   in order, and makes at most 2n - 1 calls, the repeats for degenerate pages included.
   */
  lemma {:induction false} WindowShape(s: Sidecar, calls: nat, images: seq<Image>, numbers: seq<int>)
    requires |images| == |numbers|
    ensures PassFits(calls, numbers, WindowPass(s, calls, images, numbers))
    decreases |images|
  {
    if images == [] {
      assert PageNumbers([]) == [];
    } else if Splits(s, calls, images, numbers) {
      WindowSplits(s, calls, images, numbers);
      var mid := |images| / 2;
      assert numbers == numbers[..mid] + numbers[mid..];
      assert 0 < mid < |images| by { assert |images| > 1; }
      hide *;
      var left := WindowPass(s, calls + 1, images[..mid], numbers[..mid]);
      WindowShape(s, calls + 1, images[..mid], numbers[..mid]);
      WindowShape(s, left.calls, images[mid..], numbers[mid..]);
      ThenFits(calls, numbers[..mid], left, numbers[mid..], WindowPass(s, left.calls, images[mid..], numbers[mid..]));
    } else {
      RetriedFits(s, calls, images, numbers);
    }
  }

  /** A sidecar that writes every page after its marker, none of them degenerate, is asked once. */
  lemma {:induction false} FormattedAnswer(s: Sidecar, calls: nat, images: seq<Image>, numbers: seq<int>,
                                           texts: seq<string>)
    requires |images| == |numbers| == |texts| > 1 && s.enabled && MarkerFree(texts)
    requires s.answer(calls, images, numbers) == Some(Answer(texts))
    requires forall i :: 0 <= i < |texts| ==> !s.degenerate(StripAll(texts)[i])
    ensures WindowPass(s, calls, images, numbers) == Pass(Some(Zip(numbers, StripAll(texts))), calls + 1)
  {
    SplitPagesOfAnswer(texts);
    var pages := Zip(numbers, StripAll(texts));
    assert Request(s, calls, images, numbers, false) == Pass(Some(pages), calls + 1);
    assert !Splits(s, calls, images, numbers);
    RequestNumbersIn(s, calls, images, numbers);
    WindowAtOnce(s, calls, images, numbers);
    hide Request, SplitPages, Answer, Splits, WindowPass;
    NothingToRetry(s, calls + 1, ByPage(images, numbers), pages, |images|);
    assert pages[..|images|] == pages;
  }

  lemma {:induction false} NothingToRetry(s: Sidecar, calls: nat, m: map<int, Image>, pages: seq<Entry>, k: nat)
    requires k <= |pages| && NumbersIn(pages, m)
    requires forall i :: 0 <= i < |pages| ==> !s.degenerate(pages[i].text)
    ensures Retried(s, calls, m, pages, k) == Pass(Some(pages[..k]), calls)
  {
    if k > 0 {
      NothingToRetry(s, calls, m, pages, k - 1);
      RetriedUnfold(s, calls, m, pages, k);
      hide Retried;
      assert pages[..k] == pages[..k - 1] + [pages[k - 1]];
    }
  }

  // ---- When a window raises --------------------------------------------------------------------

  ghost predicate Raised(s: Sidecar, call: int) {
    call >= 0 && exists images, numbers :: s.answer(call, images, numbers).None?
  }

  lemma {:induction false} RequestRaises(s: Sidecar, calls: nat, images: seq<Image>, numbers: seq<int>)
    requires |images| == |numbers| && s.enabled
    ensures var r := Request(s, calls, images, numbers, false);
            r.calls == calls + 1 && (r.entries.None? ==> Raised(s, calls))
  {
    hide SplitPages;
    if Request(s, calls, images, numbers, false).entries.None? {
      assert s.answer(calls, images, numbers).None?;
    }
  }

  /** A window gives no entries only if the engine is off or the last call made raised. */
  lemma {:induction false} WindowRaises(s: Sidecar, calls: nat, images: seq<Image>, numbers: seq<int>)
    requires |images| == |numbers| && s.enabled
    requires WindowPass(s, calls, images, numbers).entries.None?
    ensures WindowPass(s, calls, images, numbers).calls > calls
    ensures Raised(s, WindowPass(s, calls, images, numbers).calls - 1)
    decreases |images|
  {
    hide *;
    if images == [] {
      EmptyWindow(s, calls, images, numbers);
    } else if Splits(s, calls, images, numbers) {
      WindowSplits(s, calls, images, numbers);
      var mid := |images| / 2;
      var left := WindowPass(s, calls + 1, images[..mid], numbers[..mid]);
      var right := WindowPass(s, left.calls, images[mid..], numbers[mid..]);
      ThenNone(left, right);
      WindowShape(s, calls + 1, images[..mid], numbers[..mid]);
      FitsCalls(calls + 1, numbers[..mid], left);
      if left.entries.None? {
        WindowRaises(s, calls + 1, images[..mid], numbers[..mid]);
      } else {
        WindowRaises(s, left.calls, images[mid..], numbers[mid..]);
      }
    } else {
      RequestRaises(s, calls, images, numbers);
      WindowAtOnce(s, calls, images, numbers);
      var first := Request(s, calls, images, numbers, false);
      if first.entries.Some? && |first.entries.value| == |images| {
        RequestNumbersIn(s, calls, images, numbers);
        RetriedRaises(s, first.calls, ByPage(images, numbers), first.entries.value, |images|);
      }
    }
  }

  lemma {:induction false} RequestNumbersIn(s: Sidecar, calls: nat, images: seq<Image>, numbers: seq<int>)
    requires |images| == |numbers|
    ensures var r := Request(s, calls, images, numbers, false);
            r.entries.Some? ==> NumbersIn(r.entries.value, ByPage(images, numbers))
  {
    hide SplitPages;
  }

  lemma {:induction false} EmptyWindow(s: Sidecar, calls: nat, images: seq<Image>, numbers: seq<int>)
    requires images == []
    ensures WindowPass(s, calls, images, numbers) == Pass(Some([]), calls)
  {
  }

  lemma {:induction false} ThenNone(p: Pass, q: Pass)
    ensures Then(p, q).entries.None? ==> Then(p, q) == if p.entries.None? then p else q
  {
  }

  lemma {:induction false} FitsCalls(calls: nat, numbers: seq<int>, p: Pass)
    requires PassFits(calls, numbers, p)
    ensures calls <= p.calls
  {
  }

  lemma {:induction false} RetriedRaises(s: Sidecar, calls: nat, m: map<int, Image>, pages: seq<Entry>, k: nat)
    requires k <= |pages| && NumbersIn(pages, m) && s.enabled
    requires Retried(s, calls, m, pages, k).entries.None?
    ensures Retried(s, calls, m, pages, k).calls > calls
    ensures Raised(s, Retried(s, calls, m, pages, k).calls - 1)
  {
    RetriedShape(s, calls, m, pages, k - 1);
    RetriedUnfold(s, calls, m, pages, k);
    var before := Retried(s, calls, m, pages, k - 1);
    if before.entries.None? {
      RetriedRaises(s, calls, m, pages, k - 1);
    } else {
      var page := pages[k - 1].page;
      RequestRaises(s, before.calls, [m[page]], [page]);
      hide Request, Raised, Retried;
    }
  }

  // ---- The bound is met --------------------------------------------------------------------------

  function Blank(numbers: seq<int>): seq<Entry> {
    seq(|numbers|, i requires 0 <= i < |numbers| => Entry(numbers[i], ""))
  }

  ghost predicate FindsNothing(s: Sidecar) {
    s.enabled && forall t: nat, i, n :: s.answer(t, i, n) == Some("")
  }

  lemma {:induction false} RequestFindsNothing(s: Sidecar, calls: nat, images: seq<Image>, numbers: seq<int>)
    requires |images| == |numbers| && FindsNothing(s)
    ensures Request(s, calls, images, numbers, false) == Pass(Some([]), calls + 1)
  {
    assert SplitPages("") == [];
  }

  /** A sidecar that finds no pages is asked 2n - 1 times, for nothing. */
  lemma {:induction false} EmptyAnswersCost(s: Sidecar, calls: nat, images: seq<Image>, numbers: seq<int>)
    requires |images| == |numbers| && images != [] && FindsNothing(s)
    ensures WindowPass(s, calls, images, numbers) == Pass(Some(Blank(numbers)), calls + 2 * |images| - 1)
    decreases |images|
  {
    hide *;
    var n := |images|;
    RequestFindsNothing(s, calls, images, numbers);
    if n > 1 {
      FewerComeBack(s, calls, images, numbers);
      WindowSplits(s, calls, images, numbers);
      var mid := n / 2;
      EmptyAnswersCost(s, calls + 1, images[..mid], numbers[..mid]);
      EmptyAnswersCost(s, calls + 2 * mid, images[mid..], numbers[mid..]);
      BlankConcat(numbers, mid, calls + 2 * mid, calls + 2 * n - 1);
    } else {
      OnePage(s, calls, images, numbers);
    }
  }

  lemma {:induction false} FewerComeBack(s: Sidecar, calls: nat, images: seq<Image>, numbers: seq<int>)
    requires |images| > 1 && Request(s, calls, images, numbers, false) == Pass(Some([]), calls + 1)
    ensures Splits(s, calls, images, numbers)
  {
  }

  lemma {:induction false} OnePage(s: Sidecar, calls: nat, images: seq<Image>, numbers: seq<int>)
    requires |images| == |numbers| == 1 && Request(s, calls, images, numbers, false) == Pass(Some([]), calls + 1)
    ensures WindowPass(s, calls, images, numbers) == Pass(Some(Blank(numbers)), calls + 1)
  {
    hide Request;
    assert Blank(numbers) == [Entry(numbers[0], "")];
  }

  lemma {:induction false} BlankConcat(numbers: seq<int>, mid: nat, c: nat, d: nat)
    requires mid <= |numbers|
    ensures Then(Pass(Some(Blank(numbers[..mid])), c), Pass(Some(Blank(numbers[mid..])), d)) ==
              Pass(Some(Blank(numbers)), d)
  {
    assert Blank(numbers[..mid]) + Blank(numbers[mid..]) == Blank(numbers);
  }

  // ---- Where a text comes from ----------------------------------------------------------------

  /** A window of an answered request: which pages were asked for, in which call. */
  datatype Source = Source(call: nat, lo: nat, hi: nat)

  ghost predicate Distinct(numbers: seq<int>) {
    forall i, j :: 0 <= i < j < |numbers| ==> numbers[i] != numbers[j]
  }

  /** The call asked for a run of consecutive pages with page `i` in it, and gave this text at its place. */
  ghost predicate Answered(s: Sidecar, images: seq<Image>, numbers: seq<int>, i: nat, text: string, from: Source)
    requires |images| == |numbers|
  {
    && from.lo <= i < from.hi <= |images|
    && var raw := s.answer(from.call, images[from.lo..from.hi], numbers[from.lo..from.hi]);
       raw.Some? && i - from.lo < |SplitPages(raw.value)| && SplitPages(raw.value)[i - from.lo] == text
  }

  ghost predicate Grounded(s: Sidecar, images: seq<Image>, numbers: seq<int>, i: nat, text: string)
    requires |images| == |numbers|
  {
    text == "" || exists from: Source :: Answered(s, images, numbers, i, text, from)
  }

  /** Every text that came out is grounded, the first one at page `lo`. */
  ghost predicate AllGrounded(s: Sidecar, images: seq<Image>, numbers: seq<int>, lo: nat, p: Pass)
    requires |images| == |numbers|
  {
    p.entries.Some? ==>
      forall k: nat :: k < |p.entries.value| ==> Grounded(s, images, numbers, lo + k, p.entries.value[k].text)
  }

  lemma {:induction false} ThenGrounded(s: Sidecar, images: seq<Image>, numbers: seq<int>, lo: nat, mid: nat, p: Pass,
                                        q: Pass)
    requires |images| == |numbers|
    requires p.entries.Some? ==> |p.entries.value| == mid
    requires AllGrounded(s, images, numbers, lo, p) && AllGrounded(s, images, numbers, lo + mid, q)
    ensures AllGrounded(s, images, numbers, lo, Then(p, q))
  {
    hide Grounded;
    if p.entries.Some? && q.entries.Some? {
      var a: seq<Entry>, b: seq<Entry> := p.entries.value, q.entries.value;
      forall k: nat | k < |a + b|
        ensures Grounded(s, images, numbers, lo + k, (a + b)[k].text)
      {
        if k >= |a| {
          assert Grounded(s, images, numbers, lo + mid + (k - mid), b[k - mid].text);
        }
      }
    }
  }

  lemma {:induction false} RequestGrounded(s: Sidecar, calls: nat, images: seq<Image>, numbers: seq<int>, lo: nat,
                                           hi: nat)
    requires |images| == |numbers| && lo <= hi <= |images|
    ensures AllGrounded(s, images, numbers, lo, Request(s, calls, images[lo..hi], numbers[lo..hi], false))
  {
    hide SplitPages;
    var r := Request(s, calls, images[lo..hi], numbers[lo..hi], false);
    if r.entries.Some? {
      forall k: nat | k < |r.entries.value|
        ensures Grounded(s, images, numbers, lo + k, r.entries.value[k].text)
      {
        assert Answered(s, images, numbers, lo + k, r.entries.value[k].text, Source(calls, lo, hi));
      }
    }
  }

  lemma {:induction false} ByPageFinds(images: seq<Image>, numbers: seq<int>, i: nat)
    requires |images| == |numbers| && Distinct(numbers) && i < |numbers|
    ensures ByPage(images, numbers)[numbers[i]] == images[i]
  {
    var last := |numbers| - 1;
    if i < last {
      ByPageFinds(images[..last], numbers[..last], i);
    }
  }

  /** A retried page is grounded in the request for it alone. */
  lemma {:induction false} RetryOneGrounded(s: Sidecar, calls: nat, images: seq<Image>, numbers: seq<int>, j: nat,
                                            m: map<int, Image>, page: Entry, alone: bool)
    requires |images| == |numbers| && j < |images|
    requires page.page == numbers[j] && page.page in m && m[page.page] == images[j]
    requires Grounded(s, images, numbers, j, page.text)
    ensures AllGrounded(s, images, numbers, j, RetryOne(s, calls, m, page, alone))
    ensures var r := RetryOne(s, calls, m, page, alone); r.entries.Some? ==> |r.entries.value| == 1
  {
    hide *;
    assert images[j..j + 1] == [m[page.page]] && numbers[j..j + 1] == [page.page];
    RequestGrounded(s, calls, images, numbers, j, j + 1);
    var single := Request(s, calls, [m[page.page]], [page.page], false);
    RetryOneCases(s, calls, m, page, alone);
    if single.entries.Some? && single.entries.value != [] {
      FirstGrounded(s, images, numbers, j, single);
    }
    var r := RetryOne(s, calls, m, page, alone);
    if r.entries.Some? {
      assert r.entries.value == [r.entries.value[0]];
      OneGrounded(s, images, numbers, j, r.entries.value[0], r.calls);
    } else {
      NoneGrounded(s, images, numbers, j, r.calls);
    }
  }

  /** A retry keeps the text or takes the first one of the single request. */
  lemma {:induction false} RetryOneCases(s: Sidecar, calls: nat, m: map<int, Image>, page: Entry, alone: bool)
    requires page.page in m
    ensures var single := Request(s, calls, [m[page.page]], [page.page], false);
            var r := RetryOne(s, calls, m, page, alone);
            r.entries.Some? ==>
              && |r.entries.value| == 1
              && (|| r.entries.value[0].text == page.text
                  || (single.entries.Some? && single.entries.value != []
                      && r.entries.value[0].text == single.entries.value[0].text))
  {
    hide Request;
  }

  lemma {:induction false} FirstGrounded(s: Sidecar, images: seq<Image>, numbers: seq<int>, i: nat, p: Pass)
    requires |images| == |numbers| && AllGrounded(s, images, numbers, i, p)
    requires p.entries.Some? && p.entries.value != []
    ensures Grounded(s, images, numbers, i, p.entries.value[0].text)
  {
    assert Grounded(s, images, numbers, i + 0, p.entries.value[0].text);
  }

  lemma {:induction false} OneGrounded(s: Sidecar, images: seq<Image>, numbers: seq<int>, i: nat, page: Entry,
                                       calls: nat)
    requires |images| == |numbers| && Grounded(s, images, numbers, i, page.text)
    ensures AllGrounded(s, images, numbers, i, Pass(Some([page]), calls))
  {
    hide Grounded;
  }

  lemma {:induction false} NoneGrounded(s: Sidecar, images: seq<Image>, numbers: seq<int>, i: nat, calls: nat)
    requires |images| == |numbers|
    ensures AllGrounded(s, images, numbers, i, Pass(None, calls))
  {
  }

  lemma {:induction false} RetriedGrounded(s: Sidecar, calls: nat, images: seq<Image>, numbers: seq<int>, lo: nat,
                                           m: map<int, Image>, pages: seq<Entry>, k: nat)
    requires |images| == |numbers| && lo + |pages| <= |images| && k <= |pages| && NumbersIn(pages, m)
    requires forall i: nat :: i < |pages| ==> pages[i].page == numbers[lo + i] && m[pages[i].page] == images[lo + i]
    requires AllGrounded(s, images, numbers, lo, Pass(Some(pages), calls))
    ensures AllGrounded(s, images, numbers, lo, Retried(s, calls, m, pages, k))
  {
    hide Retried, RetryOne, Grounded;
    if k > 0 {
      RetriedGrounded(s, calls, images, numbers, lo, m, pages, k - 1);
      RetriedUnfold(s, calls, m, pages, k);
      RetriedShape(s, calls, m, pages, k - 1);
      var before := Retried(s, calls, m, pages, k - 1);
      RetryOneGrounded(s, before.calls, images, numbers, lo + (k - 1), m, pages[k - 1], |pages| == 1);
      ThenGrounded(s, images, numbers, lo, k - 1, before, RetryOne(s, before.calls, m, pages[k - 1], |pages| == 1));
    } else {
      NothingGrounded(s, calls, images, numbers, lo, m, pages);
    }
  }

  lemma {:induction false} NothingGrounded(s: Sidecar, calls: nat, images: seq<Image>, numbers: seq<int>, lo: nat,
                                           m: map<int, Image>, pages: seq<Entry>)
    requires |images| == |numbers| && NumbersIn(pages, m)
    ensures AllGrounded(s, images, numbers, lo, Retried(s, calls, m, pages, 0))
  {
  }

  lemma {:induction false} SliceDistinct(numbers: seq<int>, lo: nat, hi: nat)
    requires lo <= hi <= |numbers| && Distinct(numbers)
    ensures Distinct(numbers[lo..hi])
  {
  }

  lemma {:induction false} AtOnceGrounded(s: Sidecar, calls: nat, images: seq<Image>, numbers: seq<int>, lo: nat,
                                          hi: nat)
    requires |images| == |numbers| && lo < hi <= |images| && Distinct(numbers)
    requires !Splits(s, calls, images[lo..hi], numbers[lo..hi])
    ensures AllGrounded(s, images, numbers, lo, WindowPass(s, calls, images[lo..hi], numbers[lo..hi]))
  {
    hide WindowPass, Request, Grounded, Retried, Distinct, Splits, ByPage;
    var i, n := images[lo..hi], numbers[lo..hi];
    WindowAtOnce(s, calls, i, n);
    RequestGrounded(s, calls, images, numbers, lo, hi);
    var first := Request(s, calls, i, n, false);
    if first.entries.Some? && |first.entries.value| == |i| {
      var pages, m := first.entries.value, ByPage(i, n);
      RequestShape(s, calls, i, n);
      RequestNumbersIn(s, calls, i, n);
      SliceDistinct(numbers, lo, hi);
      forall k: nat | k < |pages|
        ensures pages[k].page == numbers[lo + k] && m[pages[k].page] == images[lo + k]
      {
        assert pages[k].page == PageNumbers(pages)[k] == n[k];
        ByPageFinds(i, n, k);
      }
      RetriedGrounded(s, first.calls, images, numbers, lo, m, pages, |i|);
    } else if first.entries.Some? {
      assert Grounded(s, images, numbers, lo, "") by { BlankGrounded(s, images, numbers, lo); }
    }
  }

  lemma {:induction false} BlankGrounded(s: Sidecar, images: seq<Image>, numbers: seq<int>, i: nat)
    requires |images| == |numbers|
    ensures Grounded(s, images, numbers, i, "")
  {
  }

  /**
   For every sidecar and pairwise different page numbers: each text delivered for a page is what the
   sidecar gave at this page's place in the answer to a request for a run of consecutive pages that holds
   it, or is empty. No text moves to another page.
   */
  lemma {:induction false} WindowGrounded(s: Sidecar, calls: nat, images: seq<Image>, numbers: seq<int>, lo: nat,
                                          hi: nat)
    requires |images| == |numbers| && lo <= hi <= |images| && Distinct(numbers)
    ensures AllGrounded(s, images, numbers, lo, WindowPass(s, calls, images[lo..hi], numbers[lo..hi]))
    decreases hi - lo
  {
    hide *;
    var i, n := images[lo..hi], numbers[lo..hi];
    if lo == hi {
      EmptyWindow(s, calls, i, n);
      EmptyGrounded(s, calls, images, numbers, lo);
    } else if Splits(s, calls, i, n) {
      var mid := (hi - lo) / 2;
      WindowSplits(s, calls, i, n);
      assert i[..mid] == images[lo..lo + mid] && n[..mid] == numbers[lo..lo + mid];
      assert i[mid..] == images[lo + mid..hi] && n[mid..] == numbers[lo + mid..hi];
      var left := WindowPass(s, calls + 1, i[..mid], n[..mid]);
      WindowGrounded(s, calls + 1, images, numbers, lo, lo + mid);
      WindowGrounded(s, left.calls, images, numbers, lo + mid, hi);
      WindowShape(s, calls + 1, i[..mid], n[..mid]);
      FitsLength(calls + 1, n[..mid], left);
      ThenGrounded(s, images, numbers, lo, mid, left, WindowPass(s, left.calls, i[mid..], n[mid..]));
    } else {
      AtOnceGrounded(s, calls, images, numbers, lo, hi);
    }
  }

  lemma {:induction false} EmptyGrounded(s: Sidecar, calls: nat, images: seq<Image>, numbers: seq<int>, lo: nat)
    requires |images| == |numbers|
    ensures AllGrounded(s, images, numbers, lo, Pass(Some([]), calls))
  {
  }

  lemma {:induction false} FitsLength(calls: nat, numbers: seq<int>, p: Pass)
    requires PassFits(calls, numbers, p)
    ensures p.entries.Some? ==> |p.entries.value| == |numbers|
  {
    if p.entries.Some? {
      assert |PageNumbers(p.entries.value)| == |numbers|;
    }
  }
}
