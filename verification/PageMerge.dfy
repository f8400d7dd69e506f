/**
 The merge of overlapping page windows into one response (_ocr_pdf_with_unlimited in
 ocr-service/app.py). Rendering and parsing are arbitrary functions.
 */
module PageMerge {
  import opened Numbers
  import opened Options
  import opened PagePlan
  import opened PageRequest
  import opened Text

  datatype PageResult = PageResult(number: int, text: string)

  /** `render` and `parse` are None where the PDF renderer or the page parser raises. */
  datatype Engine = Engine(
    sidecar: Sidecar,
    render: (int, int) -> Option<seq<Image>>,
    parse: (string, Image) -> Option<string>,
    fallback: bool,
    maxPages: int,
    maxPagesPerRequest: int,
    pageOverlap: int)

  /** `fellBack`: the whole document went to the other engine instead of an error to the caller. */
  datatype Outcome =
    | Response(text: string, pages: seq<PageResult>)
    | TooManyPages
    | WindowFailed(fellBack: bool)
    | PagesMissing(fellBack: bool)

  function PageNumbers(w: Window): (numbers: seq<int>) {
    seq(Max(0, w.end - w.start), i requires 0 <= i => w.start + 1 + i)
  }

  // ---- The text of a response -------------------------------------------------------------------

  function Texts(pages: seq<PageResult>): seq<string> {
    if pages == [] then []
    else Texts(pages[..|pages| - 1]) + if pages[|pages| - 1].text == "" then [] else [pages[|pages| - 1].text]
  }

  /** The non-empty page texts, one per line group, in page order. */
  function TextOf(pages: seq<PageResult>): string {
    Join(Texts(pages), "\n")
  }

  lemma {:induction false} TextsFilled(pages: seq<PageResult>, i: nat)
    requires i < |Texts(pages)|
    ensures Texts(pages)[i] != ""
  {
    if pages != [] && i < |Texts(pages[..|pages| - 1])| {
      TextsFilled(pages[..|pages| - 1], i);
    }
  }

  lemma {:induction false} TextOfSnoc(pages: seq<PageResult>, page: PageResult)
    ensures TextOf(pages + [page]) ==
            if page.text == "" then TextOf(pages)
            else if TextOf(pages) == "" then page.text
            else TextOf(pages) + "\n" + page.text
  {
    assert (pages + [page])[..|pages|] == pages;
    if page.text != "" {
      JoinSnoc(Texts(pages), page.text, "\n");
      if Texts(pages) != [] {
        TextsFilled(pages, 0);
      }
    } else {
      assert Texts(pages) + [] == Texts(pages);
    }
  }

  /** The words of the pages, one page after the other. */
  function PageWords(pages: seq<PageResult>): seq<string> {
    if pages == [] then [] else PageWords(pages[..|pages| - 1]) + Fields(pages[|pages| - 1].text)
  }

  /** No word of a page is lost, moved or joined to one of another page. */
  lemma {:induction false} TextOfWords(pages: seq<PageResult>)
    ensures Fields(TextOf(pages)) == PageWords(pages)
  {
    if pages != [] {
      var front, last := pages[..|pages| - 1], pages[|pages| - 1];
      TextOfWords(front);
      TextOfSnoc(front, last);
      assert pages == front + [last];
      hide TextOf, Fields;
      NoWords();
      WordsAcross(TextOf(front), last.text);
    }
  }

  lemma {:induction false} NoWords()
    ensures Fields("") == []
  {
  }

  lemma {:induction false} WordsAcross(a: string, b: string)
    ensures Fields(a + "\n" + b) == Fields(a) + Fields(b)
  {
    FieldsConcat(a, "\n" + b);
    FieldsConcat("\n", b);
    FieldsAllSpace("\n");
    assert a + "\n" + b == a + ("\n" + b);
  }

  // ---- One window -----------------------------------------------------------------------------------

  /** The pages merged once the first `j` of a window are seen: a page already there is not even parsed. */
  ghost function AfterPages(e: Engine, start: int, images: seq<Image>, entries: seq<Entry>, pages: seq<PageResult>,
                            j: nat)
      : Option<seq<PageResult>>
    requires j <= |images| == |entries|
  {
    if j == 0 then Some(pages)
    else
      var before := AfterPages(e, start, images, entries, pages, j - 1);
      if before.None? || start + j <= |before.value| then before
      else
        match e.parse(entries[j - 1].text, images[j - 1])
        case None => None
        case Some(plain) => Some(before.value + [PageResult(start + j, plain)])
  }

  /** None after an exception; the pages merged so far, and the sidecar calls made. */
  datatype Progress = Progress(pages: Option<seq<PageResult>>, calls: nat)

  ghost function AfterWindow(e: Engine, w: Window, pages: seq<PageResult>, calls: nat): Progress {
    match e.render(w.start, w.end)
    case None => Progress(None, calls)
    case Some(images) =>
      if images == [] || |images| != |PageNumbers(w)| then Progress(None, calls)
      else
        var pass := WindowPass(e.sidecar, calls, images, PageNumbers(w));
        WindowShape(e.sidecar, calls, images, PageNumbers(w));
        FitsLength(calls, PageNumbers(w), pass);
        if pass.entries.None? then Progress(None, pass.calls)
        else Progress(AfterPages(e, w.start, images, pass.entries.value, pages, |images|), pass.calls)
  }

  ghost function Merged(e: Engine, windows: seq<Window>, k: nat): Progress
    requires k <= |windows|
  {
    if k == 0 then Progress(Some([]), 0)
    else
      var before := Merged(e, windows, k - 1);
      if before.pages.None? then before
      else AfterWindow(e, windows[k - 1], before.pages.value, before.calls)
  }

  /** The result list holds the merged pages, and nothing after them. */
  ghost predicate Holds(slots: seq<Option<PageResult>>, pages: seq<PageResult>) {
    |pages| <= |slots|
    && forall q :: 0 <= q < |slots| ==> slots[q] == if q < |pages| then Some(pages[q]) else None
  }

  ghost predicate NumberedFrom1(pages: seq<PageResult>) {
    forall q :: 0 <= q < |pages| ==> pages[q].number == q + 1
  }

  /** The inner loop over the pages of one window. */
  method MergeWindow(e: Engine, w: Window, images: seq<Image>, entries: seq<Entry>, slots: array<Option<PageResult>>,
                     full: string, ghost pages: seq<PageResult>) returns (ok: bool, text: string)
    requires |images| == |entries| == w.end - w.start
    requires 0 <= w.start <= |pages| <= w.end <= slots.Length && Holds(slots[..], pages) && full == TextOf(pages)
    modifies slots
    ensures var merged := AfterPages(e, w.start, images, entries, pages, |images|);
            && ok == merged.Some?
            && (ok ==> Holds(slots[..], merged.value) && |merged.value| == w.end && text == TextOf(merged.value))
  {
    hide Texts, Join, TextOf;
    text := full;
    ghost var merged := pages;
    for j := 0 to |images|
      invariant AfterPages(e, w.start, images, entries, pages, j) == Some(merged)
      invariant Holds(slots[..], merged) && text == TextOf(merged)
      invariant |merged| == Max(|pages|, w.start + j)
    {
      var absolutePage := w.start + j + 1;
      if slots[absolutePage - 1].Some? {
        assert absolutePage - 1 < |merged| by { assert slots[..][absolutePage - 1].Some?; }
        continue;
      }
      assert absolutePage - 1 >= |merged| by { assert slots[..][absolutePage - 1].None?; }
      var parsed := e.parse(entries[j].text, images[j]);
      if parsed.None? {
        AfterPagesFailed(e, w.start, images, entries, pages, j + 1, |images|);
        return false, text;
      }
      var plain := parsed.value;
      slots[absolutePage - 1] := Some(PageResult(absolutePage, plain));
      TextOfSnoc(merged, PageResult(absolutePage, plain));
      if plain != "" {
        if text != "" {
          text := text + "\n";
        }
        text := text + plain;
      }
      merged := merged + [PageResult(absolutePage, plain)];
    }
    ok := true;
  }

  lemma {:induction false} AfterPagesFailed(e: Engine, start: int, images: seq<Image>, entries: seq<Entry>,
                                            pages: seq<PageResult>, j: nat, n: nat)
    requires j <= n <= |images| == |entries| && AfterPages(e, start, images, entries, pages, j).None?
    ensures AfterPages(e, start, images, entries, pages, n).None?
  {
    if j < n {
      AfterPagesFailed(e, start, images, entries, pages, j, n - 1);
    }
  }

  /** The body of the loop over the windows: render, request, merge. */
  method RunWindow(e: Engine, w: Window, slots: array<Option<PageResult>>, full: string, calls: nat,
                   ghost pages: seq<PageResult>) returns (ok: bool, text: string, made: nat)
    requires 0 <= w.start <= |pages| <= w.end <= slots.Length && Holds(slots[..], pages) && full == TextOf(pages)
    modifies slots
    ensures var after := AfterWindow(e, w, pages, calls);
            && ok == after.pages.Some?
            && (ok ==> made == after.calls && Holds(slots[..], after.pages.value) && text == TextOf(after.pages.value)
                       && |after.pages.value| == w.end)
  {
    hide Holds, TextOf, PageNumbers, AfterPages, WindowPass;
    var rendered := e.render(w.start, w.end);
    if rendered.None? || rendered.value == [] || |rendered.value| != |PageNumbers(w)| {
      return false, full, calls;
    }
    var images := rendered.value;
    var pass := RequestWindow(e.sidecar, calls, images, PageNumbers(w));
    if pass.entries.None? {
      return false, full, pass.calls;
    }
    WindowShape(e.sidecar, calls, images, PageNumbers(w));
    FitsLength(calls, PageNumbers(w), pass);
    NumbersLength(w);
    ok, text := MergeWindow(e, w, images, pass.entries.value, slots, full, pages);
    made := pass.calls;
  }

  /** The loop over the windows. */
  method MergeWindows(e: Engine, windows: seq<Window>, pageCount: int, slots: array<Option<PageResult>>)
      returns (ok: bool, full: string)
    requires windows == Plan(pageCount, e.maxPagesPerRequest, e.pageOverlap)
    requires slots.Length == Max(pageCount, 0) && Holds(slots[..], [])
    modifies slots
    ensures var merged := Merged(e, windows, |windows|).pages;
            && ok == merged.Some?
            && (ok ==> Holds(slots[..], merged.value) && full == TextOf(merged.value) && |merged.value| == slots.Length)
  {
    hide *;
    var calls := 0;
    ok, full := true, "";
    ghost var pages: seq<PageResult> := [];
    MergedStarts(e, windows);
    PlanEnds(pageCount, e.maxPagesPerRequest, e.pageOverlap, windows);
    for k := 0 to |windows|
      invariant Merged(e, windows, k) == Progress(Some(pages), calls)
      invariant Holds(slots[..], pages) && full == TextOf(pages)
      invariant |pages| == EndOf(windows, k)
    {
      PlanStep(pageCount, e.maxPagesPerRequest, e.pageOverlap, windows, k);
      MergedUnfold(e, windows, k);
      ok, full, calls := RunWindow(e, windows[k], slots, full, calls, pages);
      if !ok {
        MergedFailed(e, windows, k + 1, |windows|);
        return;
      }
      pages := Merged(e, windows, k + 1).pages.value;
    }
  }

  /** Window by window: pages stay in order, the text follows them, and no page is left out. */
  method OcrPdf(e: Engine, pageCount: int) returns (outcome: Outcome)
    ensures outcome == Spec(e, pageCount) && !outcome.PagesMissing?
  {
    if pageCount > e.maxPages {
      return TooManyPages;
    }
    var size := Min(Max(e.maxPagesPerRequest, 1), 100);
    var overlap := Max(Min(e.pageOverlap, size - 1), 0);
    ClampTwice(e.maxPagesPerRequest, e.pageOverlap, pageCount);
    var windows := PlanPageWindows(pageCount, size, overlap);
    var slots := new Option<PageResult>[Max(pageCount, 0)](_ => None);
    hide Merged, TextOf, Plan;
    var ok, full := MergeWindows(e, windows, pageCount, slots);
    if !ok {
      return WindowFailed(e.fallback);
    }
    NothingMissing(slots[..], Merged(e, windows, |windows|).pages.value);
    outcome := if None in slots[..] then PagesMissing(e.fallback) else Response(full, Filled(slots[..]));
  }

  lemma {:induction false} MergedStarts(e: Engine, windows: seq<Window>)
    ensures Merged(e, windows, 0) == Progress(Some([]), 0) && TextOf([]) == "" && EndOf(windows, 0) == 0
  {
  }

  /** [result for result in page_results if result is not None] */
  function Filled(slots: seq<Option<PageResult>>): seq<PageResult> {
    if slots == [] then []
    else Filled(slots[..|slots| - 1]) + match slots[|slots| - 1] { case None => [] case Some(page) => [page] }
  }

  lemma {:induction false} NothingMissing(slots: seq<Option<PageResult>>, pages: seq<PageResult>)
    requires Holds(slots, pages) && |slots| == |pages|
    ensures None !in slots && Filled(slots) == pages
  {
    if slots != [] {
      NothingMissing(slots[..|slots| - 1], pages[..|pages| - 1]);
      assert pages == pages[..|pages| - 1] + [pages[|pages| - 1]];
    }
  }

  /** The response as a function of what the sidecar, the renderer and the parser do. */
  ghost function Spec(e: Engine, pageCount: int): Outcome {
    var windows := Plan(pageCount, e.maxPagesPerRequest, e.pageOverlap);
    if pageCount > e.maxPages then TooManyPages
    else
      match Merged(e, windows, |windows|).pages
      case None => WindowFailed(e.fallback)
      case Some(pages) => Response(TextOf(pages), pages)
  }

  function EndOf(windows: seq<Window>, k: nat): int
    requires k <= |windows|
  {
    if k == 0 then 0 else windows[k - 1].end
  }

  lemma {:induction false} ClampTwice(size: int, overlap: int, pages: int)
    ensures var s := Min(Max(size, 1), 100); Plan(pages, s, Max(Min(overlap, s - 1), 0)) == Plan(pages, size, overlap)
  {
    var s := Min(Max(size, 1), 100);
    SamePlan(pages, s, Max(Min(overlap, s - 1), 0), size, overlap);
  }

  lemma {:induction false} SamePlan(pages: int, size: int, overlap: int, size': int, overlap': int)
    requires ClampedSize(size) == ClampedSize(size') && ClampedOverlap(overlap, size) == ClampedOverlap(overlap', size')
    ensures Plan(pages, size, overlap) == Plan(pages, size', overlap')
  {
    assert Stride(size, overlap) == Stride(size', overlap');
    hide ClampedSize, ClampedOverlap, Stride;
    assert Count(pages, size, overlap) == Count(pages, size', overlap');
    forall k: nat | k < Count(pages, size, overlap)
      ensures Plan(pages, size, overlap)[k] == Plan(pages, size', overlap')[k]
    {
    }
  }

  lemma {:induction false} PlanStep(pages: int, size: int, overlap: int, windows: seq<Window>, k: nat)
    requires windows == Plan(pages, size, overlap) && k < |windows|
    ensures var w := windows[k];
            && 0 <= w.start <= EndOf(windows, k) <= w.end <= pages && w.start < w.end && EndOf(windows, k + 1) == w.end
            && w.end <= Max(pages, 0)
            && w.end - w.start <= ClampedSize(size)
            && (k > 0 ==> EndOf(windows, k) - w.start == ClampedOverlap(overlap, size) && EndOf(windows, k) < w.end)
  {
    PlanShape(pages, size, overlap, k);
    if k > 0 {
      PlanShape(pages, size, overlap, k - 1);
    }
  }

  lemma {:induction false} PlanEnds(pages: int, size: int, overlap: int, windows: seq<Window>)
    requires windows == Plan(pages, size, overlap)
    ensures EndOf(windows, |windows|) == Max(pages, 0)
  {
    if pages > 0 {
      BelowCount(pages, size, overlap, 0);
      PlanShape(pages, size, overlap, |windows| - 1);
    }
  }

  lemma {:induction false} NumbersLength(w: Window)
    requires w.start <= w.end
    ensures |PageNumbers(w)| == w.end - w.start
  {
  }

  lemma {:induction false} MergedUnfold(e: Engine, windows: seq<Window>, k: nat)
    requires k < |windows| && Merged(e, windows, k).pages.Some?
    ensures Merged(e, windows, k + 1) ==
              AfterWindow(e, windows[k], Merged(e, windows, k).pages.value, Merged(e, windows, k).calls)
  {
  }

  lemma {:induction false} MergedStops(e: Engine, windows: seq<Window>, k: nat)
    requires k < |windows| && Merged(e, windows, k).pages.None?
    ensures Merged(e, windows, k + 1) == Merged(e, windows, k)
  {
    hide AfterWindow;
  }

  lemma {:induction false} MergedFailed(e: Engine, windows: seq<Window>, k: nat, n: nat)
    requires k <= n <= |windows| && Merged(e, windows, k).pages.None?
    ensures Merged(e, windows, n) == Merged(e, windows, k)
  {
    hide *;
    if k < n {
      MergedFailed(e, windows, k, n - 1);
      MergedStops(e, windows, n - 1);
    }
  }

  // ---- What a response holds -----------------------------------------------------------------------

  ghost predicate ParsedAs(e: Engine, text: string, image: Image, q: int, page: PageResult) {
    page.number == q + 1 && e.parse(text, image) == Some(page.text)
  }

  /** Merging a window never touches a page that is there, and fills in the missing ones from the window. */
  lemma {:induction false} AfterPagesShape(e: Engine, start: int, images: seq<Image>, entries: seq<Entry>,
                                           pages: seq<PageResult>, j: nat)
    requires j <= |images| == |entries| && 0 <= start <= |pages|
    ensures var after := AfterPages(e, start, images, entries, pages, j);
            after.Some? ==>
              && pages <= after.value && |after.value| == Max(|pages|, start + j)
              && forall q :: |pages| <= q < |after.value| ==>
                   ParsedAs(e, entries[q - start].text, images[q - start], q, after.value[q])
  {
    if j > 0 {
      AfterPagesShape(e, start, images, entries, pages, j - 1);
    }
  }

  /** One more window: the pages before it stay, its own come from it. */
  ghost predicate Extends(e: Engine, w: Window, pages: seq<PageResult>, calls: nat, after: Progress) {
    && calls <= after.calls <= calls + Max(0, 2 * (w.end - w.start) - 1)
    && (after.pages.Some? ==>
          && pages <= after.pages.value && |after.pages.value| == w.end
          && e.render(w.start, w.end).Some? && |e.render(w.start, w.end).value| == w.end - w.start
          && forall q :: |pages| <= q < w.end ==> Delivers(e, w, q, after.pages.value[q]))
  }

  /** Page `q` is the parse of a text grounded in the sidecar's answers for this window. */
  ghost predicate Delivers(e: Engine, w: Window, q: int, page: PageResult) {
    && w.start <= q < w.end && e.render(w.start, w.end).Some?
    && var images := e.render(w.start, w.end).value;
       && |images| == w.end - w.start == |PageNumbers(w)| && page.number == q + 1
       && ParsedFrom(e, images, PageNumbers(w), q - w.start, page.text)
  }

  ghost predicate ParsedFrom(e: Engine, images: seq<Image>, numbers: seq<int>, i: nat, parsed: string)
    requires i < |images| == |numbers|
  {
    exists text :: Grounded(e.sidecar, images, numbers, i, text) && e.parse(text, images[i]) == Some(parsed)
  }

  lemma {:induction false} NumbersDistinct(w: Window)
    ensures Distinct(PageNumbers(w))
  {
  }

  ghost predicate Rendered(e: Engine, w: Window) {
    && 0 <= w.start < w.end && |PageNumbers(w)| == w.end - w.start
    && e.render(w.start, w.end).Some? && |e.render(w.start, w.end).value| == w.end - w.start
  }

  lemma {:induction false} WindowNotRendered(e: Engine, w: Window, pages: seq<PageResult>, calls: nat)
    requires 0 <= w.start < w.end && !Rendered(e, w)
    ensures AfterWindow(e, w, pages, calls) == Progress(None, calls)
  {
    hide WindowPass, AfterPages;
  }

  lemma {:induction false} WindowRendered(e: Engine, w: Window, pages: seq<PageResult>, calls: nat)
    requires Rendered(e, w)
    ensures var images := e.render(w.start, w.end).value;
            var pass := WindowPass(e.sidecar, calls, images, PageNumbers(w));
            && PassFits(calls, PageNumbers(w), pass)
            && (pass.entries.Some? ==> |pass.entries.value| == |images|)
            && AfterWindow(e, w, pages, calls) ==
               if pass.entries.None? then Progress(None, pass.calls)
               else Progress(AfterPages(e, w.start, images, pass.entries.value, pages, |images|), pass.calls)
  {
    hide WindowPass, AfterPages, PassFits;
    var images := e.render(w.start, w.end).value;
    WindowShape(e.sidecar, calls, images, PageNumbers(w));
    FitsLength(calls, PageNumbers(w), WindowPass(e.sidecar, calls, images, PageNumbers(w)));
  }

  lemma {:induction false} AfterWindowExtends(e: Engine, w: Window, pages: seq<PageResult>, calls: nat)
    requires 0 <= w.start <= |pages| <= w.end && w.start < w.end
    ensures Extends(e, w, pages, calls, AfterWindow(e, w, pages, calls))
  {
    hide AfterWindow, WindowPass, AfterPages, PageNumbers, PassFits, Delivers;
    NumbersLength(w);
    if !Rendered(e, w) {
      WindowNotRendered(e, w, pages, calls);
    } else {
      var images := e.render(w.start, w.end).value;
      var pass := WindowPass(e.sidecar, calls, images, PageNumbers(w));
      WindowRendered(e, w, pages, calls);
      FitsCost(calls, PageNumbers(w), pass);
      if pass.entries.Some? {
        AfterPagesShape(e, w.start, images, pass.entries.value, pages, |images|);
        var after := AfterPages(e, w.start, images, pass.entries.value, pages, |images|);
        forall q | |pages| <= q < w.end && after.Some?
          ensures Delivers(e, w, q, after.value[q])
        {
          PassDelivers(e, w, calls, q, after.value[q]);
        }
      }
    }
  }

  lemma {:induction false} FitsCost(calls: nat, numbers: seq<int>, p: Pass)
    requires PassFits(calls, numbers, p)
    ensures calls <= p.calls <= calls + if |numbers| == 0 then 0 else 2 * |numbers| - 1
  {
  }

  lemma {:induction false} PassDelivers(e: Engine, w: Window, calls: nat, q: int, page: PageResult)
    requires 0 <= w.start <= q < w.end && e.render(w.start, w.end).Some?
    requires |e.render(w.start, w.end).value| == w.end - w.start == |PageNumbers(w)|
    requires WindowPass(e.sidecar, calls, e.render(w.start, w.end).value, PageNumbers(w)).entries.Some?
    requires var images := e.render(w.start, w.end).value;
             |WindowPass(e.sidecar, calls, images, PageNumbers(w)).entries.value| == w.end - w.start
    requires var images := e.render(w.start, w.end).value;
             var entry := WindowPass(e.sidecar, calls, images, PageNumbers(w)).entries.value[q - w.start];
             ParsedAs(e, entry.text, images[q - w.start], q, page)
    ensures Delivers(e, w, q, page)
  {
    hide WindowPass, Grounded, AllGrounded, PageNumbers, Distinct;
    var images := e.render(w.start, w.end).value;
    NumbersDistinct(w);
    assert images[0..|images|] == images && PageNumbers(w)[0..|images|] == PageNumbers(w);
    WindowGrounded(e.sidecar, calls, images, PageNumbers(w), 0, |images|);
    GroundedAt(e.sidecar, images, PageNumbers(w), WindowPass(e.sidecar, calls, images, PageNumbers(w)), q - w.start);
  }

  lemma {:induction false} GroundedAt(s: Sidecar, images: seq<Image>, numbers: seq<int>, p: Pass, k: nat)
    requires |images| == |numbers| && AllGrounded(s, images, numbers, 0, p)
    requires p.entries.Some? && k < |p.entries.value|
    ensures Grounded(s, images, numbers, k, p.entries.value[k].text)
  {
    assert Grounded(s, images, numbers, 0 + k, p.entries.value[k].text);
  }

  /**
   Over all windows: one result per page, numbered 1, 2, 3 and so on, each delivered by the first window
   that holds its page; a later copy of an overlapped page changes nothing.
   */
  lemma {:induction false} MergedShape(e: Engine, pages: int, k: nat)
    requires k <= |Plan(pages, e.maxPagesPerRequest, e.pageOverlap)|
    ensures var windows := Plan(pages, e.maxPagesPerRequest, e.pageOverlap);
            var merged := Merged(e, windows, k).pages;
            merged.Some? ==> |merged.value| == EndOf(windows, k) && NumberedFrom1(merged.value)
    ensures var windows := Plan(pages, e.maxPagesPerRequest, e.pageOverlap);
            k > 0 && Merged(e, windows, k - 1).pages.Some? ==>
            Extends(e, windows[k - 1], Merged(e, windows, k - 1).pages.value, Merged(e, windows, k - 1).calls,
                    Merged(e, windows, k))
  {
    var windows := Plan(pages, e.maxPagesPerRequest, e.pageOverlap);
    hide *;
    MergedStarts(e, windows);
    if k > 0 {
      MergedShape(e, pages, k - 1);
      var before := Merged(e, windows, k - 1);
      if before.pages.Some? {
        MergedUnfold(e, windows, k - 1);
        PlanStep(pages, e.maxPagesPerRequest, e.pageOverlap, windows, k - 1);
        AfterWindowExtends(e, windows[k - 1], before.pages.value, before.calls);
        ExtendsNumbers(e, windows[k - 1], before.pages.value, before.calls, Merged(e, windows, k));
      } else {
        MergedStops(e, windows, k - 1);
      }
    } else {
      NothingNumbered();
    }
  }

  lemma {:induction false} NothingNumbered()
    ensures NumberedFrom1([])
  {
  }

  lemma {:induction false} ExtendsNumbers(e: Engine, w: Window, pages: seq<PageResult>, calls: nat, after: Progress)
    requires Extends(e, w, pages, calls, after) && NumberedFrom1(pages)
    ensures after.pages.Some? ==> |after.pages.value| == w.end && NumberedFrom1(after.pages.value)
  {
    hide Grounded, PageNumbers;
  }

  /** The response, for every engine: exactly one result per page in page order, and its text follows them. */
  lemma {:induction false} ResponseShape(e: Engine, pageCount: int)
    ensures Spec(e, pageCount).TooManyPages? <==> pageCount > e.maxPages
    ensures var r := Spec(e, pageCount);
            r.Response? ==> |r.pages| == Max(pageCount, 0) && NumberedFrom1(r.pages) && r.text == TextOf(r.pages)
  {
    var windows := Plan(pageCount, e.maxPagesPerRequest, e.pageOverlap);
    MergedShape(e, pageCount, |windows|);
    PlanEnds(pageCount, e.maxPagesPerRequest, e.pageOverlap, windows);
    hide Merged, Plan, TextOf, NumberedFrom1, Extends;
  }

  ghost predicate Healthy(e: Engine) {
    && e.sidecar.enabled && (forall t: nat, i, n :: e.sidecar.answer(t, i, n).Some?)
    && (forall a, b :: 0 <= a < b ==> e.render(a, b).Some? && |e.render(a, b).value| == b - a)
    && forall text, image :: e.parse(text, image).Some?
  }

  /** When nothing raises and the renderer gives one image per page, every document gets a response. */
  lemma {:induction false} HealthyResponds(e: Engine, pageCount: int)
    requires Healthy(e) && pageCount <= e.maxPages
    ensures Spec(e, pageCount).Response?
  {
    HealthyMerges(e, pageCount, |Plan(pageCount, e.maxPagesPerRequest, e.pageOverlap)|);
    hide Merged, Plan, TextOf;
  }

  lemma {:induction false} HealthyMerges(e: Engine, pages: int, k: nat)
    requires k <= |Plan(pages, e.maxPagesPerRequest, e.pageOverlap)| && Healthy(e)
    ensures Merged(e, Plan(pages, e.maxPagesPerRequest, e.pageOverlap), k).pages.Some?
  {
    var windows := Plan(pages, e.maxPagesPerRequest, e.pageOverlap);
    hide *;
    MergedStarts(e, windows);
    if k > 0 {
      HealthyMerges(e, pages, k - 1);
      MergedUnfold(e, windows, k - 1);
      PlanStep(pages, e.maxPagesPerRequest, e.pageOverlap, windows, k - 1);
      var before := Merged(e, windows, k - 1);
      HealthyWindow(e, windows[k - 1], before.pages.value, before.calls);
    }
  }

  lemma {:induction false} HealthyWindow(e: Engine, w: Window, pages: seq<PageResult>, calls: nat)
    requires Healthy(e) && 0 <= w.start < w.end
    ensures AfterWindow(e, w, pages, calls).pages.Some?
  {
    hide AfterWindow, WindowPass, AfterPages, PageNumbers, PassFits;
    NumbersLength(w);
    WindowRendered(e, w, pages, calls);
    var images := e.render(w.start, w.end).value;
    var pass := WindowPass(e.sidecar, calls, images, PageNumbers(w));
    if pass.entries.None? {
      WindowRaises(e.sidecar, calls, images, PageNumbers(w));
      HealthyAnswers(e, pass.calls - 1);
    } else {
      HealthyPages(e, w.start, images, pass.entries.value, pages, |images|);
    }
  }

  lemma {:induction false} HealthyPages(e: Engine, start: int, images: seq<Image>, entries: seq<Entry>,
                                        pages: seq<PageResult>, j: nat)
    requires Healthy(e) && j <= |images| == |entries|
    ensures AfterPages(e, start, images, entries, pages, j).Some?
  {
    if j > 0 {
      HealthyPages(e, start, images, entries, pages, j - 1);
    }
  }

  lemma {:induction false} HealthyAnswers(e: Engine, call: int)
    requires Healthy(e)
    ensures !Raised(e.sidecar, call)
  {
  }

  /** All windows together cost at most two calls a page read, pages read twice included, less one a window. */
  lemma {:induction false} MergedCalls(e: Engine, pages: int, k: nat)
    requires 0 < k <= |Plan(pages, e.maxPagesPerRequest, e.pageOverlap)|
    ensures var windows := Plan(pages, e.maxPagesPerRequest, e.pageOverlap);
            Merged(e, windows, k).calls
            <= 2 * (windows[k - 1].end + (k - 1) * ClampedOverlap(e.pageOverlap, e.maxPagesPerRequest)) - k
  {
    var windows := Plan(pages, e.maxPagesPerRequest, e.pageOverlap);
    var o := ClampedOverlap(e.pageOverlap, e.maxPagesPerRequest);
    hide *;
    PlanStep(pages, e.maxPagesPerRequest, e.pageOverlap, windows, k - 1);
    var before, w := Merged(e, windows, k - 1), windows[k - 1];
    MergedShape(e, pages, k);
    MergedStarts(e, windows);
    if before.pages.Some? {
      ExtendsCalls(e, w, before.pages.value, before.calls, Merged(e, windows, k));
    } else {
      MergedStops(e, windows, k - 1);
    }
    if k > 1 {
      MergedCalls(e, pages, k - 1);
      EndOfWindow(windows, k - 1);
      NextStart(k - 2, o);
    }
  }

  lemma {:induction false} ExtendsCalls(e: Engine, w: Window, pages: seq<PageResult>, calls: nat, after: Progress)
    requires Extends(e, w, pages, calls, after) && w.start < w.end
    ensures after.calls <= calls + 2 * (w.end - w.start) - 1
  {
    hide Delivers;
  }

  lemma {:induction false} EndOfWindow(windows: seq<Window>, k: nat)
    requires 0 < k <= |windows|
    ensures EndOf(windows, k) == windows[k - 1].end
  {
  }
}
