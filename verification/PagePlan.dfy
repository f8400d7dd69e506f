/**
 Overlapping page windows of the Unlimited OCR engine (plan_page_windows in
 ocr-service/unlimited_ocr.py).
 */
module PagePlan {
  import opened Numbers

  /** Zero-based pages `start` up to, and not including, `end`. */
  datatype Window = Window(start: int, end: int)

  function ClampedSize(size: int): (w: int)
    ensures 1 <= w <= 100
  {
    Max(1, Min(size, 100))
  }

  function ClampedOverlap(overlap: int, size: int): (o: int)
    ensures 0 <= o < ClampedSize(size)
  {
    Max(0, Min(overlap, ClampedSize(size) - 1))
  }

  /** How far one window starts after the one before. */
  function Stride(size: int, overlap: int): (s: int)
    ensures 1 <= s <= ClampedSize(size)
  {
    ClampedSize(size) - ClampedOverlap(overlap, size)
  }

  /** The `k`-th window of the plan. */
  function Planned(pages: int, size: int, overlap: int, k: nat): Window {
    var start := k * Stride(size, overlap);
    Window(start, Min(start + ClampedSize(size), pages))
  }

  /** One window when everything fits, and one more for every started stride of the rest. */
  function Count(pages: int, size: int, overlap: int): nat {
    if pages <= 0 then 0
    else if pages <= ClampedSize(size) then 1
    else 1 + (pages - ClampedSize(size) + Stride(size, overlap) - 1) / Stride(size, overlap)
  }

  function Plan(pages: int, size: int, overlap: int): seq<Window> {
    seq(Count(pages, size, overlap), k requires 0 <= k => Planned(pages, size, overlap, k))
  }

  method PlanPageWindows(pageCount: int, windowSize: int, overlap: int) returns (windows: seq<Window>)
    ensures windows == Plan(pageCount, windowSize, overlap)
  {
    if pageCount <= 0 {
      return [];
    }
    var size := ClampedSize(windowSize);
    var shared := ClampedOverlap(overlap, windowSize);
    windows := [];
    var start := 0;
    while start < pageCount
      invariant start == |windows| * Stride(windowSize, overlap)
      invariant windows == seq(|windows|, k requires 0 <= k => Planned(pageCount, windowSize, overlap, k))
      invariant |windows| > 0 ==> start - Stride(windowSize, overlap) + size < pageCount
      decreases pageCount - start
    {
      var end := Min(start + size, pageCount);
      windows := windows + [Window(start, end)];
      if end >= pageCount {
        LastWindow(pageCount, windowSize, overlap, |windows| - 1);
        return;
      }
      NextStart(|windows| - 1, Stride(windowSize, overlap));
      start := Max(start + 1, end - shared);
    }
    assert false;
  }

  lemma {:induction false} NextStart(k: int, s: int)
    ensures (k + 1) * s == k * s + s
  {
  }

  /** The first window that reaches the last page is the last one counted. */
  lemma {:induction false} LastWindow(pages: int, size: int, overlap: int, k: nat)
    requires pages > 0
    requires k * Stride(size, overlap) + ClampedSize(size) >= pages
    requires k > 0 ==> (k - 1) * Stride(size, overlap) + ClampedSize(size) < pages
    ensures k + 1 == Count(pages, size, overlap)
  {
    var s, rest := Stride(size, overlap), pages - ClampedSize(size);
    if k > 0 {
      NextStart(k - 1, s);
      Ceiling(rest, s, k);
    }
  }

  lemma {:induction false} Ceiling(n: int, s: int, k: int)
    requires 1 <= s && (k - 1) * s < n <= k * s
    ensures (n + s - 1) / s == k
  {
    var q := (n + s - 1) / s;
    assert n + s - 1 == q * s + (n + s - 1) % s;
    TimesMonotone(q, k - 1, s);
    TimesMonotone(k + 1, q, s);
  }

  lemma {:induction false} TimesMonotone(a: int, b: int, s: int)
    requires s >= 0
    ensures a <= b ==> a * s <= b * s
  {
  }

  /** Below the count, and only there, a window starts while pages are left over by those before. */
  lemma {:induction false} BelowCount(pages: int, size: int, overlap: int, k: nat)
    ensures k < Count(pages, size, overlap)
            <==> if k == 0 then pages > 0 else (k - 1) * Stride(size, overlap) + ClampedSize(size) < pages
  {
    var s, rest := Stride(size, overlap), pages - ClampedSize(size);
    if k > 0 {
      TimesMonotone(0, k - 1, s);
      if rest > 0 {
        var q := (rest + s - 1) / s;
        assert rest + s - 1 == q * s + (rest + s - 1) % s;
        NextStart(k - 1, s);
        NextStart(q - 1, s);
        TimesMonotone(k, q, s);
        TimesMonotone(q, k - 1, s);
      }
    }
  }

  /**
   What the plan is for. Its windows are non-empty and at most `size` long, start at page 0, end at the
   last page, move forward, and each shares exactly the clamped overlap with the one before.
   */
  lemma {:induction false} PlanShape(pages: int, size: int, overlap: int, k: nat)
    requires k < Count(pages, size, overlap)
    ensures var w := Planned(pages, size, overlap, k);
            && 0 <= w.start < w.end <= pages && w.end - w.start <= ClampedSize(size)
            && (k == 0 ==> w.start == 0)
            && (w.end == pages <==> k + 1 == Count(pages, size, overlap))
    ensures k + 1 < Count(pages, size, overlap) ==>
            var w, next := Planned(pages, size, overlap, k), Planned(pages, size, overlap, k + 1);
            && w.end - next.start == ClampedOverlap(overlap, size)
            && w.start < next.start <= w.end < next.end
  {
    var s := Stride(size, overlap);
    BelowCount(pages, size, overlap, k);
    BelowCount(pages, size, overlap, k + 1);
    TimesMonotone(0, k, s);
    NextStart(k, s);
    NextStart(k - 1, s);
  }
}
