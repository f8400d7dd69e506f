/**
 How the answer of the Unlimited OCR sidecar is cut into pages (ocr-service/unlimited_ocr.py).
 */
module PageText {
  import opened PythonText

  function Lower(c: char): char {
    if 'A' <= c <= 'Z' then (c as int + 32) as char else c
  }

  /** The page marker, in any mix of cases, starts the text. */
  predicate MarkerAt(s: string) {
    |s| >= 6 && Lower(s[0]) == '<' && Lower(s[1]) == 'p' && Lower(s[2]) == 'a' && Lower(s[3]) == 'g'
    && Lower(s[4]) == 'e' && Lower(s[5]) == '>'
  }

  predicate HasMarker(s: string) {
    s != "" && (MarkerAt(s) || HasMarker(s[1..]))
  }

  /** The text between markers, as a regular-expression split gives it. */
  function SplitMarker(s: string): (parts: seq<string>)
    ensures |parts| >= 1
  {
    if s == "" then [""]
    else if MarkerAt(s) then [""] + SplitMarker(s[6..])
    else var parts := SplitMarker(s[1..]); [[s[0]] + parts[0]] + parts[1..]
  }

  function StripAll(parts: seq<string>): (stripped: seq<string>)
    ensures |stripped| == |parts|
  {
    seq(|parts|, i requires 0 <= i < |parts| => Strip(parts[i]))
  }

  function Kept(parts: seq<string>, all: bool): seq<string> {
    if parts == [] then []
    else (if all || Strip(parts[0]) != "" then [parts[0]] else []) + Kept(parts[1..], all)
  }

  /** An empty first part is dropped; a lone blank part is dropped too. */
  function KeptParts(parts: seq<string>): seq<string>
    requires parts != []
  {
    var pages := if parts[0] == "" then parts[1..] else parts;
    Kept(pages, |pages| > 1)
  }

  function SplitPages(raw: string): seq<string> {
    if HasMarker(raw) then KeptParts(StripAll(SplitMarker(raw)))
    else if Strip(raw) != "" then [Strip(raw)]
    else []
  }

  /** An answer in the sidecar's format: each page after its own marker. */
  function Answer(pages: seq<string>): string {
    if pages == [] then "" else "<PAGE>" + pages[0] + Answer(pages[1..])
  }

  ghost predicate MarkerFree(pages: seq<string>) {
    forall i :: 0 <= i < |pages| ==> !HasMarker(pages[i])
  }

  lemma {:induction false} MarkerCut(page: string, rest: string)
    requires !HasMarker(page)
    requires rest == "" || MarkerAt(rest)
    ensures SplitMarker(page + rest) == [page + SplitMarker(rest)[0]] + SplitMarker(rest)[1..]
  {
    hide *;
    var parts := SplitMarker(rest);
    if page == "" {
      assert page + rest == rest && page + parts[0] == parts[0];
      assert parts == [parts[0]] + parts[1..];
    } else {
      assert (page + rest)[1..] == page[1..] + rest && (page + rest)[0] == page[0];
      NoMarkerLater(page);
      MarkerCut(page[1..], rest);
      NoMarkerAt(page, rest);
      SplitMarkerStep(page + rest);
      assert [page[0]] + (page[1..] + parts[0]) == page + parts[0];
      assert ([page[1..] + parts[0]] + parts[1..])[1..] == parts[1..];
    }
  }

  lemma {:induction false} NoMarkerLater(page: string)
    requires page != "" && !HasMarker(page)
    ensures !HasMarker(page[1..])
  {
  }

  lemma {:induction false} SplitMarkerStep(s: string)
    requires s != "" && !MarkerAt(s)
    ensures var parts := SplitMarker(s[1..]); SplitMarker(s) == [[s[0]] + parts[0]] + parts[1..]
  {
    hide MarkerAt;
  }

  /** A marker cannot reach over the end of a page into the next marker. */
  lemma {:induction false} NoMarkerAt(page: string, rest: string)
    requires page != "" && !HasMarker(page) && (rest == "" || MarkerAt(rest))
    ensures !MarkerAt(page + rest)
  {
  }

  lemma {:induction false} AnswerStarts(pages: seq<string>)
    ensures Answer(pages) == "" || MarkerAt(Answer(pages))
    ensures pages != [] ==> SplitMarker(Answer(pages)) == [""] + SplitMarker(pages[0] + Answer(pages[1..]))
  {
    if pages != [] {
      assert Answer(pages) == "<PAGE>" + (pages[0] + Answer(pages[1..]));
      assert Answer(pages)[6..] == pages[0] + Answer(pages[1..]);
    }
  }

  lemma {:induction false} SplitMarkerOfAnswer(pages: seq<string>)
    requires MarkerFree(pages)
    ensures SplitMarker(Answer(pages)) == [""] + pages
  {
    AnswerStarts(pages);
    if pages != [] {
      var rest := Answer(pages[1..]);
      AnswerStarts(pages[1..]);
      SplitMarkerOfAnswer(pages[1..]);
      MarkerCut(pages[0], rest);
      hide SplitMarker, MarkerAt, HasMarker, Answer;
      assert pages[0] + "" == pages[0];
      assert pages == [pages[0]] + pages[1..];
    }
  }

  lemma {:induction false} KeptAll(parts: seq<string>)
    ensures Kept(parts, true) == parts
  {
    if parts != [] {
      KeptAll(parts[1..]);
    }
  }

  lemma {:induction false} KeptPartsOf(pages: seq<string>)
    requires pages != []
    ensures KeptParts(StripAll([""] + pages)) ==
            if |pages| == 1 && Strip(pages[0]) == "" then [] else StripAll(pages)
  {
    assert Strip("") == "";
    StripIdempotent(pages[0]);
    hide Strip;
    assert StripAll([""] + pages)[1..] == StripAll(pages);
    if |pages| == 1 {
      assert Kept([], false) == [];
      assert StripAll(pages)[1..] == [];
    } else {
      KeptAll(StripAll(pages));
    }
  }

  /**
   Round trip: two or more pages written with their markers are read back stripped, blank pages
   included. A single page is read back too, unless it is blank: then nothing is.
   */
  lemma {:induction false} SplitPagesOfAnswer(pages: seq<string>)
    requires MarkerFree(pages) && pages != []
    ensures SplitPages(Answer(pages)) ==
            if |pages| == 1 && Strip(pages[0]) == "" then [] else StripAll(pages)
  {
    SplitMarkerOfAnswer(pages);
    KeptPartsOf(pages);
    hide SplitMarker, StripAll, KeptParts, MarkerFree, Strip;
    assert Answer(pages) == "<PAGE>" + (pages[0] + Answer(pages[1..]));
    assert HasMarker(Answer(pages));
  }

  /** An answer without any marker is one page, unless it is blank. */
  lemma {:induction false} PlainAnswer(raw: string)
    requires !HasMarker(raw)
    ensures SplitPages(raw) == if Strip(raw) == "" then [] else [Strip(raw)]
  {
  }

  /** Text before the first marker is a page of its own. */
  lemma {:induction false} TextBeforeMarker(lead: string, pages: seq<string>)
    requires !HasMarker(lead) && Strip(lead) != "" && MarkerFree(pages) && pages != []
    ensures SplitPages(lead + Answer(pages)) == [Strip(lead)] + StripAll(pages)
  {
    hide *;
    AnswerStarts(pages);
    AnswerHasText(pages);
    SplitMarkerOfAnswer(pages);
    MarkerCut(lead, Answer(pages));
    MarkerAfter(lead, Answer(pages));
    assert lead + "" == lead;
    assert [lead] + pages == [lead + ""] + ([""] + pages)[1..];
    LeadKept(lead, pages);
    SplitPagesByMarker(lead + Answer(pages));
  }

  lemma {:induction false} AnswerHasText(pages: seq<string>)
    ensures pages != [] ==> Answer(pages) != ""
  {
  }

  lemma {:induction false} SplitPagesByMarker(raw: string)
    requires HasMarker(raw)
    ensures SplitPages(raw) == KeptParts(StripAll(SplitMarker(raw)))
  {
    hide SplitMarker, KeptParts, StripAll, HasMarker;
  }

  lemma {:induction false} LeadKept(lead: string, pages: seq<string>)
    requires Strip(lead) != "" && pages != []
    ensures KeptParts(StripAll([lead] + pages)) == [Strip(lead)] + StripAll(pages)
  {
    KeptAll([Strip(lead)] + StripAll(pages));
    hide Strip, Kept;
    assert StripAll([lead] + pages) == [Strip(lead)] + StripAll(pages);
  }

  lemma {:induction false} MarkerAfter(lead: string, rest: string)
    requires MarkerAt(rest)
    ensures HasMarker(lead + rest)
  {
    if lead == "" {
      assert lead + rest == rest;
    } else {
      assert (lead + rest)[1..] == lead[1..] + rest;
      MarkerAfter(lead[1..], rest);
    }
  }
}
