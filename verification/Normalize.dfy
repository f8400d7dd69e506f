/**
 Page text normalisation (backend/jobs/translate.go): blanks inside a paragraph
 collapse to single spaces, blank paragraphs and blank pages disappear.
 */
module Normalize {
  import opened Text

  const PARAGRAPH_SEP: string := "\n\n"

  /** One paragraph with its blanks collapsed. */
  function Collapse(p: string): string {
    Join(Fields(p), " ")
  }

  /** The non-blank paragraphs, collapsed, in order. */
  function Kept(paragraphs: seq<string>): seq<string> {
    if paragraphs == [] then []
    else
      var last := Collapse(paragraphs[|paragraphs| - 1]);
      Kept(paragraphs[..|paragraphs| - 1]) + if last != "" then [last] else []
  }

  function Normalized(s: string): string {
    Join(Kept(Split(TrimSpace(s), PARAGRAPH_SEP)), PARAGRAPH_SEP)
  }

  /** The non-blank pages, normalised, in order. */
  function NormalizedPages(raw: seq<string>): seq<string> {
    if raw == [] then []
    else NormalizedPages(raw[..|raw| - 1]) + PageIfAny(raw[|raw| - 1])
  }

  function PageIfAny(page: string): seq<string> {
    if Normalized(page) != "" then [Normalized(page)] else []
  }

  lemma {:induction false} NormalizedNothing()
    ensures NormalizedPages([]) == []
  {
  }

  lemma {:induction false} NormalizedPagesSnoc(front: seq<string>, last: string)
    ensures NormalizedPages(front + [last]) == NormalizedPages(front) + PageIfAny(last)
  {
    CutConcat(front, [last], |front|);
  }

  lemma {:induction false} KeptSnoc(front: seq<string>, last: string)
    ensures Kept([]) == []
    ensures Kept(front + [last]) == Kept(front) + if Collapse(last) != "" then [Collapse(last)] else []
  {
    CutConcat(front, [last], |front|);
  }

  /**
   The filter writes its output into the very array it ranges over: the slot it
   fills is never ahead of the slot it reads.
   */
  method FilterInPlace(paragraphs: array<string>) returns (n: nat)
    modifies paragraphs
    ensures n <= paragraphs.Length
    ensures paragraphs[..n] == Kept(old(paragraphs[..]))
  {
    n := 0;
    ghost var before := paragraphs[..];
    KeptSnoc([], "");
    hide Kept, Fields, Join;
    for i := 0 to paragraphs.Length
      invariant n <= i
      invariant paragraphs[..n] == Kept(before[..i])
      invariant forall k :: i <= k < paragraphs.Length ==> paragraphs[k] == before[k]
    {
      var p := paragraphs[i];
      var normalized := Join(Fields(p), " ");
      KeptSnoc(before[..i], p);
      assert before[..i + 1] == before[..i] + [p];
      if normalized != "" {
        paragraphs[n] := normalized;
        n := n + 1;
        assert paragraphs[..n] == paragraphs[..n - 1] + [normalized];
      }
    }
    assert before[..paragraphs.Length] == before;
  }

  method NormalizeText(s: string) returns (r: string)
    ensures r == Normalized(s)
  {
    var split := Split(TrimSpace(s), PARAGRAPH_SEP);
    var paragraphs := new string[|split|](i requires 0 <= i < |split| => split[i]);
    assert paragraphs[..] == split;
    var n := FilterInPlace(paragraphs);
    r := Join(paragraphs[..n], PARAGRAPH_SEP);
  }

  method NormalizePages(raw: seq<string>) returns (out: seq<string>)
    ensures out == NormalizedPages(raw)
  {
    out := [];
    NormalizedNothing();
    hide NormalizedPages;
    for i := 0 to |raw|
      invariant out == NormalizedPages(raw[..i])
    {
      var n := NormalizeText(raw[i]);
      NormalizedPagesSnoc(raw[..i], raw[i]);
      assert raw[..i + 1] == raw[..i] + [raw[i]];
      if n != "" {
        out := out + [n];
      }
    }
    assert raw[..|raw|] == raw;
  }

  /** A kept paragraph: words separated by single spaces. */
  ghost predicate Collapsed(p: string) {
    exists ws: seq<string> :: AllWords(ws) && ws != [] && p == Join(ws, " ")
  }

  ghost predicate AllCollapsed(ps: seq<string>) {
    forall i :: 0 <= i < |ps| ==> Collapsed(ps[i])
  }

  lemma {:induction false} JoinEnds(parts: seq<string>, sep: string)
    requires parts != []
    requires forall i :: 0 <= i < |parts| ==>
               parts[i] != "" && !IsSpace(parts[i][0]) && !IsSpace(parts[i][|parts[i]| - 1])
    ensures var r := Join(parts, sep); r != "" && !IsSpace(r[0]) && !IsSpace(r[|r| - 1])
  {
    if |parts| > 1 {
      JoinEnds(parts[1..], sep);
    }
  }

  lemma {:induction false} CollapsedFacts(p: string)
    requires Collapsed(p)
    ensures p != "" && !IsSpace(p[0]) && !IsSpace(p[|p| - 1])
    ensures Free('\n', p)
    ensures Collapse(p) == p
  {
    var ws: seq<string> :| AllWords(ws) && ws != [] && p == Join(ws, " ");
    JoinEnds(ws, " ");
    assert forall i, j :: 0 <= i < |ws| && 0 <= j < |ws[i]| ==> !IsSpace(ws[i][j]);
    JoinFree(ws, " ", '\n');
    FieldsJoinWords(ws);
  }

  lemma {:induction false} CollapseFacts(p: string)
    ensures Fields(Collapse(p)) == Fields(p)
    ensures Collapse(p) == "" <==> Fields(p) == []
    ensures Collapse(p) != "" ==> Collapsed(Collapse(p))
  {
    var ws := Fields(p);
    FieldsAreWords(p);
    FieldsJoinWords(ws);
    if ws != [] {
      JoinEnds(ws, " ");
    }
  }

  lemma {:induction false} KeptFacts(ps: seq<string>)
    ensures AllFields(Kept(ps)) == AllFields(ps)
    ensures AllCollapsed(Kept(ps))
  {
    if ps != [] {
      var front, last := ps[..|ps| - 1], ps[|ps| - 1];
      KeptFacts(front);
      CollapseFacts(last);
      assert ps == front + [last];
      AllFieldsSnoc(front, last);
      if Collapse(last) != "" {
        AllFieldsSnoc(Kept(front), Collapse(last));
      } else {
        assert Kept(ps) == Kept(front);
      }
    }
  }

  lemma {:induction false} KeptOfCollapsed(ps: seq<string>)
    requires AllCollapsed(ps)
    ensures Kept(ps) == ps
  {
    if ps != [] {
      KeptOfCollapsed(ps[..|ps| - 1]);
      CollapsedFacts(ps[|ps| - 1]);
    }
  }

  /** Normalising changes no word and no word order. */
  lemma {:induction false} NormalizedKeepsWords(s: string)
    ensures Fields(Normalized(s)) == Fields(s)
    ensures Normalized(s) == "" <==> Fields(s) == []
  {
    var t := TrimSpace(s);
    var ps := Split(t, PARAGRAPH_SEP);
    TrimSpaceFields(s);
    JoinOfSplit(t, PARAGRAPH_SEP);
    FieldsOfJoin(ps, PARAGRAPH_SEP);
    KeptFacts(ps);
    FieldsOfJoin(Kept(ps), PARAGRAPH_SEP);
    if Kept(ps) != [] {
      forall i | 0 <= i < |Kept(ps)|
        ensures var p := Kept(ps)[i]; p != "" && !IsSpace(p[0]) && !IsSpace(p[|p| - 1])
      {
        CollapsedFacts(Kept(ps)[i]);
      }
      JoinEnds(Kept(ps), PARAGRAPH_SEP);
      var r := Normalized(s);
      FieldsUnfold(r);
    }
  }

  /** Normalising twice is normalising once. */
  lemma {:induction false} NormalizedIdempotent(s: string)
    ensures Normalized(Normalized(s)) == Normalized(s)
  {
    var ps := Kept(Split(TrimSpace(s), PARAGRAPH_SEP));
    KeptFacts(Split(TrimSpace(s), PARAGRAPH_SEP));
    if ps == [] {
      assert Kept([""]) == [];
      assert Normalized("") == "" by { assert Split(TrimSpace(""), PARAGRAPH_SEP) == [""]; }
    } else {
      forall i | 0 <= i < |ps|
        ensures var p := ps[i]; p != "" && !IsSpace(p[0]) && !IsSpace(p[|p| - 1]) && Free('\n', p)
      {
        CollapsedFacts(ps[i]);
      }
      JoinEnds(ps, PARAGRAPH_SEP);
      TrimSpaceNoop(Normalized(s));
      SplitOfJoin(ps, PARAGRAPH_SEP);
      KeptOfCollapsed(ps);
    }
  }

  lemma {:induction false} NormalizedPagesWords(raw: seq<string>)
    ensures AllFields(NormalizedPages(raw)) == AllFields(raw)
  {
    NormalizedNothing();
    hide NormalizedPages, Normalized, Fields;
    if raw != [] {
      var front, last := raw[..|raw| - 1], raw[|raw| - 1];
      NormalizedPagesWords(front);
      assert raw == front + [last];
      NormalizedPagesSnoc(front, last);
      AllFieldsSnoc(front, last);
      AllFieldsPageIfAny(NormalizedPages(front), last);
    }
  }

  lemma {:induction false} NormalizedPagesNonBlank(raw: seq<string>)
    ensures forall i :: 0 <= i < |NormalizedPages(raw)| ==> Fields(NormalizedPages(raw)[i]) != []
  {
    if raw != [] {
      NormalizedPagesNonBlank(raw[..|raw| - 1]);
      NormalizedKeepsWords(raw[|raw| - 1]);
    }
  }

  lemma {:induction false} AllFieldsPageIfAny(out: seq<string>, last: string)
    ensures AllFields(out + PageIfAny(last)) == AllFields(out) + Fields(last)
  {
    NormalizedKeepsWords(last);
    if PageIfAny(last) != [] {
      AllFieldsSnoc(out, Normalized(last));
    } else {
      assert out + [] == out;
    }
  }

  lemma {:induction false} NormalizedPagesIdempotent(raw: seq<string>)
    ensures NormalizedPages(NormalizedPages(raw)) == NormalizedPages(raw)
  {
    if raw != [] {
      var out, last := NormalizedPages(raw[..|raw| - 1]), raw[|raw| - 1];
      NormalizedPagesIdempotent(raw[..|raw| - 1]);
      NormalizedIdempotent(last);
      if PageIfAny(last) != [] {
        NormalizedPagesSnoc(out, Normalized(last));
      } else {
        assert out + [] == out;
      }
    }
  }

  /** Page normalisation loses no word, keeps no blank page, and is idempotent. */
  lemma {:induction false} NormalizedPagesFacts(raw: seq<string>)
    ensures AllFields(NormalizedPages(raw)) == AllFields(raw)
    ensures forall i :: 0 <= i < |NormalizedPages(raw)| ==> Fields(NormalizedPages(raw)[i]) != []
    ensures NormalizedPages(NormalizedPages(raw)) == NormalizedPages(raw)
  {
    NormalizedPagesWords(raw);
    NormalizedPagesNonBlank(raw);
    NormalizedPagesIdempotent(raw);
  }
}
