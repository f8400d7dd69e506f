/**
 Cutting pages into word-bounded units and packing units into chunks
 (backend/jobs/worker.go: splitByWordBudget, buildChunkUnits, buildTextChunks,
 reduceChunkWordRange).
 */
module Chunking {
  import opened Numbers
  import opened Text

  datatype Unit = Unit(pageIndex: int, text: string, words: int)

  datatype Chunk = Chunk(units: seq<Unit>, words: int)

  const ADAPTIVE_FLOOR := 40

  // ---- Units ----------------------------------------------------------------

  /** Words separated by single spaces, at least one and at most `budget` of them. */
  ghost predicate CanonicalPart(part: string, budget: int) {
    1 <= |Fields(part)| <= budget && part == Join(Fields(part), " ")
  }

  ghost predicate CanonicalUnit(u: Unit, budget: int) {
    CanonicalPart(u.text, budget) && u.words == |Fields(u.text)|
  }

  ghost predicate CanonicalUnits(units: seq<Unit>, budget: int) {
    forall i :: 0 <= i < |units| ==> CanonicalUnit(units[i], budget)
  }

  /** The words that the units carry for page `p`, in order. */
  function PageWords(units: seq<Unit>, p: int): seq<string> {
    if units == [] then []
    else (if units[0].pageIndex == p then Fields(units[0].text) else []) + PageWords(units[1..], p)
  }

  function SumWords(units: seq<Unit>): int {
    if units == [] then 0 else SumWords(units[..|units| - 1]) + units[|units| - 1].words
  }

  lemma {:induction false} PageWordsConcat(a: seq<Unit>, b: seq<Unit>, p: int)
    ensures PageWords(a + b, p) == PageWords(a, p) + PageWords(b, p)
  {
    if a == [] {
      assert a + b == b;
    } else {
      PageWordsConcat(a[1..], b, p);
      CutConcat(a, b, 1);
    }
  }

  lemma {:induction false} PageWordsMember(units: seq<Unit>, i: nat, w: string)
    requires i < |units| && w in Fields(units[i].text)
    ensures w in PageWords(units, units[i].pageIndex)
  {
    hide Fields;
    if i > 0 {
      PageWordsMember(units[1..], i - 1, w);
    }
  }

  /** Each part is canonical, and each but the last is full. */
  ghost predicate WellCut(parts: seq<string>, budget: int) {
    && (forall i :: 0 <= i < |parts| ==> CanonicalPart(parts[i], budget))
    && (forall i :: 0 <= i < |parts| - 1 ==> |Fields(parts[i])| == budget)
  }

  /** Pieces of `budget` words, the last one of what is left. */
  function Cut(words: seq<string>, budget: nat): seq<string>
    requires budget > 0
  {
    if words == [] then []
    else if |words| <= budget then [Join(words, " ")]
    else [Join(words[..budget], " ")] + Cut(words[budget..], budget)
  }

  /**
   The words of a text, cut into pieces of `maxWords` words. A budget of zero would
   never advance; the worker's options keep it positive (WordRangeOptionValid).
   */
  method SplitByWordBudget(text: string, maxWords: int) returns (parts: seq<string>)
    requires maxWords > 0
    ensures parts == Cut(Fields(text), maxWords)
    ensures AllFields(parts) == Fields(text)
    ensures WellCut(parts, maxWords)
  {
    hide *;
    TrimSpaceFields(text);
    FieldsAreWords(text);
    CutFacts(Fields(text), maxWords);
    NothingCut(maxWords);
    if TrimSpace(text) == "" {
      return [];
    }
    var words := Fields(text);
    if |words| <= maxWords {
      FewCut(words, maxWords);
      return [Join(words, " ")];
    }
    parts := [];
    var i := 0;
    NoneCut(words, maxWords);
    while i < |words|
      invariant 0 <= i && CutSoFar(parts, words, i, maxWords)
    {
      CutNext(parts, words, i, maxWords);
      var end := i + maxWords;
      if end > |words| {
        end := |words|;
      }
      SmallerOf(i + maxWords, |words|);
      parts := parts + [Join(words[i..end], " ")];
      i := i + maxWords;
    }
    AllCut(parts, words, i, maxWords);
  }

  /** The parts are those of the first `i` words. */
  ghost predicate CutSoFar(parts: seq<string>, words: seq<string>, i: nat, budget: nat)
    requires budget > 0
  {
    Cut(words, budget) == parts + if i < |words| then Cut(words[i..], budget) else []
  }

  lemma {:induction false} NoneCut(words: seq<string>, budget: nat)
    requires budget > 0
    ensures CutSoFar([], words, 0, budget)
  {
    assert words[0..] == words;
  }

  lemma {:induction false} AllCut(parts: seq<string>, words: seq<string>, i: nat, budget: nat)
    requires budget > 0 && CutSoFar(parts, words, i, budget) && i >= |words|
    ensures parts == Cut(words, budget)
  {
    hide Cut;
  }

  lemma {:induction false} CutNext(parts: seq<string>, words: seq<string>, i: nat, budget: nat)
    requires budget > 0 && i < |words| && CutSoFar(parts, words, i, budget)
    ensures CutSoFar(parts + [Join(words[i..Min(i + budget, |words|)], " ")], words, i + budget, budget)
  {
    CutUnfold(words, i, budget);
    hide Cut, Join, Min;
  }

  lemma {:induction false} SmallerOf(a: int, b: int)
    ensures Min(a, b) == if a > b then b else a
  {
  }

  lemma {:induction false} FewCut(words: seq<string>, budget: nat)
    requires budget > 0 && 0 < |words| <= budget
    ensures Cut(words, budget) == [Join(words, " ")]
  {
  }

  lemma {:induction false} NothingCut(budget: nat)
    requires budget > 0
    ensures Cut([], budget) == []
  {
  }

  lemma {:induction false} CutUnfold(words: seq<string>, i: nat, budget: nat)
    requires budget > 0 && i < |words|
    ensures Cut(words[i..], budget) ==
              [Join(words[i..Min(i + budget, |words|)], " ")]
              + if i + budget < |words| then Cut(words[i + budget..], budget) else []
  {
    var rest := words[i..];
    if |rest| > budget {
      assert rest[..budget] == words[i..i + budget] && rest[budget..] == words[i + budget..];
    } else {
      assert rest == words[i..|words|];
    }
  }

  /** Every unit belongs to a page, units follow page order, and each page's words survive. */
  ghost predicate UnitsCover(units: seq<Unit>, pages: seq<string>) {
    && (forall i :: 0 <= i < |units| ==> 0 <= units[i].pageIndex < |pages|)
    && (forall i :: 0 < i < |units| ==> units[i - 1].pageIndex <= units[i].pageIndex)
    && (forall p :: 0 <= p < |pages| ==> PageWords(units, p) == Fields(pages[p]))
  }

  function PartUnits(pageIdx: int, parts: seq<string>): seq<Unit> {
    seq(|parts|, i requires 0 <= i < |parts| => Unit(pageIdx, parts[i], |Fields(parts[i])|))
  }

  lemma {:induction false} PartUnitsWords(pageIdx: int, parts: seq<string>, p: int)
    ensures PageWords(PartUnits(pageIdx, parts), p) == if p == pageIdx then AllFields(parts) else []
  {
    if parts != [] {
      PartUnitsWords(pageIdx, parts[1..], p);
      assert PartUnits(pageIdx, parts)[1..] == PartUnits(pageIdx, parts[1..]);
    }
  }

  /** A unit that is not the last of its page is full. */
  ghost predicate CutsFull(units: seq<Unit>, budget: int) {
    forall i :: 0 < i < |units| && units[i - 1].pageIndex == units[i].pageIndex ==> units[i - 1].words == budget
  }

  /** The units of a document: canonical, covering its pages, and cut only where one is full. */
  ghost predicate DocumentUnits(units: seq<Unit>, pages: seq<string>, budget: int) {
    CanonicalUnits(units, budget) && UnitsCover(units, pages) && CutsFull(units, budget)
  }

  /** `units` covers the first `n` pages and nothing else. */
  ghost predicate CoverSoFar(units: seq<Unit>, pages: seq<string>, n: nat, budget: int) {
    && CanonicalUnits(units, budget) && CutsFull(units, budget)
    && (forall i :: 0 <= i < |units| ==> 0 <= units[i].pageIndex < n)
    && (forall i :: 0 < i < |units| ==> units[i - 1].pageIndex <= units[i].pageIndex)
    && (forall p :: 0 <= p < |pages| ==> PageWords(units, p) == if p < n then Fields(pages[p]) else [])
  }

  lemma {:induction false} CoverStep(units: seq<Unit>, pages: seq<string>, n: nat, parts: seq<string>, budget: int)
    requires n < |pages| && CoverSoFar(units, pages, n, budget)
    requires AllFields(parts) == Fields(pages[n]) && WellCut(parts, budget)
    ensures CoverSoFar(units + PartUnits(n, parts), pages, n + 1, budget)
  {
    hide Fields, CanonicalPart, CanonicalUnits, CutsFull, PageWords, AllFields;
    forall p | 0 <= p < |pages|
      ensures PageWords(units + PartUnits(n, parts), p) == if p < n + 1 then Fields(pages[p]) else []
    {
      PageWordsConcat(units, PartUnits(n, parts), p);
      PartUnitsWords(n, parts, p);
    }
    CanonicalConcat(units, n, parts, budget);
    FullConcat(units, n, parts, budget);
  }

  lemma {:induction false} FullConcat(units: seq<Unit>, n: nat, parts: seq<string>, budget: int)
    requires CutsFull(units, budget) && forall i :: 0 <= i < |units| ==> units[i].pageIndex < n
    requires forall i :: 0 <= i < |parts| - 1 ==> |Fields(parts[i])| == budget
    ensures CutsFull(units + PartUnits(n, parts), budget)
  {
    hide Fields;
    var all := units + PartUnits(n, parts);
    forall i | 0 < i < |all| && all[i - 1].pageIndex == all[i].pageIndex
      ensures all[i - 1].words == budget
    {
      if i < |units| {
        assert units[i - 1].pageIndex == units[i].pageIndex;
      } else {
        assert i > |units|;
        assert all[i - 1] == PartUnits(n, parts)[i - 1 - |units|];
      }
    }
  }

  lemma {:induction false} CanonicalConcat(units: seq<Unit>, n: nat, parts: seq<string>, budget: int)
    requires CanonicalUnits(units, budget)
    requires forall i :: 0 <= i < |parts| ==> CanonicalPart(parts[i], budget)
    ensures CanonicalUnits(units + PartUnits(n, parts), budget)
  {
    forall i | 0 <= i < |units| + |parts|
      ensures CanonicalUnit((units + PartUnits(n, parts))[i], budget)
    {
      if i < |units| {
        assert CanonicalUnit(units[i], budget);
      } else {
        assert CanonicalPart(parts[i - |units|], budget);
      }
    }
  }

  /** The units that every attempt cuts the pages into. */
  function PageUnits(pages: seq<string>, budget: nat): seq<Unit>
    requires budget > 0
  {
    if pages == [] then []
    else PageUnits(pages[..|pages| - 1], budget) + PartUnits(|pages| - 1, Cut(Fields(pages[|pages| - 1]), budget))
  }

  lemma {:induction false} PageUnitsSnoc(pages: seq<string>, n: nat, budget: nat)
    requires budget > 0 && n < |pages|
    ensures PageUnits(pages[..n + 1], budget) ==
              PageUnits(pages[..n], budget) + PartUnits(n, Cut(Fields(pages[n]), budget))
  {
    assert pages[..n + 1][..n] == pages[..n];
  }

  lemma {:induction false} CutFacts(words: seq<string>, budget: nat)
    requires budget > 0 && AllWords(words)
    ensures var parts := Cut(words, budget); AllFields(parts) == words && WellCut(parts, budget)
  {
    hide *;
    if |words| > budget {
      var head, rest := words[..budget], words[budget..];
      assert words == head + rest;
      WordsOfBoth(head, rest);
      CutFacts(rest, budget);
      ManyCut(words, budget);
      FullPart(head, Cut(rest, budget), budget);
    } else if words != [] {
      FewCut(words, budget);
      OnePart(words, budget);
    } else {
      NothingCut(budget);
      NoPart(budget);
    }
  }

  lemma {:induction false} ManyCut(words: seq<string>, budget: nat)
    requires 0 < budget < |words|
    ensures Cut(words, budget) == [Join(words[..budget], " ")] + Cut(words[budget..], budget)
  {
  }

  lemma {:induction false} WordsOfBoth(a: seq<string>, b: seq<string>)
    requires AllWords(a + b)
    ensures AllWords(a) && AllWords(b)
  {
    assert forall i :: 0 <= i < |a| ==> (a + b)[i] == a[i];
    assert forall i :: 0 <= i < |b| ==> (a + b)[|a| + i] == b[i];
  }

  lemma {:induction false} FullPart(head: seq<string>, rest: seq<string>, budget: nat)
    requires AllWords(head) && |head| == budget > 0 && WellCut(rest, budget)
    ensures AllFields([Join(head, " ")] + rest) == head + AllFields(rest)
    ensures WellCut([Join(head, " ")] + rest, budget)
  {
    FieldsJoinWords(head);
    hide Fields, Join, AllWords;
    assert ([Join(head, " ")] + rest)[1..] == rest;
  }

  lemma {:induction false} OnePart(words: seq<string>, budget: nat)
    requires AllWords(words) && 0 < |words| <= budget
    ensures AllFields([Join(words, " ")]) == words && WellCut([Join(words, " ")], budget)
  {
    FieldsJoinWords(words);
    AllFieldsSnoc([], Join(words, " "));
    hide Fields, Join, AllWords;
  }

  lemma {:induction false} NoPart(budget: nat)
    ensures AllFields([]) == [] && WellCut([], budget)
  {
  }

  lemma {:induction false} PageUnitsSoFar(pages: seq<string>, n: nat, budget: nat)
    requires budget > 0 && n <= |pages|
    ensures CoverSoFar(PageUnits(pages[..n], budget), pages, n, budget)
  {
    hide Fields, Cut, CanonicalPart, CoverSoFar;
    if n > 0 {
      PageUnitsSoFar(pages, n - 1, budget);
      FieldsAreWords(pages[n - 1]);
      CutFacts(Fields(pages[n - 1]), budget);
      CoverStep(PageUnits(pages[..n - 1], budget), pages, n - 1, Cut(Fields(pages[n - 1]), budget), budget);
      PageUnitsSnoc(pages, n - 1, budget);
    } else {
      NothingCovered(pages, budget);
    }
  }

  lemma {:induction false} NothingCovered(pages: seq<string>, budget: nat)
    ensures CoverSoFar([], pages, 0, budget)
  {
  }

  /** These are units as BuildChunkUnits makes them. */
  lemma {:induction false} PageUnitsDocument(pages: seq<string>, budget: nat)
    requires budget > 0
    ensures DocumentUnits(PageUnits(pages, budget), pages, budget)
  {
    PageUnitsSoFar(pages, |pages|, budget);
    hide CanonicalUnits, CutsFull, PageWords, PageUnits;
    assert pages[..|pages|] == pages;
  }

  method BuildChunkUnits(pages: seq<string>, maxWords: int) returns (units: seq<Unit>)
    requires maxWords > 0
    ensures DocumentUnits(units, pages, maxWords) && units == PageUnits(pages, maxWords)
  {
    PageUnitsDocument(pages, maxWords);
    hide Fields, Cut, CanonicalPart, AllFields, DocumentUnits, PartUnits;
    units := [];
    for pageIdx := 0 to |pages|
      invariant units == PageUnits(pages[..pageIdx], maxWords)
    {
      PageUnitsSnoc(pages, pageIdx, maxWords);
      var parts := SplitByWordBudget(pages[pageIdx], maxWords);
      units := AppendPartUnits(units, pageIdx, parts);
    }
    assert pages[..|pages|] == pages;
  }

  /** The inner loop of BuildChunkUnits. */
  method AppendPartUnits(before: seq<Unit>, pageIdx: int, parts: seq<string>) returns (units: seq<Unit>)
    ensures units == before + PartUnits(pageIdx, parts)
  {
    units := before;
    for k := 0 to |parts|
      invariant units == before + PartUnits(pageIdx, parts[..k])
    {
      assert parts[..k + 1] == parts[..k] + [parts[k]];
      units := units + [Unit(pageIdx, parts[k], |Fields(parts[k])|)];
    }
    assert parts[..|parts|] == parts;
  }

  // ---- Packing units into chunks ------------------------------------------------

  function Flatten(chunks: seq<Chunk>): seq<Unit> {
    if chunks == [] then [] else Flatten(chunks[..|chunks| - 1]) + chunks[|chunks| - 1].units
  }

  /** The test that closes a chunk of `words` words before unit `u`. */
  predicate Closes(words: int, u: Unit, minWords: int, maxWords: int) {
    words >= minWords && words + u.words > maxWords
  }

  /** A non-empty chunk that no earlier unit should have closed. */
  ghost predicate PackedChunk(c: Chunk, minWords: int, maxWords: int) {
    && c.units != []
    && c.words == SumWords(c.units)
    && forall k :: 0 < k < |c.units| ==> !Closes(SumWords(c.units[..k]), c.units[k], minWords, maxWords)
  }

  /** The chunks partition the units in order, each one closed exactly when the next unit closes it. */
  ghost predicate Packing(chunks: seq<Chunk>, units: seq<Unit>, minWords: int, maxWords: int) {
    && Flatten(chunks) == units
    && (forall i :: 0 <= i < |chunks| ==> PackedChunk(chunks[i], minWords, maxWords))
    && (forall i :: 0 <= i < |chunks| - 1 ==> Closes(chunks[i].words, chunks[i + 1].units[0], minWords, maxWords))
  }

  /** The closed chunks and the chunk being filled. */
  datatype Packer = Packer(chunks: seq<Chunk>, current: Chunk)

  function PackOne(p: Packer, u: Unit, minWords: int, maxWords: int): Packer {
    if |p.current.units| > 0 && Closes(p.current.words, u, minWords, maxWords)
    then Packer(p.chunks + [p.current], Chunk([u], u.words))
    else Packer(p.chunks, Chunk(p.current.units + [u], p.current.words + u.words))
  }

  function Pack(units: seq<Unit>, minWords: int, maxWords: int): Packer {
    if units == [] then Packer([], Chunk([], 0))
    else PackOne(Pack(units[..|units| - 1], minWords, maxWords), units[|units| - 1], minWords, maxWords)
  }

  function TextChunks(units: seq<Unit>, minWords: int, maxWords: int): seq<Chunk> {
    var p := Pack(units, minWords, maxWords);
    if |p.current.units| > 0 then p.chunks + [p.current] else p.chunks
  }

  method BuildTextChunks(units: seq<Unit>, minWords: int, maxWords: int) returns (chunks: seq<Chunk>)
    ensures chunks == TextChunks(units, minWords, maxWords)
  {
    if |units| == 0 {
      return [];
    }
    chunks := [];
    var current := Chunk([], 0);
    for i := 0 to |units|
      invariant Packer(chunks, current) == Pack(units[..i], minWords, maxWords)
    {
      var unit := units[i];
      PackSnoc(units[..i], unit, minWords, maxWords);
      assert units[..i + 1] == units[..i] + [unit];
      if |current.units| > 0 && current.words >= minWords && current.words + unit.words > maxWords {
        chunks := chunks + [current];
        current := Chunk([], 0);
        assert current.units + [unit] == [unit];
      }
      current := Chunk(current.units + [unit], current.words + unit.words);
    }
    assert units[..|units|] == units;
    if |current.units| > 0 {
      chunks := chunks + [current];
    }
  }

  lemma {:induction false} PackSnoc(front: seq<Unit>, u: Unit, minWords: int, maxWords: int)
    ensures Pack(front + [u], minWords, maxWords) == PackOne(Pack(front, minWords, maxWords), u, minWords, maxWords)
  {
    assert (front + [u])[..|front|] == front;
  }

  lemma {:induction false} PackSnocKeepsState(front: seq<Unit>, u: Unit, minWords: int, maxWords: int)
    requires PackState(Pack(front, minWords, maxWords), front, minWords, maxWords)
    ensures PackState(Pack(front + [u], minWords, maxWords), front + [u], minWords, maxWords)
  {
    PackSnoc(front, u, minWords, maxWords);
    PackStep(Pack(front, minWords, maxWords), front, u, minWords, maxWords);
  }

  lemma {:induction false} PackNothing(minWords: int, maxWords: int)
    ensures PackState(Pack([], minWords, maxWords), [], minWords, maxWords)
  {
  }

  lemma {:induction false} PackKeepsState(units: seq<Unit>, minWords: int, maxWords: int)
    ensures PackState(Pack(units, minWords, maxWords), units, minWords, maxWords)
  {
    hide PackState, Pack;
    if units == [] {
      PackNothing(minWords, maxWords);
    } else {
      var front, u := units[..|units| - 1], units[|units| - 1];
      PackKeepsState(front, minWords, maxWords);
      assert front + [u] == units;
      PackSnocKeepsState(front, u, minWords, maxWords);
    }
  }

  /** Packing partitions the units in order into non-empty chunks that close exactly when the next unit closes them. */
  lemma {:induction false} TextChunksPacking(units: seq<Unit>, minWords: int, maxWords: int)
    ensures Packing(TextChunks(units, minWords, maxWords), units, minWords, maxWords)
  {
    PackKeepsState(units, minWords, maxWords);
    var p := Pack(units, minWords, maxWords);
    if |p.current.units| > 0 {
      PackingSnoc(p.chunks, p.current, minWords, maxWords);
      assert Flatten(p.chunks) + p.current.units == units;
    }
  }

  /** What holds between the closed chunks and the one being filled, after the units `done`. */
  ghost predicate PackState(p: Packer, done: seq<Unit>, minWords: int, maxWords: int) {
    && Flatten(p.chunks) + p.current.units == done
    && Packing(p.chunks, Flatten(p.chunks), minWords, maxWords)
    && (if done == [] then p == Packer([], Chunk([], 0)) else PackedChunk(p.current, minWords, maxWords))
    && (p.chunks != [] ==>
          p.current.units != [] && Closes(p.chunks[|p.chunks| - 1].words, p.current.units[0], minWords, maxWords))
  }

  lemma {:induction false} PackStep(p: Packer, done: seq<Unit>, u: Unit, minWords: int, maxWords: int)
    requires PackState(p, done, minWords, maxWords)
    ensures PackState(PackOne(p, u, minWords, maxWords), done + [u], minWords, maxWords)
  {
    if |p.current.units| > 0 && Closes(p.current.words, u, minWords, maxWords) {
      PackingSnoc(p.chunks, p.current, minWords, maxWords);
      FlattenSnoc(p.chunks, p.current);
      GrowChunk(Chunk([], 0), u, minWords, maxWords);
      assert [] + [u] == [u];
    } else {
      GrowChunk(p.current, u, minWords, maxWords);
      assert Flatten(p.chunks) + (p.current.units + [u]) == done + [u];
    }
  }

  lemma {:induction false} PackingSnoc(chunks: seq<Chunk>, c: Chunk, minWords: int, maxWords: int)
    requires PackedChunk(c, minWords, maxWords) && Packing(chunks, Flatten(chunks), minWords, maxWords)
    requires chunks != [] ==> Closes(chunks[|chunks| - 1].words, c.units[0], minWords, maxWords)
    ensures Packing(chunks + [c], Flatten(chunks) + c.units, minWords, maxWords)
  {
    FlattenSnoc(chunks, c);
    hide Flatten, PackedChunk, Closes;
  }

  lemma {:induction false} FlattenSnoc(chunks: seq<Chunk>, c: Chunk)
    ensures Flatten(chunks + [c]) == Flatten(chunks) + c.units
  {
    assert (chunks + [c])[..|chunks|] == chunks;
  }

  lemma {:induction false} GrowChunk(c: Chunk, u: Unit, minWords: int, maxWords: int)
    requires c == Chunk([], 0) || (PackedChunk(c, minWords, maxWords) && !Closes(c.words, u, minWords, maxWords))
    ensures PackedChunk(Chunk(c.units + [u], c.words + u.words), minWords, maxWords)
  {
    SumWordsSnoc(c.units, u);
    var units := c.units + [u];
    assert forall k :: 0 < k <= |c.units| ==> units[..k] == c.units[..k];
    assert c.units[..|c.units|] == c.units;
  }

  lemma {:induction false} SumWordsSnoc(units: seq<Unit>, u: Unit)
    ensures SumWords(units + [u]) == SumWords(units) + u.words
  {
    assert (units + [u])[..|units|] == units;
  }

  lemma {:induction false} PackingNonEmpty(chunks: seq<Chunk>, units: seq<Unit>, minWords: int, maxWords: int)
    requires Packing(chunks, units, minWords, maxWords)
    ensures Flatten(chunks) == units && (units != [] ==> chunks != [])
    ensures forall i :: 0 <= i < |chunks| ==> chunks[i].units != []
  {
    hide SumWords;
  }

  ghost predicate WordsWithin(units: seq<Unit>, bound: int) {
    forall i :: 0 <= i < |units| ==> 1 <= units[i].words <= bound
  }

  lemma {:induction false} SumWordsPrefix(units: seq<Unit>, k: nat)
    requires 0 < k <= |units|
    ensures SumWords(units[..k]) == SumWords(units[..k - 1]) + units[k - 1].words
  {
    assert units[..k][..k - 1] == units[..k - 1];
  }

  /** A chunk never exceeds the larger of the maximum, one unit, and one unit short of the minimum plus a unit. */
  lemma {:induction false} ChunkWordBound(c: Chunk, minWords: int, maxWords: int, bound: int)
    requires PackedChunk(c, minWords, maxWords)
    requires WordsWithin(c.units, bound)
    ensures c.words <= Max(maxWords, Max(bound, minWords - 1 + bound))
  {
    var n := |c.units|;
    SumWordsPrefix(c.units, n);
    assert c.units[..n] == c.units;
    if n > 1 {
      assert !Closes(SumWords(c.units[..n - 1]), c.units[n - 1], minWords, maxWords);
    } else {
      assert SumWords(c.units[..0]) == 0;
    }
  }

  // ---- The hard cap ---------------------------------------------------------------

  /** Chunks are "hard-capped" at `maxWords` for every document whose units are cut at `bound` words. */
  ghost predicate HardCap(minWords: int, maxWords: int, bound: int) {
    forall pages: seq<string>, units: seq<Unit>, i: int
      {:trigger DocumentUnits(units, pages, bound), TextChunks(units, minWords, maxWords)[i]} ::
      DocumentUnits(units, pages, bound) && 0 <= i < |TextChunks(units, minWords, maxWords)| ==>
        TextChunks(units, minWords, maxWords)[i].words <= maxWords
  }

  function Words(n: nat): seq<string> { seq(n, _ => "w") }

  /** The document that breaks the cap: pages of one word, one short of the minimum, then a full page. */
  function OvershootPages(minWords: nat, bound: nat): seq<string>
    requires minWords >= 1
  {
    Words(minWords - 1) + [Join(Words(bound), " ")]
  }

  function Ones(n: nat): seq<Unit> { seq(n, i => Unit(i, "w", 1)) }

  function OvershootUnits(minWords: nat, bound: nat): seq<Unit>
    requires minWords >= 1
  {
    Ones(minWords - 1) + [Unit(minWords - 1, Join(Words(bound), " "), bound)]
  }

  lemma {:induction false} OneWord()
    ensures Fields("w") == ["w"] && Join(Fields("w"), " ") == "w" && IsWord("w")
  {
    FieldsOfWord("w");
  }

  lemma {:induction false} FullPage(n: nat)
    ensures Fields(Join(Words(n), " ")) == Words(n)
  {
    OneWord();
    FieldsJoinWords(Words(n));
  }

  lemma {:induction false} OnesPageWords(n: nat, p: int)
    ensures PageWords(Ones(n), p) == if 0 <= p < n then ["w"] else []
  {
    hide *;
    if n > 0 {
      OnesPageWords(n - 1, p);
      OneWord();
      OnesSnoc(n - 1);
      PageWordsConcat(Ones(n - 1), [Unit(n - 1, "w", 1)], p);
      OneUnitWords(Unit(n - 1, "w", 1), p);
    } else {
      NoUnitWords(p);
    }
  }

  lemma {:induction false} OnesSnoc(n: nat)
    ensures Ones(n + 1) == Ones(n) + [Unit(n, "w", 1)]
  {
  }

  lemma {:induction false} NoUnitWords(p: int)
    ensures PageWords(Ones(0), p) == []
  {
  }

  lemma {:induction false} OneUnitWords(u: Unit, p: int)
    ensures PageWords([u], p) == if u.pageIndex == p then Fields(u.text) else []
  {
    hide Fields;
    assert PageWords([], p) == [] && [u][1..] == [];
  }

  lemma {:induction false} OvershootCanonical(minWords: nat, bound: nat)
    requires minWords >= 1 && bound >= 1
    ensures CanonicalUnits(OvershootUnits(minWords, bound), bound) && CutsFull(OvershootUnits(minWords, bound), bound)
  {
    OneWord();
    FullPage(bound);
    hide Fields, Join;
  }

  lemma {:induction false} OvershootCovers(minWords: nat, bound: nat)
    requires minWords >= 1 && bound >= 1
    ensures UnitsCover(OvershootUnits(minWords, bound), OvershootPages(minWords, bound))
  {
    var units, pages := OvershootUnits(minWords, bound), OvershootPages(minWords, bound);
    var last := Unit(minWords - 1, Join(Words(bound), " "), bound);
    OneWord();
    FullPage(bound);
    hide Fields, Join, PageWords;
    forall p | 0 <= p < |pages|
      ensures PageWords(units, p) == Fields(pages[p])
    {
      PageWordsConcat(Ones(minWords - 1), [last], p);
      OnesPageWords(minWords - 1, p);
      OneUnitWords(last, p);
    }
  }

  /** Nothing closes the chunk before the last unit is in. */
  lemma {:induction false} OvershootPack(minWords: nat, maxWords: int, bound: nat, k: nat)
    requires minWords >= 1 && k <= minWords
    ensures var units := OvershootUnits(minWords, bound);
            Pack(units[..k], minWords, maxWords) ==
              Packer([], Chunk(units[..k], if k < minWords then k else k - 1 + bound))
  {
    hide *;
    var units := OvershootUnits(minWords, bound);
    OvershootAt(minWords, bound, k);
    if k > 0 {
      OvershootPack(minWords, maxWords, bound, k - 1);
      PackSnoc(units[..k - 1], units[k - 1], minWords, maxWords);
      PackOpen(units[..k - 1], k - 1, units[k - 1], minWords, maxWords);
    } else {
      PackNothing(minWords, maxWords);
    }
  }

  lemma {:induction false} OvershootAt(minWords: nat, bound: nat, k: nat)
    requires minWords >= 1 && k <= minWords
    ensures var units := OvershootUnits(minWords, bound);
            |units| == minWords && if k == 0 then units[..k] == [] else
              units[..k] == units[..k - 1] + [units[k - 1]] && units[k - 1].words == if k < minWords then 1 else bound
  {
    hide Join;
  }

  /** A chunk short of the minimum stays open. */
  lemma {:induction false} PackOpen(units: seq<Unit>, words: int, u: Unit, minWords: int, maxWords: int)
    requires words < minWords
    ensures PackOne(Packer([], Chunk(units, words)), u, minWords, maxWords) ==
              Packer([], Chunk(units + [u], words + u.words))
  {
  }

  lemma {:induction false} FlattenMember(chunks: seq<Chunk>, i: int, bound: int)
    requires 0 <= i < |chunks| && WordsWithin(Flatten(chunks), bound)
    ensures WordsWithin(chunks[i].units, bound)
  {
    var front, last := Flatten(chunks[..|chunks| - 1]), chunks[|chunks| - 1].units;
    assert forall k :: 0 <= k < |front| ==> (front + last)[k] == front[k];
    assert forall k :: 0 <= k < |last| ==> (front + last)[|front| + k] == last[k];
    if i < |chunks| - 1 {
      FlattenMember(chunks[..|chunks| - 1], i, bound);
    }
  }

  lemma {:induction false} CanonicalWithin(units: seq<Unit>, bound: int)
    requires CanonicalUnits(units, bound)
    ensures WordsWithin(units, bound)
  {
    hide Fields;
    forall i | 0 <= i < |units|
      ensures units[i].words <= bound
    {
      assert CanonicalUnit(units[i], bound);
    }
  }

  /** The cap holds for every document exactly when one word short of the minimum plus a full unit fits it. */
  lemma {:induction false} HardCapIff(minWords: int, maxWords: int, bound: int)
    requires minWords >= 1 && bound >= 1
    ensures HardCap(minWords, maxWords, bound) <==> minWords - 1 + bound <= maxWords
  {
    hide Pack, UnitsCover, CanonicalUnits, CutsFull, PackedChunk;
    if minWords - 1 + bound <= maxWords {
      forall pages: seq<string>, units: seq<Unit>, i: int |
        DocumentUnits(units, pages, bound) && 0 <= i < |TextChunks(units, minWords, maxWords)|
        ensures TextChunks(units, minWords, maxWords)[i].words <= maxWords
      {
        TextChunksPacking(units, minWords, maxWords);
        CanonicalWithin(units, bound);
        FlattenMember(TextChunks(units, minWords, maxWords), i, bound);
        ChunkWordBound(TextChunks(units, minWords, maxWords)[i], minWords, maxWords, bound);
      }
    } else {
      var units := OvershootUnits(minWords, bound);
      OvershootCanonical(minWords, bound);
      OvershootCovers(minWords, bound);
      assert DocumentUnits(units, OvershootPages(minWords, bound), bound);
      OvershootPack(minWords, maxWords, bound, minWords);
      assert units[..minWords] == units;
      hide DocumentUnits, OvershootUnits;
      assert TextChunks(units, minWords, maxWords)[0].words > maxWords;
    }
  }

  /** In the worker, which cuts units at its maximum, the cap holds for every document only if the minimum is one. */
  lemma {:induction false} WorkerHardCapIff(r: Range)
    requires ValidRange(r)
    ensures HardCap(r.min, r.max, r.max) <==> r.min == 1
  {
    HardCapIff(r.min, r.max, r.max);
    hide HardCap;
  }

  // ---- Adaptive shrinking -------------------------------------------------------

  /** The preferred minimum and the maximum number of words of a chunk. */
  datatype Range = Range(min: int, max: int)

  ghost predicate ValidRange(r: Range) {
    1 <= r.min <= r.max
  }

  /** WithPDFChunkWordRange applied to the worker's current range. */
  function WordRangeOption(current: Range, minWords: int, maxWords: int): Range {
    var lo := if minWords > 0 then minWords else current.min;
    var hi := if maxWords > 0 then maxWords else current.max;
    Range(lo, if hi < lo then lo else hi)
  }

  /** int(float64(n) * 0.8) for a positive n. */
  function FourFifths(n: int): (r: int)
    ensures 5 * r <= 4 * n < 5 * r + 5
  {
    4 * n / 5
  }

  function ReduceRange(minWords: int, maxWords: int): Range {
    var lo := if minWords <= 0 then ADAPTIVE_FLOOR else minWords;
    var hi := if maxWords < lo then lo else maxWords;
    var floored := Max(FourFifths(lo), ADAPTIVE_FLOOR);
    var newMin := if floored > lo then lo else floored;
    Range(newMin, Max(FourFifths(hi), newMin))
  }

  /** The range after `k` reductions. */
  function Reductions(start: Range, k: nat): Range {
    if k == 0 then start
    else var r := Reductions(start, k - 1); ReduceRange(r.min, r.max)
  }

  /** Whatever is configured, the worker's range stays valid, so splitting always advances. */
  lemma {:induction false} WordRangeOptionValid(current: Range, minWords: int, maxWords: int)
    requires ValidRange(current)
    ensures ValidRange(WordRangeOption(current, minWords, maxWords))
  {
  }

  /** One reduction of a valid range: both bounds shrink until they meet the floor. */
  lemma {:induction false} ReduceRangeStep(r: Range)
    requires ValidRange(r)
    ensures var next := ReduceRange(r.min, r.max);
            && Min(ADAPTIVE_FLOOR, r.min) <= next.min <= Max(Min(ADAPTIVE_FLOOR, r.min), r.min - 1)
            && next.min <= next.max <= Max(next.min, r.max - 1)
  {
  }

  /** Reductions never raise a bound, never cross the bounds, and never push the minimum below the floor. */
  lemma {:induction false} ReductionsBounded(start: Range, k: nat)
    requires ValidRange(start)
    ensures var r := Reductions(start, k); ValidRange(r) && r.max <= start.max
    ensures Min(ADAPTIVE_FLOOR, start.min) <= Reductions(start, k).min <= start.min
  {
    if k > 0 {
      ReductionsBounded(start, k - 1);
      ReduceRangeStep(Reductions(start, k - 1));
      hide ReduceRange;
    }
  }

  lemma {:induction false} ReductionsShrink(start: Range, k: nat)
    requires ValidRange(start)
    ensures Reductions(start, k).min <= Max(Min(ADAPTIVE_FLOOR, start.min), start.min - k)
    ensures Reductions(start, k).max <= Max(Min(ADAPTIVE_FLOOR, start.min), start.max - k)
  {
    if k > 0 {
      ReductionsShrink(start, k - 1);
      ReductionsBounded(start, k - 1);
      ReduceRangeStep(Reductions(start, k - 1));
      hide ReduceRange;
    }
  }

  /** Enough reductions bring both bounds to the floor, or to the start when that is lower, and keep them there. */
  lemma {:induction false} ReductionsReachFloor(start: Range, k: nat)
    requires ValidRange(start) && k >= start.max
    ensures Reductions(start, k) == Range(Min(ADAPTIVE_FLOOR, start.min), Min(ADAPTIVE_FLOOR, start.min))
  {
    ReductionsShrink(start, k);
    ReductionsBounded(start, k);
  }
}
