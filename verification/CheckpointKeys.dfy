/**
 When the checkpoint keys of one job can be confused (backend/jobs/worker.go: chunkCheckpointKey). Stored keys carry
 the job, so that only chunks of one document compete; fields are separated by NULs that texts may hold as well.
 */
module CheckpointKeys {
  import Normalize
  import opened Text
  import opened Chunking
  import opened JobChunks
  import opened Checkpoints

  /** What the units add to the languages in the bytes of a key. */
  function Tail(units: seq<Unit>): string {
    if units == [] then ""
    else
      var u := units[|units| - 1];
      Tail(units[..|units| - 1]) + NUL_SEP + Decimal(u.pageIndex) + NUL_SEP + u.text
  }

  lemma {:induction false} TailSnoc(front: seq<Unit>, u: Unit)
    ensures Tail(front + [u]) == Tail(front) + (NUL_SEP + Decimal(u.pageIndex) + NUL_SEP + u.text)
  {
    hide Decimal;
    assert (front + [u])[..|front|] == front;
  }

  lemma {:induction false} PreimageSnoc(source: string, target: string, front: seq<Unit>, u: Unit)
    ensures Preimage(source, target, front + [u]) ==
              Preimage(source, target, front) + (NUL_SEP + Decimal(u.pageIndex) + NUL_SEP + u.text)
  {
    hide Decimal;
    assert (front + [u])[..|front|] == front;
  }

  lemma {:induction false} NoUnits(source: string, target: string)
    ensures Tail([]) == "" && Preimage(source, target, []) == source + NUL_SEP + target
  {
  }

  lemma {:induction false} PreimageTail(source: string, target: string, units: seq<Unit>)
    ensures Preimage(source, target, units) == source + NUL_SEP + target + Tail(units)
  {
    hide *;
    NoUnits(source, target);
    if units != [] {
      var front, u := units[..|units| - 1], units[|units| - 1];
      PreimageTail(source, target, front);
      PreimageSnoc(source, target, front, u);
      TailSnoc(front, u);
      assert units == front + [u];
    }
  }

  lemma {:induction false} TailConcat(a: seq<Unit>, b: seq<Unit>)
    ensures Tail(a + b) == Tail(a) + Tail(b)
  {
    hide *;
    if b == [] {
      NoUnits("", "");
      assert a + b == a;
    } else {
      var front, u := b[..|b| - 1], b[|b| - 1];
      TailConcat(a, front);
      TailSnoc(a + front, u);
      TailSnoc(front, u);
      assert b == front + [u];
      assert a + b == a + front + [u];
    }
  }

  /** The texts of the units with what the key puts between them. */
  function Glued(units: seq<Unit>): string
    requires units != []
  {
    if |units| == 1 then units[0].text
    else
      var u := units[|units| - 1];
      Glued(units[..|units| - 1]) + (NUL_SEP + Decimal(u.pageIndex) + NUL_SEP) + u.text
  }

  lemma {:induction false} GluedSnoc(front: seq<Unit>, u: Unit)
    ensures Glued(front + [u]) ==
              if front == [] then u.text
              else Glued(front) + (NUL_SEP + Decimal(u.pageIndex) + NUL_SEP) + u.text
  {
    hide Decimal;
    assert (front + [u])[..|front|] == front;
  }

  lemma {:induction false} TailFirst(units: seq<Unit>)
    requires units != []
    ensures Tail(units) == NUL_SEP + Decimal(units[0].pageIndex) + NUL_SEP + Glued(units)
  {
    hide *;
    var front, u := units[..|units| - 1], units[|units| - 1];
    assert units == front + [u];
    TailSnoc(front, u);
    GluedSnoc(front, u);
    if front == [] {
      NoUnits("", "");
    } else {
      TailFirst(front);
    }
  }

  // ---- Words across a seam ---------------------------------------------------------------------------

  ghost predicate Solid(s: string) {
    s != "" && !IsSpace(s[0]) && !IsSpace(s[|s| - 1])
  }

  /** Where visible characters meet, two words become one. */
  lemma {:induction false} SeamWords(a: string, b: string)
    requires a != "" && b != "" && !IsSpace(a[|a| - 1]) && !IsSpace(b[0])
    ensures |Fields(a + b)| == |Fields(a)| + |Fields(b)| - 1
    decreases |a|
  {
    if IsSpace(a[0]) {
      SeamWords(a[1..], b);
      CutConcat(a, b, 1);
    } else if WordLen(a) < |a| {
      var n := WordLen(a);
      WordLenIs(a + b, n);
      FieldsUnfold(a);
      FieldsUnfold(a + b);
      CutConcat(a, b, n);
      SeamWords(a[n..], b);
    } else {
      SeamWord(a, b);
    }
  }

  lemma {:induction false} SeamWord(a: string, b: string)
    requires a != "" && b != "" && WordLen(a) == |a| && !IsSpace(b[0])
    ensures |Fields(a)| == 1 && |Fields(a + b)| == |Fields(b)|
  {
    var m := WordLen(b);
    assert !IsSpace(a[0]);
    SeamLength(a, b);
    FieldsUnfold(a);
    FieldsUnfold(b);
    FieldsUnfold(a + b);
    hide WordLen;
    assert (a + b)[|a| + m..] == b[m..];
    assert a[|a|..] == "";
  }

  lemma {:induction false} SeamLength(a: string, b: string)
    requires WordLen(a) == |a|
    ensures WordLen(a + b) == |a| + WordLen(b)
  {
    WordLenIs(a + b, |a| + WordLen(b));
  }

  lemma {:induction false} SolidConcat(a: string, b: string)
    requires Solid(a) && Solid(b)
    ensures Solid(a + b)
  {
  }

  lemma {:induction false} CanonicalSolid(u: Unit, budget: int)
    requires CanonicalUnit(u, budget)
    ensures Solid(u.text)
  {
    hide Fields, Join;
    FieldsAreWords(u.text);
    assert Normalize.Collapsed(u.text);
    Normalize.CollapsedFacts(u.text);
  }

  /** NUL, the page number and NUL are no blanks. */
  lemma {:induction false} PageMark(p: int)
    ensures IsWord(NUL_SEP + Decimal(p) + NUL_SEP)
  {
    DigitsFacts(if p < 0 then -p else p);
    hide Digits;
    var mark := NUL_SEP + Decimal(p) + NUL_SEP;
    forall i | 0 <= i < |mark|
      ensures !IsSpace(mark[i])
    {
      assert mark[i] == NUL || mark[i] == '-' || '0' <= mark[i] <= '9';
    }
  }

  lemma {:induction false} MarkedWords(a: string, p: int, b: string)
    requires Solid(a) && Solid(b)
    ensures var glued := a + (NUL_SEP + Decimal(p) + NUL_SEP) + b;
            Solid(glued) && |Fields(glued)| == |Fields(a)| + |Fields(b)| - 1
  {
    var mark := NUL_SEP + Decimal(p) + NUL_SEP;
    PageMark(p);
    hide Decimal, Fields;
    FieldsOfWord(mark);
    SeamWords(a, mark);
    SolidConcat(a, mark);
    SeamWords(a + mark, b);
    SolidConcat(a + mark, b);
  }

  /** Each seam of the glued texts joins two words. */
  lemma {:induction false} GluedWords(units: seq<Unit>, budget: int)
    requires units != [] && CanonicalUnits(units, budget)
    ensures Solid(Glued(units)) && |Fields(Glued(units))| == SumWords(units) - (|units| - 1)
  {
    hide *;
    var front, u := units[..|units| - 1], units[|units| - 1];
    assert units == front + [u];
    CanonicalEnds(front, u, budget);
    SumWordsSnoc(front, u);
    GluedSnoc(front, u);
    if front != [] {
      GluedWords(front, budget);
      MarkedWords(Glued(front), u.pageIndex, u.text);
    } else {
      NoWords();
    }
  }

  lemma {:induction false} CanonicalEnds(front: seq<Unit>, u: Unit, budget: int)
    requires CanonicalUnits(front + [u], budget)
    ensures CanonicalUnits(front, budget) && Solid(u.text) && u.words == |Fields(u.text)|
  {
    var units := front + [u];
    hide CanonicalPart, Fields, Solid;
    assert CanonicalUnit(units[|front|], budget);
    CanonicalSolid(u, budget);
    assert forall i :: 0 <= i < |front| ==> units[i] == front[i];
  }

  lemma {:induction false} NoWords()
    ensures SumWords([]) == 0
  {
  }

  // ---- Chunks with the same bytes ----------------------------------------------------------------------

  lemma {:induction false} SameStart(units: seq<Unit>, start: nat, a: seq<Unit>, b: seq<Unit>)
    requires |a| <= |b| && start + |b| <= |units|
    requires units[start..start + |a|] == a && units[start..start + |b|] == b
    requires Tail(a) == Tail(b)
    ensures a == b
  {
    var rest := b[|a|..];
    assert b == a + rest;
    TailConcat(a, rest);
    hide Decimal;
    assert rest != [] ==> Tail(rest) != "";
  }

  /** Chunks that start at different units: one is a full unit, and the other spells it out, with too many words. */
  lemma {:induction false} LaterStart(units: seq<Unit>, pages: seq<string>, range: Range, i: nat, a: seq<Unit>, j: nat,
                                      b: seq<Unit>)
    requires ValidRange(range) && range.min == 1 && DocumentUnits(units, pages, range.max)
    requires i < j && PackedRun(units, range, i, a) && PackedRun(units, range, j, b)
    requires Tail(a) == Tail(b)
    ensures a == b
  {
    RunUnits(units, range, i, a);
    RunUnits(units, range, j, b);
    SamePage(a, b);
    CanonicalWithin(units, range.max);
    hide DocumentUnits, PackedRun, WordsWithin, Tail;
    FollowedIsFull(units, pages, range.max, i, j);
    FullUnitAlone(units, range, i, a);
    CappedAtOne(units, range, j, b);
    DocumentCanonical(units, pages, range.max, i, a);
    DocumentCanonical(units, pages, range.max, j, b);
    GluedWords(a, range.max);
    GluedWords(b, range.max);
    SumWordsSnoc([], a[0]);
    assert a == [] + [a[0]] && SumWords([]) == 0;
    assert |b| == 1;
    assert CanonicalUnit(a[0], range.max) && CanonicalUnit(b[0], range.max);
    assert a[0] == b[0];
  }

  lemma {:induction false} RunUnits(units: seq<Unit>, range: Range, start: nat, c: seq<Unit>)
    requires PackedRun(units, range, start, c)
    ensures c != [] && start + |c| <= |units| && units[start..start + |c|] == c && c[0] == units[start]
  {
    hide PackedWithin;
  }

  lemma {:induction false} SamePage(a: seq<Unit>, b: seq<Unit>)
    requires a != [] && b != [] && Tail(a) == Tail(b)
    ensures a[0].pageIndex == b[0].pageIndex && Glued(a) == Glued(b)
  {
    TailFirst(a);
    TailFirst(b);
    hide *;
    FirstField(a[0].pageIndex, Glued(a), b[0].pageIndex, Glued(b));
  }

  lemma {:induction false} FirstField(p: int, a: string, q: int, b: string)
    requires NUL_SEP + Decimal(p) + NUL_SEP + a == NUL_SEP + Decimal(q) + NUL_SEP + b
    ensures p == q && a == b
  {
    DecimalNulFree(p);
    DecimalNulFree(q);
    hide Decimal;
    var s, t := Decimal(p) + NUL_SEP + a, Decimal(q) + NUL_SEP + b;
    assert NUL_SEP + s == NUL_SEP + Decimal(p) + NUL_SEP + a;
    assert NUL_SEP + t == NUL_SEP + Decimal(q) + NUL_SEP + b;
    assert s == (NUL_SEP + s)[1..] == (NUL_SEP + t)[1..] == t;
    FirstNul(Decimal(p), a, Decimal(q), b);
    DecimalInjective(p, q);
  }

  lemma {:induction false} DocumentCanonical(units: seq<Unit>, pages: seq<string>, budget: int, start: nat,
                                             c: seq<Unit>)
    requires DocumentUnits(units, pages, budget) && start + |c| <= |units| && units[start..start + |c|] == c
    ensures CanonicalUnits(c, budget)
  {
    hide CanonicalUnit, UnitsCover, CutsFull;
    forall k | 0 <= k < |c|
      ensures CanonicalUnit(c[k], budget)
    {
      assert c[k] == units[start + k];
    }
  }

  /** Two chunks of a job with the same bytes are equal, if the minimum is one word. */
  lemma {:induction false} SameBytes(units: seq<Unit>, pages: seq<string>, range: Range, a: seq<Unit>, b: seq<Unit>)
    requires ValidRange(range) && range.min == 1 && DocumentUnits(units, pages, range.max)
    requires JobChunk(units, range, a) && JobChunk(units, range, b) && Tail(a) == Tail(b)
    ensures a == b
  {
    hide *;
    var i := JobChunkRun(units, range, a);
    var j := JobChunkRun(units, range, b);
    RunUnits(units, range, i, a);
    RunUnits(units, range, j, b);
    if i < j {
      LaterStart(units, pages, range, i, a, j, b);
    } else if j < i {
      LaterStart(units, pages, range, j, b, i, a);
    } else if |a| <= |b| {
      SameStart(units, i, a, b);
    } else {
      SameStart(units, i, b, a);
    }
  }

  /** NUL-free chunks, of whatever document, have bytes of their own. */
  lemma {:induction false} KeyableDistinct(source: string, target: string)
    ensures Distinct(source, target, Keyable)
  {
    hide Keyable, Preimage;
    forall a: seq<Unit>, b: seq<Unit> |
      Keyable(a) && Keyable(b) && Preimage(source, target, a) == Preimage(source, target, b)
      ensures a == b
    {
      SameTail(source, target, a, b);
      NulFreeBytes(a, b);
    }
  }

  lemma {:induction false} NulFreeBytes(a: seq<Unit>, b: seq<Unit>)
    requires Keyable(a) && Keyable(b) && Tail(a) == Tail(b)
    ensures a == b
  {
    PreimageTail("", "", a);
    PreimageTail("", "", b);
    hide *;
    PreimageInjective("", "", a, "", "", b) by { KeyableNulFree(a); KeyableNulFree(b); NothingFree(); }
    SameKeyedEqual(a, b);
  }

  lemma {:induction false} NothingFree()
    ensures Free(NUL, "")
  {
  }

  lemma {:induction false} KeyableNulFree(units: seq<Unit>)
    requires Keyable(units)
    ensures NulFreeUnits(units)
  {
    hide Fields;
  }

  lemma {:induction false} JobKeyable(units: seq<Unit>, pages: seq<string>, range: Range, c: seq<Unit>)
    requires ValidRange(range) && DocumentUnits(units, pages, range.max) && NulFreeUnits(units)
    requires JobChunk(units, range, c)
    ensures Keyable(c)
  {
    var start := JobChunkRun(units, range, c);
    RunUnits(units, range, start, c);
    DocumentCanonical(units, pages, range.max, start, c);
    hide Fields, DocumentUnits, JobChunk, PackedRun, CanonicalPart;
    forall k | 0 <= k < |c|
      ensures Free(NUL, c[k].text) && c[k].words == |Fields(c[k].text)|
    {
      assert CanonicalUnit(c[k], range.max);
      assert c[k] == units[start + k];
    }
  }

  // ---- The exact condition -----------------------------------------------------------------------------

  /** Whatever the document over the alphabet, no two chunks that a job on it can have share their key's bytes. */
  ghost predicate KeysDistinguish(alphabet: set<char>, source: string, target: string, range: Range) {
    forall pages: seq<string>, units: seq<Unit> ::
      PagesOver(alphabet, pages) && DocumentUnits(units, pages, range.max)
      ==> Distinct(source, target, ChunksOf(units, range))
  }

  ghost predicate PagesOver(alphabet: set<char>, pages: seq<string>) {
    forall p :: 0 <= p < |pages| ==> Over(alphabet, pages[p])
  }

  function Ones(n: nat): seq<string> { seq(n, _ => "1") }

  /** A full page's words, the first of them spelling out a unit before it. */
  function Spelt(n: nat): seq<string>
    requires n > 0
  {
    ["1" + NUL_SEP + "1" + NUL_SEP + "1"] + Ones(n - 1)
  }

  /** A unit that spells out the two after it, which the minimum keeps together. */
  function CollidingUnits(budget: nat): seq<Unit>
    requires budget > 0
  {
    [Unit(0, Join(Spelt(budget), " "), budget), Unit(0, "1", 1), Unit(1, Join(Ones(budget), " "), budget)]
  }

  function CollidingPages(budget: nat): seq<string>
    requires budget > 0
  {
    [Join(Spelt(budget) + ["1"], " "), Join(Ones(budget), " ")]
  }

  lemma {:induction false} JoinedUnit(p: int, ws: seq<string>, budget: int)
    requires AllWords(ws) && 1 <= |ws| <= budget
    ensures Fields(Join(ws, " ")) == ws && CanonicalUnit(Unit(p, Join(ws, " "), |ws|), budget)
  {
    FieldsJoinWords(ws);
  }

  lemma {:induction false} CollidingWords(budget: nat)
    requires budget > 0
    ensures AllWords(Spelt(budget)) && AllWords(Ones(budget)) && AllWords(["1"]) && AllWords(Spelt(budget) + ["1"])
    ensures Join(["1"], " ") == "1"
  {
  }

  lemma {:induction false} CollidingDocument(budget: nat)
    requires budget > 0
    ensures DocumentUnits(CollidingUnits(budget), CollidingPages(budget), budget)
  {
    CollidingWords(budget);
    JoinedUnit(0, Spelt(budget), budget);
    JoinedUnit(0, ["1"], budget);
    JoinedUnit(1, Ones(budget), budget);
    hide Fields, Join, PageWords, AllWords, CanonicalUnit;
    forall p | 0 <= p < 2
      ensures PageWords(CollidingUnits(budget), p) == Fields(CollidingPages(budget)[p])
    {
      CollidingPage(budget, p);
    }
  }

  lemma {:induction false} CollidingPage(budget: nat, p: nat)
    requires budget > 0 && p < 2
    ensures PageWords(CollidingUnits(budget), p) == Fields(CollidingPages(budget)[p])
  {
    var units := CollidingUnits(budget);
    CollidingWords(budget);
    FieldsJoinWords(Spelt(budget));
    FieldsJoinWords(["1"]);
    FieldsJoinWords(Ones(budget));
    FieldsJoinWords(Spelt(budget) + ["1"]);
    hide Fields, Join, PageWords, AllWords, Spelt, Ones;
    ThreeUnits(units[0], units[1], units[2], p);
  }

  lemma {:induction false} ThreeUnits(u: Unit, v: Unit, w: Unit, p: int)
    ensures PageWords([u, v, w], p) ==
              (if u.pageIndex == p then Fields(u.text) else []) + (if v.pageIndex == p then Fields(v.text) else [])
              + if w.pageIndex == p then Fields(w.text) else []
  {
    hide *;
    assert [u, v, w] == [u] + [v] + [w];
    PageWordsConcat([u] + [v], [w], p);
    PageWordsConcat([u], [v], p);
    OneUnitWords(u, p);
    OneUnitWords(v, p);
    OneUnitWords(w, p);
  }

  /** The full unit makes a chunk of its own; the single word is short of the minimum and takes the next page along. */
  lemma {:induction false} CollidingChunks(range: Range)
    requires ValidRange(range) && range.min > 1
    ensures var units := CollidingUnits(range.max);
            && TextChunks(units, range.min, range.max) ==
                 [Chunk(units[..1], range.max), Chunk(units[1..], range.max + 1)]
            && JobChunk(units, range, units[..1]) && JobChunk(units, range, units[1..])
  {
    var units := CollidingUnits(range.max);
    var u, v, w := units[0], units[1], units[2];
    hide Join, Spelt;
    PackSnoc([], u, range.min, range.max);
    PackSnoc([u], v, range.min, range.max);
    PackSnoc([u, v], w, range.min, range.max);
    assert [] + [u] == [u] && [u] + [v] == [u, v] && [u, v] + [w] == units;
    assert Pack([], range.min, range.max) == Packer([], Chunk([], 0));
    assert units[..1] == [u] && units[1..] == [v, w] == [v] + [w];
    assert units[0..] == units && Reductions(range, 0) == range;
    assert ChunkAt(units, range, 0, 0, 0, units[..1]);
    assert ChunkAt(units, range, 0, 0, 1, units[1..]);
  }

  lemma {:induction false} CollidingBytes(budget: nat)
    requires budget > 1
    ensures var units := CollidingUnits(budget); Tail(units[..1]) == Tail(units[1..])
  {
    var units := CollidingUnits(budget);
    var rest := Join(Ones(budget - 1), " ");
    assert Ones(budget) == ["1"] + Ones(budget - 1);
    assert Spelt(budget)[1..] == Ones(budget - 1) == Ones(budget)[1..];
    assert units[2].text == "1" + " " + rest;
    assert units[0].text == "1" + NUL_SEP + "1" + NUL_SEP + "1" + " " + rest;
    assert Digits(0) == "0" && Digits(1) == "1";
    assert units[..1][..0] == [] && units[1..][..1] == [units[1]] && [units[1]][..0] == [];
    assert Tail([units[1]]) == NUL_SEP + "0" + NUL_SEP + "1";
  }

  lemma {:induction false} JoinOver(alphabet: set<char>, parts: seq<string>, sep: string)
    requires Over(alphabet, sep) && forall i :: 0 <= i < |parts| ==> Over(alphabet, parts[i])
    ensures Over(alphabet, Join(parts, sep))
  {
    if |parts| > 1 {
      JoinOver(alphabet, parts[1..], sep);
    }
  }

  lemma {:induction false} CollidingOver(alphabet: set<char>, budget: nat)
    requires NUL in alphabet && '1' in alphabet && ' ' in alphabet && budget > 0
    ensures PagesOver(alphabet, CollidingPages(budget))
  {
    JoinOver(alphabet, Spelt(budget) + ["1"], " ");
    JoinOver(alphabet, Ones(budget), " ");
    hide Join;
  }

  /** The keys of a job's chunks are collision-free exactly when texts hold no NUL or the minimum is one word. */
  lemma {:induction false} KeysDistinguishIff(alphabet: set<char>, source: string, target: string, range: Range)
    requires ValidRange(range) && '1' in alphabet && ' ' in alphabet
    ensures KeysDistinguish(alphabet, source, target, range) <==> NUL !in alphabet || range.min == 1
  {
    if NUL in alphabet && range.min > 1 {
      KeysCollide(alphabet, source, target, range);
    } else {
      KeysDiffer(alphabet, source, target, range);
    }
    hide *;
  }

  lemma {:induction false} KeysCollide(alphabet: set<char>, source: string, target: string, range: Range)
    requires ValidRange(range) && '1' in alphabet && ' ' in alphabet && NUL in alphabet && range.min > 1
    ensures !KeysDistinguish(alphabet, source, target, range)
  {
    var units := CollidingUnits(range.max);
    CollidingOver(alphabet, range.max);
    CollidingDocument(range.max);
    CollidingChunks(range);
    CollidingBytes(range.max);
    PreimageTail(source, target, units[..1]);
    PreimageTail(source, target, units[1..]);
    NotDistinct(source, target, units, range, units[..1], units[1..]);
    hide DocumentUnits, Distinct, Preimage, Tail, PagesOver, CollidingUnits, CollidingPages, TextChunks, JobChunk;
  }

  lemma {:induction false} NotDistinct(source: string, target: string, units: seq<Unit>, range: Range, a: seq<Unit>,
                                       b: seq<Unit>)
    requires JobChunk(units, range, a) && JobChunk(units, range, b) && |a| != |b|
    requires Preimage(source, target, a) == Preimage(source, target, b)
    ensures !Distinct(source, target, ChunksOf(units, range))
  {
    hide JobChunk, Preimage;
  }

  lemma {:induction false} KeysDiffer(alphabet: set<char>, source: string, target: string, range: Range)
    requires ValidRange(range) && (NUL !in alphabet || range.min == 1)
    ensures KeysDistinguish(alphabet, source, target, range)
  {
    hide DocumentUnits, Distinct, Over;
    forall pages: seq<string>, units: seq<Unit> | PagesOver(alphabet, pages) && DocumentUnits(units, pages, range.max)
      ensures Distinct(source, target, ChunksOf(units, range))
    {
      if range.min != 1 {
        OverWithoutNul(alphabet, pages);
      }
      JobDistinct(pages, units, range, source, target);
    }
  }

  /** The chunks of a job have bytes of their own if its pages hold no NUL, or if the minimum is one word. */
  lemma {:induction false} JobDistinct(pages: seq<string>, units: seq<Unit>, range: Range, source: string,
                                       target: string)
    requires ValidRange(range) && DocumentUnits(units, pages, range.max)
    requires NulFreePages(pages) || range.min == 1
    ensures Distinct(source, target, ChunksOf(units, range))
  {
    hide DocumentUnits, JobChunk, Preimage, Tail, NulFreePages, Keyable;
    forall a: seq<Unit>, b: seq<Unit> |
      JobChunk(units, range, a) && JobChunk(units, range, b)
      && Preimage(source, target, a) == Preimage(source, target, b)
      ensures a == b
    {
      SameTail(source, target, a, b);
      if range.min == 1 {
        SameBytes(units, pages, range, a, b);
      } else {
        NulFreeJob(pages, units, range, a);
        NulFreeJob(pages, units, range, b);
        NulFreeBytes(a, b);
      }
    }
  }

  /** Chunks of NUL-free pages are NUL-free. */
  lemma {:induction false} NulFreeJob(pages: seq<string>, units: seq<Unit>, range: Range, c: seq<Unit>)
    requires ValidRange(range) && DocumentUnits(units, pages, range.max) && NulFreePages(pages)
    requires JobChunk(units, range, c)
    ensures Keyable(c)
  {
    NulFreeDocument(pages, units, range.max);
    JobKeyable(units, pages, range, c);
  }

  lemma {:induction false} SameTail(source: string, target: string, a: seq<Unit>, b: seq<Unit>)
    requires Preimage(source, target, a) == Preimage(source, target, b)
    ensures Tail(a) == Tail(b)
  {
    PreimageTail(source, target, a);
    PreimageTail(source, target, b);
    hide *;
    var base := source + NUL_SEP + target;
    assert Tail(a) == (base + Tail(a))[|base|..] == (base + Tail(b))[|base|..] == Tail(b);
  }

  lemma {:induction false} OverWithoutNul(alphabet: set<char>, pages: seq<string>)
    requires NUL !in alphabet && PagesOver(alphabet, pages)
    ensures NulFreePages(pages)
  {
  }

  /**
   What a reliable store needs of keys: chunks that have bytes of their own and include the job's. Those of all
   documents without NULs do, if this is one; and at a minimum of one word the job's own chunks do in any case.
   */
  lemma {:induction false} KeysSuffice(pages: seq<string>, range: Range, source: string, target: string)
    requires ValidRange(range)
    ensures var units := PageUnits(pages, range.max);
            && (NulFreePages(pages) ==> Distinct(source, target, Keyable) && AllChunksIn(Keyable, units, range))
            && (range.min == 1 ==>
                  Distinct(source, target, ChunksOf(units, range)) && AllChunksIn(ChunksOf(units, range), units, range))
  {
    var units := PageUnits(pages, range.max);
    PageUnitsDocument(pages, range.max);
    hide Distinct, DocumentUnits, JobChunk, Keyable, NulFreePages, PageUnits;
    if NulFreePages(pages) {
      KeyableDistinct(source, target);
      forall c: seq<Unit> | JobChunk(units, range, c)
        ensures Keyable(c)
      {
        NulFreeJob(pages, units, range, c);
      }
    }
    if range.min == 1 {
      JobDistinct(pages, units, range, source, target);
    }
  }
}
