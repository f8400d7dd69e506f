/**
 Grouping of doubtful text lines for LLM correction (_chunk_low_confidence_blocks in ocr-service/app.py).
 */
module CorrectionChunks {
  import opened Layout
  import opened PythonText

  predicate Low(b: Block, threshold: real) {
    b.confidence <= threshold && Strip(b.text) != ""
  }

  /** The doubtful ones among the first `n` blocks. */
  function LowIndexes(blocks: seq<Block>, threshold: real, n: nat): seq<nat>
    requires n <= |blocks|
  {
    if n == 0 then []
    else LowIndexes(blocks, threshold, n - 1) + if Low(blocks[n - 1], threshold) then [n - 1] else []
  }

  ghost predicate InRange(indexes: seq<nat>, n: nat) {
    forall k :: 0 <= k < |indexes| ==> indexes[k] < n
  }

  ghost predicate Increasing(indexes: seq<nat>) {
    forall k, l :: 0 <= k < l < |indexes| ==> indexes[k] < indexes[l]
  }

  lemma {:induction false} LowIndexesFacts(blocks: seq<Block>, threshold: real, n: nat)
    requires n <= |blocks|
    ensures var low := LowIndexes(blocks, threshold, n);
            && Increasing(low) && InRange(low, n)
            && forall i :: 0 <= i < n ==> (i in low <==> Low(blocks[i], threshold))
  {
    hide Low;
    if n > 0 {
      LowIndexesFacts(blocks, threshold, n - 1);
    }
  }

  /** A line is doubtful when it shows something with a confidence up to the threshold. */
  lemma {:induction false} DoubtfulIff(blocks: seq<Block>, threshold: real, i: nat)
    requires i < |blocks|
    ensures i in LowIndexes(blocks, threshold, |blocks|) <==>
            blocks[i].confidence <= threshold && Visible(blocks[i].text)
  {
    LowIndexesFacts(blocks, threshold, |blocks|);
    StripVisible(blocks[i].text);
    hide LowIndexes, Strip, Visible;
  }

  // ---- Packing ---------------------------------------------------------------------------------

  function Chars(blocks: seq<Block>, indexes: seq<nat>): nat
    requires InRange(indexes, |blocks|)
  {
    if indexes == [] then 0
    else Chars(blocks, indexes[..|indexes| - 1]) + |blocks[indexes[|indexes| - 1]].text|
  }

  /** Closed chunks and the one being filled. */
  datatype Packing = Packing(chunks: seq<seq<nat>>, current: seq<nat>)

  function Flat(chunks: seq<seq<nat>>): seq<nat> {
    if chunks == [] then [] else Flat(chunks[..|chunks| - 1]) + chunks[|chunks| - 1]
  }

  /** The chunks a packing stands for, the open one included. */
  function Closed(p: Packing): seq<seq<nat>> {
    if p.current == [] then p.chunks else p.chunks + [p.current]
  }

  ghost predicate ChunkFits(blocks: seq<Block>, maxChars: int, chunk: seq<nat>) {
    chunk != [] && InRange(chunk, |blocks|) && (|chunk| == 1 || Chars(blocks, chunk) <= maxChars)
  }

  /** The chunk is closed only when the next block does not fit. */
  ghost predicate Overflows(blocks: seq<Block>, maxChars: int, chunk: seq<nat>, next: seq<nat>) {
    && InRange(chunk, |blocks|) && InRange(next, |blocks|) && next != []
    && Chars(blocks, chunk) + |blocks[next[0]].text| > maxChars
  }

  ghost predicate Packed(blocks: seq<Block>, maxChars: int, chunks: seq<seq<nat>>) {
    && (forall c :: 0 <= c < |chunks| ==> ChunkFits(blocks, maxChars, chunks[c]))
    && (forall c :: 0 < c < |chunks| ==> Overflows(blocks, maxChars, chunks[c - 1], chunks[c]))
  }

  lemma {:induction false} FlatSnoc(chunks: seq<seq<nat>>, chunk: seq<nat>)
    ensures Flat(chunks + [chunk]) == Flat(chunks) + chunk
  {
    assert (chunks + [chunk])[..|chunks|] == chunks;
  }

  lemma {:induction false} CharsSnoc(blocks: seq<Block>, indexes: seq<nat>, i: nat)
    requires InRange(indexes, |blocks|) && i < |blocks|
    ensures InRange(indexes + [i], |blocks|)
    ensures Chars(blocks, indexes + [i]) == Chars(blocks, indexes) + |blocks[i].text|
  {
    assert (indexes + [i])[..|indexes|] == indexes;
  }

  lemma {:induction false} PackedOpen(blocks: seq<Block>, maxChars: int, chunks: seq<seq<nat>>, i: nat)
    requires Packed(blocks, maxChars, chunks) && i < |blocks|
    requires chunks == [] || Chars(blocks, chunks[|chunks| - 1]) + |blocks[i].text| > maxChars
    ensures Packed(blocks, maxChars, chunks + [[i]])
  {
    hide Chars;
    var longer := chunks + [[i]];
    assert ChunkFits(blocks, maxChars, [i]);
    forall c | 0 < c < |longer|
      ensures Overflows(blocks, maxChars, longer[c - 1], longer[c])
    {
      if c < |chunks| {
        assert Overflows(blocks, maxChars, chunks[c - 1], chunks[c]);
      } else {
        assert ChunkFits(blocks, maxChars, chunks[c - 1]);
      }
    }
  }

  lemma {:induction false} PackedGrow(blocks: seq<Block>, maxChars: int, chunks: seq<seq<nat>>, current: seq<nat>,
                                      i: nat)
    requires current != [] && Packed(blocks, maxChars, chunks + [current]) && i < |blocks| && InRange(current, |blocks|)
    requires Chars(blocks, current) + |blocks[i].text| <= maxChars
    ensures Packed(blocks, maxChars, chunks + [current + [i]])
  {
    var old_, new_ := chunks + [current], chunks + [current + [i]];
    assert old_[|chunks|] == current;
    CharsSnoc(blocks, current, i);
    hide Chars;
    forall c | 0 <= c < |new_|
      ensures ChunkFits(blocks, maxChars, new_[c])
      ensures c > 0 ==> Overflows(blocks, maxChars, new_[c - 1], new_[c])
    {
      assert ChunkFits(blocks, maxChars, old_[c]);
      if c > 0 {
        assert Overflows(blocks, maxChars, old_[c - 1], old_[c]);
      }
    }
  }

  /** Whether a line must wait for the next chunk. */
  predicate Full(blocks: seq<Block>, maxChars: int, current: seq<nat>, idx: nat)
    requires InRange(current, |blocks|) && idx < |blocks|
  {
    current != [] && Chars(blocks, current) + |blocks[idx].text| > maxChars
  }

  function Added(blocks: seq<Block>, maxChars: int, p: Packing, idx: nat): Packing
    requires InRange(p.current, |blocks|) && idx < |blocks|
  {
    if Full(blocks, maxChars, p.current, idx) then Packing(p.chunks + [p.current], [idx])
    else Packing(p.chunks, p.current + [idx])
  }

  /** One line more. */
  lemma {:induction false} AddLine(blocks: seq<Block>, maxChars: int, p: Packing, idx: nat)
    requires InRange(p.current, |blocks|) && idx < |blocks| && (p.current == [] ==> p.chunks == [])
    requires Packed(blocks, maxChars, Closed(p))
    ensures var q := Added(blocks, maxChars, p, idx);
            Packed(blocks, maxChars, Closed(q)) && Flat(Closed(q)) == Flat(Closed(p)) + [idx]
  {
    hide Packed, Chars, Flat;
    if Full(blocks, maxChars, p.current, idx) {
      PackedOpen(blocks, maxChars, p.chunks + [p.current], idx);
      FlatSnoc(p.chunks + [p.current], [idx]);
    } else if p.current == [] {
      PackedOpen(blocks, maxChars, p.chunks, idx);
      FlatSnoc(p.chunks, [idx]);
      assert p.current + [idx] == [idx];
    } else {
      PackedGrow(blocks, maxChars, p.chunks, p.current, idx);
      FlatSnoc(p.chunks, p.current);
      FlatSnoc(p.chunks, p.current + [idx]);
    }
  }

  /**
   The chunks hold the doubtful lines in order, each in exactly one chunk; no chunk is empty or, unless it is
   a single line, over the limit, and no line would have fitted into the chunk before its own.
   */
  method ChunkLowConfidenceBlocks(blocks: seq<Block>, threshold: real, maxChars: int) returns (chunks: seq<seq<nat>>)
    ensures Flat(chunks) == LowIndexes(blocks, threshold, |blocks|)
    ensures Packed(blocks, maxChars, chunks)
  {
    hide LowIndexes, Low, Chars, Packed, Flat;
    var lowIndexes := FindLow(blocks, threshold);
    LowIndexesFacts(blocks, threshold, |blocks|);
    chunks := [];
    var current: seq<nat> := [];
    var currentChars := 0;
    PackedNothing(blocks, maxChars);
    for k := 0 to |lowIndexes|
      invariant InRange(current, |blocks|) && currentChars == Chars(blocks, current)
      invariant current == [] ==> chunks == [] && k == 0
      invariant Flat(Closed(Packing(chunks, current))) == lowIndexes[..k]
      invariant Packed(blocks, maxChars, Closed(Packing(chunks, current)))
    {
      hide InRange;
      var idx := lowIndexes[k];
      assert idx < |blocks| by { IndexInRange(lowIndexes, |blocks|, k); }
      var blockChars := |blocks[idx].text|;
      AddLine(blocks, maxChars, Packing(chunks, current), idx);
      ghost var next := Added(blocks, maxChars, Packing(chunks, current), idx);
      if current != [] && currentChars + blockChars > maxChars {
        chunks := chunks + [current];
        current := [];
        currentChars := 0;
        EmptyChars(blocks);
      }
      CharsSnoc(blocks, current, idx);
      current := current + [idx];
      currentChars := currentChars + blockChars;
      assert Packing(chunks, current) == next;
      hide Closed;
      assert lowIndexes[..k + 1] == lowIndexes[..k] + [idx];
    }
    assert lowIndexes[..|lowIndexes|] == lowIndexes;
    if current != [] {
      chunks := chunks + [current];
    }
  }

  lemma {:induction false} IndexInRange(indexes: seq<nat>, n: nat, k: nat)
    requires InRange(indexes, n) && k < |indexes|
    ensures indexes[k] < n
  {
  }

  lemma {:induction false} EmptyChars(blocks: seq<Block>)
    ensures InRange([], |blocks|) && Chars(blocks, []) == 0
  {
  }

  lemma {:induction false} PackedNothing(blocks: seq<Block>, maxChars: int)
    ensures Packed(blocks, maxChars, []) && Flat([]) == [] && InRange([], |blocks|) && Chars(blocks, []) == 0
  {
  }

  method FindLow(blocks: seq<Block>, threshold: real) returns (low: seq<nat>)
    ensures low == LowIndexes(blocks, threshold, |blocks|)
  {
    hide Low;
    low := [];
    for i := 0 to |blocks|
      invariant low == LowIndexes(blocks, threshold, i)
    {
      if Low(blocks[i], threshold) {
        low := low + [i];
      }
    }
  }
}
