/**
 The chunks that one job can have (backend/jobs/worker.go: the batch loop of process): its units are cut at the
 configured maximum, and what remains of them is packed with a range that slow batches have reduced.
 */
module JobChunks {
  import opened Text
  import opened Chunking

  ghost predicate ChunkAt(units: seq<Unit>, range: Range, s: nat, k: nat, i: nat, c: seq<Unit>) {
    && s <= |units|
    && var chunks := TextChunks(units[s..], Reductions(range, k).min, Reductions(range, k).max);
       i < |chunks| && chunks[i].units == c
  }

  /** A chunk of the units that remain at some point of some attempt, after some number of reductions. */
  ghost predicate JobChunk(units: seq<Unit>, range: Range, c: seq<Unit>) {
    exists s: nat, k: nat, i: nat :: ChunkAt(units, range, s, k, i, c)
  }

  /** All of them. */
  ghost function ChunksOf(units: seq<Unit>, range: Range): seq<Unit> -> bool {
    c => JobChunk(units, range, c)
  }

  ghost predicate AllChunksIn(J: seq<Unit> -> bool, units: seq<Unit>, range: Range) {
    forall c: seq<Unit> :: JobChunk(units, range, c) ==> J(c)
  }

  /** What all chunks of a job have in common: a run of its units, packed within a range below the configured one. */
  ghost predicate PackedRun(units: seq<Unit>, range: Range, start: nat, c: seq<Unit>) {
    && c != [] && start + |c| <= |units| && units[start..start + |c|] == c
    && exists lo: int, hi: int :: PackedWithin(range, lo, hi, c)
  }

  ghost predicate PackedWithin(range: Range, lo: int, hi: int, c: seq<Unit>) {
    1 <= lo <= hi <= range.max && lo <= range.min && PackedChunk(Chunk(c, SumWords(c)), lo, hi)
  }

  lemma {:induction false} FlattenRun(chunks: seq<Chunk>, i: nat) returns (start: nat)
    requires i < |chunks|
    ensures start + |chunks[i].units| <= |Flatten(chunks)|
    ensures Flatten(chunks)[start..start + |chunks[i].units|] == chunks[i].units
  {
    var n := |chunks| - 1;
    if i < n {
      start := FlattenRun(chunks[..n], i);
      var front, size := Flatten(chunks[..n]), |chunks[i].units|;
      assert Flatten(chunks)[start..start + size] == front[start..start + size];
    } else {
      start := |Flatten(chunks[..n])|;
    }
  }

  lemma {:induction false} JobChunkRun(units: seq<Unit>, range: Range, c: seq<Unit>) returns (start: nat)
    requires ValidRange(range) && JobChunk(units, range, c)
    ensures PackedRun(units, range, start, c)
  {
    hide ChunkAt, PackedRun;
    var s: nat, k: nat, i: nat :| ChunkAt(units, range, s, k, i, c);
    start := ChunkAtRun(units, range, s, k, i, c);
  }

  lemma {:induction false} ChunkAtRun(units: seq<Unit>, range: Range, s: nat, k: nat, i: nat, c: seq<Unit>)
    returns (start: nat)
    requires ValidRange(range) && ChunkAt(units, range, s, k, i, c)
    ensures PackedRun(units, range, start, c)
  {
    var lo, hi := Reductions(range, k).min, Reductions(range, k).max;
    hide Reductions, PackedChunk, TextChunks, Flatten, Closes, Pack;
    var chunks := TextChunks(units[s..], lo, hi);
    ReductionsBounded(range, k);
    TextChunksPacking(units[s..], lo, hi);
    var at := FlattenRun(chunks, i);
    start := s + at;
    PackedSum(chunks[i], lo, hi);
    assert PackedWithin(range, lo, hi, c);
    assert c == Flatten(chunks)[at..at + |c|] == units[s..][at..at + |c|] == units[start..start + |c|];
  }

  lemma {:induction false} PackedSum(chunk: Chunk, lo: int, hi: int)
    requires PackedChunk(chunk, lo, hi)
    ensures chunk == Chunk(chunk.units, SumWords(chunk.units)) && chunk.units != []
  {
    hide SumWords;
  }

  /** A full unit makes a chunk of its own. */
  lemma {:induction false} FullUnitAlone(units: seq<Unit>, range: Range, start: nat, c: seq<Unit>)
    requires PackedRun(units, range, start, c) && WordsWithin(units, range.max)
    requires units[start].words == range.max
    ensures c == [units[start]]
  {
    var lo: int, hi: int :| PackedWithin(range, lo, hi, c);
    assert forall i :: 0 <= i < |c| ==> c[i] == units[start + i];
    SumWordsSnoc([], c[0]);
    assert c[..1] == [] + [c[0]];
  }

  /** With a minimum of one word, a chunk never exceeds the maximum. */
  lemma {:induction false} CappedAtOne(units: seq<Unit>, range: Range, start: nat, c: seq<Unit>)
    requires PackedRun(units, range, start, c) && WordsWithin(units, range.max) && range.min == 1
    ensures SumWords(c) <= range.max
  {
    var lo: int, hi: int :| PackedWithin(range, lo, hi, c);
    assert forall i :: 0 <= i < |c| ==> c[i] == units[start + i];
    ChunkWordBound(Chunk(c, SumWords(c)), lo, hi, range.max);
    assert lo == 1;
  }

  /** A unit that another one of its page follows is full. */
  lemma {:induction false} FollowedIsFull(units: seq<Unit>, pages: seq<string>, budget: int, i: nat, j: nat)
    requires DocumentUnits(units, pages, budget) && i < j < |units| && units[i].pageIndex == units[j].pageIndex
    ensures units[i].words == budget
  {
    hide CanonicalUnits, PageWords, Fields;
    PagesInOrder(units, i + 1, j);
    assert units[i].pageIndex <= units[i + 1].pageIndex;
  }

  lemma {:induction false} PagesInOrder(units: seq<Unit>, i: nat, j: nat)
    requires i <= j < |units| && forall k :: 0 < k < |units| ==> units[k - 1].pageIndex <= units[k].pageIndex
    ensures units[i].pageIndex <= units[j].pageIndex
  {
    if i < j {
      PagesInOrder(units, i, j - 1);
    }
  }
}
