/**
 Column detection by horizontal gaps (_detect_columns in ocr-service/app.py).
 */
module Columns {
  import opened Layout

  function Center(b: Block): real {
    (b.bbox.x1 + b.bbox.x2) / 2.0
  }

  function Centers(blocks: seq<Block>): (centers: seq<real>)
    ensures |centers| == |blocks|
  {
    seq(|blocks|, i requires 0 <= i < |blocks| => Center(blocks[i]))
  }

  // ---- sorted(set(centers)) ----------------------------------------------------------------------

  ghost predicate Ascending(s: seq<real>) {
    forall i, j :: 0 <= i < j < |s| ==> s[i] < s[j]
  }

  function InsertUnique(x: real, s: seq<real>): seq<real> {
    if s == [] || x < s[0] then [x] + s
    else if x == s[0] then s
    else [s[0]] + InsertUnique(x, s[1..])
  }

  function SortedSet(s: seq<real>): seq<real> {
    if s == [] then [] else InsertUnique(s[|s| - 1], SortedSet(s[..|s| - 1]))
  }

  lemma {:induction false} InsertUniqueFacts(x: real, s: seq<real>)
    requires Ascending(s)
    ensures Ascending(InsertUnique(x, s))
    ensures forall v :: v in InsertUnique(x, s) <==> v == x || v in s
  {
    if s != [] && s[0] < x {
      InsertUniqueFacts(x, s[1..]);
      var rest := InsertUnique(x, s[1..]);
      assert s == [s[0]] + s[1..];
      forall i | 0 <= i < |rest|
        ensures s[0] < rest[i]
      {
        assert rest[i] == x || rest[i] in s[1..];
      }
    }
  }

  lemma {:induction false} SortedSetFacts(s: seq<real>)
    ensures Ascending(SortedSet(s))
    ensures forall v :: v in SortedSet(s) <==> v in s
  {
    if s != [] {
      SortedSetFacts(s[..|s| - 1]);
      InsertUniqueFacts(s[|s| - 1], SortedSet(s[..|s| - 1]));
      assert s == s[..|s| - 1] + [s[|s| - 1]];
    }
  }

  // ---- Breaks and columns ----------------------------------------------------------------------------

  /** The midpoints of the wide gaps between the first `n` centres. */
  function Breaks(sorted: seq<real>, threshold: real, n: nat): seq<real>
    requires n <= |sorted|
  {
    if n < 2 then []
    else
      Breaks(sorted, threshold, n - 1) +
      if sorted[n - 1] - sorted[n - 2] >= threshold then [(sorted[n - 2] + sorted[n - 1]) / 2.0] else []
  }

  function CountBelow(breaks: seq<real>, x: real): nat {
    if breaks == [] then 0
    else CountBelow(breaks[..|breaks| - 1], x) + if x > breaks[|breaks| - 1] then 1 else 0
  }

  function MaxRight(blocks: seq<Block>): real
    requires blocks != []
  {
    if |blocks| == 1 then blocks[0].bbox.x2
    else RMax(MaxRight(blocks[..|blocks| - 1]), blocks[|blocks| - 1].bbox.x2)
  }

  /** Gaps from here on separate columns; an image of unknown width is as wide as its blocks reach. */
  function Threshold(blocks: seq<Block>, imageWidth: int): real
    requires blocks != []
  {
    RMax(20.0, (if imageWidth <= 0 then MaxRight(blocks) else imageWidth as real) * 0.08)
  }

  function Column(blocks: seq<Block>, imageWidth: int, x: real): nat
    requires blocks != []
  {
    var sorted := SortedSet(Centers(blocks));
    CountBelow(Breaks(sorted, Threshold(blocks, imageWidth), |sorted|), x)
  }

  function ColumnIds(blocks: seq<Block>, imageWidth: int): (ids: seq<nat>)
    ensures |ids| == |blocks|
  {
    seq(|blocks|, i requires 0 <= i < |blocks| => Column(blocks, imageWidth, Center(blocks[i])))
  }

  method DetectColumns(blocks: seq<Block>, imageWidth: int) returns (ids: seq<nat>)
    ensures ids == ColumnIds(blocks, imageWidth)
  {
    if blocks == [] {
      return [];
    }
    var centers := [];
    for i := 0 to |blocks|
      invariant centers == Centers(blocks[..i])
    {
      centers := centers + [(blocks[i].bbox.x1 + blocks[i].bbox.x2) / 2.0];
    }
    assert blocks[..|blocks|] == blocks;
    var sortedCenters := SortedSet(centers);
    var threshold := GapThreshold(blocks, imageWidth);
    hide SortedSet, Centers, Threshold;
    if |sortedCenters| < 2 {
      return seq(|blocks|, _ => 0);
    }
    var breaks := FindBreaks(sortedCenters, threshold);
    if breaks == [] {
      return seq(|blocks|, _ => 0);
    }
    ids := [];
    for i := 0 to |blocks|
      invariant |ids| == i
      invariant forall k :: 0 <= k < i ==> ids[k] == Column(blocks, imageWidth, Center(blocks[k]))
    {
      hide Column, Center;
      var col := CountBreaks(breaks, Center(blocks[i]));
      assert col == Column(blocks, imageWidth, Center(blocks[i])) by {
        ColumnUnfold(blocks, imageWidth, Center(blocks[i]));
      }
      ids := ids + [col];
    }
  }

  lemma {:induction false} ColumnUnfold(blocks: seq<Block>, imageWidth: int, x: real)
    requires blocks != []
    ensures var sorted := SortedSet(Centers(blocks));
            Column(blocks, imageWidth, x) == CountBelow(Breaks(sorted, Threshold(blocks, imageWidth), |sorted|), x)
  {
  }

  method GapThreshold(blocks: seq<Block>, imageWidth: int) returns (threshold: real)
    requires blocks != []
    ensures threshold == Threshold(blocks, imageWidth)
  {
    var width := imageWidth as real;
    if imageWidth <= 0 {
      width := blocks[0].bbox.x2;
      assert blocks[..1] == [blocks[0]];
      for i := 1 to |blocks|
        invariant width == MaxRight(blocks[..i])
      {
        assert blocks[..i + 1][..i] == blocks[..i];
        width := RMax(width, blocks[i].bbox.x2);
      }
      assert blocks[..|blocks|] == blocks;
    }
    threshold := RMax(20.0, width * 0.08);
  }

  method FindBreaks(sorted: seq<real>, threshold: real) returns (breaks: seq<real>)
    requires |sorted| >= 2
    ensures breaks == Breaks(sorted, threshold, |sorted|)
  {
    breaks := [];
    for i := 1 to |sorted|
      invariant breaks == Breaks(sorted, threshold, i)
    {
      if sorted[i] - sorted[i - 1] >= threshold {
        breaks := breaks + [(sorted[i - 1] + sorted[i]) / 2.0];
      }
    }
  }

  method CountBreaks(breaks: seq<real>, x: real) returns (col: nat)
    ensures col == CountBelow(breaks, x)
  {
    col := 0;
    for i := 0 to |breaks|
      invariant col == CountBelow(breaks[..i], x)
    {
      assert breaks[..i + 1][..i] == breaks[..i];
      if x > breaks[i] {
        col := col + 1;
      }
    }
    assert breaks[..|breaks|] == breaks;
  }

  // ---- What the columns mean ---------------------------------------------------------------------------

  lemma {:induction false} CountBelowConcat(breaks: seq<real>, b: real, x: real)
    ensures CountBelow(breaks + [b], x) == CountBelow(breaks, x) + if x > b then 1 else 0
  {
    assert (breaks + [b])[..|breaks|] == breaks;
  }

  /** The `i`-th centre lies right of the breaks before it, and of no others. */
  lemma {:induction false} BreaksBefore(sorted: seq<real>, threshold: real, n: nat, i: nat)
    requires Ascending(sorted) && i < |sorted| && n <= |sorted|
    ensures CountBelow(Breaks(sorted, threshold, n), sorted[i]) ==
              |Breaks(sorted, threshold, if n <= i then n else i + 1)|
  {
    if n >= 2 {
      BreaksBefore(sorted, threshold, n - 1, i);
      var middle := (sorted[n - 2] + sorted[n - 1]) / 2.0;
      assert sorted[n - 2] < middle < sorted[n - 1];
      assert n - 1 <= i ==> sorted[n - 1] <= sorted[i];
      assert i <= n - 2 ==> sorted[i] <= sorted[n - 2];
      CountBelowConcat(Breaks(sorted, threshold, n - 1), middle, sorted[i]);
      hide CountBelow;
      if sorted[n - 1] - sorted[n - 2] >= threshold {
        assert Breaks(sorted, threshold, n) == Breaks(sorted, threshold, n - 1) + [middle];
      } else {
        assert Breaks(sorted, threshold, n) == Breaks(sorted, threshold, n - 1);
      }
    }
  }

  /** More centres, more breaks: one more exactly at a wide gap. */
  lemma {:induction false} BreaksGrow(sorted: seq<real>, threshold: real, i: nat, j: nat)
    requires i <= j < |sorted|
    ensures |Breaks(sorted, threshold, i + 1)| <= |Breaks(sorted, threshold, j + 1)|
    ensures |Breaks(sorted, threshold, i + 1)| == |Breaks(sorted, threshold, j + 1)|
            <==> forall k :: i < k <= j ==> sorted[k] - sorted[k - 1] < threshold
  {
    if i < j {
      BreaksGrow(sorted, threshold, i, j - 1);
    }
  }

  /** Every number of breaks up to the last is reached at some centre. */
  lemma {:induction false} BreaksReach(sorted: seq<real>, threshold: real, j: nat, c: nat) returns (i: nat)
    requires j < |sorted| && c <= |Breaks(sorted, threshold, j + 1)|
    ensures i <= j && |Breaks(sorted, threshold, i + 1)| == c
  {
    if c == |Breaks(sorted, threshold, j + 1)| {
      i := j;
    } else {
      i := BreaksReach(sorted, threshold, j - 1, c);
    }
  }

  /** Two neighbouring centres at least a threshold apart, both between `from` and `to`. */
  ghost predicate WideGap(blocks: seq<Block>, threshold: real, from: real, to: real, left: real, right: real) {
    && left in Centers(blocks) && right in Centers(blocks)
    && from <= left < right <= to && right - left >= threshold
    && !exists between :: between in Centers(blocks) && left < between < right
  }

  lemma {:induction false} NothingBetween(sorted: seq<real>, k: nat, x: real)
    requires Ascending(sorted) && 0 < k < |sorted| && x in sorted
    ensures !(sorted[k - 1] < x < sorted[k])
  {
    var m :| 0 <= m < |sorted| && sorted[m] == x;
    if m < k {
      assert sorted[m] <= sorted[k - 1];
    } else {
      assert sorted[k] <= sorted[m];
    }
  }

  lemma {:induction false} WideGapAt(blocks: seq<Block>, threshold: real, i: nat, j: nat, k: nat)
    requires blocks != [] && i < k <= j < |SortedSet(Centers(blocks))|
    requires SortedSet(Centers(blocks))[k] - SortedSet(Centers(blocks))[k - 1] >= threshold
    ensures var sorted := SortedSet(Centers(blocks));
            WideGap(blocks, threshold, sorted[i], sorted[j], sorted[k - 1], sorted[k])
  {
    var sorted := SortedSet(Centers(blocks));
    SortedSetFacts(Centers(blocks));
    hide SortedSet, Centers;
    assert sorted[k - 1] in sorted && sorted[k] in sorted;
    forall x | x in Centers(blocks)
      ensures !(sorted[k - 1] < x < sorted[k])
    {
      NothingBetween(sorted, k, x);
    }
  }

  lemma {:induction false} WideGapIndex(blocks: seq<Block>, threshold: real, i: nat, j: nat, left: real, right: real)
    returns (k: nat)
    requires blocks != [] && i <= j < |SortedSet(Centers(blocks))|
    requires WideGap(blocks, threshold, SortedSet(Centers(blocks))[i], SortedSet(Centers(blocks))[j], left, right)
    ensures i < k <= j && SortedSet(Centers(blocks))[k] - SortedSet(Centers(blocks))[k - 1] >= threshold
  {
    var sorted := SortedSet(Centers(blocks));
    SortedSetFacts(Centers(blocks));
    hide SortedSet, Centers;
    var l :| 0 <= l < |sorted| && sorted[l] == left;
    var r :| 0 <= r < |sorted| && sorted[r] == right;
    assert l < r;
    assert sorted[l + 1] in sorted;
    assert !(left < sorted[l + 1] < right);
    k := r;
  }

  /**
   Columns grow from left to right, and two blocks share one exactly when no gap of at least the
   threshold between neighbouring centres lies between their centres.
   */
  lemma {:induction false} SameColumnIff(blocks: seq<Block>, imageWidth: int, a: Block, b: Block)
    requires a in blocks && b in blocks && Center(a) <= Center(b)
    ensures Column(blocks, imageWidth, Center(a)) <= Column(blocks, imageWidth, Center(b))
    ensures Column(blocks, imageWidth, Center(a)) == Column(blocks, imageWidth, Center(b)) <==>
            !exists left, right :: WideGap(blocks, Threshold(blocks, imageWidth), Center(a), Center(b), left, right)
  {
    var sorted, threshold := SortedSet(Centers(blocks)), Threshold(blocks, imageWidth);
    var i := CenterIndex(blocks, a);
    var j := CenterIndex(blocks, b);
    SortedSetFacts(Centers(blocks));
    assert i <= j;
    ColumnAt(blocks, imageWidth, i);
    ColumnAt(blocks, imageWidth, j);
    BreaksGrow(sorted, threshold, i, j);
    hide *;
    if k :| i < k <= j && sorted[k] - sorted[k - 1] >= threshold {
      WideGapAt(blocks, threshold, i, j, k);
    }
    if left, right :| WideGap(blocks, threshold, Center(a), Center(b), left, right) {
      var k := WideGapIndex(blocks, threshold, i, j, left, right);
    }
  }

  lemma {:induction false} CenterIndex(blocks: seq<Block>, b: Block) returns (i: nat)
    requires b in blocks
    ensures i < |SortedSet(Centers(blocks))| && SortedSet(Centers(blocks))[i] == Center(b)
  {
    SortedSetFacts(Centers(blocks));
    var k :| 0 <= k < |blocks| && blocks[k] == b;
    assert Centers(blocks)[k] == Center(b);
    hide SortedSet;
    assert Center(b) in SortedSet(Centers(blocks));
    i :| i < |SortedSet(Centers(blocks))| && SortedSet(Centers(blocks))[i] == Center(b);
  }

  /** The column of a centre is the number of wide gaps up to it. */
  lemma {:induction false} ColumnAt(blocks: seq<Block>, imageWidth: int, i: nat)
    requires blocks != [] && i < |SortedSet(Centers(blocks))|
    ensures var sorted := SortedSet(Centers(blocks));
            Column(blocks, imageWidth, sorted[i]) == |Breaks(sorted, Threshold(blocks, imageWidth), i + 1)|
  {
    var sorted := SortedSet(Centers(blocks));
    SortedSetFacts(Centers(blocks));
    hide SortedSet, Centers, Threshold;
    BreaksBefore(sorted, Threshold(blocks, imageWidth), |sorted|, i);
    ColumnUnfold(blocks, imageWidth, sorted[i]);
  }

  /** No column in between is empty. */
  lemma {:induction false} NoEmptyColumn(blocks: seq<Block>, imageWidth: int, b: Block, c: nat)
    requires b in blocks && c <= Column(blocks, imageWidth, Center(b))
    ensures exists a :: a in blocks && Column(blocks, imageWidth, Center(a)) == c
  {
    var j := CenterIndex(blocks, b);
    ColumnAt(blocks, imageWidth, j);
    var i := BreaksReach(SortedSet(Centers(blocks)), Threshold(blocks, imageWidth), j, c);
    ColumnAt(blocks, imageWidth, i);
    SortedSetFacts(Centers(blocks));
    hide SortedSet, Column, Threshold, Breaks;
    var x := SortedSet(Centers(blocks))[i];
    assert x in Centers(blocks);
    var k :| 0 <= k < |blocks| && Centers(blocks)[k] == x;
    assert blocks[k] in blocks && Center(blocks[k]) == x;
  }
}
