/**
 Reading order of a page: columns, rows and numbering (_assign_reading_order_with_layout in
 ocr-service/app.py). The region class of a block is an arbitrary function.
 */
module ReadingOrder {
  import opened Columns
  import opened Layout
  import opened Sorting

  datatype Region = Region(class_: string, level: int)

  type Classifier = (Block, seq<Block>, int, int) -> Region

  function Classify(b: Block, region: Region, column: int): Block {
    b.(regionClass := region.class_, hierarchyLevel := region.level, columnId := column)
  }

  /** The blocks with region and column, in their old order. */
  function Classified(classify: Classifier, blocks: seq<Block>, width: int, height: int): (classified: seq<Block>)
    ensures |classified| == |blocks|
  {
    var ids := ColumnIds(blocks, width);
    seq(|blocks|,
        i requires 0 <= i < |blocks| => Classify(blocks[i], classify(blocks[i], blocks, width, height), ids[i]))
  }

  /** Right edge of the page first: by top edge, then from right to left. */
  function TopRight(b: Block): Key { Key(b.bbox.y1, -b.bbox.x1) }

  function Right(b: Block): Key { Key(-b.bbox.x1, 0.0) }

  // ---- Rows ------------------------------------------------------------------------------------

  function Top(row: seq<Block>): real
    requires row != []
  {
    if |row| == 1 then row[0].bbox.y1 else RMin(Top(row[..|row| - 1]), row[|row| - 1].bbox.y1)
  }

  function Bottom(row: seq<Block>): real
    requires row != []
  {
    if |row| == 1 then row[0].bbox.y2 else RMax(Bottom(row[..|row| - 1]), row[|row| - 1].bbox.y2)
  }

  function RowKey(row: seq<Block>): Key {
    Key(if row == [] then 0.0 else Top(row), 0.0)
  }

  ghost predicate NoEmptyRow(rows: seq<seq<Block>>) {
    forall r :: 0 <= r < |rows| ==> rows[r] != []
  }

  /** The vertical spans of the block and the row overlap. */
  predicate OnRow(b: Block, row: seq<Block>)
    requires row != []
  {
    RMin(b.bbox.y2, Bottom(row)) - RMax(b.bbox.y1, Top(row)) > 0.0
  }

  /** Into the first row it overlaps, else into a new one. */
  function Place(b: Block, rows: seq<seq<Block>>): seq<seq<Block>> {
    if rows == [] then [[b]]
    else if rows[0] != [] && OnRow(b, rows[0]) then [rows[0] + [b]] + rows[1..]
    else [rows[0]] + Place(b, rows[1..])
  }

  function Rows(column: seq<Block>): seq<seq<Block>> {
    if column == [] then [] else Place(column[|column| - 1], Rows(column[..|column| - 1]))
  }

  function Flatten(rows: seq<seq<Block>>): seq<Block> {
    if rows == [] then [] else Flatten(rows[..|rows| - 1]) + rows[|rows| - 1]
  }

  function RightToLeft(rows: seq<seq<Block>>): (sorted: seq<seq<Block>>)
    ensures |sorted| == |rows|
  {
    seq(|rows|, r requires 0 <= r < |rows| => Sort(Right, rows[r]))
  }

  function SortedColumn(column: seq<Block>, rtl: bool): seq<Block> {
    if !rtl then Sort(TopLeft, column)
    else Flatten(RightToLeft(Sort(RowKey, Rows(Sort(TopRight, column)))))
  }

  // ---- The whole page ------------------------------------------------------------------------------

  function InColumn(blocks: seq<Block>, c: int): seq<Block> {
    if blocks == [] then []
    else InColumn(blocks[..|blocks| - 1], c) + if blocks[|blocks| - 1].columnId == c then [blocks[|blocks| - 1]] else []
  }

  function MaxId(ids: seq<nat>): nat {
    if ids == [] then 0
    else
      var rest := MaxId(ids[..|ids| - 1]);
      if ids[|ids| - 1] > rest then ids[|ids| - 1] else rest
  }

  /** The first `n` columns, sorted, one after the other from the left or, for `rtl`, from the right. */
  function Ordered(classified: seq<Block>, rtl: bool, n: nat): seq<Block> {
    if n == 0 then []
    else
      var rest, column := Ordered(classified, rtl, n - 1), SortedColumn(InColumn(classified, n - 1), rtl);
      if rtl then column + rest else rest + column
  }

  function Page(classify: Classifier, blocks: seq<Block>, width: int, height: int, rtl: bool): seq<Block> {
    Ordered(Classified(classify, blocks, width, height), rtl, MaxId(ColumnIds(blocks, width)) + 1)
  }

  method AssignReadingOrder(classify: Classifier, blocks: seq<Block>, width: int, height: int, rtl: bool)
      returns (ordered: seq<Block>)
    ensures ordered == Number(Page(classify, blocks, width, height, rtl))
  {
    if blocks == [] {
      PageOfNothing(classify, width, height, rtl);
      return [];
    }
    hide ColumnIds, SortedColumn, Page;
    var ids := DetectColumns(blocks, width);
    var classified: seq<Block> := [];
    for i := 0 to |blocks|
      invariant classified == Classified(classify, blocks, width, height)[..i]
    {
      classified := classified + [Classify(blocks[i], classify(blocks[i], blocks, width, height), ids[i])];
    }
    assert classified == Classified(classify, blocks, width, height);
    forall i | 0 <= i < |classified|
      ensures classified[i].columnId == ids[i]
    {
      ClassifiedAt(classify, blocks, width, height, i);
    }
    hide Classified;
    var columns := GroupByColumn(classified, ids);
    ordered := ReadColumns(columns, classified, rtl);
    PageUnfold(classify, blocks, width, height, rtl);
  }

  lemma {:induction false} ClassifiedAt(classify: Classifier, blocks: seq<Block>, width: int, height: int, i: nat)
    requires i < |blocks|
    ensures Classified(classify, blocks, width, height)[i].columnId == ColumnIds(blocks, width)[i]
  {
    hide ColumnIds;
    var ids := ColumnIds(blocks, width);
    assert Classified(classify, blocks, width, height)[i] ==
           Classify(blocks[i], classify(blocks[i], blocks, width, height), ids[i]);
  }

  lemma {:induction false} PageUnfold(classify: Classifier, blocks: seq<Block>, width: int, height: int, rtl: bool)
    ensures Page(classify, blocks, width, height, rtl) ==
            Ordered(Classified(classify, blocks, width, height), rtl, MaxId(ColumnIds(blocks, width)) + 1)
  {
  }

  lemma {:induction false} PageOfNothing(classify: Classifier, width: int, height: int, rtl: bool)
    ensures Number(Page(classify, [], width, height, rtl)) == []
  {
    assert Classified(classify, [], width, height) == [];
    assert InColumn([], 0) == [] && SortedColumn([], rtl) == [];
    hide SortedColumn, InColumn;
    assert Ordered([], rtl, 1) == [];
  }

  method GroupByColumn(classified: seq<Block>, ids: seq<nat>) returns (columns: seq<seq<Block>>)
    requires |ids| == |classified| && forall i :: 0 <= i < |classified| ==> classified[i].columnId == ids[i]
    ensures |columns| == MaxId(ids) + 1
    ensures forall c :: 0 <= c < |columns| ==> columns[c] == InColumn(classified, c)
  {
    columns := seq(MaxId(ids) + 1, _ => []);
    for i := 0 to |classified|
      invariant |columns| == MaxId(ids) + 1
      invariant forall c :: 0 <= c < |columns| ==> columns[c] == InColumn(classified[..i], c)
    {
      MaxIdBounds(ids, i);
      assert classified[..i + 1][..i] == classified[..i];
      columns := columns[ids[i] := columns[ids[i]] + [classified[i]]];
    }
    assert classified[..|classified|] == classified;
  }

  lemma {:induction false} MaxIdBounds(ids: seq<nat>, i: nat)
    requires i < |ids|
    ensures ids[i] <= MaxId(ids)
  {
    if i < |ids| - 1 {
      MaxIdBounds(ids[..|ids| - 1], i);
    }
  }

  /** Sort every column, read them in order and number the blocks. */
  method ReadColumns(columns: seq<seq<Block>>, ghost classified: seq<Block>, rtl: bool) returns (ordered: seq<Block>)
    requires forall c :: 0 <= c < |columns| ==> columns[c] == InColumn(classified, c)
    ensures ordered == Number(Ordered(classified, rtl, |columns|))
  {
    hide SortedColumn, InColumn, Ordered;
    var read: seq<Block> := [];
    OrderedNone(classified, rtl);
    for c := 0 to |columns|
      invariant read == Ordered(classified, rtl, c)
    {
      OrderedUnfold(classified, rtl, c);
      var column := SortColumn(columns[c], rtl);
      read := if rtl then column + read else read + column;
    }
    ordered := [];
    var orderCounter := 1;
    for i := 0 to |read|
      invariant ordered == Number(read)[..i] && orderCounter == i + 1
    {
      ordered := ordered + [read[i].(readingOrder := orderCounter)];
      orderCounter := orderCounter + 1;
    }
  }

  lemma {:induction false} OrderedNone(classified: seq<Block>, rtl: bool)
    ensures Ordered(classified, rtl, 0) == []
  {
  }

  lemma {:induction false} OrderedUnfold(classified: seq<Block>, rtl: bool, n: nat)
    ensures var rest, column := Ordered(classified, rtl, n), SortedColumn(InColumn(classified, n), rtl);
            Ordered(classified, rtl, n + 1) == if rtl then column + rest else rest + column
  {
    hide SortedColumn, InColumn;
  }

  method SortColumn(column: seq<Block>, rtl: bool) returns (sorted: seq<Block>)
    ensures sorted == SortedColumn(column, rtl)
  {
    hide Sort;
    sorted := Sort(if rtl then TopRight else TopLeft, column);
    if !rtl {
      return;
    }
    var rows: seq<seq<Block>> := [];
    for i := 0 to |sorted|
      invariant rows == Rows(sorted[..i]) && NoEmptyRow(rows)
    {
      assert sorted[..i + 1][..i] == sorted[..i];
      RowsFilled(sorted[..i + 1]);
      rows := PlaceOnRow(sorted[i], rows);
    }
    assert sorted[..|sorted|] == sorted;
    rows := Sort(RowKey, rows);
    sorted := [];
    for r := 0 to |rows|
      invariant sorted == Flatten(RightToLeft(rows[..r]))
    {
      assert RightToLeft(rows[..r + 1])[..r] == RightToLeft(rows[..r]);
      sorted := sorted + Sort(Right, rows[r]);
    }
    assert rows[..|rows|] == rows;
  }

  method PlaceOnRow(b: Block, rows: seq<seq<Block>>) returns (placed: seq<seq<Block>>)
    requires NoEmptyRow(rows)
    ensures placed == Place(b, rows)
  {
    hide OnRow;
    for r := 0 to |rows|
      invariant Place(b, rows) == rows[..r] + Place(b, rows[r..])
    {
      if OnRow(b, rows[r]) {
        placed := rows[r := rows[r] + [b]];
        assert placed == rows[..r] + [rows[r] + [b]] + rows[r + 1..];
        assert rows[r..][1..] == rows[r + 1..];
        return;
      }
      assert rows[..r + 1] == rows[..r] + [rows[r]];
      assert rows[r..][1..] == rows[r + 1..];
    }
    placed := rows + [[b]];
  }

  lemma {:induction false} RowsFilled(column: seq<Block>)
    ensures NoEmptyRow(Rows(column))
  {
    if column != [] {
      RowsFilled(column[..|column| - 1]);
      PlaceFilled(column[|column| - 1], Rows(column[..|column| - 1]));
    }
  }

  lemma {:induction false} PlaceFilled(b: Block, rows: seq<seq<Block>>)
    requires NoEmptyRow(rows)
    ensures NoEmptyRow(Place(b, rows))
  {
    if rows != [] {
      PlaceFilled(b, rows[1..]);
    }
  }

  // ---- Nothing is lost or duplicated ------------------------------------------------------------------

  lemma {:induction false} FlattenConcat(a: seq<seq<Block>>, b: seq<seq<Block>>)
    ensures Flatten(a + b) == Flatten(a) + Flatten(b)
  {
    if b == [] {
      assert a + b == a;
    } else {
      assert (a + b)[..|a + b| - 1] == a + b[..|b| - 1];
      FlattenConcat(a, b[..|b| - 1]);
    }
  }

  lemma {:induction false} FlattenCons(row: seq<Block>, rows: seq<seq<Block>>)
    ensures Flatten([row] + rows) == row + Flatten(rows)
  {
    FlattenConcat([row], rows);
    assert Flatten([row]) == row by { assert [row][..0] == []; }
  }

  lemma {:induction false} PlaceKeeps(b: Block, rows: seq<seq<Block>>)
    ensures multiset(Flatten(Place(b, rows))) == multiset(Flatten(rows)) + multiset{b}
  {
    hide OnRow;
    if rows == [] {
      assert Place(b, rows) == [[b]] + [];
      FlattenCons([b], []);
    } else {
      assert rows == [rows[0]] + rows[1..];
      FlattenCons(rows[0], rows[1..]);
      FlattenCons(rows[0] + [b], rows[1..]);
      FlattenCons(rows[0], Place(b, rows[1..]));
      PlaceKeeps(b, rows[1..]);
      hide Flatten;
    }
  }

  lemma {:induction false} RowsKeep(column: seq<Block>)
    ensures multiset(Flatten(Rows(column))) == multiset(column)
  {
    if column != [] {
      RowsKeep(column[..|column| - 1]);
      PlaceKeeps(column[|column| - 1], Rows(column[..|column| - 1]));
      assert column == column[..|column| - 1] + [column[|column| - 1]];
      hide Flatten, Place;
    }
  }

  lemma {:induction false} InsertRowKeeps(row: seq<Block>, rows: seq<seq<Block>>)
    ensures multiset(Flatten(Insert(RowKey, row, rows))) == multiset(Flatten(rows)) + multiset(row)
  {
    FlattenCons(row, rows);
    if rows != [] {
      assert rows == [rows[0]] + rows[1..];
      FlattenCons(rows[0], rows[1..]);
      FlattenCons(rows[0], Insert(RowKey, row, rows[1..]));
      InsertRowKeeps(row, rows[1..]);
    }
    assert rows == [] ==> Insert(RowKey, row, rows) == [row] + rows;
    hide Flatten, RowKey;
  }

  lemma {:induction false} SortRowsKeeps(rows: seq<seq<Block>>)
    ensures multiset(Flatten(Sort(RowKey, rows))) == multiset(Flatten(rows))
  {
    if rows != [] {
      SortRowsKeeps(rows[..|rows| - 1]);
      InsertRowKeeps(rows[|rows| - 1], Sort(RowKey, rows[..|rows| - 1]));
      hide Insert;
    }
  }

  lemma {:induction false} RightToLeftKeeps(rows: seq<seq<Block>>)
    ensures multiset(Flatten(RightToLeft(rows))) == multiset(Flatten(rows))
  {
    if rows != [] {
      var front, last := rows[..|rows| - 1], rows[|rows| - 1];
      RightToLeftKeeps(front);
      assert RightToLeft(rows)[..|rows| - 1] == RightToLeft(front);
      SortFacts(Right, last);
      hide Sort;
    }
  }

  /** Sorting a column, row clustering for right-to-left scripts included, permutes it. */
  lemma {:induction false} ColumnPermuted(column: seq<Block>, rtl: bool)
    ensures multiset(SortedColumn(column, rtl)) == multiset(column)
  {
    SortFacts(TopLeft, column);
    SortFacts(TopRight, column);
    var rows := Rows(Sort(TopRight, column));
    RowsKeep(Sort(TopRight, column));
    SortRowsKeeps(rows);
    RightToLeftKeeps(Sort(RowKey, rows));
    hide Sort, Flatten, Rows, RightToLeft;
  }

  lemma {:induction false} InColumnCount(blocks: seq<Block>, c: int, b: Block)
    ensures multiset(InColumn(blocks, c))[b] == if b.columnId == c then multiset(blocks)[b] else 0
  {
    if blocks != [] {
      InColumnCount(blocks[..|blocks| - 1], c, b);
      assert blocks == blocks[..|blocks| - 1] + [blocks[|blocks| - 1]];
    }
  }

  lemma {:induction false} OrderedCount(classified: seq<Block>, rtl: bool, n: nat, b: Block)
    ensures multiset(Ordered(classified, rtl, n))[b] == if 0 <= b.columnId < n then multiset(classified)[b] else 0
  {
    hide SortedColumn, InColumn;
    if n > 0 {
      OrderedCount(classified, rtl, n - 1, b);
      ColumnPermuted(InColumn(classified, n - 1), rtl);
      InColumnCount(classified, n - 1, b);
    }
  }

  lemma {:induction false} ColumnInRange(classify: Classifier, blocks: seq<Block>, width: int, height: int, i: nat)
    requires i < |blocks|
    ensures 0 <= Classified(classify, blocks, width, height)[i].columnId <= MaxId(ColumnIds(blocks, width))
  {
    ClassifiedAt(classify, blocks, width, height, i);
    MaxIdBounds(ColumnIds(blocks, width), i);
    hide *;
  }

  /** The page holds the classified blocks, each as often as before. */
  lemma {:induction false} PagePermuted(classify: Classifier, blocks: seq<Block>, width: int, height: int, rtl: bool)
    ensures multiset(Page(classify, blocks, width, height, rtl)) ==
              multiset(Classified(classify, blocks, width, height))
    ensures |Page(classify, blocks, width, height, rtl)| == |blocks|
  {
    var classified, n := Classified(classify, blocks, width, height), MaxId(ColumnIds(blocks, width)) + 1;
    PageUnfold(classify, blocks, width, height, rtl);
    hide Page, Ordered, ColumnIds, MaxId;
    forall b
      ensures multiset(Ordered(classified, rtl, n))[b] == multiset(classified)[b]
    {
      OrderedCount(classified, rtl, n, b);
      if b in classified {
        var i :| 0 <= i < |classified| && classified[i] == b;
        ColumnInRange(classify, blocks, width, height, i);
      }
    }
    assert multiset(Ordered(classified, rtl, n)) == multiset(classified);
    assert |multiset(Ordered(classified, rtl, n))| == |multiset(classified)|;
  }

  // ---- The order ---------------------------------------------------------------------------------------

  /** Left to right: by column, top and left edge. Right to left: the rightmost column first. */
  predicate Before(a: Block, b: Block, rtl: bool) {
    if rtl then a.columnId >= b.columnId
    else
      || a.columnId < b.columnId
      || (a.columnId == b.columnId
          && (a.bbox.y1 < b.bbox.y1 || (a.bbox.y1 == b.bbox.y1 && a.bbox.x1 <= b.bbox.x1)))
  }

  ghost predicate InOrder(blocks: seq<Block>, rtl: bool) {
    forall i, j :: 0 <= i < j < |blocks| ==> Before(blocks[i], blocks[j], rtl)
  }

  lemma {:induction false} InColumnId(blocks: seq<Block>, c: int, i: nat)
    requires i < |InColumn(blocks, c)|
    ensures InColumn(blocks, c)[i].columnId == c
  {
    if i < |InColumn(blocks[..|blocks| - 1], c)| {
      InColumnId(blocks[..|blocks| - 1], c, i);
    }
  }

  lemma {:induction false} SortedColumnId(blocks: seq<Block>, c: int, rtl: bool, i: nat)
    requires i < |SortedColumn(InColumn(blocks, c), rtl)|
    ensures SortedColumn(InColumn(blocks, c), rtl)[i].columnId == c
  {
    ColumnPermuted(InColumn(blocks, c), rtl);
    hide SortedColumn, InColumn;
    var s, column := SortedColumn(InColumn(blocks, c), rtl), InColumn(blocks, c);
    assert s[i] in multiset(s);
    assert s[i] in column;
    var k :| 0 <= k < |column| && column[k] == s[i];
    InColumnId(blocks, c, k);
  }

  lemma {:induction false} OrderedBelow(classified: seq<Block>, rtl: bool, n: nat, i: nat)
    requires i < |Ordered(classified, rtl, n)|
    ensures 0 <= Ordered(classified, rtl, n)[i].columnId < n
  {
    OrderedCount(classified, rtl, n, Ordered(classified, rtl, n)[i]);
    hide Ordered;
    assert Ordered(classified, rtl, n)[i] in multiset(Ordered(classified, rtl, n));
  }

  lemma {:induction false} ColumnInOrder(classified: seq<Block>, c: int, rtl: bool)
    ensures InOrder(SortedColumn(InColumn(classified, c), rtl), rtl)
  {
    var s := SortedColumn(InColumn(classified, c), rtl);
    if !rtl {
      SortFacts(TopLeft, InColumn(classified, c));
    }
    assert !rtl ==> Sorted(TopLeft, s);
    hide SortedColumn, InColumn;
    forall i, j | 0 <= i < j < |s|
      ensures Before(s[i], s[j], rtl)
    {
      SortedColumnId(classified, c, rtl, i);
      SortedColumnId(classified, c, rtl, j);
    }
  }

  lemma {:induction false} InOrderConcat(a: seq<Block>, b: seq<Block>, rtl: bool)
    requires InOrder(a, rtl) && InOrder(b, rtl)
    requires forall i, j :: 0 <= i < |a| && 0 <= j < |b| ==> Before(a[i], b[j], rtl)
    ensures InOrder(a + b, rtl)
  {
    hide Before;
  }

  lemma {:induction false} OrderedInOrder(classified: seq<Block>, rtl: bool, n: nat)
    ensures InOrder(Ordered(classified, rtl, n), rtl)
  {
    hide *;
    if n == 0 {
      OrderedNone(classified, rtl);
      NothingInOrder(rtl);
    } else {
      OrderedInOrder(classified, rtl, n - 1);
      OrderedUnfold(classified, rtl, n - 1);
      ColumnInOrder(classified, n - 1, rtl);
      var rest, column := Ordered(classified, rtl, n - 1), SortedColumn(InColumn(classified, n - 1), rtl);
      forall i, j | 0 <= i < |rest| && 0 <= j < |column|
        ensures if rtl then Before(column[j], rest[i], rtl) else Before(rest[i], column[j], rtl)
      {
        OrderedBelow(classified, rtl, n - 1, i);
        SortedColumnId(classified, n - 1, rtl, j);
        BeforeById(rest[i], column[j], rtl);
      }
      if rtl {
        InOrderConcat(column, rest, rtl);
      } else {
        InOrderConcat(rest, column, rtl);
      }
    }
  }

  lemma {:induction false} NothingInOrder(rtl: bool)
    ensures InOrder([], rtl)
  {
  }

  lemma {:induction false} BeforeById(a: Block, b: Block, rtl: bool)
    requires a.columnId < b.columnId
    ensures if rtl then Before(b, a, rtl) else Before(a, b, rtl)
  {
  }

  /** The numbered page is in reading order: no block comes before one that should precede it. */
  lemma {:induction false} PageInOrder(classify: Classifier, blocks: seq<Block>, width: int, height: int, rtl: bool)
    ensures InOrder(Number(Page(classify, blocks, width, height, rtl)), rtl)
  {
    OrderedInOrder(Classified(classify, blocks, width, height), rtl, MaxId(ColumnIds(blocks, width)) + 1);
    PageUnfold(classify, blocks, width, height, rtl);
    hide *;
    var page := Page(classify, blocks, width, height, rtl);
    NumberedInOrder(page, rtl);
  }

  lemma {:induction false} NumberedInOrder(page: seq<Block>, rtl: bool)
    requires InOrder(page, rtl)
    ensures InOrder(Number(page), rtl)
  {
    forall i, j | 0 <= i < j < |page|
      ensures Before(Number(page)[i], Number(page)[j], rtl)
    {
      assert Before(page[i], page[j], rtl);
    }
  }

  // ---- Rows ------------------------------------------------------------------------------------------------

  /** Each block of a row but its first overlaps the span of those before it. */
  ghost predicate Connected(row: seq<Block>) {
    row != [] && forall k :: 0 < k < |row| ==> OnRow(row[k], row[..k])
  }

  /** The vertical spans of two rows do not overlap. */
  ghost predicate Apart(a: seq<Block>, b: seq<Block>)
    requires a != [] && b != []
  {
    RMin(Bottom(a), Bottom(b)) <= RMax(Top(a), Top(b))
  }

  /** The rows are connected, and pairwise apart. */
  ghost predicate Clusters(rows: seq<seq<Block>>) {
    && (forall r :: 0 <= r < |rows| ==> Connected(rows[r]))
    && (forall q, r :: 0 <= q < r < |rows| ==> Apart(rows[q], rows[r]))
  }

  ghost predicate TopsUpTo(rows: seq<seq<Block>>, y: real) {
    forall r :: 0 <= r < |rows| ==> rows[r] != [] && Top(rows[r]) <= y
  }

  /** Either the block joins the first row it is on, or it is on none and opens a row. */
  lemma {:induction false} PlaceCases(b: Block, rows: seq<seq<Block>>) returns (r: nat)
    requires NoEmptyRow(rows)
    ensures r <= |rows| && forall q :: 0 <= q < r ==> !OnRow(b, rows[q])
    ensures r < |rows| ==> OnRow(b, rows[r]) && Place(b, rows) == rows[r := rows[r] + [b]]
    ensures r == |rows| ==> Place(b, rows) == rows + [[b]]
  {
    hide OnRow;
    if rows == [] {
      r := 0;
    } else if OnRow(b, rows[0]) {
      r := 0;
      assert Place(b, rows) == rows[0 := rows[0] + [b]];
    } else {
      assert NoEmptyRow(rows[1..]);
      var q := PlaceCases(b, rows[1..]);
      r := q + 1;
      assert rows == [rows[0]] + rows[1..];
      forall k | 0 <= k < r
        ensures !OnRow(b, rows[k])
      {
        assert k > 0 ==> rows[k] == rows[1..][k - 1];
      }
    }
  }

  lemma {:induction false} SpanSnoc(row: seq<Block>, b: Block)
    requires row != []
    ensures Top(row + [b]) == RMin(Top(row), b.bbox.y1) && Bottom(row + [b]) == RMax(Bottom(row), b.bbox.y2)
  {
    assert (row + [b])[..|row|] == row;
  }

  lemma {:induction false} JoinConnected(row: seq<Block>, b: Block)
    requires Connected(row) && OnRow(b, row)
    ensures Connected(row + [b])
  {
    hide OnRow;
    forall k | 0 < k < |row + [b]|
      ensures OnRow((row + [b])[k], (row + [b])[..k])
    {
      assert (row + [b])[..k] == row[..k];
      assert row[..|row|] == row;
    }
  }

  /** The row a block joins stays apart from the others: the block starts no higher than any row does. */
  lemma {:induction false} JoinApart(q: seq<Block>, row: seq<Block>, b: Block)
    requires q != [] && row != [] && Apart(q, row) && OnRow(b, row)
    requires Top(q) <= b.bbox.y1 && Top(row) <= b.bbox.y1
    ensures Apart(q, row + [b]) && Apart(row + [b], q)
  {
    SpanSnoc(row, b);
  }

  lemma {:induction false} NewApart(q: seq<Block>, b: Block)
    requires q != [] && !OnRow(b, q)
    ensures Apart(q, [b])
  {
  }

  lemma {:induction false} ApartSwapped(a: seq<Block>, b: seq<Block>)
    requires a != [] && b != [] && Apart(a, b)
    ensures Apart(b, a)
  {
  }

  /** Rows stay clusters when a block joins one of them. */
  lemma {:induction false} JoinClusters(b: Block, rows: seq<seq<Block>>, r: nat)
    requires Clusters(rows) && TopsUpTo(rows, b.bbox.y1) && r < |rows| && OnRow(b, rows[r])
    ensures Clusters(rows[r := rows[r] + [b]]) && TopsUpTo(rows[r := rows[r] + [b]], b.bbox.y1)
  {
    hide OnRow, Apart, Connected, Top, Bottom;
    assert Connected(rows[r]);
    JoinConnected(rows[r], b);
    SpanSnoc(rows[r], b);
    var placed := rows[r := rows[r] + [b]];
    forall p, q | 0 <= p < q < |placed|
      ensures Apart(placed[p], placed[q])
    {
      assert Apart(rows[p], rows[q]);
      if p == r {
        ApartSwapped(rows[p], rows[q]);
        JoinApart(rows[q], rows[p], b);
      } else if q == r {
        JoinApart(rows[p], rows[q], b);
      }
    }
  }

  /** And when a block on none of them opens a new one. */
  lemma {:induction false} OpenClusters(b: Block, rows: seq<seq<Block>>)
    requires Clusters(rows) && TopsUpTo(rows, b.bbox.y1)
    requires forall q :: 0 <= q < |rows| ==> !OnRow(b, rows[q])
    ensures Clusters(rows + [[b]]) && TopsUpTo(rows + [[b]], b.bbox.y1)
  {
    OneConnected(b);
    hide OnRow, Apart, Connected, Top, Bottom;
    var placed := rows + [[b]];
    forall p, q | 0 <= p < q < |placed|
      ensures Apart(placed[p], placed[q])
    {
      if q < |rows| {
        assert Apart(rows[p], rows[q]);
      } else {
        NewApart(rows[p], b);
      }
    }
  }

  lemma {:induction false} PlaceClusters(b: Block, rows: seq<seq<Block>>)
    requires Clusters(rows) && TopsUpTo(rows, b.bbox.y1)
    ensures Clusters(Place(b, rows)) && TopsUpTo(Place(b, rows), b.bbox.y1)
  {
    var r := PlaceCases(b, rows) by { assert NoEmptyRow(rows); }
    hide *;
    if r < |rows| {
      JoinClusters(b, rows, r);
    } else {
      OpenClusters(b, rows);
    }
  }

  lemma {:induction false} OneConnected(b: Block)
    ensures Connected([b]) && Top([b]) == b.bbox.y1
  {
  }

  /** For a column from the top down, the rows are the clusters of vertical overlap. */
  lemma {:induction false} RowsAreClusters(column: seq<Block>)
    requires Sorted(TopRight, column)
    ensures Clusters(Rows(column))
    ensures column != [] ==> TopsUpTo(Rows(column), column[|column| - 1].bbox.y1)
  {
    if column != [] {
      var n := |column| - 1;
      RowsAreClusters(column[..n]);
      if n > 0 {
        assert Leq(TopRight(column[n - 1]), TopRight(column[n]));
      }
      hide Clusters, Place, Rows;
      assert TopsUpTo(Rows(column[..n]), column[n].bbox.y1) by { RowsOfNothing(column[..n]); }
      PlaceClusters(column[n], Rows(column[..n]));
      RowsUnfold(column);
    }
  }

  lemma {:induction false} RowsOfNothing(column: seq<Block>)
    ensures column == [] ==> Rows(column) == []
  {
  }

  lemma {:induction false} RowsUnfold(column: seq<Block>)
    requires column != []
    ensures Rows(column) == Place(column[|column| - 1], Rows(column[..|column| - 1]))
  {
  }

  lemma {:induction false} WithinSpan(row: seq<Block>, k: nat)
    requires k < |row|
    ensures Top(row) <= row[k].bbox.y1 && row[k].bbox.y2 <= Bottom(row)
  {
    if k < |row| - 1 {
      WithinSpan(row[..|row| - 1], k);
    }
  }

  lemma {:induction false} RowsApart(rows: seq<seq<Block>>, q: nat, r: nat)
    requires Clusters(rows) && q < |rows| && r < |rows|
    ensures rows[q] != [] && rows[r] != []
    ensures q != r ==> RMin(Bottom(rows[q]), Bottom(rows[r])) <= RMax(Top(rows[q]), Top(rows[r]))
  {
    hide Top, Bottom, OnRow;
    assert Connected(rows[q]) && Connected(rows[r]);
    assert q < r ==> Apart(rows[q], rows[r]);
    assert r < q ==> Apart(rows[r], rows[q]);
  }

  /** Two blocks of a column that overlap vertically are in the same row. */
  lemma {:induction false} OverlapSharesRow(column: seq<Block>, q: nat, j: nat, r: nat, k: nat)
    requires Sorted(TopRight, column)
    requires q < |Rows(column)| && j < |Rows(column)[q]| && r < |Rows(column)| && k < |Rows(column)[r]|
    requires var a, b := Rows(column)[q][j].bbox, Rows(column)[r][k].bbox; RMin(a.y2, b.y2) - RMax(a.y1, b.y1) > 0.0
    ensures q == r
  {
    RowsAreClusters(column);
    hide Rows, Connected, OnRow, Clusters;
    var rows := Rows(column);
    WithinSpan(rows[q], j);
    WithinSpan(rows[r], k);
    hide Top, Bottom;
    RowsApart(rows, q, r);
  }

  ghost predicate FromTheTop(rows: seq<seq<Block>>) {
    forall q, r :: 0 <= q < r < |rows| ==> rows[q] != [] && rows[r] != [] && Top(rows[q]) <= Top(rows[r])
  }

  ghost predicate FromTheRight(row: seq<Block>) {
    forall k, l :: 0 <= k < l < |row| ==> row[k].bbox.x1 >= row[l].bbox.x1
  }

  lemma {:induction false} RowFromTheRight(row: seq<Block>)
    requires Sorted(Right, row)
    ensures FromTheRight(row)
  {
    forall k, l | 0 <= k < l < |row|
      ensures row[k].bbox.x1 >= row[l].bbox.x1
    {
      assert Leq(Right(row[k]), Right(row[l]));
    }
  }

  lemma {:induction false} RowsFromTheTop(clusters: seq<seq<Block>>, rows: seq<seq<Block>>)
    requires Clusters(clusters) && multiset(rows) == multiset(clusters) && Sorted(RowKey, rows)
    ensures FromTheTop(rows)
  {
    hide Top, Bottom, OnRow, Apart;
    forall r | 0 <= r < |rows|
      ensures rows[r] != []
    {
      assert rows[r] in multiset(clusters);
      var q :| 0 <= q < |clusters| && clusters[q] == rows[r];
      assert Connected(clusters[q]);
    }
    forall q, r | 0 <= q < r < |rows|
      ensures Top(rows[q]) <= Top(rows[r])
    {
      assert Leq(RowKey(rows[q]), RowKey(rows[r]));
    }
  }

  /**
   A right-to-left column is its clusters of vertical overlap from top to bottom, each read from the right, with every
   block in one of them.
   */
  lemma {:induction false} RowsReadRightToLeft(column: seq<Block>)
    ensures var clusters := Rows(Sort(TopRight, column));
            var rows := Sort(RowKey, clusters);
            && Clusters(clusters) && multiset(Flatten(clusters)) == multiset(column)
            && multiset(rows) == multiset(clusters) && FromTheTop(rows)
            && SortedColumn(column, true) == Flatten(RightToLeft(rows))
            && forall r :: 0 <= r < |rows| ==>
                 FromTheRight(RightToLeft(rows)[r]) && multiset(RightToLeft(rows)[r]) == multiset(rows[r])
  {
    SortFacts(TopRight, column);
    RowsAreClusters(Sort(TopRight, column));
    RowsKeep(Sort(TopRight, column));
    var rows := Sort(RowKey, Rows(Sort(TopRight, column)));
    SortFacts(RowKey, Rows(Sort(TopRight, column)));
    RowsFromTheTop(Rows(Sort(TopRight, column)), rows);
    hide Rows, RowKey, Flatten, Sort, Clusters, FromTheTop;
    forall r | 0 <= r < |rows|
      ensures FromTheRight(RightToLeft(rows)[r]) && multiset(RightToLeft(rows)[r]) == multiset(rows[r])
    {
      SortFacts(Right, rows[r]);
      RowFromTheRight(Sort(Right, rows[r]));
    }
  }
}
