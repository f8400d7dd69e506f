/**
 Text blocks of the OCR service (TextBlock in ocr-service/app.py).
 */
module Layout {
  import opened Sorting

  datatype Box = Box(x1: real, y1: real, x2: real, y2: real)

  datatype Block = Block(
    text: string,
    confidence: real,
    readingOrder: int,
    bbox: Box,
    regionClass: string,
    hierarchyLevel: int,
    columnId: int)

  function RMax(a: real, b: real): real { if a >= b then a else b }

  function RMin(a: real, b: real): real { if a <= b then a else b }

  // ---- Reading order ---------------------------------------------------------------------------

  /** The blocks numbered 1, 2, 3 and so on in their order. */
  function Number(blocks: seq<Block>): (numbered: seq<Block>)
    ensures |numbered| == |blocks|
    ensures forall i :: 0 <= i < |blocks| ==> numbered[i] == blocks[i].(readingOrder := i + 1)
  {
    seq(|blocks|, i requires 0 <= i < |blocks| => blocks[i].(readingOrder := i + 1))
  }

  /** By top edge, then left edge. */
  function TopLeft(b: Block): Key {
    Key(b.bbox.y1, b.bbox.x1)
  }
}
