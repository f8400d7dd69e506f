/**
 The merge of two engines' blocks by overlap (_bbox_iou and _ensemble_merge in ocr-service/app.py).
 */
module Ensemble {
  import opened Layout
  import opened Sorting

  // ---- Overlap ---------------------------------------------------------------------------------

  /** The length of an interval, crossed bounds counting as empty. */
  function Length(from: real, to: real): real { RMax(0.0, to - from) }

  /** The length two intervals share. */
  function Shared(from1: real, to1: real, from2: real, to2: real): real {
    Length(RMax(from1, from2), RMin(to1, to2))
  }

  function Area(b: Box): real {
    Length(b.x1, b.x2) * Length(b.y1, b.y2)
  }

  function Intersection(a: Box, b: Box): real {
    Shared(a.x1, a.x2, b.x1, b.x2) * Shared(a.y1, a.y2, b.y1, b.y2)
  }

  function Iou(a: Box, b: Box): real {
    var inter := Intersection(a, b);
    if inter <= 0.0 then 0.0
    else
      var union := Area(a) + Area(b) - inter;
      if union > 0.0 then inter / union else 0.0
  }

  lemma {:induction false} ProductMonotone(a: real, b: real, c: real, d: real)
    requires 0.0 <= a <= c && 0.0 <= b <= d
    ensures 0.0 <= a * b <= c * d
  {
    assert a * b <= c * b;
    assert c * b <= c * d;
  }

  lemma {:induction false} SharedWithin(from1: real, to1: real, from2: real, to2: real)
    ensures 0.0 <= Shared(from1, to1, from2, to2) <= Length(from1, to1)
    ensures Shared(from1, to1, from2, to2) == Shared(from2, to2, from1, to1)
  {
  }

  lemma {:induction false} IntersectionWithin(a: Box, b: Box)
    ensures 0.0 <= Intersection(a, b) <= Area(a)
    ensures Intersection(a, b) == Intersection(b, a)
  {
    SharedWithin(a.x1, a.x2, b.x1, b.x2);
    SharedWithin(a.y1, a.y2, b.y1, b.y2);
    hide Shared, Length;
    ProductMonotone(Shared(a.x1, a.x2, b.x1, b.x2), Shared(a.y1, a.y2, b.y1, b.y2),
                    Length(a.x1, a.x2), Length(a.y1, a.y2));
  }

  lemma {:induction false} Quotient(inter: real, union: real)
    requires 0.0 < inter <= union
    ensures 0.0 < inter / union <= 1.0 && (inter / union == 1.0 <==> inter == union)
  {
    var q := inter / union;
    assert q * union == inter;
  }

  /** For all boxes, crossed or flat ones included. */
  lemma {:induction false} IouFacts(a: Box, b: Box)
    ensures Iou(a, b) == Iou(b, a)
    ensures 0.0 <= Iou(a, b) <= 1.0
    ensures Iou(a, b) > 0.0 <==> Intersection(a, b) > 0.0
  {
    IntersectionWithin(a, b);
    IntersectionWithin(b, a);
    hide Area, Intersection;
    var inter := Intersection(a, b);
    if inter > 0.0 {
      Quotient(inter, Area(a) + Area(b) - inter);
    }
  }

  /** The overlap is the share of the common area in the covered one; for a box inside another, of its area. */
  lemma {:induction false} IouIsShare(a: Box, b: Box)
    ensures Iou(a, b) * (Area(a) + Area(b) - Intersection(a, b)) == Intersection(a, b)
    ensures b.x1 <= a.x1 <= a.x2 <= b.x2 && b.y1 <= a.y1 <= a.y2 <= b.y2 ==> Iou(a, b) * Area(b) == Area(a)
    ensures a.x2 <= b.x1 || a.y2 <= b.y1 ==> Iou(a, b) == 0.0
  {
    IntersectionWithin(a, b);
    IntersectionWithin(b, a);
    InsideAll(a, b);
    ApartNothing(a, b);
    hide Area, Intersection;
    var inter := Intersection(a, b);
    if inter > 0.0 {
      ShareOf(inter, Area(a) + Area(b) - inter);
    }
  }

  lemma {:induction false} ShareOf(inter: real, union: real)
    requires union > 0.0
    ensures inter / union * union == inter
  {
  }

  lemma {:induction false} InsideAll(a: Box, b: Box)
    ensures b.x1 <= a.x1 <= a.x2 <= b.x2 && b.y1 <= a.y1 <= a.y2 <= b.y2 ==> Intersection(a, b) == Area(a)
  {
  }

  lemma {:induction false} ApartNothing(a: Box, b: Box)
    ensures a.x2 <= b.x1 || a.y2 <= b.y1 ==> Intersection(a, b) == 0.0
  {
    SharedApart(a.x1, a.x2, b.x1, b.x2);
    SharedApart(a.y1, a.y2, b.y1, b.y2);
    hide Shared;
  }

  lemma {:induction false} SharedApart(from1: real, to1: real, from2: real, to2: real)
    ensures to1 <= from2 ==> Shared(from1, to1, from2, to2) == 0.0
  {
  }

  lemma {:induction false} ScaleStrict(a: real, b: real, c: real)
    requires c > 0.0
    ensures a < b ==> a * c < b * c
  {
  }

  lemma {:induction false} SidesEqual(w: real, h: real, w': real, h': real)
    requires 0.0 < w <= w' && 0.0 < h <= h' && w * h == w' * h'
    ensures w == w' && h == h'
  {
    ScaleStrict(w, w', h);
    ProductMonotone(w', h, w', h');
    ScaleStrict(h, h', w);
    ProductMonotone(w, h', w', h');
  }

  /** Full overlap means that both areas are the intersection, hence all sides agree. */
  lemma {:induction false} FullOverlap(a: Box, b: Box)
    requires Intersection(a, b) > 0.0 && Intersection(a, b) == Area(a) == Area(b)
    ensures a == b && a.x1 < a.x2 && a.y1 < a.y2
  {
    var w, h := Shared(a.x1, a.x2, b.x1, b.x2), Shared(a.y1, a.y2, b.y1, b.y2);
    SharedWithin(a.x1, a.x2, b.x1, b.x2);
    SharedWithin(a.y1, a.y2, b.y1, b.y2);
    SharedWithin(b.x1, b.x2, a.x1, a.x2);
    SharedWithin(b.y1, b.y2, a.y1, a.y2);
    assert w > 0.0 && h > 0.0 by {
      PositiveSides(w, h);
    }
    SidesEqual(w, h, Length(a.x1, a.x2), Length(a.y1, a.y2)) by {
      hide Shared, Length;
    }
    SidesEqual(w, h, Length(b.x1, b.x2), Length(b.y1, b.y2)) by {
      hide Shared, Length;
    }
    SharedAll(a.x1, a.x2, b.x1, b.x2);
    SharedAll(a.y1, a.y2, b.y1, b.y2);
  }

  lemma {:induction false} SharedAll(from1: real, to1: real, from2: real, to2: real)
    requires 0.0 < Shared(from1, to1, from2, to2) == Length(from1, to1) == Length(from2, to2)
    ensures from1 == from2 < to1 == to2
  {
  }

  /** Only equal boxes with an area overlap completely. */
  lemma {:induction false} IouOneIff(a: Box, b: Box)
    ensures Iou(a, b) == 1.0 <==> a == b && a.x1 < a.x2 && a.y1 < a.y2
  {
    IntersectionWithin(a, b);
    IntersectionWithin(b, a);
    var inter := Intersection(a, b);
    if inter > 0.0 {
      Quotient(inter, Area(a) + Area(b) - inter);
      if inter == Area(a) == Area(b) {
        FullOverlap(a, b);
      } else {
        SelfOverlap(a);
      }
      hide Area, Intersection;
    } else if a.x1 < a.x2 && a.y1 < a.y2 {
      PositiveArea(a.x2 - a.x1, a.y2 - a.y1);
      SelfOverlap(a);
    }
  }

  lemma {:induction false} SelfOverlap(a: Box)
    ensures Intersection(a, a) == Area(a)
  {
  }

  lemma {:induction false} PositiveSides(w: real, h: real)
    requires w >= 0.0 && h >= 0.0 && w * h > 0.0
    ensures w > 0.0 && h > 0.0
  {
  }

  lemma {:induction false} PositiveArea(w: real, h: real)
    requires w > 0.0 && h > 0.0
    ensures w * h > 0.0
  {
  }

  // ---- Matching ------------------------------------------------------------------------------------

  /** The unused engine block seen so far with the largest overlap, index -1 for none. */
  datatype Best = Best(index: int, iou: real)

  function BestOf(p: Block, engine: seq<Block>, used: set<int>, n: nat): Best
    requires n <= |engine|
  {
    if n == 0 then Best(-1, 0.0)
    else
      var best := BestOf(p, engine, used, n - 1);
      var iou := Iou(p.bbox, engine[n - 1].bbox);
      if n - 1 !in used && iou > best.iou then Best(n - 1, iou) else best
  }

  function Partner(p: Block, engine: seq<Block>, used: set<int>, threshold: real): int {
    var best := BestOf(p, engine, used, |engine|);
    if best.index >= 0 && best.iou >= threshold then best.index else -1
  }

  ghost function Used(partners: seq<int>): set<int> {
    set k | 0 <= k < |partners| && partners[k] >= 0 :: partners[k]
  }

  /** The partner of each of the first `n` blocks, -1 for none. */
  ghost function Partners(paddle: seq<Block>, engine: seq<Block>, threshold: real, n: nat): seq<int>
    requires n <= |paddle|
  {
    if n == 0 then []
    else
      var before := Partners(paddle, engine, threshold, n - 1);
      before + [Partner(paddle[n - 1], engine, Used(before), threshold)]
  }

  function Winner(p: Block, engine: seq<Block>, partner: int): Block {
    if 0 <= partner < |engine| && engine[partner].confidence > p.confidence then engine[partner] else p
  }

  function Winners(paddle: seq<Block>, engine: seq<Block>, partners: seq<int>): (winners: seq<Block>)
    requires |paddle| == |partners|
  {
    seq(|paddle|, i requires 0 <= i < |paddle| => Winner(paddle[i], engine, partners[i]))
  }

  function Leftover(engine: seq<Block>, used: set<int>, n: nat): seq<Block>
    requires n <= |engine|
  {
    if n == 0 then []
    else Leftover(engine, used, n - 1) + if n - 1 in used then [] else [engine[n - 1]]
  }

  /** The merged list before it is sorted. */
  ghost function Combined(paddle: seq<Block>, engine: seq<Block>, threshold: real): seq<Block> {
    var partners := Partners(paddle, engine, threshold, |paddle|);
    PartnersLength(paddle, engine, threshold, |paddle|);
    Winners(paddle, engine, partners) + Leftover(engine, Used(partners), |engine|)
  }

  lemma {:induction false} PartnersLength(paddle: seq<Block>, engine: seq<Block>, threshold: real, n: nat)
    requires n <= |paddle|
    ensures |Partners(paddle, engine, threshold, n)| == n
  {
    if n > 0 {
      PartnersLength(paddle, engine, threshold, n - 1);
    }
  }

  method EnsembleMerge(paddle: seq<Block>, engine: seq<Block>, threshold: real) returns (result: seq<Block>)
    ensures result == Number(Sort(TopLeft, Combined(paddle, engine, threshold)))
  {
    hide Sort, Iou, Leftover, BestOf;
    var matchedEngine: set<int> := {};
    var merged: seq<Block> := [];
    ghost var partners: seq<int> := [];
    for i := 0 to |paddle|
      invariant partners == Partners(paddle, engine, threshold, i) && |partners| == i
      invariant matchedEngine == Used(partners)
      invariant merged == Winners(paddle[..i], engine, partners)
    {
      hide Winners, Used;
      var best := FindBest(paddle[i], engine, matchedEngine);
      BestFacts(paddle[i], engine, matchedEngine, |engine|);
      UsedSnoc(partners, Partner(paddle[i], engine, matchedEngine, threshold));
      WinnersSnoc(paddle, engine, partners, i, Partner(paddle[i], engine, matchedEngine, threshold));
      partners := partners + [Partner(paddle[i], engine, matchedEngine, threshold)];
      if best.index >= 0 && best.iou >= threshold {
        matchedEngine := matchedEngine + {best.index};
        var winner := if engine[best.index].confidence > paddle[i].confidence then engine[best.index] else paddle[i];
        merged := merged + [winner];
      } else {
        merged := merged + [paddle[i]];
      }
    }
    assert paddle[..|paddle|] == paddle;
    merged := KeepUnmatched(engine, matchedEngine, merged);
    merged := Sort(TopLeft, merged);
    result := Number(merged);
  }

  method FindBest(p: Block, engine: seq<Block>, matchedEngine: set<int>) returns (best: Best)
    ensures best == BestOf(p, engine, matchedEngine, |engine|)
  {
    best := Best(-1, 0.0);
    for idx := 0 to |engine|
      invariant best == BestOf(p, engine, matchedEngine, idx)
    {
      if idx in matchedEngine {
        continue;
      }
      var iou := Iou(p.bbox, engine[idx].bbox);
      if iou > best.iou {
        best := Best(idx, iou);
      }
    }
  }

  method KeepUnmatched(engine: seq<Block>, matchedEngine: set<int>, before: seq<Block>) returns (merged: seq<Block>)
    ensures merged == before + Leftover(engine, matchedEngine, |engine|)
  {
    merged := before;
    for idx := 0 to |engine|
      invariant merged == before + Leftover(engine, matchedEngine, idx)
    {
      if idx !in matchedEngine {
        merged := merged + [engine[idx]];
      }
    }
  }

  lemma {:induction false} UsedSnoc(partners: seq<int>, partner: int)
    ensures Used(partners + [partner]) == if partner >= 0 then Used(partners) + {partner} else Used(partners)
  {
    var longer := partners + [partner];
    forall u
      ensures u in Used(longer) <==> u in Used(partners) || (partner >= 0 && u == partner)
    {
      if u in Used(partners) {
        var k :| 0 <= k < |partners| && partners[k] >= 0 && partners[k] == u;
        assert longer[k] == u;
      }
      if partner >= 0 && u == partner {
        assert longer[|partners|] == u;
      }
    }
  }

  lemma {:induction false} WinnersSnoc(paddle: seq<Block>, engine: seq<Block>, partners: seq<int>, i: nat, partner: int)
    requires i < |paddle| && |partners| == i
    ensures Winners(paddle[..i + 1], engine, partners + [partner]) ==
            Winners(paddle[..i], engine, partners) + [Winner(paddle[i], engine, partner)]
  {
  }

  // ---- What the matching guarantees -------------------------------------------------------------------

  /** The best block is unused, overlaps, and no unused block overlaps more; of equals it is the first. */
  lemma {:induction false} BestFacts(p: Block, engine: seq<Block>, used: set<int>, n: nat)
    requires n <= |engine|
    ensures var best := BestOf(p, engine, used, n);
            && -1 <= best.index < n && best.iou >= 0.0
            && (best.index == -1 ==> best.iou == 0.0)
            && (best.index >= 0 ==>
                  best.index !in used && best.iou == Iou(p.bbox, engine[best.index].bbox) && best.iou > 0.0)
            && (forall i :: 0 <= i < n && i !in used ==> Iou(p.bbox, engine[i].bbox) <= best.iou)
            && (forall i :: 0 <= i < best.index && i !in used ==> Iou(p.bbox, engine[i].bbox) < best.iou)
  {
    hide Iou;
    if n > 0 {
      BestFacts(p, engine, used, n - 1);
    }
  }

  lemma {:induction false} PartnersPrefix(paddle: seq<Block>, engine: seq<Block>, threshold: real, k: nat, n: nat)
    requires k <= n <= |paddle|
    ensures |Partners(paddle, engine, threshold, n)| == n
    ensures Partners(paddle, engine, threshold, n)[..k] == Partners(paddle, engine, threshold, k)
  {
    PartnersLength(paddle, engine, threshold, n);
    PartnersLength(paddle, engine, threshold, k);
    if k < n {
      PartnersPrefix(paddle, engine, threshold, k, n - 1);
      assert Partners(paddle, engine, threshold, n)[..k] == Partners(paddle, engine, threshold, n - 1)[..k];
    }
  }

  /** The choice made for block `i`, given those made before. */
  lemma {:induction false} PartnerAt(paddle: seq<Block>, engine: seq<Block>, threshold: real, n: nat, i: nat)
    requires i < n <= |paddle|
    ensures var partners := Partners(paddle, engine, threshold, n);
            |partners| == n && partners[i] == Partner(paddle[i], engine, Used(partners[..i]), threshold)
  {
    PartnersPrefix(paddle, engine, threshold, i + 1, n);
    PartnersPrefix(paddle, engine, threshold, i, n);
    var partners := Partners(paddle, engine, threshold, n);
    hide Partner, Used;
    assert partners[i] == partners[..i + 1][i];
  }

  /** Every match is an engine block not matched before, with an overlap at or above the threshold. */
  lemma {:induction false} MatchFacts(paddle: seq<Block>, engine: seq<Block>, threshold: real, n: nat, i: nat)
    requires i < n <= |paddle|
    ensures var partners := Partners(paddle, engine, threshold, n);
            && |partners| == n && -1 <= partners[i] < |engine|
            && (partners[i] >= 0 ==>
                  && partners[i] !in Used(partners[..i])
                  && Iou(paddle[i].bbox, engine[partners[i]].bbox) >= threshold
                  && Iou(paddle[i].bbox, engine[partners[i]].bbox) > 0.0)
  {
    hide Iou, Used, BestOf, Partners;
    PartnerAt(paddle, engine, threshold, n, i);
    BestFacts(paddle[i], engine, Used(Partners(paddle, engine, threshold, n)[..i]), |engine|);
  }

  lemma {:induction false} UsedMember(partners: seq<int>, k: nat)
    requires k < |partners| && partners[k] >= 0
    ensures partners[k] in Used(partners)
  {
  }

  /** No engine block is matched twice. */
  lemma {:induction false} MatchedOnce(paddle: seq<Block>, engine: seq<Block>, threshold: real, n: nat, i: nat, j: nat)
    requires i < j < n <= |paddle|
    ensures var partners := Partners(paddle, engine, threshold, n);
            |partners| == n && (partners[i] >= 0 ==> partners[i] != partners[j])
  {
    hide Iou, Used, Partners;
    MatchFacts(paddle, engine, threshold, n, j);
    var partners := Partners(paddle, engine, threshold, n);
    if partners[i] >= 0 {
      UsedMember(partners[..j], i);
    }
  }

  function Matches(partners: seq<int>): nat {
    if partners == [] then 0
    else Matches(partners[..|partners| - 1]) + if partners[|partners| - 1] >= 0 then 1 else 0
  }

  /** As many used blocks as matches, all of them blocks of the engine. */
  ghost predicate Counted(partners: seq<int>, engine: seq<Block>) {
    && |Used(partners)| == Matches(partners)
    && forall u :: u in Used(partners) ==> 0 <= u < |engine|
  }

  lemma {:induction false} CountedSnoc(partners: seq<int>, partner: int, engine: seq<Block>)
    requires Counted(partners, engine) && -1 <= partner < |engine|
    requires partner >= 0 ==> partner !in Used(partners)
    ensures Counted(partners + [partner], engine)
  {
    UsedSnoc(partners, partner);
    assert (partners + [partner])[..|partners|] == partners;
    hide Used;
  }

  lemma {:induction false} NothingCounted(engine: seq<Block>)
    ensures Counted([], engine)
  {
    assert Used([]) == {};
  }

  lemma {:induction false} UsedCount(paddle: seq<Block>, engine: seq<Block>, threshold: real, n: nat)
    requires n <= |paddle|
    ensures Counted(Partners(paddle, engine, threshold, n), engine)
  {
    hide *;
    var partners := Partners(paddle, engine, threshold, n);
    PartnersLength(paddle, engine, threshold, n);
    if n == 0 {
      NothingCounted(engine);
      assert partners == [];
    } else {
      UsedCount(paddle, engine, threshold, n - 1);
      PartnersPrefix(paddle, engine, threshold, n - 1, n);
      MatchFacts(paddle, engine, threshold, n, n - 1);
      assert partners == partners[..n - 1] + [partners[n - 1]];
      CountedSnoc(partners[..n - 1], partners[n - 1], engine);
    }
  }

  /** The blocks left over are those not used, in order. */
  lemma {:induction false} LeftoverCount(engine: seq<Block>, used: set<int>, n: nat)
    requires n <= |engine|
    ensures |Leftover(engine, used, n)| + |set u | u in used && 0 <= u < n| == n
  {
    if n == 0 {
      assert (set u | u in used && 0 <= u < n) == {};
    } else {
      LeftoverCount(engine, used, n - 1);
      var before, now := (set u | u in used && 0 <= u < n - 1), (set u | u in used && 0 <= u < n);
      assert now == if n - 1 in used then before + {n - 1} else before;
    }
  }

  /** The merge has one block for each input block, less one for each match. */
  lemma {:induction false} CombinedLength(paddle: seq<Block>, engine: seq<Block>, threshold: real)
    ensures |Combined(paddle, engine, threshold)| + Matches(Partners(paddle, engine, threshold, |paddle|)) ==
              |paddle| + |engine|
  {
    var used := Used(Partners(paddle, engine, threshold, |paddle|));
    UsedCount(paddle, engine, threshold, |paddle|);
    LeftoverCount(engine, used, |engine|);
    PartnersLength(paddle, engine, threshold, |paddle|);
    hide Used, Partners, Leftover, Matches;
    assert (set u | u in used && 0 <= u < |engine|) == used;
  }

  lemma {:induction false} LeftoverHas(engine: seq<Block>, used: set<int>, n: nat, j: nat)
    requires j < n <= |engine| && j !in used
    ensures engine[j] in Leftover(engine, used, n)
  {
    if j < n - 1 {
      LeftoverHas(engine, used, n - 1, j);
    }
  }

  lemma {:induction false} WinnerFacts(p: Block, engine: seq<Block>, partner: int)
    ensures var w := Winner(p, engine, partner);
            && w.confidence >= p.confidence && (0 <= partner < |engine| ==> w.confidence >= engine[partner].confidence)
            && (w == p || (0 <= partner < |engine| && w == engine[partner]))
            && (w.confidence == p.confidence ==> w == p)
  {
  }

  /** Every block of the first engine is there itself, or its match of higher confidence in its place. */
  lemma {:induction false} PaddleRepresented(paddle: seq<Block>, engine: seq<Block>, threshold: real, i: nat)
    requires i < |paddle|
    ensures var partners := Partners(paddle, engine, threshold, |paddle|);
            var all := Combined(paddle, engine, threshold);
            && |partners| == |paddle| <= |all| && -1 <= partners[i] < |engine|
            && all[i].confidence >= paddle[i].confidence
            && (all[i] == paddle[i] || (partners[i] >= 0 && all[i] == engine[partners[i]]))
            && (all[i].confidence == paddle[i].confidence ==> all[i] == paddle[i])
  {
    MatchFacts(paddle, engine, threshold, |paddle|, i);
    PartnersLength(paddle, engine, threshold, |paddle|);
    hide Partners, Used, Leftover, Iou;
    WinnerFacts(paddle[i], engine, Partners(paddle, engine, threshold, |paddle|)[i]);
  }

  /** So is every block of the second engine. */
  lemma {:induction false} EngineRepresented(paddle: seq<Block>, engine: seq<Block>, threshold: real, j: nat)
    requires j < |engine|
    ensures var partners := Partners(paddle, engine, threshold, |paddle|);
            var all := Combined(paddle, engine, threshold);
            && |partners| == |paddle| <= |all|
            && (|| engine[j] in all
                || exists i :: 0 <= i < |paddle| && partners[i] == j && all[i] == paddle[i]
                               && all[i].confidence >= engine[j].confidence)
  {
    var partners := Partners(paddle, engine, threshold, |paddle|);
    PartnersLength(paddle, engine, threshold, |paddle|);
    hide Partners, Leftover, Iou;
    var all := Combined(paddle, engine, threshold);
    if j in Used(partners) {
      var i :| 0 <= i < |partners| && partners[i] >= 0 && partners[i] == j;
      WinnerFacts(paddle[i], engine, j);
      assert all[i] == Winner(paddle[i], engine, j);
    } else {
      LeftoverHas(engine, Used(partners), |engine|, j);
    }
  }

  /** The matching is maximal: two blocks left unmatched do not overlap enough to be matched. */
  lemma {:induction false} MatchingMaximal(paddle: seq<Block>, engine: seq<Block>, threshold: real, i: nat, j: nat)
    requires i < |paddle| && j < |engine|
    ensures var partners := Partners(paddle, engine, threshold, |paddle|);
            |partners| == |paddle| &&
            (partners[i] == -1 && j !in Used(partners) ==>
               Iou(paddle[i].bbox, engine[j].bbox) < threshold || Iou(paddle[i].bbox, engine[j].bbox) == 0.0)
  {
    var partners := Partners(paddle, engine, threshold, |paddle|);
    PartnerAt(paddle, engine, threshold, |paddle|, i);
    BestFacts(paddle[i], engine, Used(partners[..i]), |engine|);
    IouFacts(paddle[i].bbox, engine[j].bbox);
    UsedOfPrefix(partners, i);
    hide Partners, BestOf, Used, Iou;
  }

  lemma {:induction false} UsedOfPrefix(partners: seq<int>, i: nat)
    requires i <= |partners|
    ensures Used(partners[..i]) <= Used(partners)
  {
  }

  /** By top edge, and on the same height by left edge. */
  ghost predicate FromTopLeft(blocks: seq<Block>) {
    forall i, j :: 0 <= i < j < |blocks| ==>
      var a, b := blocks[i].bbox, blocks[j].bbox; a.y1 < b.y1 || (a.y1 == b.y1 && a.x1 <= b.x1)
  }

  /** The result: the combined blocks in the stable order of top and left edge, numbered from 1. */
  lemma {:induction false} EnsembleFacts(paddle: seq<Block>, engine: seq<Block>, threshold: real)
    ensures var sorted := Sort(TopLeft, Combined(paddle, engine, threshold));
            var result := Number(sorted);
            && multiset(sorted) == multiset(Combined(paddle, engine, threshold))
            && |result| == |paddle| + |engine| - Matches(Partners(paddle, engine, threshold, |paddle|))
            && FromTopLeft(result)
            && forall k :: 0 <= k < |result| ==> result[k] == sorted[k].(readingOrder := k + 1)
  {
    CombinedLength(paddle, engine, threshold);
    SortFacts(TopLeft, Combined(paddle, engine, threshold));
    hide Combined, Partners, Sort, Matches;
    var sorted := Sort(TopLeft, Combined(paddle, engine, threshold));
    var result := Number(sorted);
    forall i, j | 0 <= i < j < |result|
      ensures var a, b := result[i].bbox, result[j].bbox; a.y1 < b.y1 || (a.y1 == b.y1 && a.x1 <= b.x1)
    {
      assert Leq(TopLeft(sorted[i]), TopLeft(sorted[j]));
    }
  }
}
