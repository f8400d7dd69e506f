/**
 The two-row edit distance of the OCR evaluation (ocr-service/eval_ocr.py) against
 the cheapest edit script, and the error rates built on it.
 */
module Levenshtein {
  import opened PythonText
  import opened Text

  function Min3(a: int, b: int, c: int): int {
    if a <= b && a <= c then a else if b <= c then b else c
  }

  // ---- Edit scripts --------------------------------------------------------------------

  datatype Op<T> = Keep | Substitute(to: T) | Delete | Insert(what: T)

  /** The script turns `a` into `b`, working from the end of both. */
  predicate Edits<T(==)>(script: seq<Op<T>>, a: seq<T>, b: seq<T>) {
    if script == [] then a == [] && b == []
    else
      var rest := script[..|script| - 1];
      match script[|script| - 1]
      case Keep => a != [] && b != [] && a[|a| - 1] == b[|b| - 1] && Edits(rest, a[..|a| - 1], b[..|b| - 1])
      case Substitute(x) => a != [] && b != [] && b[|b| - 1] == x && Edits(rest, a[..|a| - 1], b[..|b| - 1])
      case Delete => a != [] && Edits(rest, a[..|a| - 1], b)
      case Insert(x) => b != [] && b[|b| - 1] == x && Edits(rest, a, b[..|b| - 1])
  }

  function Cost<T>(script: seq<Op<T>>): nat {
    if script == [] then 0
    else Cost(script[..|script| - 1]) + if script[|script| - 1].Keep? then 0 else 1
  }

  // ---- The distance ---------------------------------------------------------------------

  /** The recurrence that the table is filled by. */
  function Distance<T(==)>(a: seq<T>, b: seq<T>): nat
    decreases |a| + |b|
  {
    if a == [] then |b|
    else if b == [] then |a|
    else
      var a', b' := a[..|a| - 1], b[..|b| - 1];
      Min3(Distance(a', b) + 1, Distance(a, b') + 1, Distance(a', b') + if a[|a| - 1] != b[|b| - 1] then 1 else 0)
  }

  method Compute<T(==)>(first: seq<T>, second: seq<T>) returns (distance: int)
    ensures distance == Distance(first, second)
  {
    hide Distance;
    var a, b := first, second;
    if |a| < |b| {
      a, b := b, a;
      DistanceSymmetric(first, second);
    }
    var previous := seq(|b| + 1, j => j);
    FirstRow(a, b);
    for i := 1 to |a| + 1
      invariant previous == Row(a, b, i - 1, |b| + 1)
    {
      previous := NextRow(a, b, i, previous);
    }
    distance := previous[|previous| - 1];
    assert a[..|a|] == a && b[..|b|] == b;
  }

  /** The inner loop: row `i` of the table from row `i - 1`. */
  method NextRow<T(==)>(a: seq<T>, b: seq<T>, i: nat, previous: seq<int>) returns (current: seq<int>)
    requires 1 <= i <= |a|
    requires previous == Row(a, b, i - 1, |b| + 1)
    ensures current == Row(a, b, i, |b| + 1)
  {
    hide Distance;
    FirstCell(a, b, i);
    current := [i];
    for j := 1 to |b| + 1
      invariant current == Row(a, b, i, j)
    {
      Cell(a, b, i, j);
      var insertCost := current[j - 1] + 1;
      var deleteCost := previous[j] + 1;
      var replaceCost := previous[j - 1] + if a[i - 1] != b[j - 1] then 1 else 0;
      current := current + [Min3(insertCost, deleteCost, replaceCost)];
    }
  }

  /** The first `n` cells of row `i` of the table. */
  ghost function Row<T>(a: seq<T>, b: seq<T>, i: nat, n: nat): seq<int>
    requires i <= |a| && n <= |b| + 1
  {
    seq(n, j requires 0 <= j < n => Distance(a[..i], b[..j]))
  }

  lemma {:induction false} FirstRow<T>(a: seq<T>, b: seq<T>)
    ensures Row(a, b, 0, |b| + 1) == seq(|b| + 1, j => j)
  {
  }

  lemma {:induction false} FirstCell<T>(a: seq<T>, b: seq<T>, i: nat)
    requires 1 <= i <= |a|
    ensures Row(a, b, i, 1) == [i]
  {
    assert b[..0] == [];
  }

  lemma {:induction false} Cell<T>(a: seq<T>, b: seq<T>, i: nat, j: nat)
    requires 1 <= i <= |a| && 1 <= j <= |b|
    ensures Distance(a[..i], b[..j]) ==
            Min3(Distance(a[..i - 1], b[..j]) + 1, Distance(a[..i], b[..j - 1]) + 1,
                 Distance(a[..i - 1], b[..j - 1]) + if a[i - 1] != b[j - 1] then 1 else 0)
  {
    assert a[..i][..i - 1] == a[..i - 1];
    assert b[..j][..j - 1] == b[..j - 1];
  }

  /** The swap of the arguments is sound. */
  lemma {:induction false} DistanceSymmetric<T>(a: seq<T>, b: seq<T>)
    ensures Distance(a, b) == Distance(b, a)
    decreases |a| + |b|
  {
    if a != [] && b != [] {
      DistanceSymmetric(a[..|a| - 1], b);
      DistanceSymmetric(a, b[..|b| - 1]);
      DistanceSymmetric(a[..|a| - 1], b[..|b| - 1]);
    }
  }

  // ---- The distance is the cheapest script --------------------------------------------------

  /** No script is cheaper than the distance. */
  lemma {:induction false} ScriptCostsAtLeast<T>(script: seq<Op<T>>, a: seq<T>, b: seq<T>)
    requires Edits(script, a, b)
    ensures Distance(a, b) <= Cost(script)
  {
    if script != [] {
      var rest := script[..|script| - 1];
      match script[|script| - 1]
      case Keep =>
        ScriptCostsAtLeast(rest, a[..|a| - 1], b[..|b| - 1]);
      case Substitute(_) =>
        ScriptCostsAtLeast(rest, a[..|a| - 1], b[..|b| - 1]);
      case Delete =>
        ScriptCostsAtLeast(rest, a[..|a| - 1], b);
        DistanceDrop(a, b);
      case Insert(_) =>
        ScriptCostsAtLeast(rest, a, b[..|b| - 1]);
        DistanceSymmetric(a, b);
        DistanceSymmetric(a, b[..|b| - 1]);
        DistanceDrop(b, a);
    }
  }

  /** Dropping the last symbol changes the distance by at most one. */
  lemma {:induction false} DistanceDrop<T>(a: seq<T>, b: seq<T>)
    requires a != []
    ensures Distance(a, b) <= Distance(a[..|a| - 1], b) + 1
  {
    if b == [] {
      DistanceOfEmpty(a[..|a| - 1]);
    }
  }

  lemma {:induction false} DistanceOfEmpty<T>(a: seq<T>)
    ensures Distance(a, []) == |a| && Distance([], a) == |a|
  {
  }

  /** A cheapest script, read off the table. */
  function Script<T(==)>(a: seq<T>, b: seq<T>): seq<Op<T>>
    decreases |a| + |b|
  {
    if a == [] && b == [] then []
    else if a == [] then Script(a, b[..|b| - 1]) + [Insert(b[|b| - 1])]
    else if b == [] then Script(a[..|a| - 1], b) + [Delete]
    else
      var a', b', x := a[..|a| - 1], b[..|b| - 1], b[|b| - 1];
      if Distance(a, b) == Distance(a', b) + 1 then Script(a', b) + [Delete]
      else if Distance(a, b) == Distance(a, b') + 1 then Script(a, b') + [Insert(x)]
      else Script(a', b') + [if a[|a| - 1] == x then Keep else Substitute(x)]
  }

  lemma {:induction false} EditsSnoc<T>(script: seq<Op<T>>, op: Op<T>)
    ensures (script + [op])[..|script|] == script
    ensures Cost(script + [op]) == Cost(script) + if op.Keep? then 0 else 1
  {
    assert (script + [op])[..|script|] == script;
  }

  lemma {:induction false} ScriptIsOptimal<T>(a: seq<T>, b: seq<T>)
    ensures Edits(Script(a, b), a, b) && Cost(Script(a, b)) == Distance(a, b)
    decreases |a| + |b|
  {
    if a == [] && b == [] {
    } else if a == [] {
      var op := Insert(b[|b| - 1]);
      ScriptIsOptimal(a, b[..|b| - 1]);
      EditsSnoc(Script(a, b[..|b| - 1]), op);
    } else if b == [] {
      ScriptIsOptimal(a[..|a| - 1], b);
      EditsSnoc(Script(a[..|a| - 1], b), Delete);
      DistanceOfEmpty(a[..|a| - 1]);
    } else {
      var a', b', x := a[..|a| - 1], b[..|b| - 1], b[|b| - 1];
      if Distance(a, b) == Distance(a', b) + 1 {
        ScriptIsOptimal(a', b);
        EditsSnoc(Script(a', b), Delete);
      } else if Distance(a, b) == Distance(a, b') + 1 {
        ScriptIsOptimal(a, b');
        EditsSnoc(Script(a, b'), Insert(x));
      } else {
        ScriptIsOptimal(a', b');
        EditsSnoc(Script(a', b'), if a[|a| - 1] == x then Keep else Substitute(x));
      }
    }
  }

  /** The distance is the cost of the cheapest script. */
  lemma {:induction false} DistanceIsCheapest<T(!new)>(a: seq<T>, b: seq<T>)
    ensures exists script: seq<Op<T>> :: Edits(script, a, b) && Cost(script) == Distance(a, b)
    ensures forall script: seq<Op<T>> :: Edits(script, a, b) ==> Cost(script) >= Distance(a, b)
  {
    ScriptIsOptimal(a, b);
    forall script: seq<Op<T>> | Edits(script, a, b)
      ensures Cost(script) >= Distance(a, b)
    {
      ScriptCostsAtLeast(script, a, b);
    }
  }

  // ---- The distance is a metric ---------------------------------------------------------------

  lemma {:induction false} DistanceZeroIff<T>(a: seq<T>, b: seq<T>)
    ensures Distance(a, b) == 0 <==> a == b
    decreases |a| + |b|
  {
    if a != [] && b != [] {
      var a', b' := a[..|a| - 1], b[..|b| - 1];
      DistanceZeroIff(a', b');
      assert a == a' + [a[|a| - 1]] && b == b' + [b[|b| - 1]];
    }
  }

  /** Between the difference of the lengths and the longer length. */
  lemma {:induction false} DistanceBounds<T>(a: seq<T>, b: seq<T>)
    ensures |a| - |b| <= Distance(a, b) && |b| - |a| <= Distance(a, b)
    ensures Distance(a, b) <= if |a| >= |b| then |a| else |b|
    decreases |a| + |b|
  {
    if a != [] && b != [] {
      DistanceBounds(a[..|a| - 1], b);
      DistanceBounds(a, b[..|b| - 1]);
      DistanceBounds(a[..|a| - 1], b[..|b| - 1]);
    }
  }

  lemma {:induction false} DistanceSteps<T>(a: seq<T>, b: seq<T>)
    requires a != [] && b != []
    ensures var a', b' := a[..|a| - 1], b[..|b| - 1];
            && Distance(a, b) <= Distance(a', b) + 1 && Distance(a, b) <= Distance(a, b') + 1
            && Distance(a, b) <= Distance(a', b') + (if a[|a| - 1] != b[|b| - 1] then 1 else 0)
            && (|| Distance(a, b) == Distance(a', b) + 1 || Distance(a, b) == Distance(a, b') + 1
                || Distance(a, b) == Distance(a', b') + if a[|a| - 1] != b[|b| - 1] then 1 else 0)
  {
  }

  lemma {:induction false} Triangle<T>(a: seq<T>, b: seq<T>, c: seq<T>)
    ensures Distance(a, c) <= Distance(a, b) + Distance(b, c)
    decreases |a| + |b| + |c|
  {
    if a == [] || b == [] || c == [] {
      DistanceBounds(a, c);
      DistanceBounds(a, b);
      DistanceBounds(b, c);
    } else {
      DistanceSteps(a, b);
      DistanceSteps(b, c);
      DistanceSteps(a, c);
      var a', b', c' := a[..|a| - 1], b[..|b| - 1], c[..|c| - 1];
      Triangle(a', b, c);
      Triangle(a, b, c');
      Triangle(a, b', c);
      Triangle(a, b', c');
      Triangle(a', b', c);
      Triangle(a', b', c');
      hide Distance;
    }
  }

  // ---- Error rates ------------------------------------------------------------------------------

  /** Canonical composition is the given function; runs of white space become one blank. */
  function Normalized(nfc: string -> string, text: string): string {
    Join(Words(nfc(text)), " ")
  }

  function Rate<T(==)>(ref: seq<T>, hyp: seq<T>): real {
    if ref == [] then if hyp == [] then 0.0 else 1.0
    else Distance(ref, hyp) as real / |ref| as real
  }

  method Cer(nfc: string -> string, reference: string, hypothesis: string) returns (rate: real)
    ensures rate == Rate(Normalized(nfc, reference), Normalized(nfc, hypothesis))
  {
    var ref := Normalized(nfc, reference);
    var hyp := Normalized(nfc, hypothesis);
    if |ref| == 0 {
      return if |hyp| == 0 then 0.0 else 1.0;
    }
    var d := Compute(ref, hyp);
    rate := d as real / |ref| as real;
  }

  /** The words of the normalised text are those of the composed one. */
  method Wer(nfc: string -> string, reference: string, hypothesis: string) returns (rate: real)
    ensures rate == Rate(Words(nfc(reference)), Words(nfc(hypothesis)))
  {
    var ref := Words(Normalized(nfc, reference));
    var hyp := Words(Normalized(nfc, hypothesis));
    NormalizedKeepsWords(nfc, reference);
    NormalizedKeepsWords(nfc, hypothesis);
    if |ref| == 0 {
      return if |hyp| == 0 then 0.0 else 1.0;
    }
    var d := Compute(ref, hyp);
    rate := d as real / |ref| as real;
  }

  lemma {:induction false} NormalizedKeepsWords(nfc: string -> string, text: string)
    ensures Words(Normalized(nfc, text)) == Words(nfc(text))
  {
    WordsOfJoined(nfc(text));
  }

  /** Both rates are zero exactly when the composed texts have the same words. */
  lemma {:induction false} PerfectTranscription(nfc: string -> string, reference: string, hypothesis: string)
    ensures Rate(Normalized(nfc, reference), Normalized(nfc, hypothesis)) == 0.0
            <==> Words(nfc(reference)) == Words(nfc(hypothesis))
    ensures Rate(Words(nfc(reference)), Words(nfc(hypothesis))) == 0.0
            <==> Words(nfc(reference)) == Words(nfc(hypothesis))
  {
    RateFacts(Normalized(nfc, reference), Normalized(nfc, hypothesis));
    RateFacts(Words(nfc(reference)), Words(nfc(hypothesis)));
    NormalizedKeepsWords(nfc, reference);
    NormalizedKeepsWords(nfc, hypothesis);
  }

  /** A rate of zero means a perfect transcription; a rate above one needs a longer hypothesis. */
  lemma {:induction false} RateFacts<T>(ref: seq<T>, hyp: seq<T>)
    ensures Rate(ref, hyp) >= 0.0
    ensures Rate(ref, hyp) == 0.0 <==> ref == hyp
    ensures Rate(ref, hyp) > 1.0 ==> |hyp| > |ref|
  {
    DistanceZeroIff(ref, hyp);
    DistanceBounds(ref, hyp);
    hide Distance;
    if ref != [] {
      RateOf(Distance(ref, hyp), |ref|);
    }
  }

  lemma {:induction false} RateOf(d: nat, n: nat)
    requires n > 0
    ensures var q := d as real / n as real; q >= 0.0 && (q == 0.0 <==> d == 0) && (q > 1.0 <==> d > n)
  {
    var q, x := d as real / n as real, n as real;
    assert q * x == d as real;
    if q > 1.0 {
      assert q * x > x;
    } else {
      assert q * x <= x;
    }
  }
}
