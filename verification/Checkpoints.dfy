/**
 Keys of chunk checkpoints and of the translation cache, and what a checkpoint
 store filled by earlier attempts is good for (backend/jobs/worker.go:
 chunkCheckpointKey; backend/jobs/store.go: CacheKey, Get/SetChunkCheckpoint).
 SHA-256 is an arbitrary function of the byte string written to it, injective
 where a result needs that; the byte strings are modelled as strings.
 */
module Checkpoints {
  import opened Text
  import opened Chunking
  import opened ChunkTranslation
  import opened Interruptions

  const NUL: char := '\U{0000}'
  const NUL_SEP: string := [NUL]

  // ---- Decimal numbers ------------------------------------------------------------

  function Digit(d: nat): char
    requires d < 10
  {
    "0123456789"[d]
  }

  function Digits(n: nat): string {
    if n < 10 then [Digit(n)] else Digits(n / 10) + [Digit(n % 10)]
  }

  /** The verb %d */
  function Decimal(n: int): string {
    if n < 0 then "-" + Digits(-n) else Digits(n)
  }

  function DigitsValue(s: string): int {
    if s == "" then 0 else 10 * DigitsValue(s[..|s| - 1]) + (s[|s| - 1] as int - '0' as int)
  }

  lemma {:induction false} DigitsFacts(n: nat)
    ensures Digits(n) != "" && DigitsValue(Digits(n)) == n
    ensures forall i :: 0 <= i < |Digits(n)| ==> '0' <= Digits(n)[i] <= '9'
  {
    if n >= 10 {
      DigitsFacts(n / 10);
      assert Digits(n)[..|Digits(n)| - 1] == Digits(n / 10);
    } else {
      assert Digits(n)[..0] == "";
    }
  }

  lemma {:induction false} DecimalInjective(a: int, b: int)
    requires Decimal(a) == Decimal(b)
    ensures a == b
  {
    DigitsFacts(if a < 0 then -a else a);
    DigitsFacts(if b < 0 then -b else b);
    if a < 0 {
      assert Decimal(a)[0] == '-';
      assert Decimal(a)[1..] == Digits(-a);
    }
    if b < 0 {
      assert Decimal(b)[0] == '-';
      assert Decimal(b)[1..] == Digits(-b);
    }
  }

  lemma {:induction false} DecimalNulFree(n: int)
    ensures Free(NUL, Decimal(n))
  {
    DigitsFacts(if n < 0 then -n else n);
  }

  // ---- The chunk key ----------------------------------------------------------------

  /** What chunkCheckpointKey writes to the hash. */
  function Preimage(source: string, target: string, units: seq<Unit>): string {
    if units == [] then source + NUL_SEP + target
    else
      var u := units[|units| - 1];
      Preimage(source, target, units[..|units| - 1]) + NUL_SEP + Decimal(u.pageIndex) + NUL_SEP + u.text
  }

  method ChunkCheckpointKey(hash: string -> string, units: seq<Unit>, source: string, target: string)
    returns (key: string)
    ensures key == hash(Preimage(source, target, units))
  {
    var written := source + NUL_SEP + target;
    for i := 0 to |units|
      invariant written == Preimage(source, target, units[..i])
    {
      assert units[..i + 1][..i] == units[..i];
      written := written + NUL_SEP + Decimal(units[i].pageIndex) + NUL_SEP + units[i].text;
    }
    assert units[..|units|] == units;
    key := hash(written);
  }

  /** The fields between the NULs. */
  function KeyFields(source: string, target: string, units: seq<Unit>): seq<string> {
    if units == [] then [source, target]
    else
      var u := units[|units| - 1];
      KeyFields(source, target, units[..|units| - 1]) + [Decimal(u.pageIndex), u.text]
  }

  ghost predicate NulFreeUnits(units: seq<Unit>) {
    forall i :: 0 <= i < |units| ==> Free(NUL, units[i].text)
  }

  lemma {:induction false} PreimageIsJoin(source: string, target: string, units: seq<Unit>)
    ensures Preimage(source, target, units) == Join(KeyFields(source, target, units), NUL_SEP)
    ensures |KeyFields(source, target, units)| == 2 + 2 * |units|
  {
    if units == [] {
      assert Join([target], NUL_SEP) == target && [source, target][1..] == [target];
    } else {
      var front, u := units[..|units| - 1], units[|units| - 1];
      var fields := KeyFields(source, target, front);
      PreimageIsJoin(source, target, front);
      JoinSnoc(fields, Decimal(u.pageIndex), NUL_SEP);
      JoinSnoc(fields + [Decimal(u.pageIndex)], u.text, NUL_SEP);
      assert fields + [Decimal(u.pageIndex), u.text] == fields + [Decimal(u.pageIndex)] + [u.text];
    }
  }

  lemma {:induction false} KeyFieldsNulFree(source: string, target: string, units: seq<Unit>)
    requires Free(NUL, source) && Free(NUL, target) && NulFreeUnits(units)
    ensures forall i :: 0 <= i < |KeyFields(source, target, units)| ==> Free(NUL, KeyFields(source, target, units)[i])
  {
    if units != [] {
      KeyFieldsNulFree(source, target, units[..|units| - 1]);
      DecimalNulFree(units[|units| - 1].pageIndex);
      hide Decimal;
    }
  }

  /** Same pages and same texts; the word counts are not part of the key. */
  ghost predicate SameKeyed(a: seq<Unit>, b: seq<Unit>) {
    |a| == |b| && forall i :: 0 <= i < |a| ==> a[i].pageIndex == b[i].pageIndex && a[i].text == b[i].text
  }

  lemma {:induction false} KeyFieldsInjective(source: string, target: string, a: seq<Unit>, source': string,
                                              target': string, b: seq<Unit>)
    requires KeyFields(source, target, a) == KeyFields(source', target', b) && |a| == |b|
    ensures source == source' && target == target' && SameKeyed(a, b)
  {
    if a == [] {
      assert [source, target] == [source', target'];
      assert [source, target][0] == [source', target'][0] && [source, target][1] == [source', target'][1];
    } else {
      hide Decimal;
      var n := |a| - 1;
      PreimageIsJoin(source, target, a[..n]);
      PreimageIsJoin(source', target', b[..n]);
      hide Preimage;
      var x, y := KeyFields(source, target, a[..n]), KeyFields(source', target', b[..n]);
      var fx, fy := KeyFields(source, target, a), KeyFields(source', target', b);
      assert x == fx[..|x|] == fy[..|y|] == y;
      assert fx[|x|] == Decimal(a[n].pageIndex) && fy[|y|] == Decimal(b[n].pageIndex);
      assert fx[|x| + 1] == a[n].text && fy[|y| + 1] == b[n].text;
      KeyFieldsInjective(source, target, a[..n], source', target', b[..n]);
      DecimalInjective(a[n].pageIndex, b[n].pageIndex);
    }
  }

  /** For NUL-free text, the bytes hashed for a chunk determine the languages, the pages and the texts. */
  lemma {:induction false} PreimageInjective(source: string, target: string, a: seq<Unit>, source': string,
                                             target': string, b: seq<Unit>)
    requires Free(NUL, source) && Free(NUL, target) && NulFreeUnits(a)
    requires Free(NUL, source') && Free(NUL, target') && NulFreeUnits(b)
    requires Preimage(source, target, a) == Preimage(source', target', b)
    ensures source == source' && target == target' && SameKeyed(a, b)
  {
    PreimageIsJoin(source, target, a);
    PreimageIsJoin(source', target', b);
    KeyFieldsNulFree(source, target, a);
    KeyFieldsNulFree(source', target', b);
    hide Preimage, Join, Split, KeyFields;
    SplitOfJoin(KeyFields(source, target, a), NUL_SEP);
    SplitOfJoin(KeyFields(source', target', b), NUL_SEP);
    KeyFieldsInjective(source, target, a, source', target', b);
  }

  ghost predicate Over(alphabet: set<char>, s: string) {
    forall i :: 0 <= i < |s| ==> s[i] in alphabet
  }

  ghost predicate NulFreePages(pages: seq<string>) {
    forall p :: 0 <= p < |pages| ==> Free(NUL, pages[p])
  }

  /** Units of NUL-free pages are NUL-free. */
  lemma {:induction false} NulFreeDocument(pages: seq<string>, units: seq<Unit>, budget: int)
    requires NulFreePages(pages) && CanonicalUnits(units, budget) && UnitsCover(units, pages)
    ensures NulFreeUnits(units)
  {
    hide Fields, Join, PageWords;
    forall i | 0 <= i < |units|
      ensures Free(NUL, units[i].text)
    {
      var u := units[i];
      var ws := Fields(u.text);
      assert CanonicalUnit(u, budget);
      forall k | 0 <= k < |ws|
        ensures Free(NUL, ws[k])
      {
        PageWordsMember(units, i, ws[k]);
        FieldsFree(pages[u.pageIndex], NUL);
      }
      JoinFree(ws, " ", NUL);
    }
  }

  // ---- The cache key ------------------------------------------------------------------

  /** What CacheKey writes to the hash. */
  function CachePreimage(text: string, source: string, target: string): string {
    source + NUL_SEP + target + NUL_SEP + text
  }

  lemma {:induction false} FirstNul(a: string, rest: string, b: string, rest': string)
    requires Free(NUL, a) && Free(NUL, b) && a + NUL_SEP + rest == b + NUL_SEP + rest'
    ensures a == b && rest == rest'
  {
    var s := a + NUL_SEP + rest;
    assert s[|a|] == NUL && s[|b|] == NUL;
    assert forall i :: 0 <= i < |a| ==> s[i] == a[i] != NUL;
    assert s == b + NUL_SEP + rest';
    assert forall i :: 0 <= i < |b| ==> s[i] == b[i] != NUL;
    assert a == s[..|a|] && b == s[..|b|];
    assert rest == s[|a| + 1..] && rest' == s[|b| + 1..];
  }

  /** The text itself may hold any character: NUL-free language codes are enough. */
  lemma {:induction false} CachePreimageInjective(text: string, source: string, target: string, text': string,
                                                  source': string, target': string)
    requires Free(NUL, source) && Free(NUL, target) && Free(NUL, source') && Free(NUL, target')
    requires CachePreimage(text, source, target) == CachePreimage(text', source', target')
    ensures text == text' && source == source' && target == target'
  {
    assert CachePreimage(text, source, target) == source + NUL_SEP + (target + NUL_SEP + text);
    assert CachePreimage(text', source', target') == source' + NUL_SEP + (target' + NUL_SEP + text');
    FirstNul(source, target + NUL_SEP + text, source', target' + NUL_SEP + text');
    FirstNul(target, text, target', text');
  }

  ghost predicate CacheDistinguishes(alphabet: set<char>) {
    forall text: string, source: string, target: string, text': string, source': string, target': string ::
      && Over(alphabet, source) && Over(alphabet, target) && Over(alphabet, source') && Over(alphabet, target')
      && CachePreimage(text, source, target) == CachePreimage(text', source', target')
      ==> text == text' && source == source' && target == target'
  }

  /** Cache entries cannot be confused exactly when no language code holds a NUL. */
  lemma {:induction false} CacheDistinguishesIff(alphabet: set<char>)
    ensures CacheDistinguishes(alphabet) <==> NUL !in alphabet
  {
    if NUL in alphabet {
      assert Over(alphabet, NUL_SEP) && Over(alphabet, "");
      assert CachePreimage("", NUL_SEP, "") == [NUL, NUL, NUL] == CachePreimage("", "", NUL_SEP);
    } else {
      forall text: string, source: string, target: string, text': string, source': string, target': string |
        && Over(alphabet, source) && Over(alphabet, target) && Over(alphabet, source') && Over(alphabet, target')
        && CachePreimage(text, source, target) == CachePreimage(text', source', target')
        ensures text == text' && source == source' && target == target'
      {
        CachePreimageInjective(text, source, target, text', source', target');
      }
    }
  }

  // ---- The store ------------------------------------------------------------------------

  type Store = map<string, seq<Unit>>

  /** Some attempt, in an environment allowed by `P`, translated `units` into `out`. */
  ghost predicate Produced(P: Env -> bool, units: seq<Unit>, out: seq<Unit>) {
    units != [] && exists env: Env, m: Meter :: P(env) && ChunkResult(env, m, units).outcome == Translated(out)
  }

  /** A chunk whose key is unambiguous: NUL-free texts and true word counts. */
  ghost predicate Keyable(units: seq<Unit>) {
    units != [] && NulFreeUnits(units) && forall i :: 0 <= i < |units| ==> units[i].words == |Fields(units[i].text)|
  }

  ghost predicate Injective(hash: string -> string) {
    forall a: string, b: string :: hash(a) == hash(b) ==> a == b
  }

  /** Among the chunks `J`, each has key bytes of its own. */
  ghost predicate Distinct(source: string, target: string, J: seq<Unit> -> bool) {
    forall a: seq<Unit>, b: seq<Unit> :: J(a) && J(b) && Preimage(source, target, a) == Preimage(source, target, b)
      ==> a == b
  }

  /** What is stored under the key of a chunk in `J` was produced for this chunk. */
  ghost predicate Sound(store: Store, hash: string -> string, source: string, target: string, P: Env -> bool,
                        J: seq<Unit> -> bool) {
    forall units: seq<Unit> :: J(units) && hash(Preimage(source, target, units)) in store ==>
      Produced(P, units, store[hash(Preimage(source, target, units))])
  }

  lemma {:induction false} SameKeyedEqual(a: seq<Unit>, b: seq<Unit>)
    requires Keyable(a) && Keyable(b) && SameKeyed(a, b)
    ensures a == b
  {
    hide Fields, NulFreeUnits;
    forall i | 0 <= i < |a|
      ensures a[i] == b[i]
    {
    }
  }

  /** Storing a fresh result keeps the store sound: no other chunk can be served it. */
  lemma {:induction false} SoundSet(store: Store, hash: string -> string, source: string, target: string,
                                    P: Env -> bool, J: seq<Unit> -> bool, units: seq<Unit>, out: seq<Unit>)
    requires Injective(hash) && Distinct(source, target, J) && Sound(store, hash, source, target, P, J)
    requires J(units) && Produced(P, units, out)
    ensures Sound(store[hash(Preimage(source, target, units)) := out], hash, source, target, P, J)
  {
    var key := hash(Preimage(source, target, units));
    forall other: seq<Unit> | J(other) && hash(Preimage(source, target, other)) in store[key := out]
      ensures Produced(P, other, store[key := out][hash(Preimage(source, target, other))])
    {
      assert hash(Preimage(source, target, other)) == key ==> other == units;
    }
  }

  /**
   Checkpoints are transparent: for a service that answers by text, whatever attempts filled the store, each of them
   cut short at any moment, a hit is the undisturbed translation of its chunk, and so what any attempt still gives.
   */
  lemma {:induction false} CheckpointTransparent(store: Store, hash: string -> string, source: string, target: string,
                                                 P: Env -> bool, J: seq<Unit> -> bool, f: string -> Reply,
                                                 units: seq<Unit>)
    requires Sound(store, hash, source, target, P, J)
    requires forall e: Env :: P(e) ==> Attempt(e, f)
    requires J(units) && hash(Preimage(source, target, units)) in store
    ensures units != [] && Settled(f, units) == Translated(store[hash(Preimage(source, target, units))])
    ensures forall env: Env, m: Meter :: Attempt(env, f) && ChunkResult(env, m, units).outcome.Translated? ==>
              ChunkResult(env, m, units).outcome == Translated(store[hash(Preimage(source, target, units))])
  {
    var out := store[hash(Preimage(source, target, units))];
    assert Produced(P, units, out);
    ProducedSettled(P, f, units, out);
    hide Produced, Sound, ChunkResult, Settled, Attempt;
    forall env: Env, m: Meter | Attempt(env, f) && ChunkResult(env, m, units).outcome.Translated?
      ensures ChunkResult(env, m, units).outcome == Translated(out)
    {
      ChunkSettled(env, f, m, units);
    }
  }

  lemma {:induction false} ProducedSettled(P: Env -> bool, f: string -> Reply, units: seq<Unit>, out: seq<Unit>)
    requires Produced(P, units, out) && forall e: Env :: P(e) ==> Attempt(e, f)
    ensures Settled(f, units) == Translated(out)
  {
    var e: Env, m: Meter :| P(e) && ChunkResult(e, m, units).outcome == Translated(out);
    ChunkSettled(e, f, m, units);
    hide ChunkResult, Settled;
  }

  // ---- What a produced result is worth ----------------------------------------------------

  lemma {:induction false} ProducedMapped(P: Env -> bool, f: string -> string, units: seq<Unit>, out: seq<Unit>)
    requires Produced(P, units, out) && AllPlain(units)
    requires forall e: Env :: P(e) ==> UnitWise(e, f)
    ensures Mapped(out, units, f)
  {
    var env: Env, m: Meter :| P(env) && ChunkResult(env, m, units).outcome == Translated(out);
    ChunkResultMapped(env, f, m, units);
  }
}
