/**
 The part of Go's `strings` package that the job pipeline relies on: Fields,
 Join, Split and TrimSpace, with the round trips between them.
 */
module Text {

  /** unicode.IsSpace: the characters strings.Fields and strings.TrimSpace treat as blanks. */
  predicate IsSpace(c: char) {
    || '\t' <= c <= '\r' || c == ' ' || c == '\U{0085}' || c == '\U{00A0}'
    || c == '\U{1680}' || '\U{2000}' <= c <= '\U{200A}'
    || c == '\U{2028}' || c == '\U{2029}' || c == '\U{202F}' || c == '\U{205F}' || c == '\U{3000}'
  }

  ghost predicate AllSpace(s: string) {
    forall i :: 0 <= i < |s| ==> IsSpace(s[i])
  }

  ghost predicate IsWord(w: string) {
    w != "" && forall i :: 0 <= i < |w| ==> !IsSpace(w[i])
  }

  ghost predicate AllWords(ws: seq<string>) {
    forall i :: 0 <= i < |ws| ==> IsWord(ws[i])
  }

  ghost predicate Free(c: char, s: string) {
    forall i :: 0 <= i < |s| ==> s[i] != c
  }

  /** Length of the longest blank-free prefix. */
  function WordLen(s: string): (n: nat)
    ensures n <= |s|
    ensures forall i :: 0 <= i < n ==> !IsSpace(s[i])
    ensures n < |s| ==> IsSpace(s[n])
  {
    if s == "" || IsSpace(s[0]) then 0 else 1 + WordLen(s[1..])
  }

  /** strings.Fields */
  function Fields(s: string): (ws: seq<string>)
    decreases |s|
  {
    if s == "" then []
    else if IsSpace(s[0]) then Fields(s[1..])
    else var n := WordLen(s); [s[..n]] + Fields(s[n..])
  }

  /** strings.Join */
  function Join(parts: seq<string>, sep: string): string {
    if parts == [] then ""
    else if |parts| == 1 then parts[0]
    else parts[0] + sep + Join(parts[1..], sep)
  }

  /** strings.Index: the first position at which `sep` occurs, or -1. */
  function Index(s: string, sep: string): (i: int)
    ensures -1 <= i
    ensures i >= 0 ==> i + |sep| <= |s| && s[i..i + |sep|] == sep
    ensures forall j :: 0 <= j < (if i < 0 then |s| else i) ==> !(sep <= s[j..])
  {
    if sep <= s then 0
    else if s == "" then -1
    else
      var i := Index(s[1..], sep);
      assert forall j :: 1 <= j <= |s| ==> s[j..] == s[1..][j - 1..];
      if i < 0 then -1 else i + 1
  }

  /** strings.Split for a non-empty separator. */
  function Split(s: string, sep: string): (parts: seq<string>)
    requires sep != ""
    ensures |parts| >= 1
    decreases |s|
  {
    var i := Index(s, sep);
    if i < 0 then [s] else [s[..i]] + Split(s[i + |sep|..], sep)
  }

  function TrimLeft(s: string): string {
    if s != "" && IsSpace(s[0]) then TrimLeft(s[1..]) else s
  }

  function TrimRight(s: string): string {
    if s != "" && IsSpace(s[|s| - 1]) then TrimRight(s[..|s| - 1]) else s
  }

  /** strings.TrimSpace */
  function TrimSpace(s: string): string {
    TrimRight(TrimLeft(s))
  }

  /** The words of all parts, one part after the other. */
  function AllFields(parts: seq<string>): seq<string> {
    if parts == [] then [] else Fields(parts[0]) + AllFields(parts[1..])
  }

  lemma {:induction false} FieldsAreWords(s: string)
    ensures AllWords(Fields(s))
    decreases |s|
  {
    if s != "" {
      if IsSpace(s[0]) {
        FieldsAreWords(s[1..]);
      } else {
        FieldsAreWords(s[WordLen(s)..]);
      }
    }
  }

  lemma {:induction false} WordLenIs(s: string, n: nat)
    requires n <= |s|
    requires forall i :: 0 <= i < n ==> !IsSpace(s[i])
    requires n < |s| ==> IsSpace(s[n])
    ensures WordLen(s) == n
  {
    var m := WordLen(s);
    assert m < |s| ==> IsSpace(s[m]);
  }

  /** Cutting a string next to a blank does not change its words. */
  lemma {:induction false} FieldsConcat(a: string, b: string)
    requires a == "" || b == "" || IsSpace(a[|a| - 1]) || IsSpace(b[0])
    ensures Fields(a + b) == Fields(a) + Fields(b)
    decreases |a|
  {
    if a == "" {
      assert a + b == b;
    } else if IsSpace(a[0]) {
      FieldsConcat(a[1..], b);
      CutConcat(a, b, 1);
    } else {
      FieldsConcatWord(a, b);
      FieldsConcat(a[WordLen(a)..], b);
    }
  }

  lemma {:induction false} FieldsUnfold(s: string)
    requires s != "" && !IsSpace(s[0])
    ensures WordLen(s) > 0
    ensures Fields(s) == [s[..WordLen(s)]] + Fields(s[WordLen(s)..])
  {
  }

  /** The first word of `a` is the first word of `a + b`, unless `b` continues it. */
  lemma {:induction false} FieldsConcatWord(a: string, b: string)
    requires a != "" && !IsSpace(a[0])
    requires b == "" || IsSpace(a[|a| - 1]) || IsSpace(b[0])
    ensures Fields(a + b) == [a[..WordLen(a)]] + Fields(a[WordLen(a)..] + b)
    ensures WordLen(a) > 0
  {
    WordLenConcat(a, b);
    FieldsUnfold(a + b);
    CutConcat(a, b, WordLen(a));
  }

  lemma {:induction false} WordLenConcat(a: string, b: string)
    requires a != "" && !IsSpace(a[0])
    requires b == "" || IsSpace(a[|a| - 1]) || IsSpace(b[0])
    ensures WordLen(a + b) == WordLen(a)
  {
    var n := WordLen(a);
    assert n == |a| ==> !IsSpace(a[|a| - 1]);
    WordLenIs(a + b, n);
  }

  lemma {:induction false} CutConcat<T>(a: seq<T>, b: seq<T>, n: nat)
    requires n <= |a|
    ensures (a + b)[n..] == a[n..] + b
    ensures (a + b)[..n] == a[..n]
  {
  }

  lemma {:induction false} FieldsAllSpace(s: string)
    requires AllSpace(s)
    ensures Fields(s) == []
  {
    if s != "" {
      FieldsAllSpace(s[1..]);
    }
  }

  /** Joining with a blank separator keeps the words of the parts, in order. */
  lemma {:induction false} FieldsOfJoin(parts: seq<string>, sep: string)
    requires sep != "" && AllSpace(sep)
    ensures Fields(Join(parts, sep)) == AllFields(parts)
  {
    if |parts| == 1 {
      assert parts[1..] == [];
    } else if |parts| > 1 {
      var rest := Join(parts[1..], sep);
      FieldsConcat(parts[0], sep + rest);
      FieldsConcat(sep, rest);
      FieldsAllSpace(sep);
      assert parts[0] + sep + rest == parts[0] + (sep + rest);
      FieldsOfJoin(parts[1..], sep);
    }
  }

  lemma {:induction false} FieldsOfWord(w: string)
    requires IsWord(w)
    ensures Fields(w) == [w]
  {
    WordLenIs(w, |w|);
    assert w[..|w|] == w && w[|w|..] == "" && !IsSpace(w[0]);
    assert Fields(w) == [w[..|w|]] + Fields(w[|w|..]);
  }

  lemma {:induction false} AllFieldsOfWords(ws: seq<string>)
    requires AllWords(ws)
    ensures AllFields(ws) == ws
  {
    if ws != [] {
      FieldsOfWord(ws[0]);
      AllFieldsOfWords(ws[1..]);
    }
  }

  /** Fields undoes a join of words with single blanks. */
  lemma {:induction false} FieldsJoinWords(ws: seq<string>)
    requires AllWords(ws)
    ensures Fields(Join(ws, " ")) == ws
  {
    FieldsOfJoin(ws, " ");
    AllFieldsOfWords(ws);
  }

  lemma {:induction false} AllFieldsConcat(a: seq<string>, b: seq<string>)
    ensures AllFields(a + b) == AllFields(a) + AllFields(b)
  {
    if a == [] {
      assert a + b == b;
    } else {
      AllFieldsConcat(a[1..], b);
      CutConcat(a, b, 1);
    }
  }

  lemma {:induction false} AllFieldsSnoc(parts: seq<string>, part: string)
    ensures AllFields(parts + [part]) == AllFields(parts) + Fields(part)
  {
    AllFieldsConcat(parts, [part]);
    assert AllFields([part]) == Fields(part) + AllFields([]);
  }

  lemma {:induction false} JoinSnoc(parts: seq<string>, part: string, sep: string)
    ensures Join(parts + [part], sep) == if parts == [] then part else Join(parts, sep) + sep + part
  {
    if |parts| > 0 {
      JoinSnoc(parts[1..], part, sep);
      assert (parts + [part])[1..] == parts[1..] + [part];
    }
  }

  /** Split undoes Join when no part holds the separator's first character. */
  lemma {:induction false} SplitOfJoin(parts: seq<string>, sep: string)
    requires sep != "" && parts != []
    requires forall i :: 0 <= i < |parts| ==> Free(sep[0], parts[i])
    ensures Split(Join(parts, sep), sep) == parts
  {
    var s := Join(parts, sep);
    if |parts| == 1 {
      forall i | 0 <= i < |s|
        ensures !(sep <= s[i..])
      {
        assert s[i..][0] != sep[0];
      }
      assert Index(s, sep) < 0;
    } else {
      var head, rest := parts[0], Join(parts[1..], sep);
      forall i | 0 <= i < |head|
        ensures !(sep <= s[i..])
      {
        assert s[i..][0] == head[i];
      }
      assert sep <= s[|head|..];
      assert Index(s, sep) == |head|;
      assert s[|head| + |sep|..] == rest;
      assert s[..|head|] == head;
      SplitOfJoin(parts[1..], sep);
    }
  }

  /** Join undoes Split, for every string and separator. */
  lemma {:induction false} JoinOfSplit(s: string, sep: string)
    requires sep != ""
    ensures Join(Split(s, sep), sep) == s
    decreases |s|
  {
    var i := Index(s, sep);
    if i >= 0 {
      JoinOfSplit(s[i + |sep|..], sep);
      assert s == s[..i] + s[i..i + |sep|] + s[i + |sep|..];
      assert Split(s, sep)[1..] == Split(s[i + |sep|..], sep);
    }
  }

  lemma {:induction false} TrimLeftFields(s: string)
    ensures Fields(TrimLeft(s)) == Fields(s)
    ensures TrimLeft(s) == "" || !IsSpace(TrimLeft(s)[0])
    ensures TrimLeft(s) <= s || |TrimLeft(s)| < |s|
  {
    if s != "" && IsSpace(s[0]) {
      TrimLeftFields(s[1..]);
    }
  }

  lemma {:induction false} TrimRightFields(s: string)
    ensures Fields(TrimRight(s)) == Fields(s)
    ensures TrimRight(s) <= s
    ensures TrimRight(s) == "" || !IsSpace(TrimRight(s)[|TrimRight(s)| - 1])
  {
    if s != "" && IsSpace(s[|s| - 1]) {
      var front, last := s[..|s| - 1], s[|s| - 1..];
      TrimRightFields(front);
      FieldsConcat(front, last);
      FieldsAllSpace(last);
      assert s == front + last;
    }
  }

  lemma {:induction false} TrimSpaceFields(s: string)
    ensures Fields(TrimSpace(s)) == Fields(s)
    ensures TrimSpace(s) == "" <==> Fields(s) == []
  {
    TrimLeftFields(s);
    TrimRightFields(TrimLeft(s));
    var t := TrimSpace(s);
    if t != "" {
      assert t[0] == TrimLeft(s)[0];
      assert Fields(t) != [];
    }
  }

  /** Trimming leaves a string alone that starts and ends with a visible character. */
  lemma {:induction false} TrimSpaceNoop(s: string)
    requires s != "" ==> !IsSpace(s[0]) && !IsSpace(s[|s| - 1])
    ensures TrimSpace(s) == s
  {
  }

  /** Joining brings in no character that is neither in the parts nor in the separator. */
  lemma {:induction false} JoinFree(parts: seq<string>, sep: string, c: char)
    requires Free(c, sep)
    requires forall i :: 0 <= i < |parts| ==> Free(c, parts[i])
    ensures Free(c, Join(parts, sep))
  {
    if |parts| > 1 {
      JoinFree(parts[1..], sep, c);
    }
  }

  /** Every character of a word of `s` is a character of `s`. */
  lemma {:induction false} FieldsFree(s: string, c: char)
    requires Free(c, s)
    ensures forall i :: 0 <= i < |Fields(s)| ==> Free(c, Fields(s)[i])
    decreases |s|
  {
    if s != "" {
      if IsSpace(s[0]) {
        FieldsFree(s[1..], c);
      } else {
        FieldsFree(s[WordLen(s)..], c);
      }
    }
  }
}
