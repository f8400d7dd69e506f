/**
 What the OCR service relies on of Python's `str`: strip and split, which know four blanks more than Go's `strings`.
 */
module PythonText {
  import opened Text

  /** The control characters that Python takes for blanks and `IsSpace` does not. */
  predicate IsControl(c: char) { '\U{001C}' <= c <= '\U{001F}' }

  predicate IsBlank(c: char) { IsSpace(c) || IsControl(c) }

  // ---- Strip -------------------------------------------------------------------------------

  function StripLeft(s: string): string {
    if s != "" && IsBlank(s[0]) then StripLeft(s[1..]) else s
  }

  function StripRight(s: string): string {
    if s != "" && IsBlank(s[|s| - 1]) then StripRight(s[..|s| - 1]) else s
  }

  /** str.strip */
  function Strip(s: string): string {
    StripRight(StripLeft(s))
  }

  lemma {:induction false} StripLeftStarts(s: string)
    ensures StripLeft(s) == "" || !IsBlank(StripLeft(s)[0])
  {
    if s != "" && IsBlank(s[0]) {
      StripLeftStarts(s[1..]);
    }
  }

  lemma {:induction false} StripRightEnds(s: string)
    ensures StripRight(s) <= s
    ensures StripRight(s) == "" || !IsBlank(StripRight(s)[|StripRight(s)| - 1])
  {
    if s != "" && IsBlank(s[|s| - 1]) {
      StripRightEnds(s[..|s| - 1]);
    }
  }

  lemma {:induction false} StripIdempotent(s: string)
    ensures Strip(Strip(s)) == Strip(s)
  {
    StripLeftStarts(s);
    StripRightEnds(StripLeft(s));
    assert Strip(s) != "" ==> Strip(s)[0] == StripLeft(s)[0];
  }

  ghost predicate Visible(s: string) {
    exists i :: 0 <= i < |s| && !IsBlank(s[i])
  }

  lemma {:induction false} StripLeftVisible(s: string)
    ensures StripLeft(s) != "" <==> Visible(s)
    ensures Visible(StripLeft(s)) <==> Visible(s)
  {
    if s != "" && IsBlank(s[0]) {
      StripLeftVisible(s[1..]);
      assert s == [s[0]] + s[1..];
      if i :| 0 <= i < |s| && !IsBlank(s[i]) {
        assert s[1..][i - 1] == s[i];
      }
      if i :| 0 <= i < |s[1..]| && !IsBlank(s[1..][i]) {
        assert s[i + 1] == s[1..][i];
      }
    }
  }

  lemma {:induction false} StripRightVisible(s: string)
    ensures StripRight(s) != "" <==> Visible(s)
  {
    if s != "" && IsBlank(s[|s| - 1]) {
      var front := s[..|s| - 1];
      StripRightVisible(front);
      if i :| 0 <= i < |s| && !IsBlank(s[i]) {
        assert front[i] == s[i];
      }
      if i :| 0 <= i < |front| && !IsBlank(front[i]) {
        assert s[i] == front[i];
      }
    }
  }

  /** Something is left exactly of a string with a visible character. */
  lemma {:induction false} StripVisible(s: string)
    ensures Strip(s) != "" <==> Visible(s)
  {
    StripLeftVisible(s);
    StripRightVisible(StripLeft(s));
  }

  // ---- Split -------------------------------------------------------------------------------

  function Blanked(s: string): string {
    seq(|s|, i requires 0 <= i < |s| => if IsControl(s[i]) then ' ' else s[i])
  }

  /** str.split */
  function Words(s: string): seq<string> {
    Fields(Blanked(s))
  }

  /** Words neither hold blanks nor control characters, so that the joined words are as they were. */
  lemma {:induction false} JoinedWords(s: string)
    ensures Blanked(Join(Words(s), " ")) == Join(Words(s), " ")
  {
    var joined := Join(Words(s), " ");
    forall c | IsControl(c)
      ensures Free(c, joined)
    {
      FieldsFree(Blanked(s), c);
      JoinFree(Words(s), " ", c);
    }
    forall i | 0 <= i < |joined|
      ensures !IsControl(joined[i])
    {
      assert IsControl(joined[i]) ==> Free(joined[i], joined);
    }
  }

  /** Splitting undoes the join of words with single blanks. */
  lemma {:induction false} WordsOfJoined(s: string)
    ensures Words(Join(Words(s), " ")) == Words(s)
  {
    JoinedWords(s);
    FieldsAreWords(Blanked(s));
    FieldsJoinWords(Words(s));
  }
}
