/** White space as the `trim` of ECMAScript 2024 has it, section 22.1.3.32. */
module WhiteSpace {

  predicate Space(c: char) {
    || '\t' <= c <= '\r' || c == ' ' || c == '\U{00A0}' || c == '\U{1680}' || '\U{2000}' <= c <= '\U{200A}'
    || c == '\U{2028}' || c == '\U{2029}' || c == '\U{202F}' || c == '\U{205F}' || c == '\U{3000}' || c == '\U{FEFF}'
  }

  function TrimStart(s: string): (r: string)
    ensures r != "" ==> !Space(r[0])
  {
    if s != "" && Space(s[0]) then TrimStart(s[1..]) else s
  }

  function TrimEnd(s: string): (r: string)
    ensures r != "" ==> !Space(r[|r| - 1])
  {
    if s != "" && Space(s[|s| - 1]) then TrimEnd(s[..|s| - 1]) else s
  }

  function Trim(s: string): string {
    TrimEnd(TrimStart(s))
  }

  lemma {:induction false} EndOfTrimmed(s: string)
    requires s != "" && !Space(s[0])
    ensures TrimEnd(s) != "" && TrimEnd(s)[0] == s[0]
  {
    if Space(s[|s| - 1]) { EndOfTrimmed(s[..|s| - 1]); }
  }

  lemma {:induction false} TrimEndDropsBlank(s: string, space: string)
    requires s != "" && !Space(s[|s| - 1]) && Blank(space)
    ensures TrimEnd(s + space) == s
  {
    if space == "" {
      assert s + space == s;
    } else {
      var front := space[..|space| - 1];
      TrimEndDropsBlank(s, front);
      assert (s + space)[..|s + space| - 1] == s + front;
    }
  }

  predicate Blank(s: string) {
    forall i :: 0 <= i < |s| ==> Space(s[i])
  }

  /** Nothing is left of a string exactly when it is all white space. */
  lemma {:induction false} BlankIffTrimmedAway(s: string)
    ensures Blank(s) <==> Trim(s) == ""
  {
    if s != "" {
      if Space(s[0]) {
        BlankIffTrimmedAway(s[1..]);
        assert forall i :: 0 <= i < |s| - 1 ==> s[1..][i] == s[i + 1];
      } else {
        EndOfTrimmed(s);
      }
    }
  }
}
