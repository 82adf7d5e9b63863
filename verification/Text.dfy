/** White space in strings, as Go's strings.TrimSpace treats it. */
module Text {
  predicate Space(c: char) {
    || c in {' ', '\t', '\n', '\r', '\U{0B}', '\U{0C}', '\U{85}', '\U{A0}', '\U{1680}', '\U{2028}', '\U{2029}', '\U{202F}', '\U{205F}', '\U{3000}'}
    || '\U{2000}' <= c <= '\U{200A}'
  }

  predicate Blank(s: string) {
    forall i :: 0 <= i < |s| ==> Space(s[i])
  }

  function TrimLeft(s: string): string {
    if |s| > 0 && Space(s[0]) then TrimLeft(s[1..]) else s
  }

  function TrimRight(s: string): string {
    if |s| > 0 && Space(s[|s| - 1]) then TrimRight(s[..|s| - 1]) else s
  }

  function Trim(s: string): string {
    TrimRight(TrimLeft(s))
  }

  lemma {:induction false} TrimLeftEnds(s: string)
    ensures |TrimLeft(s)| == 0 || !Space(TrimLeft(s)[0])
  {
    if |s| > 0 && Space(s[0]) { TrimLeftEnds(s[1..]); }
  }

  /** Trimming on the right keeps the first character, and ends with no space. */
  lemma {:induction false} TrimRightEnds(s: string)
    ensures |TrimRight(s)| == 0 || (|s| > 0 && TrimRight(s)[0] == s[0] && !Space(TrimRight(s)[|TrimRight(s)| - 1]))
  {
    if |s| > 0 && Space(s[|s| - 1]) { TrimRightEnds(s[..|s| - 1]); }
  }

  lemma TrimTwice(s: string)
    ensures Trim(Trim(s)) == Trim(s)
  {
    TrimLeftEnds(s);
    TrimRightEnds(TrimLeft(s));
    var t := Trim(s);
    if |t| > 0 { assert TrimLeft(t) == t && TrimRight(t) == t; }
  }

  lemma {:induction false} TrimLeftBlank(s: string)
    ensures Blank(s) <==> TrimLeft(s) == ""
  {
    if |s| > 0 && Space(s[0]) {
      TrimLeftBlank(s[1..]);
      if Blank(s[1..]) {
        forall i | 0 <= i < |s| ensures Space(s[i]) {
          if i > 0 { assert Space(s[1..][i - 1]); }
        }
      }
    }
  }

  lemma {:induction false} TrimRightBlank(s: string)
    ensures Blank(s) <==> TrimRight(s) == ""
  {
    if |s| > 0 && Space(s[|s| - 1]) {
      TrimRightBlank(s[..|s| - 1]);
      if Blank(s[..|s| - 1]) {
        forall i | 0 <= i < |s| ensures Space(s[i]) {
          if i < |s| - 1 { assert Space(s[..|s| - 1][i]); }
        }
      }
    }
  }

  /** A string is blank exactly when nothing is left of it. */
  lemma BlankTrimsToNothing(s: string)
    ensures Blank(s) <==> Trim(s) == ""
  {
    TrimLeftBlank(s);
    TrimLeftEnds(s);
    TrimRightBlank(TrimLeft(s));
  }
}
