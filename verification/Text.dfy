/** Trimming of strings. */
module Text {
  /** White space and line terminators of ECMAScript. */
  predicate IsSpace(c: char) {
    || c == '\t' || c == '\n' || c == '\U{0B}' || c == '\U{0C}' || c == '\r' || c == ' '
    || c == '\U{A0}' || c == '\U{1680}' || '\U{2000}' <= c <= '\U{200A}'
    || c == '\U{2028}' || c == '\U{2029}' || c == '\U{202F}' || c == '\U{205F}' || c == '\U{3000}' || c == '\U{FEFF}'
  }

  function TrimStart(s: string): string {
    if s != "" && IsSpace(s[0]) then TrimStart(s[1..]) else s
  }

  function TrimEnd(s: string): string {
    if s != "" && IsSpace(s[|s| - 1]) then TrimEnd(s[..|s| - 1]) else s
  }

  function Trim(s: string): string {
    TrimEnd(TrimStart(s))
  }

  predicate IsTrimmed(s: string) {
    s == "" || (!IsSpace(s[0]) && !IsSpace(s[|s| - 1]))
  }

  lemma {:induction false} TrimEndTrims(s: string)
    requires s == "" || !IsSpace(s[0])
    ensures IsTrimmed(TrimEnd(s))
    ensures IsTrimmed(s) ==> TrimEnd(s) == s
    decreases |s|
  {
    if s != "" && IsSpace(s[|s| - 1]) {
      TrimEndTrims(s[..|s| - 1]);
    }
  }

  lemma {:induction false} TrimStartTrims(s: string)
    ensures TrimStart(s) == "" || !IsSpace(TrimStart(s)[0])
    decreases |s|
  {
    if s != "" && IsSpace(s[0]) {
      TrimStartTrims(s[1..]);
    }
  }

  /** Trimming leaves no white space at either end, and leaves trimmed strings alone. */
  lemma TrimTrims(s: string)
    ensures IsTrimmed(Trim(s))
    ensures IsTrimmed(s) ==> Trim(s) == s
  {
    TrimStartTrims(s);
    TrimEndTrims(TrimStart(s));
  }

  /** The white space and line terminators by number: sections 12.2 and 12.3 of the ECMAScript language specification. */
  lemma SpacesByNumber(c: char)
    ensures IsSpace(c) <==>
              var n := c as int;
              || 9 <= n <= 13 || n == 32 || n == 160 || n == 5760 || 8192 <= n <= 8202
              || n in {8232, 8233, 8239, 8287, 12288, 65279}
  {
  }

  predicate AreSpaces(s: string) {
    forall i :: 0 <= i < |s| ==> IsSpace(s[i])
  }

  lemma {:induction false} StartIsSpace(s: string) returns (n: nat)
    ensures n <= |s| && TrimStart(s) == s[n..] && AreSpaces(s[..n])
    decreases |s|
  {
    n := 0;
    if s != "" && IsSpace(s[0]) {
      var m := StartIsSpace(s[1..]);
      n := m + 1;
      assert s[..n] == [s[0]] + s[1..][..m];
    }
  }

  lemma {:induction false} EndIsSpace(s: string) returns (n: nat)
    ensures n <= |s| && TrimEnd(s) == s[..n] && AreSpaces(s[n..])
    decreases |s|
  {
    n := |s|;
    if s != "" && IsSpace(s[|s| - 1]) {
      n := EndIsSpace(s[..|s| - 1]);
      assert s[n..] == s[..|s| - 1][n..] + [s[|s| - 1]];
    }
  }

  /** Nothing but white space is trimmed, and that at the ends. */
  lemma TrimTakesSpaces(s: string) returns (front: string, back: string)
    ensures s == front + Trim(s) + back && AreSpaces(front) && AreSpaces(back)
  {
    var n := StartIsSpace(s);
    var m := EndIsSpace(TrimStart(s));
    front, back := s[..n], s[n..][m..];
  }

  /** A string is trimmed to nothing exactly if there is nothing but white space in it. */
  lemma TrimmedToNothing(s: string)
    ensures Trim(s) == "" <==> AreSpaces(s)
  {
    var front, back := TrimTakesSpaces(s);
    TrimTrims(s);
    if AreSpaces(s) {
      forall i | 0 <= i < |Trim(s)| ensures IsSpace(Trim(s)[i]) { assert s[|front| + i] == Trim(s)[i]; }
    } else {
      assert AreSpaces(front + back);
      assert Trim(s) == "" ==> s == front + back;
    }
  }
}
