/** Python's str.strip and slicing, on the ASCII blanks. */
module Text {
  predicate IsSpace(c: char) {
    c in {' ', '\t', '\n', '\r'}
  }

  function StripLeft(s: string): string {
    if s != "" && IsSpace(s[0]) then StripLeft(s[1..]) else s
  }

  function StripRight(s: string): string {
    if s != "" && IsSpace(s[|s| - 1]) then StripRight(s[..|s| - 1]) else s
  }

  function Strip(s: string): string {
    StripRight(StripLeft(s))
  }

  /** Text whose ends are not blank. */
  predicate Trimmed(s: string) {
    s == "" || (!IsSpace(s[0]) && !IsSpace(s[|s| - 1]))
  }

  lemma {:induction false} StripLeftStart(s: string)
    ensures StripLeft(s) == "" || !IsSpace(StripLeft(s)[0])
  {
    if s != "" && IsSpace(s[0]) {
      StripLeftStart(s[1..]);
    }
  }

  lemma {:induction false} StripRightEnd(s: string)
    ensures StripRight(s) <= s
    ensures StripRight(s) == "" || !IsSpace(StripRight(s)[|StripRight(s)| - 1])
    ensures s != "" && !IsSpace(s[0]) ==> StripRight(s) != ""
  {
    if s != "" && IsSpace(s[|s| - 1]) {
      StripRightEnd(s[..|s| - 1]);
    }
  }

  lemma {:induction false} StripTrims(s: string)
    ensures Trimmed(Strip(s))
    ensures Strip(s) == s <==> Trimmed(s)
    ensures s != "" && !IsSpace(s[0]) ==> Strip(s) != ""
  {
    StripLeftStart(s);
    StripRightEnd(StripLeft(s));
    var r := Strip(s);
    assert r != "" ==> r[0] == StripLeft(s)[0];
  }

  ghost predicate OnlyBlanks(s: string) {
    forall i :: 0 <= i < |s| ==> s[i] == ' ' || s[i] == '\t' || s[i] == '\n' || s[i] == '\r'
  }

  lemma {:induction false} StripLeftTakes(s: string) returns (blank: string)
    ensures OnlyBlanks(blank) && s == blank + StripLeft(s)
  {
    if s != "" && IsSpace(s[0]) {
      var more := StripLeftTakes(s[1..]);
      blank := [s[0]] + more;
      assert s == [s[0]] + s[1..];
    } else {
      blank := "";
    }
  }

  lemma {:induction false} StripRightTakes(s: string) returns (blank: string)
    ensures OnlyBlanks(blank) && s == StripRight(s) + blank
  {
    if s != "" && IsSpace(s[|s| - 1]) {
      var more := StripRightTakes(s[..|s| - 1]);
      blank := more + [s[|s| - 1]];
      assert s == s[..|s| - 1] + [s[|s| - 1]];
    } else {
      blank := "";
    }
  }

  /** Stripping takes blanks off both ends, and nothing else, until none is left there. */
  lemma {:induction false} StripExact(s: string)
    ensures exists left, right :: OnlyBlanks(left) && OnlyBlanks(right) && s == left + Strip(s) + right
    ensures var t := Strip(s); t == "" || (!OnlyBlanks(t[..1]) && !OnlyBlanks(t[|t| - 1..]))
  {
    var left := StripLeftTakes(s);
    var right := StripRightTakes(StripLeft(s));
    assert OnlyBlanks(left) && OnlyBlanks(right) && s == left + Strip(s) + right;
    StripTrims(s);
  }

  lemma {:induction false} StripBlank(s: string)
    ensures Strip(s) == "" <==> OnlyBlanks(s)
  {
    StripExact(s);
    var left, right :| OnlyBlanks(left) && OnlyBlanks(right) && s == left + Strip(s) + right;
    hide Strip;
    if Strip(s) != "" {
      assert Strip(s)[0] == s[|left|];
    }
  }

  /** A cut-off text: str.strip() followed by a slice. */
  function Truncate(s: string, limit: nat): string {
    if |s| <= limit then s else s[..limit]
  }

  /** Cutting trimmed text leaves it trimmed unless the cut ends on a blank. */
  lemma {:induction false} TruncateTrimmed(s: string, limit: nat)
    requires limit > 0
    ensures Trimmed(Truncate(Strip(s), limit)) <==> |Strip(s)| <= limit || !IsSpace(Strip(s)[limit - 1])
    ensures Strip(s) != "" ==> Truncate(Strip(s), limit) != "" && !IsSpace(Truncate(Strip(s), limit)[0])
  {
    StripTrims(s);
  }
}
