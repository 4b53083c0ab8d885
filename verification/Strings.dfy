/** Python's str.strip, str.lower and str.upper on the ASCII range. */
module Strings {

  predicate IsSpace(c: char) {
    c == ' ' || c == '\t' || c == '\n' || c == '\r' || c as int == 11 || c as int == 12
  }

  predicate IsAlnum(c: char) {
    '0' <= c <= '9' || 'A' <= c <= 'Z' || 'a' <= c <= 'z'
  }

  function StripLeft(s: string): string {
    if s != "" && IsSpace(s[0]) then StripLeft(s[1..]) else s
  }

  function StripRight(s: string): string {
    if s != "" && IsSpace(s[|s| - 1]) then StripRight(s[..|s| - 1]) else s
  }

  function Strip(s: string): string { StripRight(StripLeft(s)) }

  function LowerChar(c: char): char {
    if 'A' <= c <= 'Z' then c - 'A' + 'a' else c
  }

  function UpperChar(c: char): char {
    if 'a' <= c <= 'z' then c - 'a' + 'A' else c
  }

  function Lower(s: string): string {
    if s == "" then "" else [LowerChar(s[0])] + Lower(s[1..])
  }

  function Upper(s: string): string {
    if s == "" then "" else [UpperChar(s[0])] + Upper(s[1..])
  }

  predicate Trimmed(s: string) {
    s == "" || (!IsSpace(s[0]) && !IsSpace(s[|s| - 1]))
  }

  lemma {:induction false} StripLeftTrims(s: string)
    ensures StripLeft(s) == "" || !IsSpace(StripLeft(s)[0])
  {
    if s != "" && IsSpace(s[0]) {
      StripLeftTrims(s[1..]);
    }
  }

  lemma {:induction false} StripRightTrims(s: string)
    ensures StripRight(s) <= s && (StripRight(s) == "" || !IsSpace(StripRight(s)[|StripRight(s)| - 1]))
  {
    if s != "" && IsSpace(s[|s| - 1]) {
      StripRightTrims(s[..|s| - 1]);
    }
  }

  lemma StripTwice(s: string)
    ensures Strip(Strip(s)) == Strip(s)
  {
    StripLeftTrims(s);
    StripRightTrims(StripLeft(s));
  }

  lemma {:induction false} LowerFacts(s: string)
    ensures |Lower(s)| == |s| && Lower(Lower(s)) == Lower(s)
    ensures forall i :: 0 <= i < |s| ==> Lower(s)[i] == LowerChar(s[i])
  {
    if s != "" {
      LowerFacts(s[1..]);
      assert Lower(s)[1..] == Lower(s[1..]);
    }
  }

  /** What was stripped and lower-cased stays so. */
  lemma CleanedOnce(s: string)
    ensures Lower(Strip(Lower(Strip(s)))) == Lower(Strip(s))
  {
    var t := Strip(s);
    StripLeftTrims(s);
    StripRightTrims(StripLeft(s));
    assert Trimmed(t);
    LowerFacts(t);
    assert Trimmed(Lower(t));
    assert StripRight(StripLeft(Lower(t))) == Lower(t);
  }

  // ----- The characters, one by one -----

  const SMALL: string := "abcdefghijklmnopqrstuvwxyz"
  const CAPITALS: string := "ABCDEFGHIJKLMNOPQRSTUVWXYZ"
  const FIGURES: string := "0123456789"

  lemma SmallAt(i: nat)
    requires i < 26
    ensures SMALL[i] == 'a' + i as char && CAPITALS[i] == 'A' + i as char
  {
  }

  lemma FigureAt(i: nat)
    requires i < 10
    ensures FIGURES[i] == '0' + i as char
  {
  }

  lemma SmallExactly(c: char)
    ensures 'a' <= c <= 'z' <==> c in SMALL
  {
    if 'a' <= c <= 'z' {
      SmallAt((c - 'a') as int);
    } else if i: nat :| i < |SMALL| && SMALL[i] == c {
      SmallAt(i);
    }
  }

  lemma CapitalExactly(c: char)
    ensures 'A' <= c <= 'Z' <==> c in CAPITALS
  {
    if 'A' <= c <= 'Z' {
      SmallAt((c - 'A') as int);
    } else if i: nat :| i < |CAPITALS| && CAPITALS[i] == c {
      SmallAt(i);
    }
  }

  /** Letters and figures. */
  lemma AlnumExactly(c: char)
    ensures IsAlnum(c) <==> c in SMALL || c in CAPITALS || c in FIGURES
  {
    SmallExactly(c);
    CapitalExactly(c);
    if '0' <= c <= '9' {
      FigureAt((c - '0') as int);
    }
    forall i: nat | i < 10 ensures FIGURES[i] == '0' + i as char {
      FigureAt(i);
    }
  }

  /** A capital has the small letter of its place in the alphabet, and the other way round; nothing else changes. */
  lemma CaseExactly(c: char)
    ensures forall i: nat :: i < 26 && c == CAPITALS[i] ==> LowerChar(c) == SMALL[i]
    ensures forall i: nat :: i < 26 && c == SMALL[i] ==> UpperChar(c) == CAPITALS[i]
    ensures c !in CAPITALS ==> LowerChar(c) == c
    ensures c !in SMALL ==> UpperChar(c) == c
  {
    SmallExactly(c);
    CapitalExactly(c);
    forall i: nat | i < 26 ensures SMALL[i] == 'a' + i as char && CAPITALS[i] == 'A' + i as char {
      SmallAt(i);
    }
  }

  /** Blank, tab, line feed, vertical tab, form feed and carriage return. */
  lemma SpaceExactly(c: char)
    ensures IsSpace(c) <==> c in {' ', '\t', '\n', 11 as char, 12 as char, '\r'}
  {
  }

  ghost predicate Blank(s: string) { forall c :: c in s ==> IsSpace(c) }

  lemma {:induction false} LeftBlank(s: string) returns (a: string)
    ensures s == a + StripLeft(s) && Blank(a)
  {
    a := "";
    if s != "" && IsSpace(s[0]) {
      var b := LeftBlank(s[1..]);
      a := [s[0]] + b;
    }
  }

  lemma {:induction false} RightBlank(s: string) returns (b: string)
    ensures s == StripRight(s) + b && Blank(b)
  {
    b := "";
    if s != "" && IsSpace(s[|s| - 1]) {
      var c := RightBlank(s[..|s| - 1]);
      b := c + [s[|s| - 1]];
    }
  }

  /** Stripping drops what is blank before and after, and leaves nothing blank at either end. */
  lemma StripExactly(s: string) returns (a: string, b: string)
    ensures s == a + Strip(s) + b && Blank(a) && Blank(b) && Trimmed(Strip(s))
  {
    a := LeftBlank(s);
    b := RightBlank(StripLeft(s));
    StripLeftTrims(s);
    StripRightTrims(StripLeft(s));
  }
}
