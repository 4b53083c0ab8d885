/** Decimal numerals: how Python prints natural numbers and what its int() reads back. */
module Numerals {
  import opened Options
  import opened Strings

  predicate IsDigit(c: char) { '0' <= c <= '9' }

  predicate AllDigits(s: string) { forall i :: 0 <= i < |s| ==> IsDigit(s[i]) }

  function DigitOf(k: nat): (c: char)
    requires k < 10
    ensures IsDigit(c) && ValueOf(c) == k
  {
    '0' + k as char
  }

  function ValueOf(c: char): (v: nat)
    requires IsDigit(c)
    ensures v < 10
  {
    (c - '0') as int
  }

  /** str(n) */
  function Digits(n: nat): (s: string)
    ensures s != "" && AllDigits(s)
  {
    if n < 10 then [DigitOf(n)] else Digits(n / 10) + [DigitOf(n % 10)]
  }

  /** f"{n:0{width}d}" */
  function Pad(n: nat, width: nat): (s: string)
    ensures s != "" && AllDigits(s) && |s| == if |Digits(n)| < width then width else |Digits(n)|
  {
    if |Digits(n)| >= width then Digits(n)
    else
      assert |Digits(n)| >= 1;
      ['0'] + Pad(n, width - 1)
  }

  /** The digits int() accepts: single underscores may separate them. */
  function ReadDigits(s: string): Option<nat> {
    if s == "" || !IsDigit(s[|s| - 1]) then None
    else
      var last := ValueOf(s[|s| - 1]);
      if |s| == 1 then Some(last)
      else
        var init := if s[|s| - 2] == '_' then s[..|s| - 2] else s[..|s| - 1];
        match ReadDigits(init)
        case None => None
        case Some(v) => Some(10 * v + last)
  }

  /** int(s), None where it raises ValueError. */
  function ReadInt(s: string): Option<int> {
    var t := Strip(s);
    if t != "" && (t[0] == '-' || t[0] == '+') then
      match ReadDigits(t[1..])
      case None => None
      case Some(v) => (var i: int := v; Some(if t[0] == '-' then -i else i))
    else
      match ReadDigits(t)
      case None => None
      case Some(v) => Some(v)
  }

  lemma {:induction false} ReadDigitsOfDigits(n: nat)
    ensures ReadDigits(Digits(n)) == Some(n)
  {
    if n >= 10 {
      ReadDigitsOfDigits(n / 10);
      var s := Digits(n);
      assert s[..|s| - 1] == Digits(n / 10);
    }
  }

  lemma {:induction false} LeadingZero(s: string)
    requires s != "" && AllDigits(s)
    ensures ReadDigits(['0'] + s) == ReadDigits(s) && ReadDigits(s).Some?
  {
    var t := ['0'] + s;
    if |s| == 1 {
      assert t[..|t| - 1] == ['0'];
      assert t[|t| - 1] == s[0];
      assert ReadDigits(['0']) == Some(0);
      assert ReadDigits(t) == Some(10 * 0 + ValueOf(s[0]));
    } else {
      LeadingZero(s[..|s| - 1]);
      assert t[..|t| - 1] == ['0'] + s[..|s| - 1];
    }
  }

  lemma {:induction false} ReadDigitsOfPad(n: nat, width: nat)
    ensures ReadDigits(Pad(n, width)) == Some(n)
  {
    ReadDigitsOfDigits(n);
    if |Digits(n)| < width {
      ReadDigitsOfPad(n, width - 1);
      LeadingZero(Pad(n, width - 1));
    }
  }

  /** What is printed is read back. */
  lemma ReadIntOfPad(n: nat, width: nat)
    ensures ReadInt(Pad(n, width)) == Some(n)
  {
    ReadDigitsOfPad(n, width);
    var s := Pad(n, width);
    assert IsDigit(s[0]) && IsDigit(s[|s| - 1]);
    assert Strip(s) == s;
  }

  lemma ReadIntOfDigits(n: nat)
    ensures ReadInt(Digits(n)) == Some(n)
  {
    ReadIntOfPad(n, 0);
  }

  /** Numerals are told apart by their values. */
  lemma PadIsInjective(a: nat, b: nat, width: nat)
    requires Pad(a, width) == Pad(b, width)
    ensures a == b
  {
    ReadDigitsOfPad(a, width);
    ReadDigitsOfPad(b, width);
  }

  lemma DigitsLength(n: nat)
    ensures n < 10 ==> |Digits(n)| == 1
    ensures 10 <= n < 100 ==> |Digits(n)| == 2
    ensures 100 <= n < 1000 ==> |Digits(n)| == 3
    ensures 1000 <= n < 10000 ==> |Digits(n)| == 4
  {
    if 10 <= n < 10000 {
      DigitsLength(n / 10);
    }
  }

  /** Digits, with single underscores between them. */
  predicate Separated(s: string) {
    && s != "" && IsDigit(s[0]) && IsDigit(s[|s| - 1])
    && (forall i :: 0 <= i < |s| ==> IsDigit(s[i]) || s[i] == '_')
    && (forall i :: 0 < i < |s| ==> IsDigit(s[i - 1]) || IsDigit(s[i]))
  }

  /** The number a text stands for in base ten, whatever is not a digit left out. */
  function ValueOfDigits(s: string): nat {
    if s == "" then 0
    else if IsDigit(s[|s| - 1]) then 10 * ValueOfDigits(s[..|s| - 1]) + ValueOf(s[|s| - 1])
    else ValueOfDigits(s[..|s| - 1])
  }

  /** Exactly the separated digits are read, and as the number that they stand for without the underscores. */
  lemma {:induction false} ReadDigitsExactly(s: string)
    ensures ReadDigits(s) == if Separated(s) then Some(ValueOfDigits(s)) else None
  {
    if |s| == 1 {
      assert s[..0] == "";
    } else if |s| >= 2 && IsDigit(s[|s| - 1]) {
      var shorter := s[..|s| - 1];
      if s[|s| - 2] == '_' {
        var init := s[..|s| - 2];
        ReadDigitsExactly(init);
        assert shorter[..|s| - 2] == init;
        SeparatedStep(s, init);
      } else {
        ReadDigitsExactly(shorter);
        SeparatedStep(s, shorter);
      }
    }
  }

  lemma SeparatedStep(s: string, init: string)
    requires |s| >= 2 && IsDigit(s[|s| - 1])
    requires init == s[..if s[|s| - 2] == '_' then |s| - 2 else |s| - 1]
    ensures Separated(s) <==> Separated(init)
  {
    if Separated(s) {
      assert s[|s| - 2] == '_' ==> |s| >= 3 && IsDigit(s[|s| - 3]);
    }
  }

  /** int(): a number with at most one sign, whatever white space is around it. */
  lemma ReadIntExactly(s: string, n: int)
    ensures ReadInt(s) == Some(n) <==>
            || (Separated(Strip(s)) && n == ValueOfDigits(Strip(s)))
            || (Strip(s) != "" && Strip(s)[0] == '+' && Separated(Strip(s)[1..]) && n == ValueOfDigits(Strip(s)[1..]))
            || (Strip(s) != "" && Strip(s)[0] == '-' && Separated(Strip(s)[1..]) && -n == ValueOfDigits(Strip(s)[1..]))
  {
    ReadDigitsExactly(Strip(s));
    if Strip(s) != "" {
      ReadDigitsExactly(Strip(s)[1..]);
    }
  }
}
