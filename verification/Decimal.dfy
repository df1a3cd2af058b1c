/** Unsigned decimal printing and parsing, as the standard library functions the offset
    codec and the event identifiers are built on behave. */
module Decimal {
  import opened Domain

  const TWO_64: nat := 0x1_0000_0000_0000_0000

  datatype ParseError = Syntax | Range

  predicate IsDigit(c: char) {
    '0' <= c <= '9'
  }

  predicate AllDigits(s: string) {
    forall i | 0 <= i < |s| :: IsDigit(s[i])
  }

  function Digit(d: nat): char
    requires d < 10
  {
    ('0' as int + d) as char
  }

  function DigitValue(c: char): (d: nat)
    requires IsDigit(c)
  {
    c as int - '0' as int
  }

  function Value(s: string): nat
    requires AllDigits(s)
  {
    if s == [] then 0 else 10 * Value(Init(s)) + DigitValue(Last(s))
  }

  function FormatUint(n: nat): string {
    if n < 10 then [Digit(n)] else FormatUint(n / 10) + [Digit(n % 10)]
  }

  function FormatInt(n: int): string {
    if n < 0 then "-" + FormatUint(-n) else FormatUint(n)
  }

  /** The digits a string starts with. */
  function LeadingDigits(s: string): (d: string)
    ensures AllDigits(d)
  {
    if s == [] || !IsDigit(s[0]) then [] else [s[0]] + LeadingDigits(s[1..])
  }

  /** Parsing reads from left to right and stops at what it meets first: a character that is no
      digit, or a value of 2^64 or more. */
  function Scan(s: string, soFar: nat): Result<nat, ParseError> {
    if s == [] then Ok(soFar)
    else if !IsDigit(s[0]) then Err(Syntax)
    else
      var next := 10 * soFar + DigitValue(s[0]);
      if next >= TWO_64 then Err(Range) else Scan(s[1..], next)
  }

  function ParseUint(s: string): Result<nat, ParseError> {
    if s == [] then Err(Syntax) else Scan(s, 0)
  }

  lemma {:induction false} AllLeading(s: string)
    ensures AllDigits(s) <==> LeadingDigits(s) == s
  {
    if s != [] {
      AllLeading(s[1..]);
      assert s == [s[0]] + s[1..];
    }
  }

  /** The value of digits read from left to right. */
  function ValueFrom(soFar: nat, s: string): (v: nat)
    requires AllDigits(s)
    ensures v >= soFar
    decreases s
  {
    if s == [] then soFar else ValueFrom(10 * soFar + DigitValue(s[0]), s[1..])
  }

  lemma {:induction false} ValueFromLast(soFar: nat, s: string)
    requires AllDigits(s) && s != []
    ensures ValueFrom(soFar, s) == 10 * ValueFrom(soFar, Init(s)) + DigitValue(Last(s))
    decreases s
  {
    var next := 10 * soFar + DigitValue(s[0]);
    if |s| > 1 {
      ValueFromLast(next, s[1..]);
      assert Init(s)[1..] == Init(s[1..]) && Last(s[1..]) == Last(s);
    }
  }

  lemma {:induction false} ValueFromZero(s: string)
    requires AllDigits(s)
    ensures ValueFrom(0, s) == Value(s)
  {
    if s != [] {
      ValueFromLast(0, s);
      ValueFromZero(Init(s));
    }
  }

  lemma {:induction false} ScanExactly(s: string, soFar: nat)
    requires soFar < TWO_64
    ensures Scan(s, soFar) ==
            if ValueFrom(soFar, LeadingDigits(s)) >= TWO_64 then Err(Range)
            else if LeadingDigits(s) != s then Err(Syntax)
            else Ok(ValueFrom(soFar, s))
  {
    if s != [] && IsDigit(s[0]) {
      var next := 10 * soFar + DigitValue(s[0]);
      assert LeadingDigits(s)[1..] == LeadingDigits(s[1..]) && s == [s[0]] + s[1..];
      if next < TWO_64 {
        ScanExactly(s[1..], next);
      }
    }
  }

  /** What parsing says of a text, by values: out of range exactly if its leading digits are worth
      2^64 or more, malformed if that is not so and something follows them or they are none. */
  lemma ParseExactly(s: string)
    ensures ParseUint(s) ==
            if Value(LeadingDigits(s)) >= TWO_64 then Err(Range)
            else if s == [] || !AllDigits(s) then Err(Syntax)
            else Ok(Value(s))
  {
    ScanExactly(s, 0);
    AllLeading(s);
    ValueFromZero(LeadingDigits(s));
  }

  function Pow10(k: nat): (p: nat)
    ensures p >= 1
  {
    if k == 0 then 1 else 10 * Pow10(k - 1)
  }

  lemma {:induction false} FormatParses(n: nat)
    ensures FormatUint(n) != [] && AllDigits(FormatUint(n)) && Value(FormatUint(n)) == n
    ensures FormatUint(n)[0] == '0' <==> n == 0
  {
    var s := FormatUint(n);
    if n < 10 {
      assert Init(s) == [];
    } else {
      FormatParses(n / 10);
      assert Init(s) == FormatUint(n / 10);
    }
  }

  lemma {:induction false} FormatLength(n: nat, k: nat)
    requires k >= 1
    ensures |FormatUint(n)| <= k <==> n < Pow10(k)
  {
    if n >= 10 {
      if k == 1 {
        FormatParses(n / 10);
        assert Pow10(1) == 10 * Pow10(0);
      } else {
        FormatLength(n / 10, k - 1);
      }
    } else {
      assert Pow10(k) == 10 * Pow10(k - 1);
    }
  }

  /** A value needs no more digits than its string has. */
  lemma {:induction false} ValueBound(s: string)
    requires AllDigits(s)
    ensures Value(s) < Pow10(|s|)
  {
    if s != [] {
      ValueBound(Init(s));
    }
  }

  lemma {:induction false} LeadingZero(s: string)
    requires AllDigits(s)
    ensures AllDigits("0" + s) && Value("0" + s) == Value(s)
  {
    var t := "0" + s;
    if s == [] {
      assert Init(t) == [];
    } else {
      assert Init(t) == "0" + Init(s);
      LeadingZero(Init(s));
    }
  }

  /** Order of two strings of the same length: the first position where they differ decides. */
  ghost predicate LexLess(s: string, t: string)
    requires |s| == |t|
  {
    exists i | 0 <= i < |s| :: s[..i] == t[..i] && s[i] < t[i]
  }

  lemma LexLessExtend(p: string, q: string, c: char, d: char)
    requires |p| == |q|
    ensures LexLess(p + [c], q + [d]) <==> LexLess(p, q) || (p == q && c < d)
  {
    var s, t, k := p + [c], q + [d], |p|;
    assert s[..k] == p && t[..k] == q;
    if LexLess(s, t) {
      var i :| 0 <= i < |s| && s[..i] == t[..i] && s[i] < t[i];
      if i < k {
        assert p[..i] == s[..i] && q[..i] == t[..i] && p[i] < q[i];
      }
    }
    if LexLess(p, q) {
      var i :| 0 <= i < |p| && p[..i] == q[..i] && p[i] < q[i];
      assert s[..i] == p[..i] && t[..i] == q[..i] && s[i] < t[i];
    }
  }

  lemma ValueExtend(p: string, c: char)
    requires AllDigits(p) && IsDigit(c)
    ensures AllDigits(p + [c]) && Value(p + [c]) == 10 * Value(p) + DigitValue(c)
  {
    assert Init(p + [c]) == p && Last(p + [c]) == c;
  }

  lemma DigitsSplit(s: string)
    requires s != [] && AllDigits(s)
    ensures AllDigits(Init(s)) && IsDigit(Last(s)) && s == Init(s) + [Last(s)]
  {
  }

  /** For digit strings of one length, comparing text is comparing values. */
  lemma {:induction false} LexLessIsValueLess(s: string, t: string)
    requires |s| == |t| && AllDigits(s) && AllDigits(t)
    ensures LexLess(s, t) <==> Value(s) < Value(t)
    ensures s == t <==> Value(s) == Value(t)
  {
    if s != [] {
      hide AllDigits, Value, LexLess;
      DigitsSplit(s);
      DigitsSplit(t);
      LexLessIsValueLess(Init(s), Init(t));
      LexLessExtend(Init(s), Init(t), Last(s), Last(t));
      ValueExtend(Init(s), Last(s));
      ValueExtend(Init(t), Last(t));
    }
  }
}
