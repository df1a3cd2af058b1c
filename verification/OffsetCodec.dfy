/** The resume offset: a stream sequence number printed in decimal, padded to three digits. */
module OffsetCodec {
  import opened Domain
  import opened Decimal

  datatype OffsetError = ZeroSequence | InvalidOffset(cause: ParseError)

  function Repeat(c: char, n: nat): (s: string)
    ensures |s| == n
  {
    seq(n, _ => c)
  }

  function TrimLeft(s: string, cut: char): string {
    if s != [] && s[0] == cut then TrimLeft(s[1..], cut) else s
  }

  function EncodeOffset(n: nat): string {
    var s := FormatUint(n);
    if |s| < 3 then Repeat('0', 3 - |s|) + s else s
  }

  function DecodeOffset(offset: string): Result<nat, OffsetError> {
    match ParseUint(TrimLeft(offset, '0'))
    case Ok(n) => Ok(n)
    case Err(e) => if TrimLeft(offset, '0') == "" then Err(ZeroSequence) else Err(InvalidOffset(e))
  }

  /** Some character that is not a zero: the offsets that do not denote sequence zero. */
  ghost predicate HasNonZero(s: string) {
    exists i | 0 <= i < |s| :: s[i] != '0'
  }

  lemma {:induction false} TrimKeepsValue(s: string)
    ensures TrimLeft(s, '0') == "" <==> !HasNonZero(s)
    ensures AllDigits(TrimLeft(s, '0')) <==> AllDigits(s)
    ensures AllDigits(s) ==> Value(TrimLeft(s, '0')) == Value(s)
  {
    if s != [] && s[0] == '0' {
      var t := s[1..];
      TrimKeepsValue(t);
      assert s == "0" + t;
      if HasNonZero(s) {
        var i :| 0 <= i < |s| && s[i] != '0';
        assert t[i - 1] != '0';
      }
      if HasNonZero(t) {
        var i :| 0 <= i < |t| && t[i] != '0';
        assert s[i + 1] != '0';
      }
      if AllDigits(t) {
        LeadingZero(t);
      }
      if AllDigits(s) {
        forall i | 0 <= i < |t| ensures IsDigit(t[i]) {
          assert t[i] == s[i + 1];
        }
      }
    }
  }

  lemma {:induction false} TrimKeepsLeading(s: string)
    ensures Value(LeadingDigits(TrimLeft(s, '0'))) == Value(LeadingDigits(s))
  {
    if s != [] && s[0] == '0' {
      TrimKeepsLeading(s[1..]);
      LeadingZero(LeadingDigits(s[1..]));
      assert LeadingDigits(s) == "0" + LeadingDigits(s[1..]);
    }
  }

  /** Decoding accepts exactly the digit strings that denote 1 .. 2^64-1, and returns the
      number they denote. Strings of zeros get their own error; a text whose leading digits are
      already worth 2^64 is out of range, whatever follows them, and every other text refused is
      malformed. */
  lemma DecodeAccepts(s: string)
    ensures DecodeOffset(s).Ok? <==> AllDigits(s) && HasNonZero(s) && Value(s) <= 18_446_744_073_709_551_615
    ensures DecodeOffset(s).Ok? ==> DecodeOffset(s).value == Value(s)
    ensures DecodeOffset(s) == Err(ZeroSequence) <==> forall i | 0 <= i < |s| :: s[i] == '0'
    ensures DecodeOffset(s) == Err(InvalidOffset(Range)) <==> Value(LeadingDigits(s)) > 18_446_744_073_709_551_615
    ensures DecodeOffset(s) == Err(InvalidOffset(Syntax))
            <==> !AllDigits(s) && Value(LeadingDigits(s)) <= 18_446_744_073_709_551_615
  {
    TrimKeepsValue(s);
    TrimKeepsLeading(s);
    AllLeading(s);
    ParseExactly(TrimLeft(s, '0'));
    assert AllDigits("") && Value("") == 0;
    hide ParseUint, LeadingDigits, AllDigits;
  }

  lemma {:induction false} PaddingKeepsValue(k: nat, s: string)
    requires AllDigits(s)
    ensures AllDigits(Repeat('0', k) + s) && Value(Repeat('0', k) + s) == Value(s)
  {
    if k == 0 {
      assert Repeat('0', k) + s == s;
    } else {
      PaddingKeepsValue(k - 1, s);
      assert Repeat('0', k) + s == "0" + (Repeat('0', k - 1) + s);
      LeadingZero(Repeat('0', k - 1) + s);
    }
  }

  lemma EncodeValue(n: nat)
    ensures AllDigits(EncodeOffset(n)) && Value(EncodeOffset(n)) == n
    ensures |EncodeOffset(n)| == if |FormatUint(n)| < 3 then 3 else |FormatUint(n)|
  {
    FormatParses(n);
    if |FormatUint(n)| < 3 {
      PaddingKeepsValue(3 - |FormatUint(n)|, FormatUint(n));
    }
  }

  lemma {:induction false} ZerosAreWorthNothing(s: string)
    requires AllDigits(s) && !HasNonZero(s)
    ensures Value(s) == 0
  {
    if s != [] {
      assert !HasNonZero(Init(s));
      ZerosAreWorthNothing(Init(s));
    }
  }

  /** Every valid sequence number survives the round trip, in the length the wire contract
      allows; sequence zero does not decode. */
  lemma RoundTrip(n: nat)
    requires n <= 18_446_744_073_709_551_615
    ensures DecodeOffset(EncodeOffset(n)) == if n == 0 then Err(ZeroSequence) else Ok(n)
    ensures 3 <= |EncodeOffset(n)| <= 20
  {
    var s := EncodeOffset(n);
    EncodeValue(n);
    DecodeAccepts(s);
    if HasNonZero(s) {
      TrimKeepsValue(s);
      TrimmedIsPositive(s);
    } else {
      ZerosAreWorthNothing(s);
    }
    FormatLength(n, 20);
    TwentyDigits();
  }

  lemma {:induction false} PositiveHead(s: string)
    requires AllDigits(s) && s != [] && s[0] != '0'
    ensures Value(s) >= Pow10(|s| - 1)
  {
    if |s| == 1 {
      assert Init(s) == [];
    } else {
      PositiveHead(Init(s));
    }
  }

  lemma TrimmedIsPositive(s: string)
    requires AllDigits(s) && HasNonZero(s)
    ensures Value(s) > 0
  {
    TrimKeepsValue(s);
    var t := TrimLeft(s, '0');
    TrimHead(s);
    PositiveHead(t);
  }

  lemma {:induction false} TrimHead(s: string)
    ensures TrimLeft(s, '0') != [] ==> TrimLeft(s, '0')[0] != '0'
  {
    if s != [] && s[0] == '0' {
      TrimHead(s[1..]);
    }
  }

  lemma TwentyDigits()
    ensures Pow10(20) == 100_000_000_000_000_000_000
  {
    assert Pow10(5) == 100_000;
    assert Pow10(10) == 10_000_000_000;
    assert Pow10(15) == 1_000_000_000_000_000;
  }

  /** Shorter first, then text order: how clients may compare two opaque offsets. */
  ghost predicate OffsetLess(s: string, t: string) {
    |s| < |t| || (|s| == |t| && LexLess(s, t))
  }

  /** Encoding is injective and monotone: comparing offsets compares sequence numbers. */
  lemma EncodeKeepsOrder(n: nat, m: nat)
    ensures OffsetLess(EncodeOffset(n), EncodeOffset(m)) <==> n < m
    ensures EncodeOffset(n) == EncodeOffset(m) <==> n == m
  {
    var s, t := EncodeOffset(n), EncodeOffset(m);
    EncodeValue(n);
    EncodeValue(m);
    if |s| == |t| {
      LexLessIsValueLess(s, t);
    } else if |s| < |t| {
      ShorterIsSmaller(n, m);
    } else {
      ShorterIsSmaller(m, n);
    }
  }

  lemma ShorterIsSmaller(n: nat, m: nat)
    requires |EncodeOffset(n)| < |EncodeOffset(m)|
    ensures n < m
  {
    EncodeValue(n);
    EncodeValue(m);
    ValueBound(EncodeOffset(n));
    FormatLength(m, |EncodeOffset(n)|);
  }
}
