/** The texts decimalBRLToMinor accepts beyond plain decimal amounts: ParseInt takes a sign of its own
    in the whole part and in the fraction. */
module SignedAmounts {
  import opened Wrappers
  import opened DecimalAmount

  /** An optional sign and digits. */
  predicate IsInteger(s: string) {
    s != "" && Digits(s) != "" && AllDigits(Digits(s))
  }

  function Digits(s: string): string
    requires s != ""
  {
    if s[0] == '-' || s[0] == '+' then s[1..] else s
  }

  function Number(s: string): int
    requires IsInteger(s)
  {
    var magnitude: int := Value(Digits(s));
    if s[0] == '-' then -magnitude else magnitude
  }

  /** Whole parts at most this large pass the overflow guard when the fraction is negative, because
      the subtraction in the guard wraps around. */
  const LOWEST: int := -92_233_720_368_547_758

  /** Optional minus, an integer with a sign of its own, and optionally a point with one or two
      characters that are an integer once padded to two. */
  datatype SignedAmount = SignedAmount(negative: bool, whole: string, fraction: Option<string>)
  {
    predicate WellFormed() {
      && IsInteger(whole) && (!negative ==> whole[0] != '-')
      && (fraction.Some? ==> (|fraction.value| == 1 || |fraction.value| == 2) && NoPoint(fraction.value))
      && IsInteger(Cents())
    }

    function Cents(): string {
      match fraction
      case None => "00"
      case Some(f) => if |f| == 1 then f + "0" else f
    }

    function Unsigned(): string {
      whole + if fraction.Some? then "." + fraction.value else ""
    }

    function Text(): string {
      (if negative then "-" else "") + Unsigned()
    }

    function Parts(): seq<string> {
      if fraction.Some? then [whole, fraction.value] else [whole]
    }

    /** The exact number of centavos it denotes. */
    function Minor(): int
      requires WellFormed()
    {
      var n := 100 * Number(whole) + Number(Cents());
      if negative then -n else n
    }

    /** The whole part fits an int64 and passes the overflow guard. */
    predicate Admitted()
      requires WellFormed()
    {
      && FitsInt64(Number(whole))
      && if Number(Cents()) >= 0 then 100 * Number(whole) + Number(Cents()) <= MAX_INT64 else Number(whole) <= LOWEST
    }
  }

  // --- the parser on the parts ----------------------------------------------------------------

  lemma ParsesIntegers(s: string)
    ensures ParseInt(s).Some? <==> IsInteger(s) && FitsInt64(Number(s))
    ensures ParseInt(s).Some? ==> ParseInt(s).value == Number(s)
  {
  }

  lemma CentsAreSmall(s: string)
    requires IsInteger(s) && |s| == 2
    ensures -9 <= Number(s) <= 99 && ParseInt(s) == Some(Number(s))
  {
    var digits := Digits(s);
    if |digits| == 1 {
      assert digits == [digits[0]];
      TwoDigits(digits[0], digits[0]);
    } else {
      assert digits == [digits[0], digits[1]];
      TwoDigits(digits[0], digits[1]);
    }
    ParsesIntegers(s);
  }

  /** The guard with all its wrap-arounds, and the sum modulo 2^64. */
  lemma GuardAndSum(whole: int, cents: int)
    requires FitsInt64(whole) && -9 <= cents <= 99
    ensures whole <= TruncDiv(Wrap(MAX_INT64 - cents), 100) <==>
              if cents >= 0 then 100 * whole + cents <= MAX_INT64 else whole <= LOWEST
    ensures Wrap(Wrap(whole * 100) + cents) == Wrap(100 * whole + cents)
  {
    WrapAdds(whole * 100, cents);
  }

  lemma WrapAdds(n: int, k: int)
    ensures Wrap(Wrap(n) + k) == Wrap(n + k)
  {
    WrapIsShift(n);
    var turns :| Wrap(n) == n + turns * 0x1_0000_0000_0000_0000;
    WrapShifts(n + k, turns);
  }

  lemma WrapNegates(n: int)
    ensures Wrap(-Wrap(n)) == Wrap(-n)
  {
    WrapIsShift(n);
    var turns :| Wrap(n) == n + turns * 0x1_0000_0000_0000_0000;
    WrapShifts(-n, -turns);
  }

  lemma WrapIsShift(n: int)
    ensures exists turns: int :: Wrap(n) == n + turns * 0x1_0000_0000_0000_0000
  {
    var m := n - MIN_INT64;
    assert Wrap(n) == n + (-(m / 0x1_0000_0000_0000_0000)) * 0x1_0000_0000_0000_0000;
  }

  lemma {:induction false} WrapShifts(n: int, turns: int)
    ensures Wrap(n + turns * 0x1_0000_0000_0000_0000) == Wrap(n)
    decreases if turns < 0 then -turns else turns
  {
    if turns > 0 { WrapShifts(n, turns - 1); }
    if turns < 0 { WrapShifts(n, turns + 1); }
  }

  lemma CombineSigned(d: SignedAmount)
    requires d.WellFormed()
    ensures var r := Combine(d.negative, d.whole, d.Cents());
            if d.Admitted() then r == Ok(Wrap(d.Minor())) else r.Err?
  {
    ParsesIntegers(d.whole);
    assert |d.Cents()| == 2;
    CentsAreSmall(d.Cents());
    hide ParseInt, IsInteger, Wrap, TruncDiv;
    if FitsInt64(Number(d.whole)) {
      GuardAndSum(Number(d.whole), Number(d.Cents()));
      WrapNegates(100 * Number(d.whole) + Number(d.Cents()));
    }
  }

  lemma IntegersHaveNoPoint(s: string)
    requires IsInteger(s)
    ensures NoPoint(s)
  {
    forall i | 0 <= i < |s| ensures s[i] != '.' {
      if i > 0 && Digits(s) != s { assert s[i] == Digits(s)[i - 1]; }
    }
  }

  lemma SignedParts(d: SignedAmount)
    requires d.WellFormed()
    ensures d.Text() != "" && (d.Text()[0] == '-' <==> d.negative)
    ensures (if d.negative then d.Text()[1..] else d.Text()) == d.Unsigned()
    ensures SplitDots(d.Unsigned()) == d.Parts()
  {
    IntegersHaveNoPoint(d.whole);
    assert d.Unsigned()[0] == d.whole[0];
    if d.fraction.Some? {
      OnePointSplitsInTwo(d.whole, d.fraction.value);
      assert d.Unsigned() == d.whole + "." + d.fraction.value;
    } else {
      NoPointDoesNotSplit(d.whole);
      assert d.Unsigned() == d.whole;
    }
  }

  /** What the parser returns on every signed amount: its centavos modulo 2^64. */
  lemma SignedParses(text: string, d: SignedAmount)
    requires d.WellFormed() && d.Text() == TrimSpace(text)
    ensures if d.Admitted() then DecimalToMinor(text) == Ok(Wrap(d.Minor())) else DecimalToMinor(text).Err?
  {
    SignedParts(d);
    CombineSigned(d);
    hide IsInteger, Combine, SplitDots;
    assert FromParts(d.negative, d.Parts()) == Combine(d.negative, d.whole, d.Cents());
  }

  /** The parts that the parser accepts, put back together. */
  lemma PartsAreSigned(negative: bool, parts: seq<string>) returns (d: SignedAmount)
    requires |parts| >= 1 && FromParts(negative, parts).Ok? && forall i :: 0 <= i < |parts| ==> NoPoint(parts[i])
    requires !negative && parts[0] != "" ==> parts[0][0] != '-'
    ensures d.WellFormed() && d.negative == negative && d.Parts() == parts
  {
    hide Wrap, TruncDiv, ParseInt, NoPoint;
    ParsesIntegers(parts[0]);
    if |parts| == 1 {
      d := SignedAmount(negative, parts[0], None);
      ParsesIntegers("00");
    } else {
      d := SignedAmount(negative, parts[0], Some(parts[1]));
      ParsesIntegers(d.Cents());
    }
    hide IsInteger;
  }

  lemma AcceptedParts(negative: bool, body: string)
    requires FromParts(negative, SplitDots(body)).Ok?
    ensures var parts := SplitDots(body);
            && |parts| <= 2 && parts[0] != "" && body != "" && body[0] == parts[0][0]
            && body == parts[0] + if |parts| == 2 then "." + parts[1] else ""
  {
    hide Combine;
    JoinOfSplit(body);
    hide SplitDots;
  }

  lemma AcceptedBody(negative: bool, body: string) returns (d: SignedAmount)
    requires FromParts(negative, SplitDots(body)).Ok? && (!negative ==> body == "" || body[0] != '-')
    ensures d.WellFormed() && d.negative == negative && d.Unsigned() == body
  {
    AcceptedParts(negative, body);
    NoPointsInside(body);
    hide FromParts, SplitDots, NoPoint, IsInteger;
    d := PartsAreSigned(negative, SplitDots(body));
  }

  lemma AcceptedIsSigned(t: string) returns (d: SignedAmount)
    requires t != "" && FromParts(t[0] == '-', SplitDots(if t[0] == '-' then t[1..] else t)).Ok?
    ensures d.WellFormed() && d.Text() == t
  {
    hide FromParts, SplitDots, NoPoint, IsInteger;
    d := AcceptedBody(t[0] == '-', if t[0] == '-' then t[1..] else t);
  }

  lemma {:induction false} NoPointsInside(s: string)
    ensures forall i :: 0 <= i < |SplitDots(s)| ==> NoPoint(SplitDots(s)[i])
  {
    if s != [] {
      NoPointsInside(s[1..]);
      var parts, rest := SplitDots(s), SplitDots(s[1..]);
      forall i | 0 <= i < |parts| ensures NoPoint(parts[i]) {
        if i > 0 { assert parts[i] == if s[0] == '.' then rest[i - 1] else rest[i]; }
      }
    }
  }

  // --- the exact set ---------------------------------------------------------------------------

  /** Over all texts, the parser accepts exactly the signed amounts that pass its guard. */
  lemma AcceptsExactlySignedAmounts(text: string)
    ensures DecimalToMinor(text).Ok? <==>
              exists d: SignedAmount :: d.WellFormed() && d.Text() == TrimSpace(text) && d.Admitted()
  {
    if DecimalToMinor(text).Ok? {
      var d := AcceptedIsSigned(TrimSpace(text));
      SignedParses(text, d);
    } else {
      forall d: SignedAmount | d.WellFormed() && d.Text() == TrimSpace(text) ensures !d.Admitted() {
        SignedParses(text, d);
      }
    }
  }

  lemma WrapIsExactInRange(n: int)
    ensures Wrap(n) == n <==> FitsInt64(n)
  {
  }

  /** An accepted text gives the amount it denotes if and only if that amount fits an int64. */
  lemma ResultIsExactExactlyInRange(text: string, d: SignedAmount)
    requires d.WellFormed() && d.Text() == TrimSpace(text) && d.Admitted()
    ensures DecimalToMinor(text).Ok?
    ensures DecimalToMinor(text).value == d.Minor() <==> FitsInt64(d.Minor())
  {
    SignedParses(text, d);
    WrapIsExactInRange(d.Minor());
    hide Wrap, IsInteger, Number, DecimalToMinor;
  }

  lemma TwoMinuses(digits: string) returns (d: SignedAmount)
    requires AllDigits(digits) && digits != ""
    ensures d.WellFormed() && d.Cents() == "00" && Number(d.Cents()) == 0 && Number(d.whole) + Value(digits) == 0
    ensures d.negative && d.Text() == "--" + digits && TrimSpace(d.Text()) == d.Text()
  {
    d := SignedAmount(true, "-" + digits, None);
    assert Digits(d.whole) == digits;
    ZeroCents();
    var t := d.Text();
    assert t == "--" + digits && t[|t| - 1] == digits[|digits| - 1] && IsDigit(t[|t| - 1]);
    assert "" + t + "" == t;
    TrimOfPadded("", t, "");
  }

  /** Out of range is reached: a text with a second minus gets past the guard, and its sum wraps. */
  lemma ASecondMinusCanWrap() returns (d: SignedAmount)
    ensures d.WellFormed() && d.Admitted()
    ensures DecimalToMinor(d.Text()).Ok? && DecimalToMinor(d.Text()).value != d.Minor()
  {
    var n := 92_233_720_368_547_759;
    NatTextValue(n);
    var digits := NatText(n);
    hide NatText, Value, IsInteger, Number, TrimSpace, DecimalToMinor;
    d := TwoMinuses(digits);
    ResultIsExactExactlyInRange(d.Text(), d);
  }

  lemma ZeroCents()
    ensures IsInteger("00") && Number("00") == 0
  {
    TwoDigits('0', '0');
    assert Digits("00") == ['0', '0'];
  }
}
