/** decimalBRLToMinor: a decimal amount in reais, as text, to int64 centavos. Every int64
    operation of the parser is written with its wrap-around. */
module DecimalAmount {
  import opened Wrappers

  datatype AmountError = EmptyAmount | InvalidAmount | AmountOverflow

  /** Go's int64 arithmetic: the result modulo 2^64, in the signed range. */
  function Wrap(n: int): int {
    (n - MIN_INT64) % 0x1_0000_0000_0000_0000 + MIN_INT64
  }

  // --- strings ------------------------------------------------------------------------

  function TrimLeft(s: string): string {
    if s != [] && IsSpace(s[0]) then TrimLeft(s[1..]) else s
  }

  function TrimRight(s: string): string {
    if s != [] && IsSpace(s[|s| - 1]) then TrimRight(s[..|s| - 1]) else s
  }

  function TrimSpace(s: string): string {
    TrimRight(TrimLeft(s))
  }

  /** strings.Split(s, "."): always at least one part. */
  function SplitDots(s: string): (parts: seq<string>)
    ensures |parts| >= 1
  {
    if s == [] then [[]]
    else
      var rest := SplitDots(s[1..]);
      if s[0] == '.' then [[]] + rest else [[s[0]] + rest[0]] + rest[1..]
  }

  predicate IsDigit(c: char) {
    '0' <= c <= '9'
  }

  predicate AllDigits(s: string) {
    forall i :: 0 <= i < |s| ==> IsDigit(s[i])
  }

  /** The number a string of digits denotes. */
  function Value(s: string): nat
    requires AllDigits(s)
  {
    if s == [] then 0 else 10 * Value(s[..|s| - 1]) + (s[|s| - 1] - '0') as nat
  }

  /** strconv.ParseInt(s, 10, 64): an optional sign, then digits, in range. */
  function ParseInt(s: string): Option<int> {
    if s == "" then None
    else
      var negative := s[0] == '-';
      var body := if negative || s[0] == '+' then s[1..] else s;
      if body == "" || !AllDigits(body) then None
      else
        var magnitude: int := Value(body);
        var n := if negative then -magnitude else magnitude;
        if FitsInt64(n) then Some(n) else None
  }

  // --- the parser ------------------------------------------------------------------------

  function DecimalToMinor(text: string): Result<int, AmountError> {
    var trimmed := TrimSpace(text);
    if trimmed == "" then Err(EmptyAmount)
    else
      var negative := trimmed[0] == '-';
      FromParts(negative, SplitDots(if negative then trimmed[1..] else trimmed))
  }

  function FromParts(negative: bool, parts: seq<string>): Result<int, AmountError>
    requires |parts| >= 1
  {
    if |parts| > 2 || parts[0] == "" then Err(InvalidAmount)
    else if |parts| == 1 then Combine(negative, parts[0], "00")
    else if |parts[1]| == 1 then Combine(negative, parts[0], parts[1] + "0")
    else if |parts[1]| == 2 then Combine(negative, parts[0], parts[1])
    else Err(InvalidAmount)
  }

  function Combine(negative: bool, wholeText: string, fraction: string): Result<int, AmountError> {
    var whole, cents := ParseInt(wholeText), ParseInt(fraction);
    if whole.None? || cents.None? then Err(InvalidAmount)
    else if whole.value > TruncDiv(Wrap(MAX_INT64 - cents.value), 100) then Err(AmountOverflow)
    else
      var minor := Wrap(Wrap(whole.value * 100) + cents.value);
      Ok(if negative then Wrap(-minor) else minor)
  }

  // --- exactness ----------------------------------------------------------------------------

  predicate NoPoint(s: string) {
    forall i :: 0 <= i < |s| ==> s[i] != '.'
  }

  lemma {:induction false} NoPointDoesNotSplit(s: string)
    requires NoPoint(s)
    ensures SplitDots(s) == [s]
  {
    if s != [] {
      NoPointDoesNotSplit(s[1..]);
      assert [s[0]] + s[1..] == s;
    }
  }

  lemma {:induction false} OnePointSplitsInTwo(whole: string, fraction: string)
    requires NoPoint(whole) && NoPoint(fraction)
    ensures SplitDots(whole + "." + fraction) == [whole, fraction]
  {
    var s := whole + "." + fraction;
    if whole == [] {
      NoPointDoesNotSplit(fraction);
      assert s[1..] == fraction;
    } else {
      OnePointSplitsInTwo(whole[1..], fraction);
      assert s[1..] == whole[1..] + "." + fraction;
      assert [s[0]] + whole[1..] == whole;
    }
  }

  lemma {:induction false} TrimLeftOfPadded(pad: string, s: string)
    requires (forall c <- pad :: IsSpace(c)) && s != [] && !IsSpace(s[0])
    ensures TrimLeft(pad + s) == s
  {
    if pad == [] {
      assert pad + s == s;
    } else {
      assert (pad + s)[1..] == pad[1..] + s;
      TrimLeftOfPadded(pad[1..], s);
    }
  }

  lemma {:induction false} TrimRightOfPadded(s: string, pad: string)
    requires (forall c <- pad :: IsSpace(c)) && s != [] && !IsSpace(s[|s| - 1])
    ensures TrimRight(s + pad) == s
  {
    if pad == [] {
      assert s + pad == s;
    } else {
      assert (s + pad)[..|s + pad| - 1] == s + pad[..|pad| - 1];
      TrimRightOfPadded(s, pad[..|pad| - 1]);
    }
  }

  lemma TrimOfPadded(before: string, s: string, after: string)
    requires (forall c <- before + after :: IsSpace(c)) && s != [] && !IsSpace(s[0]) && !IsSpace(s[|s| - 1])
    ensures TrimSpace(before + s + after) == s
  {
    assert before + s + after == before + (s + after);
    assert forall c <- before :: c in before + after;
    assert forall c <- after :: c in before + after;
    TrimLeftOfPadded(before, s + after);
    TrimRightOfPadded(s, after);
  }

  lemma ValueAppend(s: string, c: char)
    requires AllDigits(s) && IsDigit(c)
    ensures AllDigits(s + [c]) && Value(s + [c]) == 10 * Value(s) + (c - '0') as nat
  {
    assert (s + [c])[..|s|] == s;
  }

  lemma TwoDigits(x: char, y: char)
    requires IsDigit(x) && IsDigit(y)
    ensures AllDigits([x]) && Value([x]) == (x - '0') as nat
    ensures AllDigits([x, y]) && Value([x, y]) == 10 * (x - '0') as nat + (y - '0') as nat
  {
    ValueAppend([], x);
    ValueAppend([x], y);
    assert [] + [x] == [x] && [x] + [y] == [x, y];
  }

  /** Optional minus, digits, and optionally a point with one or two digits. */
  datatype Decimal = Decimal(negative: bool, whole: string, fraction: Option<string>)
  {
    predicate WellFormed() {
      && AllDigits(whole) && whole != ""
      && (fraction.Some? ==> AllDigits(fraction.value) && (|fraction.value| == 1 || |fraction.value| == 2))
    }

    function Text(): string {
      (if negative then "-" else "") + whole + (if fraction.Some? then "." + fraction.value else "")
    }

    /** Its exact magnitude in centavos. */
    function Centavos(): nat
      requires WellFormed()
    {
      100 * Value(whole) + Value(Cents())
    }

    /** The fraction padded to two digits. */
    function Cents(): string {
      match fraction
      case None => "00"
      case Some(f) => if |f| == 1 then f + "0" else f
    }

    function Minor(): int
      requires WellFormed()
    {
      var magnitude: int := Centavos();
      if negative then -magnitude else magnitude
    }
  }

  lemma TextParts(d: Decimal)
    requires d.WellFormed()
    ensures d.Text() != "" && (d.Text()[0] == '-' <==> d.negative)
    ensures !IsSpace(d.Text()[0]) && !IsSpace(d.Text()[|d.Text()| - 1])
    ensures SplitDots(if d.negative then d.Text()[1..] else d.Text())
            == if d.fraction.Some? then [d.whole, d.fraction.value] else [d.whole]
  {
    var unsigned := if d.fraction.Some? then d.whole + "." + d.fraction.value else d.whole;
    assert d.Text() == (if d.negative then "-" else "") + unsigned;
    assert unsigned[0] == d.whole[0];
    assert IsDigit(unsigned[|unsigned| - 1]);
    assert d.Text()[|d.Text()| - 1] == unsigned[|unsigned| - 1];
    assert (if d.negative then d.Text()[1..] else d.Text()) == unsigned;
    if d.fraction.Some? {
      OnePointSplitsInTwo(d.whole, d.fraction.value);
    } else {
      NoPointDoesNotSplit(d.whole);
    }
  }

  lemma CentsAreTwoDigits(d: Decimal)
    requires d.WellFormed()
    ensures AllDigits(d.Cents()) && |d.Cents()| == 2 && 0 <= Value(d.Cents()) < 100
    ensures ParseInt(d.Cents()) == Some(Value(d.Cents()))
  {
    var c := d.Cents();
    assert IsDigit(c[0]) && IsDigit(c[1]) && c == [c[0], c[1]];
    TwoDigits(c[0], c[1]);
    ParseIntOfDigits(c);
  }

  lemma ParseIntOfDigits(s: string)
    requires AllDigits(s) && s != ""
    ensures ParseInt(s) == if Value(s) <= MAX_INT64 then Some(Value(s)) else None
  {
    assert IsDigit(s[0]);
  }

  /** The guard refuses exactly the sums out of range, and lets no operation wrap. */
  lemma GuardIsExact(whole: int, cents: int)
    requires 0 <= whole <= MAX_INT64 && 0 <= cents < 100
    ensures whole > TruncDiv(Wrap(MAX_INT64 - cents), 100) <==> 100 * whole + cents > MAX_INT64
    ensures 100 * whole + cents <= MAX_INT64 ==>
              && Wrap(Wrap(whole * 100) + cents) == 100 * whole + cents
              && Wrap(-(100 * whole + cents)) == -(100 * whole + cents)
  {
  }

  lemma CombineIsExact(d: Decimal)
    requires d.WellFormed()
    ensures var r := Combine(d.negative, d.whole, d.Cents());
            if d.Centavos() > MAX_INT64 then r.Err? else r == Ok(d.Minor())
  {
    hide AllDigits, ParseInt, Wrap, TruncDiv;
    ParseIntOfDigits(d.whole);
    CentsAreTwoDigits(d);
    if Value(d.whole) <= MAX_INT64 { GuardIsExact(Value(d.whole), Value(d.Cents())); }
  }

  lemma PartsAreExact(d: Decimal)
    requires d.WellFormed()
    ensures var r := FromParts(d.negative, if d.fraction.Some? then [d.whole, d.fraction.value] else [d.whole]);
            if d.Centavos() > MAX_INT64 then r.Err? else r == Ok(d.Minor())
  {
    CombineIsExact(d);
    hide AllDigits, Combine, Value;
  }

  /** On every decimal amount, with any surrounding white space, the parser returns the exact
      number of centavos, and it errs exactly when the magnitude exceeds 2^63 - 1. */
  lemma ParsesExactly(before: string, d: Decimal, after: string)
    requires d.WellFormed() && forall c <- before + after :: IsSpace(c)
    ensures var r := DecimalToMinor(before + d.Text() + after);
            if d.Centavos() > MAX_INT64 then r.Err? else r == Ok(d.Minor())
  {
    hide FromParts, Value, AllDigits, IsDigit;
    TextParts(d);
    TrimOfPadded(before, d.Text(), after);
    PartsAreExact(d);
  }

  lemma {:induction false} JoinOfSplit(s: string)
    ensures var parts := SplitDots(s);
            && (|parts| == 1 ==> s == parts[0])
            && (|parts| == 2 ==> s == parts[0] + "." + parts[1])
  {
    if s != [] {
      JoinOfSplit(s[1..]);
      assert s == [s[0]] + s[1..];
    }
  }

  lemma UnsignedParsesOnlyDigits(s: string)
    requires ParseInt(s).Some? && '+' !in s && '-' !in s
    ensures AllDigits(s) && s != ""
  {
    assert s[0] in s;
  }

  lemma TrimmedParsesExactly(text: string, d: Decimal)
    requires d.WellFormed() && d.Text() == TrimSpace(text)
    ensures DecimalToMinor(text).Ok? <==> d.Centavos() <= MAX_INT64
  {
    var t := TrimSpace(text);
    TextParts(d);
    assert "" + t + "" == t;
    TrimOfPadded("", t, "");
    assert DecimalToMinor(text) == DecimalToMinor(t);
    ParsesExactly("", d, "");
  }

  /** A sign anywhere but a minus in front, which ParseInt may tolerate in either part. */
  predicate HasInnerSign(t: string) {
    t != "" && (t[0] == '+' || exists i :: 0 < i < |t| && (t[i] == '-' || t[i] == '+'))
  }

  lemma DecimalsHaveNoInnerSign(d: Decimal)
    requires d.WellFormed()
    ensures !HasInnerSign(d.Text())
  {
    var digits := if d.fraction.Some? then d.whole + "." + d.fraction.value else d.whole;
    assert d.Text() == (if d.negative then "-" else "") + digits;
    forall c <- digits ensures c != '-' && c != '+' {
      assert IsDigit(c) || c == '.';
    }
  }

  /** Over all texts: the ones accepted without an inner sign are exactly the decimal amounts in
      range. */
  lemma AcceptsExactlyDecimals(text: string)
    ensures DecimalToMinor(text).Ok? && !HasInnerSign(TrimSpace(text)) <==>
            exists d: Decimal :: d.WellFormed() && d.Text() == TrimSpace(text) && d.Centavos() <= MAX_INT64
  {
    var t := TrimSpace(text);
    if DecimalToMinor(text).Ok? && !HasInnerSign(t) {
      var d := AcceptedIsDecimal(t);
      TrimmedParsesExactly(text, d);
    } else {
      forall d: Decimal | d.WellFormed() && d.Text() == t ensures d.Centavos() > MAX_INT64 {
        TrimmedParsesExactly(text, d);
        DecimalsHaveNoInnerSign(d);
      }
    }
  }

  lemma AcceptedPartsAreDecimal(negative: bool, parts: seq<string>) returns (d: Decimal)
    requires |parts| >= 1 && FromParts(negative, parts).Ok?
    requires '+' !in parts[0] && '-' !in parts[0] && (|parts| > 1 ==> '+' !in parts[1] && '-' !in parts[1])
    ensures |parts| <= 2 && d.WellFormed() && d.negative == negative && d.whole == parts[0]
    ensures d.fraction == if |parts| == 1 then None else Some(parts[1])
  {
    hide Wrap, TruncDiv, Value;
    UnsignedParsesOnlyDigits(parts[0]);
    if |parts| == 1 {
      d := Decimal(negative, parts[0], None);
    } else {
      var f := parts[1];
      UnsignedParsesOnlyDigits(if |f| == 1 then f + "0" else f);
      assert forall i :: 0 <= i < |f| ==> f[i] == (f + "0")[i];
      d := Decimal(negative, parts[0], Some(f));
    }
  }

  lemma AcceptedIsDecimal(t: string) returns (d: Decimal)
    requires t != "" && t[0] != '+' && forall i :: 0 < i < |t| ==> t[i] != '-' && t[i] != '+'
    requires FromParts(t[0] == '-', SplitDots(if t[0] == '-' then t[1..] else t)).Ok?
    ensures d.WellFormed() && d.Text() == t
  {
    hide FromParts, AllDigits, IsDigit, SplitDots;
    var negative := t[0] == '-';
    var body := if negative then t[1..] else t;
    var parts := SplitDots(body);
    assert '-' !in body && '+' !in body;
    JoinOfSplit(body);
    SignFreeParts(body);
    d := AcceptedPartsAreDecimal(negative, parts);
    assert d.Text() == (if negative then "-" else "") + body;
  }

  lemma {:induction false} SignFreeParts(s: string)
    requires '-' !in s && '+' !in s
    ensures forall p <- SplitDots(s) :: '-' !in p && '+' !in p
  {
    if s != [] {
      assert forall c <- s[1..] :: c in s;
      SignFreeParts(s[1..]);
    }
  }

  // --- round trip ------------------------------------------------------------------------------

  function DigitChar(n: nat): char
    requires n < 10
  {
    '0' + n as char
  }

  function NatText(n: nat): string {
    if n < 10 then [DigitChar(n)] else NatText(n / 10) + [DigitChar(n % 10)]
  }

  /** An amount with two decimals, as the provider writes balances. */
  function Printed(minor: int): Decimal {
    var magnitude: nat := if minor < 0 then -minor else minor;
    Decimal(minor < 0, NatText(magnitude / 100), Some([DigitChar(magnitude / 10 % 10), DigitChar(magnitude % 10)]))
  }

  lemma {:induction false} NatTextValue(n: nat)
    ensures AllDigits(NatText(n)) && NatText(n) != "" && Value(NatText(n)) == n
  {
    if n >= 10 {
      NatTextValue(n / 10);
      assert NatText(n)[..|NatText(n)| - 1] == NatText(n / 10);
    } else {
      assert NatText(n)[..0] == [];
    }
  }

  lemma SplitDecimal(n: nat)
    ensures n == 100 * (n / 100) + 10 * (n / 10 % 10) + n % 10
  {
  }

  lemma PrintedIsExact(minor: int)
    ensures Printed(minor).WellFormed() && Printed(minor).Minor() == minor
  {
    var magnitude: nat := if minor < 0 then -minor else minor;
    var whole, tens, ones := magnitude / 100, magnitude / 10 % 10, magnitude % 10;
    SplitDecimal(magnitude);
    NatTextValue(whole);
    TwoDigits(DigitChar(tens), DigitChar(ones));
    hide NatText, Value;
    assert Printed(minor) == Decimal(minor < 0, NatText(whole), Some([DigitChar(tens), DigitChar(ones)]));
  }

  /** Printing an int64 with two decimals and parsing it gives it back, except for the least one,
      whose magnitude is out of range and is refused. */
  lemma ParseOfPrinted(minor: int)
    requires FitsInt64(minor)
    ensures var r := DecimalToMinor(Printed(minor).Text());
            if minor == MIN_INT64 then r.Err? else r == Ok(minor)
  {
    var d := Printed(minor);
    PrintedIsExact(minor);
    assert "" + d.Text() + "" == d.Text();
    ParsesExactly("", d, "");
  }
}
