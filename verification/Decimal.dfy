/**
 * Exact decimal strings as integer minor units: `toMinorUnits` of ReconciliationPanel.tsx and the
 * server's `decimalToUnits` in src/lib/reconcile.ts.
 */
module Decimal {
  import opened Prelude
  import opened Text

  function Pow10(k: nat): (r: int)
    ensures r >= 1
  {
    if k == 0 then 1 else 10 * Pow10(k - 1)
  }

  /** BigInt of a digit string; the empty string is 0. */
  function Value(s: string): (r: int)
    requires AllDigits(s)
    ensures r >= 0
    decreases |s|
  {
    if s == "" then 0 else 10 * Value(s[..|s| - 1]) + DigitValue(s[|s| - 1])
  }

  function Zeros(k: nat): (r: string)
    ensures |r| == k && AllDigits(r)
  {
    seq(k, _ => '0')
  }

  /** Where the first dot is, or the length. */
  function DotAt(s: string): (i: nat)
    ensures i <= |s| && (i < |s| ==> s[i] == '.') && '.' !in s[..i]
  {
    if s == "" || s[0] == '.' then 0
    else
      assert s[..1 + DotAt(s[1..])] == [s[0]] + s[1..][..DotAt(s[1..])];
      1 + DotAt(s[1..])
  }

  predicate Negative(raw: string) {
    raw != "" && raw[0] == '-'
  }

  function WithoutSign(raw: string): string {
    if Negative(raw) then raw[1..] else raw
  }

  datatype Parts = Parts(negative: bool, whole: string, fraction: string)

  predicate IsDecimal(p: Parts) {
    p.whole != "" && AllDigits(p.whole) && AllDigits(p.fraction)
  }

  /** The pattern: an optional minus, digits, and optionally a dot with at least one digit after it. */
  predicate Matches(raw: string) {
    var body := WithoutSign(raw);
    var dot := DotAt(body);
    && dot > 0 && AllDigits(body[..dot])
    && (dot < |body| ==> dot + 1 < |body| && AllDigits(body[dot + 1..]))
  }

  /** The sign, and what split('.') leaves of the rest. */
  function Parse(raw: string): (r: Option<Parts>)
    ensures r.Some? ==> IsDecimal(r.value)
  {
    var body := WithoutSign(raw);
    var dot := DotAt(body);
    if !Matches(raw) then None
    else Some(Parts(Negative(raw), body[..dot], if dot == |body| then "" else body[dot + 1..]))
  }

  /** The arithmetic of both parsers, for a unit of `unit` and `places` fraction digits. */
  function Units(p: Parts, places: nat, unit: int): Option<int>
    requires IsDecimal(p)
  {
    if |p.fraction| > places then None
    else
      PaddedFraction(p.fraction, places);
      var magnitude := Value(p.whole) * unit + Value((p.fraction + Zeros(places))[..places]);
      Some(if p.negative then -magnitude else magnitude)
  }

  /** toMinorUnits of the panel. */
  function ToMinorUnits(value: string, scale: nat): Option<int> {
    match Parse(Trim(value))
    case None => None
    case Some(p) => Units(p, scale, Pow10(scale))
  }

  lemma PaddedFraction(fraction: string, places: nat)
    requires AllDigits(fraction) && |fraction| <= places
    ensures (fraction + Zeros(places))[..places] == fraction + Zeros(places - |fraction|)
    ensures AllDigits((fraction + Zeros(places))[..places])
  {
  }

  lemma {:induction false} ValueAppend(a: string, b: string)
    requires AllDigits(a) && AllDigits(b)
    ensures AllDigits(a + b) && Value(a + b) == Value(a) * Pow10(|b|) + Value(b)
    decreases |b|
  {
    if b == "" {
      assert a + b == a;
    } else {
      var front := b[..|b| - 1];
      ValueAppend(a, front);
      assert (a + b)[..|a + b| - 1] == a + front;
      Shift(Value(a), Pow10(|front|), Value(front));
    }
  }

  lemma Shift(a: int, p: int, f: int)
    ensures 10 * (a * p + f) == a * (10 * p) + 10 * f
  {
  }

  lemma {:induction false} ZerosAreZero(k: nat)
    ensures Value(Zeros(k)) == 0
  {
    if k > 0 {
      assert Zeros(k)[..k - 1] == Zeros(k - 1);
      ZerosAreZero(k - 1);
    }
  }

  // ----- What is accepted, and as what -----

  /** The whole digits and, unless there is no fraction, a dot and its digits. */
  function Body(p: Parts): string {
    if p.fraction == "" then p.whole else p.whole + ("." + p.fraction)
  }

  /** An optional minus before the body. */
  function Show(p: Parts): string {
    if p.negative then "-" + Body(p) else Body(p)
  }

  /** ±(whole + fraction / 10^|fraction|), times 10^scale, in integers. */
  function Scaled(p: Parts, scale: nat): int
    requires IsDecimal(p) && |p.fraction| <= scale
  {
    var magnitude := Value(p.whole) * Pow10(scale) + Value(p.fraction) * Pow10(scale - |p.fraction|);
    if p.negative then -magnitude else magnitude
  }

  lemma {:induction false} DotAfterDigits(whole: string, rest: string)
    requires AllDigits(whole) && (rest == "" || rest[0] == '.')
    ensures DotAt(whole + rest) == |whole|
  {
    if whole == "" {
      assert whole + rest == rest;
    } else {
      assert (whole + rest)[1..] == whole[1..] + rest;
      DotAfterDigits(whole[1..], rest);
    }
  }

  lemma BodyParts(p: Parts)
    requires IsDecimal(p)
    ensures Body(p) != "" && IsDigit(Body(p)[0])
    ensures DotAt(Body(p)) == |p.whole| && Body(p)[..|p.whole|] == p.whole
    ensures if p.fraction == "" then Body(p) == p.whole else |p.whole| < |Body(p)| && Body(p)[|p.whole| + 1..] == p.fraction
  {
    DotAfterDigits(p.whole, if p.fraction == "" then "" else "." + p.fraction);
    if p.fraction == "" {
      assert p.whole + "" == p.whole;
    }
  }

  lemma SignParts(negative: bool, body: string)
    requires body != "" && body[0] != '-'
    ensures var s := if negative then "-" + body else body;
      Negative(s) == negative && WithoutSign(s) == body
  {
  }

  /** Each decimal is read with its own parts. */
  lemma ShownIsParsed(p: Parts)
    requires IsDecimal(p)
    ensures Parse(Show(p)) == Some(p)
  {
    BodyParts(p);
    SignParts(p.negative, Body(p));
  }

  lemma SplitAtDot(body: string, dot: nat)
    requires dot < |body| && body[dot] == '.'
    ensures body == body[..dot] + ("." + body[dot + 1..])
  {
    assert body[dot..] == "." + body[dot + 1..];
  }

  lemma ParsedIsShown(raw: string)
    requires Matches(raw)
    ensures Show(Parse(raw).value) == raw
  {
    var body := WithoutSign(raw);
    if DotAt(body) < |body| {
      SplitAtDot(body, DotAt(body));
    } else {
      assert body[..|body|] == body;
    }
    assert Body(Parse(raw).value) == body;
    if Negative(raw) {
      assert raw == "-" + raw[1..];
    }
  }

  lemma UnitsAreScaled(p: Parts, scale: nat)
    requires IsDecimal(p)
    ensures Units(p, scale, Pow10(scale)) == if |p.fraction| > scale then None else Some(Scaled(p, scale))
  {
    if |p.fraction| <= scale {
      PaddedFraction(p.fraction, scale);
      ValueAppend(p.fraction, Zeros(scale - |p.fraction|));
      ZerosAreZero(scale - |p.fraction|);
    }
  }

  /** The accepted strings are exactly the decimals with at most `scale` fraction digits, and the result is exact. */
  lemma AcceptsExactlyTheGrammar(value: string, scale: nat, v: int)
    ensures ToMinorUnits(value, scale) == Some(v) <==>
      exists p: Parts :: IsDecimal(p) && Show(p) == Trim(value) && |p.fraction| <= scale && v == Scaled(p, scale)
  {
    if Matches(Trim(value)) {
      ParsedIsShown(Trim(value));
      UnitsAreScaled(Parse(Trim(value)).value, scale);
    }
    forall p: Parts | IsDecimal(p) && Show(p) == Trim(value)
      ensures Parse(Trim(value)) == Some(p)
    {
      ShownIsParsed(p);
    }
  }

  // ----- The fixed-point printer -----

  function Digit(d: int): (c: char)
    requires 0 <= d <= 9
    ensures IsDigit(c) && DigitValue(c) == d
  {
    ('0' as int + d) as char
  }

  /** At least `width` digits of `n`. */
  function Digits(n: nat, width: nat): (r: string)
    ensures AllDigits(r) && |r| >= width
    decreases n, width
  {
    if n == 0 then Zeros(width)
    else
      var front := Digits(n / 10, if width == 0 then 0 else width - 1);
      front + [Digit(n % 10)]
  }

  function Magnitude(n: int): nat {
    if n < 0 then -n else n
  }

  /** toFixed(scale) of `n` minor units. */
  function Print(n: int, scale: nat): string {
    Show(Printed(n, scale))
  }

  function Printed(n: int, scale: nat): (p: Parts)
    ensures IsDecimal(p) && |p.fraction| == scale
  {
    var digits := Digits(Magnitude(n), scale + 1);
    Parts(n < 0, digits[..|digits| - scale], digits[|digits| - scale..])
  }

  lemma {:induction false} DigitsValue(n: nat, width: nat)
    ensures Value(Digits(n, width)) == n
    decreases n
  {
    if n == 0 {
      ZerosAreZero(width);
    } else {
      var w: nat := if width == 0 then 0 else width - 1;
      DigitsValue(n / 10, w);
      var r := Digits(n, width);
      assert r[..|r| - 1] == Digits(n / 10, w);
    }
  }

  lemma TrimmedAlready(s: string)
    requires s != "" && !IsSpace(s[0]) && !IsSpace(s[|s| - 1])
    ensures Trim(s) == s
  {
  }

  lemma ShownIsTrimmed(p: Parts)
    requires IsDecimal(p)
    ensures Trim(Show(p)) == Show(p)
  {
    var s := Show(p);
    var tail := if p.fraction == "" then p.whole else p.fraction;
    assert s[|s| - 1] == tail[|tail| - 1] && IsDigit(tail[|tail| - 1]);
    assert s[0] == (if p.negative then '-' else p.whole[0]) && IsDigit(p.whole[0]);
    TrimmedAlready(s);
  }

  lemma PrintedIsScaled(n: int, scale: nat)
    ensures Scaled(Printed(n, scale), scale) == n
  {
    var digits := Digits(Magnitude(n), scale + 1);
    var p := Printed(n, scale);
    assert digits == p.whole + p.fraction;
    ValueAppend(p.whole, p.fraction);
    DigitsValue(Magnitude(n), scale + 1);
    assert Pow10(scale - |p.fraction|) == 1;
  }

  /** Every integer, at every scale, survives printing and parsing. */
  lemma PrintedIsReadBack(n: int, scale: nat)
    ensures ToMinorUnits(Print(n, scale), scale) == Some(n)
  {
    var p := Printed(n, scale);
    ShownIsTrimmed(p);
    ShownIsParsed(p);
    UnitsAreScaled(p, scale);
    PrintedIsScaled(n, scale);
  }

  // ----- The server's parser -----

  /** decimalPlacesForScu: how often 10 divides down to 1. */
  function Places(scu: int): Option<nat>
    decreases scu
  {
    if scu > 1 && scu % 10 == 0 then
      (match Places(scu / 10) case None => None case Some(k) => Some(k + 1))
    else if scu == 1 then Some(0)
    else None
  }

  lemma {:induction false} PlacesOfPowers(scu: int, k: nat)
    ensures Places(scu) == Some(k) <==> scu == Pow10(k)
    decreases k
  {
    if k > 0 {
      PlacesOfPowers(scu / 10, k - 1);
    }
  }

  method DecimalPlacesForScu(scu: int) returns (places: Option<nat>)
    ensures places == Places(scu)
  {
    var value, count := scu, 0;
    while value > 1 && value % 10 == 0
      invariant Places(scu) == match Places(value) case None => None case Some(k) => Some(k + count)
      decreases value
    {
      value := value / 10;
      count := count + 1;
    }
    places := if value == 1 then Some(count) else None;
  }

  /** decimalToUnits, which does not trim; None stands for its bad_request errors. */
  function DecimalToUnits(value: string, scu: int): Option<int> {
    match (Places(scu), Parse(value))
    case (Some(places), Some(p)) => Units(p, places, scu)
    case _ => None
  }

  /** The server reads what the panel reads, except that it refuses the blanks the panel trims. */
  lemma ServerAgreesIffTrimmed(value: string, scale: nat)
    ensures DecimalToUnits(value, Pow10(scale)) == if Trim(value) == value then ToMinorUnits(value, scale) else None
  {
    PlacesOfPowers(Pow10(scale), scale);
    if Matches(value) {
      ParsedIsShown(value);
      ShownIsTrimmed(Parse(value).value);
    }
  }
}
