/** JSON numbers: how a finite number prints, and how its text is read back. */
module JsonNumber {
  import opened Outcomes
  import opened JsonText

  type Digit = d: int | 0 <= d < 10

  const PLUS: CodeUnit := 43
  const MINUS: CodeUnit := 45
  const POINT: CodeUnit := 46
  const EXPONENT: CodeUnit := 101

  /**
   * A JavaScript number. A finite non-zero one is given by its shortest round-trip
   * decimal digits: 0.d1 d2 ... dk times ten to the power `point`.
   */
  datatype Number =
    | Zero(negative: bool)
    | Decimal(negative: bool, digits: seq<Digit>, point: int)
    | Infinity(negative: bool)
    | NaN
  {
    predicate IsFinite() {
      Zero? || Decimal?
    }

    predicate Valid() {
      Decimal? ==> Trimmed(digits) && digits != []
    }
  }

  /** The quantity a number stands for: both zeros are the empty digit sequence. */
  datatype Quantity = Quantity(negative: bool, digits: seq<Digit>, point: int)

  const Nought := Quantity(false, [], 0)

  /** The parts of a JSON number (RFC 8259, section 6). */
  datatype Shape = Shape(negative: bool, whole: seq<Digit>, fraction: seq<Digit>, exponent: Option<int>)

  predicate Trimmed(digits: seq<Digit>) {
    digits != [] ==> digits[0] != 0 && digits[|digits| - 1] != 0
  }

  function Magnitude(x: Number): Quantity
    requires x.IsFinite()
  {
    match x
    case Zero(_) => Nought
    case Decimal(negative, digits, point) => Quantity(negative, digits, point)
  }

  function Zeros(n: nat): (z: seq<Digit>)
    ensures |z| == n
  {
    if n == 0 then [] else [0] + Zeros(n - 1)
  }

  // ----- Printing -----

  /** ECMAScript Number::toString, radix 10: where the point goes and when an exponent is used. */
  function ShapeOf(x: Number): Shape
    requires x.IsFinite() && x.Valid()
  {
    match x
    case Zero(_) => Shape(false, [0], [], None)
    case Decimal(negative, digits, point) =>
      if |digits| <= point <= 21 then Shape(negative, digits + Zeros(point - |digits|), [], None)
      else if 0 < point <= 21 then Shape(negative, digits[..point], digits[point..], None)
      else if -6 < point <= 0 then Shape(negative, [0], Zeros(-point) + digits, None)
      else Shape(negative, digits[..1], digits[1..], Some(point - 1))
  }

  function DigitCharacter(d: Digit): CodeUnit {
    var code: int := d;
    48 + code
  }

  function Characters(digits: seq<Digit>): Text {
    if digits == [] then [] else [DigitCharacter(digits[0])] + Characters(digits[1..])
  }

  function Decimals(n: nat): seq<Digit> {
    if n < 10 then [n] else Decimals(n / 10) + [n % 10]
  }

  function RenderFraction(fraction: seq<Digit>): Text {
    if fraction == [] then [] else [POINT] + Characters(fraction)
  }

  function RenderExponent(exponent: Option<int>): Text {
    match exponent
    case None => []
    case Some(e) => [EXPONENT, if e < 0 then MINUS else PLUS] + Characters(Decimals(if e < 0 then -e else e))
  }

  function Unsigned(s: Shape): Text {
    Characters(s.whole) + (RenderFraction(s.fraction) + RenderExponent(s.exponent))
  }

  function Render(s: Shape): Text {
    (if s.negative then [MINUS] else []) + Unsigned(s)
  }

  function Print(x: Number): Text
    requires x.IsFinite() && x.Valid()
  {
    Render(ShapeOf(x))
  }

  // ----- Reading -----

  predicate IsDigit(u: CodeUnit) { 48 <= u < 58 }

  /** Text after a number: nothing that could continue it. */
  predicate EndsNumber(rest: Text) {
    rest == [] || (!IsDigit(rest[0]) && rest[0] != POINT && rest[0] != EXPONENT)
  }

  function ReadDigits(t: Text): (r: Parsed<seq<Digit>>)
    ensures |r.value| + |r.rest| == |t|
  {
    if t == [] || !IsDigit(t[0]) then Parsed([], t)
    else
      var more := ReadDigits(t[1..]);
      Parsed([t[0] - 48] + more.value, more.rest)
  }

  function NatOf(digits: seq<Digit>): nat {
    if digits == [] then 0 else NatOf(digits[..|digits| - 1]) * 10 + digits[|digits| - 1]
  }

  function ReadFraction(t: Text): (r: Option<Parsed<seq<Digit>>>)
    ensures r.Some? ==> |r.value.rest| <= |t|
  {
    if t == [] || t[0] != POINT then Some(Parsed([], t))
    else
      var digits := ReadDigits(t[1..]);
      if digits.value == [] then None else Some(digits)
  }

  function ReadExponent(t: Text): (r: Option<Parsed<Option<int>>>)
    ensures r.Some? ==> |r.value.rest| <= |t|
  {
    if t == [] || t[0] != EXPONENT then Some(Parsed(Option.None, t))
    else
      var signed := |t| > 1 && (t[1] == PLUS || t[1] == MINUS);
      var digits := ReadDigits(if signed then t[2..] else t[1..]);
      if digits.value == [] then None
      else
        var e: int := NatOf(digits.value);
        Some(Parsed(Some(if signed && t[1] == MINUS then -e else e), digits.rest))
  }

  function ReadUnsigned(negative: bool, t: Text): (r: Option<Parsed<Shape>>)
    ensures r.Some? ==> |r.value.rest| < |t|
  {
    var whole := ReadDigits(t);
    if whole.value == [] || (|whole.value| > 1 && whole.value[0] == 0) then None
    else
      match ReadFraction(whole.rest)
      case None => None
      case Some(fraction) =>
        match ReadExponent(fraction.rest)
        case None => None
        case Some(exponent) =>
          Some(Parsed(Shape(negative, whole.value, fraction.value, exponent.value), exponent.rest))
  }

  function ReadShape(t: Text): (r: Option<Parsed<Shape>>)
    ensures r.Some? ==> |r.value.rest| < |t|
  {
    if t != [] && t[0] == MINUS then ReadUnsigned(true, t[1..]) else ReadUnsigned(false, t)
  }

  /** Drops leading and trailing zeros; each leading one moves the point. */
  function Normalize(negative: bool, digits: seq<Digit>, point: int): Quantity
    decreases |digits|
  {
    if digits == [] then Nought
    else if digits[0] == 0 then Normalize(negative, digits[1..], point - 1)
    else if digits[|digits| - 1] == 0 then Normalize(negative, digits[..|digits| - 1], point)
    else Quantity(negative, digits, point)
  }

  function QuantityOf(s: Shape): Quantity {
    Normalize(s.negative, s.whole + s.fraction,
              |s.whole| + (match s.exponent case None => 0 case Some(e) => e))
  }

  function ParseNumber(t: Text): (r: Option<Parsed<Quantity>>)
    ensures r.Some? ==> |r.value.rest| < |t|
  {
    match ReadShape(t)
    case None => None
    case Some(shape) => Some(Parsed(QuantityOf(shape.value), shape.rest))
  }

  // ----- Reading recovers what was printed -----

  lemma {:induction false} ReadCharacters(digits: seq<Digit>, rest: Text)
    requires rest == [] || !IsDigit(rest[0])
    ensures ReadDigits(Characters(digits) + rest) == Parsed(digits, rest)
  {
    if digits == [] {
      assert Characters(digits) + rest == rest;
    } else {
      ReadCharacters(digits[1..], rest);
      Prefixed(DigitCharacter(digits[0]), Characters(digits[1..]), rest);
      ReadOneDigit(digits, rest, Characters(digits) + rest);
    }
  }

  lemma ReadOneDigit(digits: seq<Digit>, rest: Text, t: Text)
    requires digits != [] && t != [] && t[0] == DigitCharacter(digits[0])
    requires ReadDigits(t[1..]) == Parsed(digits[1..], rest)
    ensures ReadDigits(t) == Parsed(digits, rest)
  {
    assert digits == [digits[0]] + digits[1..];
  }

  lemma {:induction false} NatOfDecimals(n: nat)
    ensures Decimals(n) != [] && NatOf(Decimals(n)) == n
  {
    if n >= 10 {
      NatOfDecimals(n / 10);
      var d := Decimals(n);
      assert d[..|d| - 1] == Decimals(n / 10);
    }
  }

  lemma SignedExponent(sign: CodeUnit, digits: Text, rest: Text)
    ensures var t := [EXPONENT, sign] + digits + rest;
            |t| >= 2 && t[0] == EXPONENT && t[1] == sign && t[2..] == digits + rest
  {
  }

  lemma ReadRenderedExponent(exponent: Option<int>, rest: Text)
    requires EndsNumber(rest)
    ensures ReadExponent(RenderExponent(exponent) + rest) == Some(Parsed(exponent, rest))
  {
    if exponent.None? {
      assert RenderExponent(exponent) + rest == rest;
    } else {
      var n: nat := if exponent.value < 0 then -exponent.value else exponent.value;
      NatOfDecimals(n);
      ReadCharacters(Decimals(n), rest);
      var sign := if exponent.value < 0 then MINUS else PLUS;
      var t := RenderExponent(exponent) + rest;
      SignedExponent(sign, Characters(Decimals(n)), rest);
      assert t == [EXPONENT, sign] + Characters(Decimals(n)) + rest;
    }
  }

  lemma ReadRenderedFraction(fraction: seq<Digit>, rest: Text)
    requires rest == [] || (!IsDigit(rest[0]) && rest[0] != POINT)
    ensures ReadFraction(RenderFraction(fraction) + rest) == Some(Parsed(fraction, rest))
  {
    if fraction == [] {
      assert RenderFraction(fraction) + rest == rest;
    } else {
      ReadCharacters(fraction, rest);
      Prefixed(POINT, Characters(fraction), rest);
    }
  }

  lemma ReadRenderedUnsigned(s: Shape, rest: Text)
    requires EndsNumber(rest)
    requires s.whole != [] && (|s.whole| > 1 ==> s.whole[0] != 0)
    ensures ReadUnsigned(s.negative, Unsigned(s) + rest) == Some(Parsed(s, rest))
  {
    var afterFraction := RenderExponent(s.exponent) + rest;
    var afterWhole := RenderFraction(s.fraction) + afterFraction;
    assert Unsigned(s) + rest == Characters(s.whole) + afterWhole;
    ReadRenderedExponent(s.exponent, rest);
    ReadRenderedFraction(s.fraction, afterFraction);
    assert afterWhole == [] || !IsDigit(afterWhole[0]);
    ReadCharacters(s.whole, afterWhole);
  }

  lemma ReadRendered(s: Shape, rest: Text)
    requires EndsNumber(rest)
    requires s.whole != [] && (|s.whole| > 1 ==> s.whole[0] != 0)
    ensures ReadShape(Render(s) + rest) == Some(Parsed(s, rest))
  {
    var body := Unsigned(s) + rest;
    ReadRenderedUnsigned(s, rest);
    assert body[0] == DigitCharacter(s.whole[0]);
    if s.negative {
      Prefixed(MINUS, Unsigned(s), rest);
    } else {
      assert Render(s) == Unsigned(s);
    }
  }

  lemma {:induction false} NormalizeTrailing(negative: bool, digits: seq<Digit>, zeros: nat, point: int)
    requires Trimmed(digits) && digits != []
    ensures Normalize(negative, digits + Zeros(zeros), point) == Quantity(negative, digits, point)
    decreases zeros
  {
    if zeros > 0 {
      var padded := digits + Zeros(zeros);
      ZerosEndInZero(zeros);
      assert padded[..|padded| - 1] == digits + Zeros(zeros - 1);
      NormalizeTrailing(negative, digits, zeros - 1, point);
    } else {
      assert digits + Zeros(0) == digits;
    }
  }

  lemma {:induction false} ZerosEndInZero(n: nat)
    requires n > 0
    ensures Zeros(n) == Zeros(n - 1) + [0]
  {
    if n > 1 {
      ZerosEndInZero(n - 1);
    }
  }

  lemma LeadingZero(zeros: nat, digits: seq<Digit>)
    requires zeros > 0
    ensures var all := Zeros(zeros) + digits;
            all != [] && all[0] == 0 && all[1..] == Zeros(zeros - 1) + digits
  {
  }

  lemma {:induction false} NormalizeLeading(negative: bool, zeros: nat, digits: seq<Digit>, point: int)
    requires Trimmed(digits) && digits != []
    ensures Normalize(negative, Zeros(zeros) + digits, point) == Quantity(negative, digits, point - zeros)
    decreases zeros
  {
    if zeros > 0 {
      LeadingZero(zeros, digits);
      NormalizeLeading(negative, zeros - 1, digits, point - 1);
    } else {
      assert Zeros(0) + digits == digits;
    }
  }

  lemma FractionKeepsQuantity(x: Number)
    requires x.Decimal? && x.Valid() && -6 < x.point <= 0
    ensures QuantityOf(ShapeOf(x)) == Magnitude(x)
  {
    var s := ShapeOf(x);
    assert Zeros(1 - x.point) == [0] + Zeros(-x.point);
    assert s.whole + s.fraction == Zeros(1 - x.point) + x.digits;
    NormalizeLeading(x.negative, 1 - x.point, x.digits, 1);
  }

  lemma ShapeKeepsQuantity(x: Number)
    requires x.IsFinite() && x.Valid()
    ensures QuantityOf(ShapeOf(x)) == Magnitude(x)
  {
    if x.Zero? {
      assert [0] + [] == [0];
      assert Normalize(false, [0][1..], 0) == Nought;
    } else {
      var s := ShapeOf(x);
      if |x.digits| <= x.point <= 21 {
        assert s.whole + s.fraction == x.digits + Zeros(x.point - |x.digits|);
        NormalizeTrailing(x.negative, x.digits, x.point - |x.digits|, x.point);
      } else if 0 < x.point <= 21 {
        assert s.whole + s.fraction == x.digits + Zeros(0);
        NormalizeTrailing(x.negative, x.digits, 0, x.point);
      } else if -6 < x.point <= 0 {
        FractionKeepsQuantity(x);
      } else {
        assert s.whole + s.fraction == x.digits + Zeros(0);
        NormalizeTrailing(x.negative, x.digits, 0, x.point);
      }
    }
  }

  /** A printed number reads back as the quantity it stands for, whatever delimiter follows. */
  lemma ParsePrinted(x: Number, rest: Text)
    requires x.IsFinite() && x.Valid() && EndsNumber(rest)
    ensures ParseNumber(Print(x) + rest) == Some(Parsed(Magnitude(x), rest))
  {
    ShapeKeepsQuantity(x);
    ReadRendered(ShapeOf(x), rest);
  }

  /** Only the two zeros share their text. */
  lemma PrintIsInjective(x: Number, y: Number)
    requires x.IsFinite() && x.Valid() && y.IsFinite() && y.Valid()
    ensures Print(x) == Print(y) <==> x == y || (x.Zero? && y.Zero?)
  {
    if Print(x) == Print(y) {
      ParsePrinted(x, []);
      ParsePrinted(y, []);
      assert Magnitude(x) == Magnitude(y);
    }
  }

  lemma PrintedStart(x: Number, rest: Text)
    requires x.IsFinite() && x.Valid()
    ensures Print(x) + rest != []
    ensures IsDigit((Print(x) + rest)[0]) || (Print(x) + rest)[0] == MINUS
  {
    assert Characters(ShapeOf(x).whole)[0] == DigitCharacter(ShapeOf(x).whole[0]);
  }
}
