/** The printed number is the only one of its form: which digits stand where, and when an exponent is used. */
module JsonNumberForm {
  import opened Outcomes
  import opened JsonText
  import opened JsonNumber

  // ----- The value of a number -----

  /** Ten to the power `k`. */
  function Scale(k: int): (p: real)
    ensures p > 0.0
    decreases if k >= 0 then k else -k
  {
    if k == 0 then 1.0 else if k > 0 then 10.0 * Scale(k - 1) else Scale(k + 1) / 10.0
  }

  /** A digit, counted so often. */
  function Times(d: nat, p: real): real {
    if d == 0 then 0.0 else p + Times(d - 1, p)
  }

  /** The value of digits the first of which counts `Scale(k)`. */
  function ValueAt(digits: seq<Digit>, k: int): real
    decreases |digits|
  {
    if digits == [] then 0.0 else Times(digits[0], Scale(k)) + ValueAt(digits[1..], k - 1)
  }

  /** The absolute value of a non-zero number. */
  function Value(x: Number): real
    requires x.Decimal?
  {
    ValueAt(x.digits, x.point - 1)
  }

  lemma ScaleStep(k: int)
    ensures Scale(k + 1) == 10.0 * Scale(k)
  {
  }

  lemma {:induction false} ScaleGrows(a: int, b: int)
    requires a <= b
    ensures Scale(a) <= Scale(b)
    decreases b - a
  {
    if a < b {
      ScaleGrows(a, b - 1);
      ScaleStep(b - 1);
    }
  }

  lemma {:induction false} TimesBounds(d: nat, p: real, most: nat)
    requires p > 0.0 && d <= most
    ensures 0.0 <= Times(d, p) <= Times(most, p)
    ensures d > 0 ==> Times(d, p) >= p
    decreases most
  {
    if d > 0 {
      TimesBounds(d - 1, p, most - 1);
    } else if most > 0 {
      TimesBounds(0, p, most - 1);
    }
  }

  lemma NineTimes(p: real)
    ensures Times(9, p) + p == 10.0 * p
  {
    assert Times(2, p) == p + Times(1, p) == 2.0 * p;
    assert Times(4, p) == p + Times(3, p) == 4.0 * p;
    assert Times(6, p) == p + Times(5, p) == 6.0 * p;
    assert Times(8, p) == p + Times(7, p) == 8.0 * p;
  }

  lemma {:induction false} ValueAtBounds(digits: seq<Digit>, k: int)
    ensures 0.0 <= ValueAt(digits, k) < Scale(k + 1)
    ensures digits != [] && digits[0] != 0 ==> Scale(k) <= ValueAt(digits, k)
    decreases |digits|
  {
    ScaleStep(k);
    if digits != [] {
      ValueAtBounds(digits[1..], k - 1);
      TimesBounds(digits[0], Scale(k), 9);
      NineTimes(Scale(k));
    }
  }

  /** A number lies in the decade its point says. */
  lemma ValueBounds(x: Number)
    requires x.Decimal? && x.Valid()
    ensures Scale(x.point - 1) <= Value(x) < Scale(x.point)
  {
    ValueAtBounds(x.digits, x.point - 1);
  }

  const SMALLEST: real := 0.000001
  const LARGEST: real := 1000000000000000000000.0

  lemma Limits()
    ensures Scale(-6) == SMALLEST && Scale(21) == LARGEST
  {
    assert Scale(-3) == 0.001;
    assert Scale(7) == 10000000.0;
    assert Scale(14) == 10000000.0 * Scale(7);
    assert Scale(21) == 10000000.0 * Scale(14);
  }

  /** Below a millionth, and from 1e21 on, a number is printed with an exponent. */
  predicate UsesExponent(x: Number) {
    x.Decimal? && (Value(x) < SMALLEST || Value(x) >= LARGEST)
  }

  lemma ExponentByPoint(x: Number)
    requires x.Decimal? && x.Valid()
    ensures UsesExponent(x) <==> x.point <= -6 || x.point > 21
  {
    ValueBounds(x);
    Limits();
    if x.point <= -6 { ScaleGrows(x.point, -6); } else { ScaleGrows(-6, x.point - 1); }
    if x.point > 21 { ScaleGrows(21, x.point - 1); } else { ScaleGrows(x.point, 21); }
  }

  // ----- The form -----

  /** No superfluous zero, a single whole digit before an exponent, and no sign on nought. */
  predicate WellFormed(s: Shape) {
    s.whole != []
    && (if s.exponent.Some? then |s.whole| == 1 && s.whole[0] != 0 else s.whole == [0] || s.whole[0] != 0)
    && (s.fraction != [] ==> s.fraction[|s.fraction| - 1] != 0)
    && (s.whole == [0] && s.fraction == [] ==> !s.negative)
  }

  /** A shape of this number in the form that JSON text uses. */
  predicate Standard(x: Number, s: Shape)
    requires x.IsFinite()
  {
    WellFormed(s) && QuantityOf(s) == Magnitude(x) && (s.exponent.Some? <==> UsesExponent(x))
  }

  /** Digits are zeros, then these, then zeros. */
  predicate Padded(digits: seq<Digit>, front: nat, core: seq<Digit>, back: nat) {
    |digits| == front + |core| + back
    && (forall i :: 0 <= i < front ==> digits[i] == 0)
    && (forall i :: 0 <= i < |core| ==> digits[front + i] == core[i])
    && (forall i :: front + |core| <= i < |digits| ==> digits[i] == 0)
  }

  lemma PadFront(digits: seq<Digit>, front: nat, core: seq<Digit>, back: nat)
    requires digits != [] && digits[0] == 0 && Padded(digits[1..], front, core, back)
    ensures Padded(digits, front + 1, core, back)
  {
    var rest := digits[1..];
    forall i | 0 <= i < |core| ensures digits[front + 1 + i] == core[i] { assert rest[front + i] == core[i]; }
    forall i | front + 1 + |core| <= i < |digits| ensures digits[i] == 0 { assert rest[i - 1] == 0; }
    forall i | 0 < i < front + 1 ensures digits[i] == 0 { assert rest[i - 1] == 0; }
  }

  lemma PadBack(digits: seq<Digit>, front: nat, core: seq<Digit>, back: nat)
    requires digits != [] && digits[|digits| - 1] == 0 && Padded(digits[..|digits| - 1], front, core, back)
    ensures Padded(digits, front, core, back + 1)
  {
    var rest := digits[..|digits| - 1];
    forall i | 0 <= i < |core| ensures digits[front + i] == core[i] { assert rest[front + i] == core[i]; }
  }

  /** Normalizing drops the first zero, else the last, and stops when there is neither. */
  lemma NormalizeStep(negative: bool, digits: seq<Digit>, point: int)
    requires digits != []
    ensures Normalize(negative, digits, point)
         == if digits[0] == 0 then Normalize(negative, digits[1..], point - 1)
            else if digits[|digits| - 1] == 0 then Normalize(negative, digits[..|digits| - 1], point)
            else Quantity(negative, digits, point)
  {
  }

  /** What normalizing drops: zeros in front and behind. */
  lemma {:induction false} NormalizeDrops(negative: bool, digits: seq<Digit>, point: int, q: Quantity)
    returns (front: nat, back: nat)
    requires Normalize(negative, digits, point) == q && q != Nought
    ensures q.negative == negative && q.point == point - front && Padded(digits, front, q.digits, back)
    ensures q.digits != [] && Trimmed(q.digits)
    decreases |digits|
  {
    assert digits != [];
    NormalizeStep(negative, digits, point);
    if digits[0] == 0 {
      front, back := NormalizeDrops(negative, digits[1..], point - 1, q);
      PadFront(digits, front, q.digits, back);
      front := front + 1;
    } else if digits[|digits| - 1] == 0 {
      front, back := NormalizeDrops(negative, digits[..|digits| - 1], point, q);
      PadBack(digits, front, q.digits, back);
      back := back + 1;
    } else {
      front, back := 0, 0;
    }
  }

  lemma PrintedIsWellFormed(x: Number)
    requires x.IsFinite() && x.Valid()
    ensures WellFormed(ShapeOf(x)) && (ShapeOf(x).exponent.Some? <==> x.Decimal? && (x.point <= -6 || x.point > 21))
  {
    if x.Decimal? {
      var n := |x.digits|;
      assert x.digits[0] != 0 && x.digits[n - 1] != 0;
      if !(n <= x.point <= 21) && 0 < x.point <= 21 {
        assert x.digits[x.point..][n - x.point - 1] == x.digits[n - 1];
      } else if -6 < x.point <= 0 {
        assert (Zeros(-x.point) + x.digits)[n - x.point - 1] == x.digits[n - 1];
      }
    }
  }

  lemma PrintedIsStandard(x: Number)
    requires x.IsFinite() && x.Valid()
    ensures Standard(x, ShapeOf(x))
  {
    ShapeKeepsQuantity(x);
    PrintedIsWellFormed(x);
    if x.Decimal? { ExponentByPoint(x); }
  }

  // ----- Only one standard shape -----

  lemma {:induction false} ZerosAre(n: nat, i: nat)
    requires i < n
    ensures Zeros(n)[i] == 0
  {
    if i > 0 { ZerosAre(n - 1, i - 1); }
  }

  /** How the digits of a shape that is not nought lie over its whole and its fraction. */
  lemma ShapeDigits(s: Shape, q: Quantity) returns (front: nat, back: nat)
    requires WellFormed(s) && QuantityOf(s) == q != Nought
    ensures var point := |s.whole| + (match s.exponent case None => 0 case Some(e) => e);
            q.negative == s.negative && q.point == point - front && q.digits != [] && Trimmed(q.digits)
            && Padded(s.whole + s.fraction, front, q.digits, back)
            && (s.fraction != [] ==> back == 0) && (s.whole[0] != 0 ==> front == 0) && (s.whole[0] == 0 ==> front >= 1)
  {
    var point := |s.whole| + (match s.exponent case None => 0 case Some(e) => e);
    var all := s.whole + s.fraction;
    front, back := NormalizeDrops(s.negative, all, point, q);
    assert all[0] == s.whole[0];
    assert Padded(all, front, q.digits, back);
    if front == 0 { assert all[0] == q.digits[0]; }
    if s.fraction != [] { assert all[|all| - 1] == s.fraction[|s.fraction| - 1]; }
  }

  lemma WholeOnly(s: Shape, q: Quantity, back: nat)
    requires s.fraction == [] && s.whole != [] && Padded(s.whole, 0, q.digits, back) && q.point == |s.whole|
    ensures s.whole == q.digits + Zeros(q.point - |q.digits|)
  {
    forall i | 0 <= i < back ensures Zeros(back)[i] == 0 { ZerosAre(back, i); }
    forall i | 0 <= i < |s.whole| ensures s.whole[i] == (q.digits + Zeros(back))[i] {
      if i < |q.digits| { assert s.whole[0 + i] == q.digits[i]; }
    }
  }

  lemma FractionOnly(s: Shape, q: Quantity, front: nat)
    requires s.whole == [0] && s.fraction != [] && front >= 1 && Padded(s.whole + s.fraction, front, q.digits, 0)
    requires q.point == 1 - front
    ensures s.fraction == Zeros(-q.point) + q.digits
  {
    var all := s.whole + s.fraction;
    forall i | 0 <= i < front - 1 ensures s.fraction[i] == 0 && Zeros(front - 1)[i] == 0 {
      ZerosAre(front - 1, i);
      assert all[i + 1] == 0;
    }
    forall i | 0 <= i < |q.digits| ensures s.fraction[front - 1 + i] == q.digits[i] {
      assert all[front + i] == q.digits[i];
    }
  }

  lemma WholeAndFraction(s: Shape, q: Quantity)
    requires s.whole != [] && Padded(s.whole + s.fraction, 0, q.digits, 0)
    ensures q.digits == s.whole + s.fraction
    ensures s.whole == q.digits[..|s.whole|] && s.fraction == q.digits[|s.whole|..]
  {
    var all := s.whole + s.fraction;
    forall i | 0 <= i < |all| ensures q.digits[i] == all[i] { assert all[0 + i] == q.digits[i]; }
  }

  lemma NoughtShape(s: Shape)
    requires WellFormed(s) && QuantityOf(s) == Nought
    ensures s.whole == [0] && s.fraction == [] && s.exponent.None? && !s.negative
  {
    var point := |s.whole| + (match s.exponent case None => 0 case Some(e) => e);
    var all := s.whole + s.fraction;
    assert all[0] == s.whole[0];
    if s.fraction != [] { assert all[|all| - 1] == s.fraction[|s.fraction| - 1]; }
    NoughtIsZeros(s.negative, all, point);
    assert forall i :: 0 <= i < |all| ==> all[i] == 0;
  }

  lemma {:induction false} NoughtIsZeros(negative: bool, digits: seq<Digit>, point: int)
    requires Normalize(negative, digits, point) == Nought
    ensures forall i :: 0 <= i < |digits| ==> digits[i] == 0
    decreases |digits|
  {
    if digits != [] {
      if digits[0] == 0 {
        NoughtIsZeros(negative, digits[1..], point - 1);
        forall i | 0 < i < |digits| ensures digits[i] == 0 { assert digits[1..][i - 1] == 0; }
      } else if digits[|digits| - 1] == 0 {
        NoughtIsZeros(negative, digits[..|digits| - 1], point);
      }
    }
  }

  /** With a nought before the point, the digits that count stand after it. */
  lemma ZeroLedHasFraction(s: Shape, q: Quantity, front: nat, back: nat)
    requires s.whole == [0] && front >= 1 && q.digits != [] && Padded(s.whole + s.fraction, front, q.digits, back)
    ensures s.fraction != []
  {
    assert |s.whole + s.fraction| == 1 + |s.fraction|;
  }

  lemma ShapeBelowOne(x: Number)
    requires x.Decimal? && x.Valid() && -6 < x.point <= 0
    ensures ShapeOf(x) == Shape(x.negative, [0], Zeros(-x.point) + x.digits, None)
  {
  }

  lemma ZeroLed(x: Number, s: Shape, front: nat, back: nat)
    requires x.Decimal? && x.Valid() && s.exponent.None? && -6 < x.point <= 21
    requires s.whole == [0] && front >= 1 && (s.fraction != [] ==> back == 0)
    requires s.negative == x.negative && x.point == 1 - front && Padded(s.whole + s.fraction, front, x.digits, back)
    ensures s == ShapeOf(x)
  {
    var q := Quantity(x.negative, x.digits, x.point);
    ZeroLedHasFraction(s, q, front, back);
    FractionOnly(s, q, front);
    ShapeBelowOne(x);
  }

  lemma WholeLed(x: Number, s: Shape, back: nat)
    requires x.Decimal? && x.Valid() && WellFormed(s) && s.exponent.None? && x.point <= 21
    requires s.whole[0] != 0 && (s.fraction != [] ==> back == 0)
    requires s.negative == x.negative && x.point == |s.whole| && Padded(s.whole + s.fraction, 0, x.digits, back)
    ensures s == ShapeOf(x)
  {
    if s.fraction == [] {
      assert s.whole + s.fraction == s.whole;
      WholeOnly(s, Magnitude(x), back);
    } else {
      WholeAndFraction(s, Magnitude(x));
    }
  }

  lemma ExponentLed(x: Number, s: Shape, back: nat)
    requires x.Decimal? && x.Valid() && WellFormed(s) && s.exponent.Some? && (x.point <= -6 || x.point > 21)
    requires s.fraction != [] ==> back == 0
    requires s.negative == x.negative && x.point == 1 + s.exponent.value && Padded(s.whole + s.fraction, 0, x.digits, back)
    ensures s == ShapeOf(x)
  {
    assert |s.whole + s.fraction| == 1 + |s.fraction|;
    WholeAndFraction(s, Magnitude(x));
  }

  lemma StandardDecimal(x: Number, s: Shape)
    requires x.Decimal? && x.Valid() && Standard(x, s)
    ensures s == ShapeOf(x)
  {
    ExponentByPoint(x);
    var front, back := ShapeDigits(s, Magnitude(x));
    if s.exponent.Some? {
      ExponentLed(x, s, back);
    } else if s.whole[0] == 0 {
      ZeroLed(x, s, front, back);
    } else {
      WholeLed(x, s, back);
    }
  }

  /** A number has one standard shape, and that is the printed one. */
  lemma PrintedShapeIsTheOnly(x: Number, s: Shape)
    requires x.IsFinite() && x.Valid()
    ensures Standard(x, s) <==> s == ShapeOf(x)
    ensures ShapeOf(x).exponent.Some? <==> UsesExponent(x)
  {
    PrintedIsStandard(x);
    if Standard(x, s) {
      if x.Zero? { NoughtShape(s); } else { StandardDecimal(x, s); }
    }
  }

  // ----- Only one text -----

  /** Every exponent is written with its sign and without a leading zero. */
  predicate ExponentSpelled(t: Text) {
    forall i :: 0 <= i < |t| && t[i] == EXPONENT ==>
                  i + 2 < |t| && (t[i + 1] == PLUS || t[i + 1] == MINUS) && t[i + 2] != DigitCharacter(0)
  }

  /** This text reads as a standard shape of the number, and its exponent is well spelled. */
  predicate StandardText(x: Number, t: Text)
    requires x.IsFinite()
  {
    var read := ReadShape(t);
    read.Some? && read.value.rest == [] && Standard(x, read.value.value) && ExponentSpelled(t)
  }

  lemma {:induction false} DigitsWereRead(t: Text)
    ensures var r := ReadDigits(t); t == Characters(r.value) + r.rest && (r.rest == [] || !IsDigit(r.rest[0]))
    decreases |t|
  {
    if t != [] && IsDigit(t[0]) {
      DigitsWereRead(t[1..]);
      var more := ReadDigits(t[1..]);
      var d: Digit := t[0] - 48;
      assert ([d] + more.value)[1..] == more.value;
      assert t == [t[0]] + t[1..];
    } else {
      assert Characters([]) + t == t;
    }
  }

  /** Digits without a leading zero are the decimals of their value. */
  lemma {:induction false} DecimalsOfNat(digits: seq<Digit>)
    requires digits != [] && digits[0] != 0
    ensures NatOf(digits) > 0 && Decimals(NatOf(digits)) == digits
    decreases |digits|
  {
    var n := |digits| - 1;
    if n > 0 {
      DecimalsOfNat(digits[..n]);
      assert digits == digits[..n] + [digits[n]];
      TenTimes(NatOf(digits[..n]), digits[n]);
    } else {
      assert digits[..0] == [];
    }
  }

  lemma TenTimes(n: nat, d: Digit)
    ensures (n * 10 + d) / 10 == n && (n * 10 + d) % 10 == d
  {
  }

  lemma SignedDigits(t: Text)
    requires t != [] && t[0] == EXPONENT && ExponentSpelled(t)
    ensures var digits := ReadDigits(t[2..]);
            digits.rest == [] && digits.value != [] ==>
              t == [EXPONENT, t[1]] + Characters(digits.value) && digits.value[0] != 0
  {
    var rest := t[2..];
    var digits := ReadDigits(rest);
    DigitsWereRead(rest);
    if digits.rest == [] && digits.value != [] {
      assert rest[0] == t[2];
      assert Characters(digits.value) + [] == Characters(digits.value);
      assert t == [t[0], t[1]] + rest;
    }
  }

  lemma ExponentWasRead(t: Text)
    requires ExponentSpelled(t)
    ensures var r := ReadExponent(t); r.Some? && r.value.rest == [] ==> t == RenderExponent(r.value.value)
  {
    var r := ReadExponent(t);
    if r.Some? && r.value.rest == [] && t != [] {
      assert t[0] == EXPONENT;
      SignedDigits(t);
      DecimalsOfNat(ReadDigits(t[2..]).value);
    }
  }

  lemma PointThen(t: Text, digits: seq<Digit>, rest: Text)
    requires digits != [] && t != [] && t[0] == POINT && t[1..] == Characters(digits) + rest
    ensures t == RenderFraction(digits) + rest
  {
    Prefixed(POINT, Characters(digits), rest);
    assert t == [t[0]] + t[1..];
  }

  lemma FractionWasRead(t: Text)
    ensures var r := ReadFraction(t); r.Some? ==> t == RenderFraction(r.value.value) + r.value.rest
  {
    if t != [] && t[0] == POINT {
      var digits := ReadDigits(t[1..]);
      DigitsWereRead(t[1..]);
      if digits.value != [] { PointThen(t, digits.value, digits.rest); }
    } else {
      assert RenderFraction([]) + t == t;
    }
  }

  lemma SuffixIsSpelled(front: Text, t: Text)
    requires ExponentSpelled(front + t)
    ensures ExponentSpelled(t)
  {
    var all := front + t;
    forall i | 0 <= i < |t| && t[i] == EXPONENT
      ensures i + 2 < |t| && (t[i + 1] == PLUS || t[i + 1] == MINUS) && t[i + 2] != DigitCharacter(0)
    {
      assert all[|front| + i] == t[i];
      assert all[|front| + i + 1] == t[i + 1] && all[|front| + i + 2] == t[i + 2];
    }
  }

  lemma UnsignedWasRead(negative: bool, t: Text)
    requires ExponentSpelled(t)
    ensures var r := ReadUnsigned(negative, t);
            r.Some? && r.value.rest == [] ==> r.value.value.negative == negative && t == Unsigned(r.value.value)
  {
    var r := ReadUnsigned(negative, t);
    if r.Some? && r.value.rest == [] {
      var whole := ReadDigits(t);
      DigitsWereRead(t);
      var fraction := ReadFraction(whole.rest).value;
      FractionWasRead(whole.rest);
      SuffixIsSpelled(Characters(whole.value), whole.rest);
      SuffixIsSpelled(RenderFraction(fraction.value), fraction.rest);
      ExponentWasRead(fraction.rest);
    }
  }

  lemma ShapeWasRead(t: Text)
    requires ExponentSpelled(t)
    ensures var r := ReadShape(t); r.Some? && r.value.rest == [] ==> t == Render(r.value.value)
  {
    if t != [] && t[0] == MINUS {
      assert t == [t[0]] + t[1..];
      SuffixIsSpelled([t[0]], t[1..]);
      UnsignedWasRead(true, t[1..]);
    } else {
      UnsignedWasRead(false, t);
      assert forall u: Text :: [] + u == u;
    }
  }

  // ----- The printed text has this form -----

  lemma {:induction false} NoExponentInDigits(digits: seq<Digit>)
    ensures |Characters(digits)| == |digits|
    ensures forall i :: 0 <= i < |digits| ==> Characters(digits)[i] == DigitCharacter(digits[i])
  {
    if digits != [] { NoExponentInDigits(digits[1..]); }
  }

  lemma {:induction false} DecimalsLead(n: nat)
    requires n > 0
    ensures Decimals(n) != [] && Decimals(n)[0] != 0
  {
    if n >= 10 { DecimalsLead(n / 10); }
  }

  lemma SignedIsSpelled(sign: CodeUnit, digits: seq<Digit>)
    requires (sign == PLUS || sign == MINUS) && digits != [] && digits[0] != 0
    ensures ExponentSpelled([EXPONENT, sign] + Characters(digits))
  {
    var t := [EXPONENT, sign] + Characters(digits);
    NoExponentInDigits(digits);
    assert t[2] == DigitCharacter(digits[0]);
    forall i | 2 <= i < |t| ensures t[i] != EXPONENT { assert t[i] == DigitCharacter(digits[i - 2]); }
  }

  lemma PrintedExponentIsSpelled(exponent: Option<int>)
    requires exponent != Some(0)
    ensures ExponentSpelled(RenderExponent(exponent))
  {
    if exponent.Some? {
      var n := if exponent.value < 0 then -exponent.value else exponent.value;
      DecimalsLead(n);
      SignedIsSpelled(if exponent.value < 0 then MINUS else PLUS, Decimals(n));
    }
  }

  lemma SpelledBehind(front: Text, t: Text)
    requires ExponentSpelled(t) && forall i :: 0 <= i < |front| ==> front[i] != EXPONENT
    ensures ExponentSpelled(front + t)
  {
    var all := front + t;
    forall i | 0 <= i < |all| && all[i] == EXPONENT
      ensures i + 2 < |all| && (all[i + 1] == PLUS || all[i + 1] == MINUS) && all[i + 2] != DigitCharacter(0)
    {
      var k := i - |front|;
      assert t[k] == EXPONENT && t[k + 1] == all[i + 1] && t[k + 2] == all[i + 2];
    }
  }

  lemma PrintedIsSpelled(s: Shape)
    requires s.exponent != Some(0)
    ensures ExponentSpelled(Render(s))
  {
    PrintedExponentIsSpelled(s.exponent);
    NoExponentInDigits(s.fraction);
    NoExponentInDigits(s.whole);
    assert forall d: Digit :: DigitCharacter(d) != EXPONENT;
    SpelledBehind(RenderFraction(s.fraction), RenderExponent(s.exponent));
    SpelledBehind(Characters(s.whole), RenderFraction(s.fraction) + RenderExponent(s.exponent));
    SpelledBehind(if s.negative then [MINUS] else [], Unsigned(s));
  }

  /** A finite number has one standard text, and that is the printed one. */
  lemma PrintIsTheOnly(x: Number, t: Text)
    requires x.IsFinite() && x.Valid()
    ensures StandardText(x, t) <==> t == Print(x)
  {
    PrintedIsStandard(x);
    PrintedIsSpelled(ShapeOf(x));
    ReadRendered(ShapeOf(x), []);
    assert Print(x) + [] == Print(x);
    if StandardText(x, t) {
      ShapeWasRead(t);
      PrintedShapeIsTheOnly(x, ReadShape(t).value.value);
    }
  }
}
