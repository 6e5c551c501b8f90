/** JavaScript strings as sequences of UTF-16 code units, their order, and their JSON form. */
module JsonText {
  import opened Outcomes

  type CodeUnit = x: int | 0 <= x < 0x1_0000

  type Text = seq<CodeUnit>

  const QUOTE: CodeUnit := 34
  const BACKSLASH: CodeUnit := 92

  datatype Parsed<+T> = Parsed(value: T, rest: Text)

  /** The `<` of JavaScript strings: lexicographic by code unit. */
  predicate Less(left: Text, right: Text) {
    right != [] && (left == [] || left[0] < right[0] || (left[0] == right[0] && Less(left[1..], right[1..])))
  }

  /** At the first code unit that differs, or where the shorter string ends, the first of them is the smaller. */
  ghost predicate Before(left: Text, right: Text) {
    exists k :: 0 <= k <= |left| && k < |right| && left[..k] == right[..k] && (k == |left| || left[k] < right[k])
  }

  lemma BeforeStep(left: Text, right: Text)
    requires left != [] && right != [] && left[0] == right[0]
    ensures Before(left, right) <==> Before(left[1..], right[1..])
  {
    var l, r := left[1..], right[1..];
    if k :| 0 <= k <= |l| && k < |r| && l[..k] == r[..k] && (k == |l| || l[k] < r[k]) {
      assert left[..k + 1] == [left[0]] + l[..k] == [right[0]] + r[..k] == right[..k + 1];
    }
    if k :| 0 <= k <= |left| && k < |right| && left[..k] == right[..k] && (k == |left| || left[k] < right[k]) {
      assert k > 0 && l[..k - 1] == left[..k][1..] == right[..k][1..] == r[..k - 1];
    }
  }

  lemma {:induction false} LessIsBefore(left: Text, right: Text)
    ensures Less(left, right) <==> Before(left, right)
  {
    if left != [] && right != [] && left[0] == right[0] {
      BeforeStep(left, right);
      LessIsBefore(left[1..], right[1..]);
    } else if right != [] {
      assert left[..0] == right[..0];
      assert forall k :: 0 < k <= |left| && k < |right| && left[..k] == right[..k] ==> left[..k][0] == right[..k][0];
    }
  }

  function CompareKeys(left: Text, right: Text): int {
    if Less(left, right) then -1 else if Less(right, left) then 1 else 0
  }

  lemma {:induction false} LessIsTotal(left: Text, right: Text)
    ensures Less(left, right) || Less(right, left) || left == right
  {
    if left != [] && right != [] && left[0] == right[0] {
      LessIsTotal(left[1..], right[1..]);
      assert left == [left[0]] + left[1..] && right == [right[0]] + right[1..];
    }
  }

  lemma {:induction false} LessIsTransitive(a: Text, b: Text, c: Text)
    requires Less(a, b) && Less(b, c)
    ensures Less(a, c)
  {
    if a != [] && a[0] == b[0] == c[0] {
      LessIsTransitive(a[1..], b[1..], c[1..]);
    }
  }

  lemma {:induction false} LessIsAsymmetric(left: Text, right: Text)
    requires Less(left, right)
    ensures !Less(right, left) && left != right
  {
    if left != [] && left[0] == right[0] {
      LessIsAsymmetric(left[1..], right[1..]);
    }
  }

  lemma Prefixed(first: CodeUnit, a: Text, b: Text)
    ensures var t := ([first] + a) + b;
            t != [] && t[0] == first && t[1..] == a + b
  {
  }

  // ----- Escaping -----

  predicate IsLead(u: CodeUnit) { 0xD800 <= u < 0xDC00 }

  predicate IsTrail(u: CodeUnit) { 0xDC00 <= u < 0xE000 }

  predicate StartsWithPair(t: Text) {
    |t| >= 2 && IsLead(t[0]) && IsTrail(t[1])
  }

  function HexDigit(d: int): CodeUnit
    requires 0 <= d < 16
  {
    if d < 10 then 48 + d else 87 + d
  }

  function HexValue(u: CodeUnit): Option<int>
    ensures HexValue(u).Some? ==> 0 <= HexValue(u).value < 16
  {
    if 48 <= u <= 57 then Some(u - 48) else if 97 <= u <= 102 then Some(u - 87) else None
  }

  const HEX: string := "0123456789abcdef"

  lemma HexIsLowerCase(d: int)
    requires 0 <= d < 16
    ensures HexDigit(d) == HEX[d] as int
  {
  }

  /** One code unit that is not half of a surrogate pair, as JSON.stringify writes it. */
  function EscapeUnit(u: CodeUnit): Text {
    if u == 8 then [BACKSLASH, 98]
    else if u == 9 then [BACKSLASH, 116]
    else if u == 10 then [BACKSLASH, 110]
    else if u == 12 then [BACKSLASH, 102]
    else if u == 13 then [BACKSLASH, 114]
    else if u == QUOTE || u == BACKSLASH then [BACKSLASH, u]
    else if u < 32 || IsLead(u) || IsTrail(u) then
      [BACKSLASH, 117, HexDigit(u / 4096), HexDigit(u / 256 % 16), HexDigit(u / 16 % 16), HexDigit(u % 16)]
    else [u]
  }

  function Escape(t: Text): Text {
    if t == [] then []
    else if StartsWithPair(t) then t[..2] + Escape(t[2..])
    else EscapeUnit(t[0]) + Escape(t[1..])
  }

  function Quote(t: Text): Text {
    [QUOTE] + Escape(t) + [QUOTE]
  }

  // ----- Reading a quoted string back (RFC 8259, section 7) -----

  /** Reads one escaped or verbatim code unit; the input does not start with a quote. */
  function ParseUnit(t: Text): (r: Option<Parsed<CodeUnit>>)
    ensures r.Some? ==> |r.value.rest| < |t|
  {
    if t == [] || t[0] < 32 then None
    else if t[0] != BACKSLASH then Some(Parsed(t[0], t[1..]))
    else if |t| < 2 then None
    else if t[1] == 98 then Some(Parsed(8, t[2..]))
    else if t[1] == 116 then Some(Parsed(9, t[2..]))
    else if t[1] == 110 then Some(Parsed(10, t[2..]))
    else if t[1] == 102 then Some(Parsed(12, t[2..]))
    else if t[1] == 114 then Some(Parsed(13, t[2..]))
    else if t[1] == QUOTE || t[1] == BACKSLASH || t[1] == 47 then Some(Parsed(t[1], t[2..]))
    else if t[1] == 117 && |t| >= 6 && HexValue(t[2]).Some? && HexValue(t[3]).Some?
            && HexValue(t[4]).Some? && HexValue(t[5]).Some? then
      Some(Parsed(HexValue(t[2]).value * 4096 + HexValue(t[3]).value * 256
                  + HexValue(t[4]).value * 16 + HexValue(t[5]).value, t[6..]))
    else None
  }

  /** Reads string contents up to and including the closing quote. */
  function ParseContents(t: Text): (r: Option<Parsed<Text>>)
    ensures r.Some? ==> |r.value.rest| < |t|
    decreases |t|
  {
    if t == [] then None
    else if t[0] == QUOTE then Some(Parsed([], t[1..]))
    else
      match ParseUnit(t)
      case None => None
      case Some(unit) =>
        match ParseContents(unit.rest)
        case None => None
        case Some(more) => Some(Parsed([unit.value] + more.value, more.rest))
  }

  function ParseQuoted(t: Text): (r: Option<Parsed<Text>>)
    ensures r.Some? ==> |r.value.rest| < |t|
  {
    if t == [] || t[0] != QUOTE then None else ParseContents(t[1..])
  }

  lemma HexRoundTrip(d: int)
    requires 0 <= d < 16
    ensures HexValue(HexDigit(d)) == Some(d)
  {
  }

  lemma HexDigitsOf(u: CodeUnit)
    ensures 0 <= u / 4096 < 16
    ensures u / 4096 * 4096 + u / 256 % 16 * 256 + u / 16 % 16 * 16 + u % 16 == u
  {
    assert u / 16 / 16 == u / 256 && u / 256 / 16 == u / 4096;
  }

  lemma ParseEscapedUnit(u: CodeUnit, rest: Text)
    ensures EscapeUnit(u) + rest != [] && (EscapeUnit(u) + rest)[0] != QUOTE
    ensures ParseUnit(EscapeUnit(u) + rest) == Some(Parsed(u, rest))
  {
    var e := EscapeUnit(u);
    var t := e + rest;
    assert t[0] == e[0];
    assert t[|e|..] == rest;
    if |e| == 2 {
      assert t[1] == e[1];
    } else if |e| == 6 {
      HexDigitsOf(u);
      assert t[1] == e[1] == 117;
      assert t[2] == e[2] && t[3] == e[3] && t[4] == e[4] && t[5] == e[5];
      HexRoundTrip(u / 4096);
      HexRoundTrip(u / 256 % 16);
      HexRoundTrip(u / 16 % 16);
      HexRoundTrip(u % 16);
    }
  }

  lemma ParseContentsVerbatim(u: CodeUnit, tail: Text, more: Parsed<Text>)
    requires u >= 32 && u != QUOTE && u != BACKSLASH
    requires ParseContents(tail) == Some(more)
    ensures ParseContents([u] + tail) == Some(Parsed([u] + more.value, more.rest))
  {
  }

  lemma ParseContentsUnit(u: CodeUnit, tail: Text, more: Parsed<Text>)
    requires ParseContents(tail) == Some(more)
    ensures ParseContents(EscapeUnit(u) + tail) == Some(Parsed([u] + more.value, more.rest))
  {
    ParseEscapedUnit(u, tail);
  }

  lemma Regroup(first: Text, second: Text, rest: Text)
    ensures first + second + [QUOTE] + rest == first + (second + [QUOTE] + rest)
  {
  }

  /** Reading the quoted form recovers the string, whatever follows the closing quote. */
  lemma {:induction false} ParseEscaped(t: Text, rest: Text)
    ensures ParseContents(Escape(t) + [QUOTE] + rest) == Some(Parsed(t, rest))
  {
    if t == [] {
      var tail := [QUOTE] + rest;
      assert Escape(t) + [QUOTE] + rest == tail;
      assert tail[1..] == rest;
    } else if StartsWithPair(t) {
      var more := Escape(t[2..]) + [QUOTE] + rest;
      ParseEscaped(t[2..], rest);
      ParseContentsVerbatim(t[1], more, Parsed(t[2..], rest));
      ParseContentsVerbatim(t[0], [t[1]] + more, Parsed([t[1]] + t[2..], rest));
      Regroup(t[..2], Escape(t[2..]), rest);
      assert t[..2] + more == [t[0]] + ([t[1]] + more);
      assert t == [t[0]] + ([t[1]] + t[2..]);
    } else {
      var more := Escape(t[1..]) + [QUOTE] + rest;
      ParseEscaped(t[1..], rest);
      ParseContentsUnit(t[0], more, Parsed(t[1..], rest));
      Regroup(EscapeUnit(t[0]), Escape(t[1..]), rest);
      assert t == [t[0]] + t[1..];
    }
  }

  lemma ParseQuotedText(t: Text, rest: Text)
    ensures ParseQuoted(Quote(t) + rest) == Some(Parsed(t, rest))
  {
    assert (Quote(t) + rest)[1..] == Escape(t) + [QUOTE] + rest;
    ParseEscaped(t, rest);
  }
}
