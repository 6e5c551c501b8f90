/** The printed string is the only one a reader of JSON would call well spelled: shortest, and verbatim where it may be. */
module JsonSpelling {
  import opened Outcomes
  import opened JsonText

  /** This text, between quotes, is one code unit. */
  predicate Reads(t: Text, u: CodeUnit) {
    t != [] && t[0] != QUOTE && ParseUnit(t) == Some(Parsed(u, []))
  }

  /** A leading or a trailing surrogate. */
  predicate Half(u: CodeUnit) {
    0xD800 <= u < 0xE000
  }

  predicate Paired(t: Text) {
    |t| >= 2 && 0xD800 <= t[0] < 0xDC00 <= t[1] < 0xE000
  }

  /** Half of a surrogate pair is never left verbatim when it stands alone. */
  predicate Allowed(t: Text, u: CodeUnit) {
    Reads(t, u) && (Half(u) ==> |t| != 1)
  }

  /** The shortest allowed spelling of a code unit. */
  ghost predicate WellSpelled(t: Text, u: CodeUnit) {
    Allowed(t, u) && forall other: Text :: Allowed(other, u) ==> |t| <= |other|
  }

  /** The forms a spelling can have. */
  lemma SpellingForms(t: Text, u: CodeUnit)
    requires Reads(t, u)
    ensures |t| == 1 || |t| == 2 || |t| == 6
    ensures |t| == 1 <==> t == [u]
    ensures |t| == 1 ==> 32 <= u && u != QUOTE && u != BACKSLASH
    ensures |t| > 1 ==> t[0] == BACKSLASH
    ensures |t| == 2 ==> TwoUnit(t[1]) == Some(u)
    ensures |t| == 6 ==> t[1] == 117 && HexOf(t[2..]) == Some(u)
  {
    var rest: Text := if t[0] != BACKSLASH then t[1..] else if t[1] == 117 then t[6..] else t[2..];
    assert rest == [];
    if |t| == 6 {
      assert t[2..][0] == t[2] && t[2..][1] == t[3] && t[2..][2] == t[4] && t[2..][3] == t[5];
    }
  }

  /** What a backslash and one more code unit stand for (RFC 8259, section 7). */
  function TwoUnit(c: CodeUnit): Option<CodeUnit> {
    if c == 98 then Some(8) else if c == 116 then Some(9) else if c == 110 then Some(10) else if c == 102 then Some(12)
    else if c == 114 then Some(13) else if c == QUOTE || c == BACKSLASH || c == 47 then Some(c) else None
  }

  function HexOf(h: Text): Option<int> {
    if |h| == 4 && HexValue(h[0]).Some? && HexValue(h[1]).Some? && HexValue(h[2]).Some? && HexValue(h[3]).Some? then
      Some(HexValue(h[0]).value * 4096 + HexValue(h[1]).value * 256 + HexValue(h[2]).value * 16 + HexValue(h[3]).value)
    else None
  }

  lemma BaseSixteen(a: int, b: int, c: int, d: int, p: int, q: int, r: int, s: int)
    requires 0 <= a < 16 && 0 <= b < 16 && 0 <= c < 16 && 0 <= d < 16
    requires 0 <= p < 16 && 0 <= q < 16 && 0 <= r < 16 && 0 <= s < 16
    requires a * 4096 + b * 256 + c * 16 + d == p * 4096 + q * 256 + r * 16 + s
    ensures a == p && b == q && c == r && d == s
  {
  }

  lemma HexIsUnique(g: Text, h: Text)
    requires HexOf(g).Some? && HexOf(g) == HexOf(h)
    ensures g == h
  {
    BaseSixteen(HexValue(g[0]).value, HexValue(g[1]).value, HexValue(g[2]).value, HexValue(g[3]).value,
                HexValue(h[0]).value, HexValue(h[1]).value, HexValue(h[2]).value, HexValue(h[3]).value);
  }

  /** Two allowed spellings of the same length are the same. */
  lemma SpellingIsUnique(s: Text, t: Text, u: CodeUnit)
    requires Reads(s, u) && Reads(t, u) && |s| == |t|
    ensures s == t
  {
    SpellingForms(s, u);
    SpellingForms(t, u);
    if |s| == 2 {
      assert s == [s[0], s[1]] && t == [t[0], t[1]];
    } else if |s| == 6 {
      HexIsUnique(s[2..], t[2..]);
      assert s == [s[0], s[1]] + s[2..] && t == [t[0], t[1]] + t[2..];
    }
  }

  /** The printer's spelling is allowed, and no allowed one is shorter. */
  lemma PrintedIsShortest(u: CodeUnit)
    ensures WellSpelled(EscapeUnit(u), u)
  {
    ParseEscapedUnit(u, []);
    assert EscapeUnit(u) + [] == EscapeUnit(u);
    forall other: Text | Allowed(other, u) ensures |EscapeUnit(u)| <= |other| {
      SpellingForms(other, u);
    }
  }

  lemma WellSpelledIsPrinted(u: CodeUnit, t: Text)
    requires WellSpelled(t, u)
    ensures t == EscapeUnit(u)
  {
    PrintedIsShortest(u);
    SpellingIsUnique(t, EscapeUnit(u), u);
  }

  /** A digit, or a letter from a to f in lower case. */
  predicate IsHex(u: CodeUnit) {
    48 <= u < 58 || 97 <= u < 103
  }

  predicate IsLowerCaseEscape(t: Text) {
    |t| == 6 && IsHex(t[2]) && IsHex(t[3]) && IsHex(t[4]) && IsHex(t[5])
  }

  lemma SixAreHex(u: CodeUnit)
    requires |EscapeUnit(u)| == 6
    ensures IsLowerCaseEscape(EscapeUnit(u))
  {
  }

  /**
   * The printed code unit is the only well spelled one: verbatim wherever that reads back and is no lone half of a
   * pair, two units where those read back, and six only otherwise, in lower case.
   */
  lemma PrintedUnitIsTheOnly(u: CodeUnit, t: Text)
    ensures WellSpelled(t, u) <==> t == EscapeUnit(u)
    ensures |EscapeUnit(u)| == 1 <==> Reads([u], u) && !Half(u)
    ensures |EscapeUnit(u)| == 6 <==> (Half(u) || !Reads([u], u)) && forall c: CodeUnit :: !Reads([BACKSLASH, c], u)
    ensures |EscapeUnit(u)| == 6 ==> IsLowerCaseEscape(EscapeUnit(u))
  {
    if |EscapeUnit(u)| == 6 { SixAreHex(u); }
    PrintedIsShortest(u);
    if WellSpelled(t, u) { WellSpelledIsPrinted(u, t); }
    SpellingForms(EscapeUnit(u), u);
    if Reads([u], u) && !Half(u) {
      assert Allowed([u], u);
    }
    forall c: CodeUnit | Reads([BACKSLASH, c], u) ensures |EscapeUnit(u)| <= 2 {
      assert Allowed([BACKSLASH, c], u);
    }
    if |EscapeUnit(u)| == 2 {
      assert EscapeUnit(u) == [BACKSLASH, EscapeUnit(u)[1]];
    }
  }

  /** A text spells a string: surrogate pairs verbatim, every other code unit well spelled. */
  ghost predicate Spells(e: Text, t: Text)
    decreases |t|
  {
    if t == [] then e == []
    else if Paired(t) then |e| >= 2 && e[..2] == t[..2] && Spells(e[2..], t[2..])
    else exists n :: 0 < n <= |e| && WellSpelled(e[..n], t[0]) && Spells(e[n..], t[1..])
  }

  lemma PairIsTheOnly(e: Text, t: Text)
    requires Paired(t) && (|e| >= 2 ==> (Spells(e[2..], t[2..]) <==> e[2..] == Escape(t[2..])))
    ensures Spells(e, t) <==> e == Escape(t)
  {
    var p := t[..2] + Escape(t[2..]);
    assert p[..2] == t[..2] && p[2..] == Escape(t[2..]);
    if |e| >= 2 { assert e == e[..2] + e[2..]; }
  }

  lemma EscapeIs(t: Text)
    requires t != [] && !Paired(t)
    ensures Escape(t) == EscapeUnit(t[0]) + Escape(t[1..])
  {
  }

  lemma FirstIsPrinted(e: Text, t: Text, n: nat)
    requires t != [] && !Paired(t) && n <= |e| && e[..n] == EscapeUnit(t[0]) && e[n..] == Escape(t[1..])
    ensures e == Escape(t)
  {
    EscapeIs(t);
    assert e == e[..n] + e[n..];
  }

  lemma SpellsByFirst(e: Text, t: Text, n: nat)
    requires t != [] && !Paired(t) && 0 < n <= |e| && WellSpelled(e[..n], t[0]) && Spells(e[n..], t[1..])
    ensures Spells(e, t)
  {
  }

  lemma EscapeStep(t: Text)
    requires t != [] && !Paired(t)
    ensures var n := |EscapeUnit(t[0])|;
            0 < n <= |Escape(t)| && Escape(t)[..n] == EscapeUnit(t[0]) && Escape(t)[n..] == Escape(t[1..])
  {
    EscapeIs(t);
  }

  lemma PrintedSpellsFirst(t: Text)
    requires t != [] && !Paired(t) && Spells(Escape(t[1..]), t[1..])
    ensures Spells(Escape(t), t)
  {
    PrintedIsShortest(t[0]);
    EscapeStep(t);
    SpellsByFirst(Escape(t), t, |EscapeUnit(t[0])|);
  }

  /** The printed string is the only text that spells it. */
  lemma {:induction false} PrintedTextIsTheOnly(e: Text, t: Text)
    ensures Spells(e, t) <==> e == Escape(t)
    decreases |t|
  {
    if t == [] {
    } else if Paired(t) {
      if |e| >= 2 { PrintedTextIsTheOnly(e[2..], t[2..]); }
      PairIsTheOnly(e, t);
    } else {
      if Spells(e, t) {
        var n :| 0 < n <= |e| && WellSpelled(e[..n], t[0]) && Spells(e[n..], t[1..]);
        PrintedTextIsTheOnly(e[n..], t[1..]);
        WellSpelledIsPrinted(t[0], e[..n]);
        FirstIsPrinted(e, t, n);
      }
      PrintedTextIsTheOnly(Escape(t[1..]), t[1..]);
      PrintedSpellsFirst(t);
    }
  }
}
