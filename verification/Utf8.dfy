/** UTF-8 encoding of code-unit strings, as Node's Buffer does it. */
module Utf8 {
  import opened JsonText

  type Byte = b: int | 0 <= b < 256

  type Bytes = seq<Byte>

  /** No half of a surrogate pair stands alone. */
  predicate WellFormed(t: Text) {
    t == []
    || (StartsWithPair(t) && WellFormed(t[2..]))
    || (!IsLead(t[0]) && !IsTrail(t[0]) && WellFormed(t[1..]))
  }

  function Continuation(x: int): Byte { 128 + x % 64 }

  function EncodeUnit(u: CodeUnit): (b: Bytes)
    ensures 1 <= |b| <= 3
  {
    if u < 0x80 then [u]
    else if u < 0x800 then [192 + u / 64, Continuation(u)]
    else if IsLead(u) || IsTrail(u) then [0xEF, 0xBF, 0xBD]
    else [224 + u / 4096, Continuation(u / 64), Continuation(u)]
  }

  /** The supplementary code point of a surrogate pair, less 0x10000. */
  function Supplement(lead: CodeUnit, trail: CodeUnit): (x: nat)
    requires IsLead(lead) && IsTrail(trail)
    ensures x < 0x10_0000
  {
    (lead - 0xD800) * 1024 + (trail - 0xDC00)
  }

  function EncodePair(lead: CodeUnit, trail: CodeUnit): Bytes
    requires IsLead(lead) && IsTrail(trail)
  {
    var point := 0x1_0000 + Supplement(lead, trail);
    [240 + point / 0x4_0000, Continuation(point / 4096), Continuation(point / 64), Continuation(point)]
  }

  function Encode(t: Text): Bytes {
    if t == [] then []
    else if StartsWithPair(t) then EncodePair(t[0], t[1]) + Encode(t[2..])
    else EncodeUnit(t[0]) + Encode(t[1..])
  }

  function PointOf(a: int, b: int, c: int, d: int): int {
    (a - 240) * 0x4_0000 + (b - 128) * 4096 + (c - 128) * 64 + (d - 128)
  }

  function Decode(b: Bytes): seq<int> {
    if b == [] then []
    else if b[0] < 0x80 then [b[0]] + Decode(b[1..])
    else if b[0] < 0xE0 then
      if |b| < 2 then [] else [(b[0] - 192) * 64 + (b[1] - 128)] + Decode(b[2..])
    else if b[0] < 0xF0 then
      if |b| < 3 then []
      else [(b[0] - 224) * 4096 + (b[1] - 128) * 64 + (b[2] - 128)] + Decode(b[3..])
    else if |b| < 4 then []
    else
      var x := PointOf(b[0], b[1], b[2], b[3]) - 0x1_0000;
      [0xD800 + x / 1024, 0xDC00 + x % 1024] + Decode(b[4..])
  }

  lemma DecodeUnit(u: CodeUnit, rest: Bytes)
    requires !IsLead(u) && !IsTrail(u)
    ensures Decode(EncodeUnit(u) + rest) == [u] + Decode(rest)
  {
  }

  lemma PointDigits(point: nat)
    requires 0x1_0000 <= point < 0x11_0000
    ensures 0 <= point / 0x4_0000 < 5
    ensures point / 0x4_0000 * 0x4_0000 + point / 4096 % 64 * 4096 + point / 64 % 64 * 64 + point % 64 == point
  {
    assert point / 64 / 64 == point / 4096 && point / 4096 / 64 == point / 0x4_0000;
  }

  lemma SupplementDigits(lead: CodeUnit, trail: CodeUnit)
    requires IsLead(lead) && IsTrail(trail)
    ensures Supplement(lead, trail) / 1024 == lead - 0xD800
    ensures Supplement(lead, trail) % 1024 == trail - 0xDC00
  {
  }

  lemma DecodePair(lead: CodeUnit, trail: CodeUnit, rest: Bytes)
    requires IsLead(lead) && IsTrail(trail)
    ensures Decode(EncodePair(lead, trail) + rest) == [lead, trail] + Decode(rest)
  {
    PointDigits(0x1_0000 + Supplement(lead, trail));
    SupplementDigits(lead, trail);
  }

  /** Well-formed text survives the byte encoding. */
  lemma {:induction false} DecodeEncoded(t: Text)
    requires WellFormed(t)
    ensures Decode(Encode(t)) == t
  {
    if t != [] {
      if StartsWithPair(t) {
        DecodeEncoded(t[2..]);
        DecodePair(t[0], t[1], Encode(t[2..]));
      } else {
        DecodeEncoded(t[1..]);
        DecodeUnit(t[0], Encode(t[1..]));
      }
    }
  }

  lemma {:induction false} EncodedSize(t: Text)
    ensures |t| <= |Encode(t)| <= 3 * |t|
  {
    if t != [] {
      if StartsWithPair(t) { EncodedSize(t[2..]); } else { EncodedSize(t[1..]); }
    }
  }

  lemma {:induction false} WellFormedAppend(s: Text, t: Text)
    requires WellFormed(s) && WellFormed(t)
    ensures WellFormed(s + t)
  {
    if s == [] {
      assert s + t == t;
    } else if StartsWithPair(s) {
      WellFormedAppend(s[2..], t);
      assert (s + t)[2..] == s[2..] + t;
    } else {
      WellFormedAppend(s[1..], t);
      assert (s + t)[1..] == s[1..] + t;
    }
  }

  lemma {:induction false} AsciiIsWellFormed(t: Text)
    requires forall i :: 0 <= i < |t| ==> t[i] < 128
    ensures WellFormed(t)
  {
    if t != [] {
      AsciiIsWellFormed(t[1..]);
    }
  }

  /** Escaping leaves no lone surrogate. */
  lemma {:induction false} EscapedIsWellFormed(t: Text)
    ensures WellFormed(Escape(t))
  {
    if t != [] {
      if StartsWithPair(t) {
        EscapedIsWellFormed(t[2..]);
        assert t[..2][2..] == [];
        WellFormedAppend(t[..2], Escape(t[2..]));
      } else {
        EscapedIsWellFormed(t[1..]);
        if |EscapeUnit(t[0])| == 1 {
          assert EscapeUnit(t[0])[1..] == [];
        } else {
          AsciiIsWellFormed(EscapeUnit(t[0]));
        }
        WellFormedAppend(EscapeUnit(t[0]), Escape(t[1..]));
      }
    }
  }

  lemma QuotedIsWellFormed(t: Text)
    ensures WellFormed(Quote(t))
  {
    EscapedIsWellFormed(t);
    AsciiIsWellFormed([QUOTE]);
    WellFormedAppend([QUOTE], Escape(t));
    WellFormedAppend([QUOTE] + Escape(t), [QUOTE]);
  }
}
