/** The bytes of a text are the only legal UTF-8 that decodes to it. */
module Utf8Form {
  import opened JsonText
  import opened Utf8

  predicate Tail(b: Byte) {
    0x80 <= b < 0xC0
  }

  /** How many bytes the first character takes, by the table of RFC 3629, section 4; nought if it is illegal. */
  function FirstLength(b: Bytes): (n: nat)
    ensures n <= |b|
  {
    if |b| >= 1 && b[0] < 0x80 then 1
    else if |b| >= 2 && 0xC2 <= b[0] < 0xE0 && Tail(b[1]) then 2
    else if |b| >= 3 && 0xE0 <= b[0] < 0xF0 && Tail(b[1]) && Tail(b[2])
            && (b[0] == 0xE0 ==> b[1] >= 0xA0) && (b[0] == 0xED ==> b[1] < 0xA0) then 3
    else if |b| >= 4 && 0xF0 <= b[0] < 0xF5 && Tail(b[1]) && Tail(b[2]) && Tail(b[3])
            && (b[0] == 0xF0 ==> b[1] >= 0x90) && (b[0] == 0xF4 ==> b[1] < 0x90) then 4
    else 0
  }

  predicate Legal(b: Bytes) {
    b == [] || (FirstLength(b) > 0 && Legal(b[FirstLength(b)..]))
  }

  lemma UnitIsLegal(u: CodeUnit, rest: Bytes)
    requires !IsLead(u) && !IsTrail(u)
    ensures FirstLength(EncodeUnit(u) + rest) == |EncodeUnit(u)|
  {
  }

  lemma PairIsLegal(lead: CodeUnit, trail: CodeUnit, rest: Bytes)
    requires IsLead(lead) && IsTrail(trail)
    ensures FirstLength(EncodePair(lead, trail) + rest) == 4
  {
    var point := 0x1_0000 + Supplement(lead, trail);
    assert point / 0x4_0000 == 0 ==> point / 4096 % 64 >= 16;
    assert point / 0x4_0000 == 4 ==> point / 4096 % 64 < 16;
  }

  lemma {:induction false} EncodedIsLegal(t: Text)
    requires WellFormed(t)
    ensures Legal(Encode(t))
  {
    if t != [] {
      if StartsWithPair(t) {
        EncodedIsLegal(t[2..]);
        PairIsLegal(t[0], t[1], Encode(t[2..]));
      } else {
        EncodedIsLegal(t[1..]);
        UnitIsLegal(t[0], Encode(t[1..]));
      }
    }
  }

  lemma UnitWasEncoded(b: Bytes)
    requires 0 < FirstLength(b) < 4
    ensures var t := Decode(b); var n := FirstLength(b);
            t != [] && 0 <= t[0] < 0x1_0000 && !IsLead(t[0]) && !IsTrail(t[0])
            && EncodeUnit(t[0]) == b[..n] && t[1..] == Decode(b[n..])
  {
  }

  lemma PairWasEncoded(b: Bytes)
    requires FirstLength(b) == 4
    ensures var t := Decode(b);
            |t| >= 2 && IsLead(t[0]) && IsTrail(t[1]) && EncodePair(t[0], t[1]) == b[..4] && t[2..] == Decode(b[4..])
  {
    var x := PointOf(b[0], b[1], b[2], b[3]);
    FromDigits(b[0] - 240, b[1] - 128, b[2] - 128, b[3] - 128);
    assert 0x1_0000 <= x < 0x11_0000;
    var y := x - 0x1_0000;
    assert y / 1024 * 1024 + y % 1024 == y;
    assert Supplement(0xD800 + y / 1024, 0xDC00 + y % 1024) == y;
  }

  lemma FromDigits(a: nat, b: nat, c: nat, d: nat)
    requires b < 64 && c < 64 && d < 64
    ensures var x := a * 0x4_0000 + b * 4096 + c * 64 + d;
            x / 0x4_0000 == a && x / 4096 % 64 == b && x / 64 % 64 == c && x % 64 == d
  {
    var x := a * 0x4_0000 + b * 4096 + c * 64 + d;
    assert x / 64 == a * 4096 + b * 64 + c;
    assert x / 4096 == a * 64 + b;
  }

  lemma {:induction false} DecodedWasEncoded(b: Bytes, t: Text)
    requires Legal(b) && Decode(b) == t
    ensures b == Encode(t)
    decreases |b|
  {
    if b != [] {
      var n := FirstLength(b);
      assert b == b[..n] + b[n..];
      if n == 4 {
        PairWasEncoded(b);
        DecodedWasEncoded(b[n..], t[2..]);
      } else {
        UnitWasEncoded(b);
        DecodedWasEncoded(b[n..], t[1..]);
      }
    }
  }

  /** Well-formed text has one legal encoding, and that is the one the program hashes. */
  lemma EncodingIsTheOnly(t: Text, b: Bytes)
    requires WellFormed(t)
    ensures Legal(b) && Decode(b) == t <==> b == Encode(t)
  {
    EncodedIsLegal(t);
    DecodeEncoded(t);
    if Legal(b) && Decode(b) == t { DecodedWasEncoded(b, t); }
  }
}
