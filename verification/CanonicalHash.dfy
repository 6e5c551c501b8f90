/** Content identity: one text, one byte string and one hash per meaning. */
module CanonicalHash {
  import opened Outcomes
  import opened JsonText
  import opened JsonNumber
  import opened JsonCanonical
  import opened Utf8

  // ----- Equal meanings print alike -----

  ghost predicate Members(parent: Value, es: seq<Entry>) {
    Ascending(es)
    && forall i :: 0 <= i < |es| ==>
         es[i].value < parent && Regular(es[i].value) && Serializable(es[i].value)
  }

  lemma SameHead(p: Value, xs: seq<Entry>, q: Value, ys: seq<Entry>)
    requires Members(p, xs) && Members(q, ys) && xs != []
    requires MeaningMembers(p, xs) == MeaningMembers(q, ys)
    ensures ys != [] && xs[0].key == ys[0].key
  {
    assert xs[0].key in MeaningMembers(p, xs);
    MeaningKeys(q, ys, xs[0].key);
    MeaningKeys(p, xs, ys[0].key);
    assert ys[0].key in MeaningMembers(q, ys);
    var i :| 0 <= i < |ys| && ys[i].key == xs[0].key;
    var j :| 0 <= j < |xs| && xs[j].key == ys[0].key;
    if xs[0].key != ys[0].key {
      LessIsAsymmetric(ys[0].key, xs[0].key);
    }
  }

  lemma SameTail(p: Value, xs: seq<Entry>, q: Value, ys: seq<Entry>)
    requires Members(p, xs) && Members(q, ys) && xs != [] && ys != [] && xs[0].key == ys[0].key
    requires MeaningMembers(p, xs) == MeaningMembers(q, ys)
    ensures Meaning(xs[0].value) == Meaning(ys[0].value)
    ensures MeaningMembers(p, xs[1..]) == MeaningMembers(q, ys[1..])
  {
    var key := xs[0].key;
    HeadKeyIsFresh(p, xs);
    HeadKeyIsFresh(q, ys);
    SameRemainder(MeaningMembers(p, xs[1..]), MeaningMembers(q, ys[1..]), key, Meaning(xs[0].value),
                  Meaning(ys[0].value));
  }

  lemma SameRemainder(x: map<Text, Json>, y: map<Text, Json>, key: Text, a: Json, b: Json)
    requires key !in x && key !in y && x[key := a] == y[key := b]
    ensures a == b && x == y
  {
    assert x[key := a][key] == a && y[key := b][key] == b;
    assert x == x[key := a] - {key} && y == y[key := b] - {key};
  }

  lemma SameQuantity(x: Number, y: Number)
    requires x.IsFinite() && x.Valid() && y.IsFinite() && y.Valid() && Magnitude(x) == Magnitude(y)
    ensures Print(x) == Print(y)
  {
    PrintIsInjective(x, y);
  }

  lemma HeadAndTailItems(p: Value, xs: seq<Value>, q: Value, ys: seq<Value>)
    requires forall i :: 0 <= i < |xs| ==> xs[i] < p && Regular(xs[i]) && Serializable(xs[i])
    requires forall i :: 0 <= i < |ys| ==> ys[i] < q && Regular(ys[i]) && Serializable(ys[i])
    requires |xs| == |ys| > 0 && MeaningItems(p, xs) == MeaningItems(q, ys)
    ensures Meaning(xs[0]) == Meaning(ys[0])
    ensures MeaningItems(p, xs[1..]) == MeaningItems(q, ys[1..])
  {
    var mx, my := MeaningItems(p, xs), MeaningItems(q, ys);
    assert mx[0] == Meaning(xs[0]) && my[0] == Meaning(ys[0]);
    assert mx[1..] == MeaningItems(p, xs[1..]) && my[1..] == MeaningItems(q, ys[1..]);
  }

  lemma ItemsCongruence(p: Value, xs: seq<Value>, q: Value, ys: seq<Value>)
    requires forall i :: 0 <= i < |xs| ==> xs[i] < p && Regular(xs[i])
    requires forall i :: 0 <= i < |ys| ==> ys[i] < q && Regular(ys[i])
    requires |xs| == |ys| > 0 && Serialize(xs[0]) == Serialize(ys[0])
    requires SerializeItems(p, xs[1..]) == SerializeItems(q, ys[1..])
    ensures SerializeItems(p, xs) == SerializeItems(q, ys)
  {
  }

  lemma {:induction false} SameMeaningSameText(v: Value, w: Value)
    requires Regular(v) && Serializable(v) && Regular(w) && Serializable(w)
    requires Meaning(v) == Meaning(w)
    ensures Serialize(v) == Serialize(w)
    decreases v
  {
    match v
    case Numeric(x) => SameQuantity(x, w.number);
    case Array(items) => SameItems(v, items, w, w.items);
    case Object(entries) =>
      MeaningOfObject(v);
      MeaningOfObject(w);
      SameMembers(v, Canonical(entries), w, Canonical(w.entries));
    case _ =>
  }

  lemma {:induction false} SameItems(p: Value, xs: seq<Value>, q: Value, ys: seq<Value>)
    requires forall i :: 0 <= i < |xs| ==> xs[i] < p && Regular(xs[i]) && Serializable(xs[i])
    requires forall i :: 0 <= i < |ys| ==> ys[i] < q && Regular(ys[i]) && Serializable(ys[i])
    requires MeaningItems(p, xs) == MeaningItems(q, ys)
    ensures SerializeItems(p, xs) == SerializeItems(q, ys)
    decreases p, |xs|
  {
    assert |xs| == |MeaningItems(p, xs)| == |ys|;
    if xs != [] {
      HeadAndTailItems(p, xs, q, ys);
      SameMeaningSameText(xs[0], ys[0]);
      SameItems(p, xs[1..], q, ys[1..]);
      ItemsCongruence(p, xs, q, ys);
    }
  }

  lemma {:induction false} SameMembers(p: Value, xs: seq<Entry>, q: Value, ys: seq<Entry>)
    requires Members(p, xs) && Members(q, ys)
    requires MeaningMembers(p, xs) == MeaningMembers(q, ys)
    ensures |xs| == |ys| && SerializeMembers(p, xs) == SerializeMembers(q, ys)
    decreases p, |xs|
  {
    if xs == [] {
      if ys != [] {
        SameHead(q, ys, p, xs);
      }
    } else {
      SameHead(p, xs, q, ys);
      SameTail(p, xs, q, ys);
      SameMeaningSameText(xs[0].value, ys[0].value);
      SameMembers(p, xs[1..], q, ys[1..]);
    }
  }

  /** Two values print the same text exactly when they are equal up to the order of keys. */
  lemma TextIsFaithful(v: Value, w: Value)
    requires Regular(v) && Serializable(v) && Regular(w) && Serializable(w)
    ensures Serialize(v) == Serialize(w) <==> Meaning(v) == Meaning(w)
  {
    ParseSerialized(v, []);
    ParseSerialized(w, []);
    if Serialize(v) == Serialize(w) {
      assert Parsed(Meaning(v), []) == Parsed(Meaning(w), []) by {
        assert Serialize(v).value + [] == Serialize(w).value + [];
      }
    } else if Meaning(v) == Meaning(w) {
      SameMeaningSameText(v, w);
    }
  }

  // ----- Bytes and hash -----

  lemma {:induction false} NumberIsAscii(digits: seq<Digit>)
    ensures forall i :: 0 <= i < |Characters(digits)| ==> Characters(digits)[i] < 128
  {
    if digits != [] {
      NumberIsAscii(digits[1..]);
    }
  }

  lemma PrintedIsWellFormed(x: Number)
    requires x.IsFinite() && x.Valid()
    ensures WellFormed(Print(x))
  {
    var s := ShapeOf(x);
    NumberIsAscii(s.whole);
    NumberIsAscii(s.fraction);
    if s.exponent.Some? {
      NumberIsAscii(Decimals(if s.exponent.value < 0 then -s.exponent.value else s.exponent.value));
    }
    assert forall i :: 0 <= i < |RenderFraction(s.fraction)| ==> RenderFraction(s.fraction)[i] < 128;
    assert forall i :: 0 <= i < |RenderExponent(s.exponent)| ==> RenderExponent(s.exponent)[i] < 128;
    AsciiIsWellFormed(Print(x));
  }

  lemma {:induction false} TextIsWellFormed(v: Value)
    requires Regular(v) && Serializable(v)
    ensures Serialize(v).Ok? && WellFormed(Serialize(v).value)
    decreases v
  {
    SerializeSucceeds(v);
    match v
    case Numeric(x) => PrintedIsWellFormed(x);
    case String(text) => QuotedIsWellFormed(text);
    case Array(items) =>
      ItemsSucceed(v, items);
      ItemsAreWellFormed(v, items);
      Enclosed(OPEN_BRACKET, SerializeItems(v, items).value, CLOSE_BRACKET);
    case Object(entries) =>
      MeaningOfObject(v);
      MembersSucceed(v, Canonical(entries));
      MembersAreWellFormed(v, Canonical(entries));
      Enclosed(OPEN_BRACE, SerializeMembers(v, Canonical(entries)).value, CLOSE_BRACE);
    case Null => AsciiIsWellFormed(NullText);
    case Bool(truth) => AsciiIsWellFormed(if truth then TrueText else FalseText);
  }

  lemma Enclosed(open: CodeUnit, body: Text, close: CodeUnit)
    requires open < 128 && close < 128 && WellFormed(body)
    ensures WellFormed([open] + body + [close])
  {
    AsciiIsWellFormed([open]);
    AsciiIsWellFormed([close]);
    WellFormedAppend([open], body);
    WellFormedAppend([open] + body, [close]);
  }

  lemma Separated(left: Text, mark: CodeUnit, right: Text)
    requires mark < 128 && WellFormed(left) && WellFormed(right)
    ensures WellFormed(left + [mark] + right)
  {
    AsciiIsWellFormed([mark]);
    WellFormedAppend(left, [mark]);
    WellFormedAppend(left + [mark], right);
  }

  lemma {:induction false} ItemsAreWellFormed(p: Value, xs: seq<Value>)
    requires forall i :: 0 <= i < |xs| ==> xs[i] < p && Regular(xs[i]) && Serializable(xs[i])
    ensures SerializeItems(p, xs).Ok? && WellFormed(SerializeItems(p, xs).value)
    decreases p, |xs|
  {
    if xs != [] {
      TextIsWellFormed(xs[0]);
      ItemsAreWellFormed(p, xs[1..]);
      Separated(Serialize(xs[0]).value, COMMA, SerializeItems(p, xs[1..]).value);
    }
  }

  lemma MemberIsWellFormed(key: Text, first: Text, later: Text)
    requires WellFormed(key) && WellFormed(first) && WellFormed(later)
    ensures WellFormed(key + [COLON] + first + []) && WellFormed(key + [COLON] + first + ([COMMA] + later))
  {
    Separated(key, COLON, first);
    var member := key + [COLON] + first;
    Separated(member, COMMA, later);
    assert member + [] == member;
    assert member + ([COMMA] + later) == member + [COMMA] + later;
  }

  lemma {:induction false} MembersAreWellFormed(p: Value, es: seq<Entry>)
    requires Members(p, es)
    ensures SerializeMembers(p, es).Ok? && WellFormed(SerializeMembers(p, es).value)
    decreases p, |es|
  {
    if es != [] {
      TextIsWellFormed(es[0].value);
      MembersAreWellFormed(p, es[1..]);
      MembersUnfold(p, es);
      QuotedIsWellFormed(es[0].key);
      MemberIsWellFormed(Quote(es[0].key), Serialize(es[0].value).value, SerializeMembers(p, es[1..]).value);
    }
  }

  const Prefix: Text := [115, 104, 97, 50, 53, 54, 58]

  function HexText(bytes: Bytes): Text {
    if bytes == [] then []
    else [HexDigit(bytes[0] / 16), HexDigit(bytes[0] % 16)] + HexText(bytes[1..])
  }

  /** `sha256:` and the digest of the UTF-8 bytes in hexadecimal; the digest itself is a parameter. */
  function CanonicalContentHash(v: Value, digest: Bytes -> Bytes): Result<Text, Rejection>
    requires Regular(v)
  {
    var text :- Serialize(v);
    Ok(Prefix + HexText(digest(Encode(text))))
  }

  function CanonicalContentByteSize(v: Value): Result<nat, Rejection>
    requires Regular(v)
  {
    var text :- Serialize(v);
    Ok(|Encode(text)|)
  }

  ghost predicate Injective(digest: Bytes -> Bytes) {
    forall x, y :: digest(x) == digest(y) ==> x == y
  }

  lemma {:induction false} HexTextIsInjective(x: Bytes, y: Bytes)
    requires HexText(x) == HexText(y)
    ensures x == y
  {
    assert |x| == 0 <==> |HexText(x)| == 0;
    assert |y| == 0 <==> |HexText(y)| == 0;
    if x != [] {
      var hx, hy := HexText(x), HexText(y);
      assert hx[2..] == HexText(x[1..]) && hy[2..] == HexText(y[1..]);
      HexTextIsInjective(x[1..], y[1..]);
      HexRoundTrip(x[0] / 16);
      HexRoundTrip(y[0] / 16);
      HexRoundTrip(x[0] % 16);
      HexRoundTrip(y[0] % 16);
      assert HexValue(hx[0]) == HexValue(hy[0]) && HexValue(hx[1]) == HexValue(hy[1]);
      assert x[0] == x[0] / 16 * 16 + x[0] % 16 && y[0] == y[0] / 16 * 16 + y[0] % 16;
      assert x == [x[0]] + x[1..] && y == [y[0]] + y[1..];
    }
  }

  /** Hash equality is equality of content: key order and undefined members never matter, all else does. */
  lemma HashIdentifiesContent(v: Value, w: Value, digest: Bytes -> Bytes)
    requires Regular(v) && Serializable(v) && Regular(w) && Serializable(w)
    requires Injective(digest)
    ensures CanonicalContentHash(v, digest).Ok? && CanonicalContentHash(w, digest).Ok?
    ensures CanonicalContentHash(v, digest) == CanonicalContentHash(w, digest) <==> Meaning(v) == Meaning(w)
  {
    TextIsFaithful(v, w);
    TextIsWellFormed(v);
    TextIsWellFormed(w);
    var x, y := Serialize(v).value, Serialize(w).value;
    if CanonicalContentHash(v, digest) == CanonicalContentHash(w, digest) {
      var hx, hy := HexText(digest(Encode(x))), HexText(digest(Encode(y)));
      assert (Prefix + hx)[|Prefix|..] == hx && (Prefix + hy)[|Prefix|..] == hy;
      HexTextIsInjective(digest(Encode(x)), digest(Encode(y)));
      DecodeEncoded(x);
      DecodeEncoded(y);
    }
  }

  /** A value has a hash and a size exactly when no number is infinite and no part is unsupported. */
  lemma HashExists(v: Value, digest: Bytes -> Bytes)
    requires Regular(v)
    ensures CanonicalContentHash(v, digest).Ok? <==> Serializable(v)
    ensures CanonicalContentByteSize(v).Ok? <==> Serializable(v)
    ensures Serializable(v) ==>
              |Serialize(v).value| <= CanonicalContentByteSize(v).value <= 3 * |Serialize(v).value|
  {
    SerializeSucceeds(v);
    if Serializable(v) {
      EncodedSize(Serialize(v).value);
    }
  }
}
