/** What the canonical text, its bytes and its hash are, said without the printer. */
module CanonicalForm {
  import opened Outcomes
  import opened JsonText
  import opened JsonCanonical
  import opened CanonicalHash
  import JsonNumber
  import JsonNumberForm
  import JsonSpelling
  import Utf8
  import Utf8Form

  /** The code units of plain characters. */
  function Units(s: string): (t: Text)
    ensures |t| == |s|
  {
    if s == "" then [] else [if s[0] as int < 0x1_0000 then s[0] as int else 0] + Units(s[1..])
  }

  /** Texts with a comma between any two. */
  function Joined(parts: seq<Text>): Text {
    if parts == [] then [] else if |parts| == 1 then parts[0] else parts[0] + Units(",") + Joined(parts[1..])
  }

  /** A string between quotes, each code unit well spelled. */
  ghost predicate IsQuoted(s: Text, t: Text) {
    exists e :: JsonSpelling.Spells(e, s) && t == Units("\"") + e + Units("\"")
  }

  /** The defined members, each once, in the order of their keys. */
  ghost predicate InKeyOrder(entries: seq<Entry>, order: seq<Entry>) {
    (forall e :: e in order <==> e in entries && e.value != Undefined)
    && forall i, j :: 0 <= i < j < |order| ==> Before(order[i].key, order[j].key)
  }

  /** A text is the canonical text of a value. */
  ghost predicate IsTextOf(v: Value, t: Text)
    requires Regular(v)
    decreases v, 2
  {
    match v
    case Null => t == Units("null")
    case Bool(truth) => t == Units(if truth then "true" else "false")
    case String(s) => IsQuoted(s, t)
    case Numeric(x) => x.IsFinite() && JsonNumberForm.StandardText(x, t)
    case Array(items) => exists parts :: AreTextsOf(v, items, parts) && t == Units("[") + Joined(parts) + Units("]")
    case Object(entries) =>
      exists order, parts :: Lists(v, order, parts, t)
    case Undefined => false
    case Other => false
  }

  ghost predicate AreTextsOf(parent: Value, items: seq<Value>, parts: seq<Text>)
    requires forall i :: 0 <= i < |items| ==> items[i] < parent && Regular(items[i])
    decreases parent, 0
  {
    |parts| == |items| && forall i :: 0 <= i < |items| ==> IsTextOf(items[i], parts[i])
  }

  /** A listing of the members by key and their texts. */
  ghost predicate Lists(v: Value, order: seq<Entry>, parts: seq<Text>, t: Text)
    requires Regular(v) && v.Object?
    decreases v, 1
  {
    InKeyOrder(v.entries, order) && (forall e <- order :: e in v.entries && e.value < v && Regular(e.value))
    && AreMembers(v, order, parts) && t == Units("{") + Joined(parts) + Units("}")
  }

  ghost predicate AreMembers(parent: Value, order: seq<Entry>, parts: seq<Text>)
    requires forall e <- order :: e.value < parent && Regular(e.value)
    decreases parent, 0
  {
    |parts| == |order| && forall i :: 0 <= i < |order| ==> IsMember(order[i], parts[i])
  }

  ghost predicate IsMember(e: Entry, part: Text)
    requires Regular(e.value)
    decreases e.value, 3
  {
    exists key, value :: IsQuoted(e.key, key) && IsTextOf(e.value, value) && part == key + Units(":") + value
  }

  // ----- Strings and numbers -----

  lemma Letters()
    ensures Units("null") == NullText && Units("true") == TrueText && Units("false") == FalseText
  {
    assert "null"[1..] == "ull" && "ull"[1..] == "ll" && "ll"[1..] == "l";
    assert "true"[1..] == "rue" && "rue"[1..] == "ue" && "ue"[1..] == "e";
    assert "false"[1..] == "alse" && "alse"[1..] == "lse" && "lse"[1..] == "se" && "se"[1..] == "e";
    OneUnit('l');
    OneUnit('e');
  }

  lemma PrefixUnits()
    ensures Units("sha256:") == Prefix
  {
    assert "sha256:"[1..] == "ha256:" && "ha256:"[1..] == "a256:" && "a256:"[1..] == "256:";
    assert "256:"[1..] == "56:" && "56:"[1..] == "6:" && "6:"[1..] == ":";
    OneUnit(':');
  }

  lemma OneUnit(c: char)
    requires c as int < 0x1_0000
    ensures Units([c]) == [c as int]
  {
    assert [c][1..] == "";
  }

  lemma QuotedIff(s: Text, t: Text)
    ensures IsQuoted(s, t) <==> t == Quote(s)
  {
    OneUnit('"');
    JsonSpelling.PrintedTextIsTheOnly(Escape(s), s);
    if IsQuoted(s, t) {
      var e :| JsonSpelling.Spells(e, s) && t == Units("\"") + e + Units("\"");
      JsonSpelling.PrintedTextIsTheOnly(e, s);
    }
  }

  // ----- Order -----

  lemma {:induction false} AscendingIsBefore(es: seq<Entry>)
    requires Ascending(es)
    ensures forall i, j :: 0 <= i < j < |es| ==> Before(es[i].key, es[j].key)
  {
    if es != [] {
      AscendingIsBefore(es[1..]);
      forall i, j | 0 <= i < j < |es| ensures Before(es[i].key, es[j].key) {
        assert es[j] == es[1..][j - 1];
        if i == 0 { LessIsBefore(es[0].key, es[j].key); } else { assert es[i] == es[1..][i - 1]; }
      }
    }
  }

  lemma {:induction false} BeforeIsAscending(es: seq<Entry>)
    requires forall i, j :: 0 <= i < j < |es| ==> Before(es[i].key, es[j].key)
    ensures Ascending(es)
  {
    if es != [] {
      var later := es[1..];
      forall i | 0 <= i < |later| ensures later[i] == es[i + 1] && Less(es[0].key, later[i].key) {
        LessIsBefore(es[0].key, es[i + 1].key);
      }
      BeforeIsAscending(later);
    }
  }

  lemma SameFirst(a: seq<Entry>, b: seq<Entry>)
    requires a != [] && b != [] && Ascending(a) && Ascending(b) && forall e :: e in a <==> e in b
    ensures a[0] == b[0] && forall e :: e in a[1..] <==> e in b[1..]
  {
    assert a[0] in b && b[0] in a;
    if a[0] != b[0] {
      assert a[0] in b[1..] && b[0] in a[1..];
      LessIsAsymmetric(a[0].key, b[0].key);
    }
    forall e | e in a[1..] ensures e in b[1..] { assert e in b; LessIsAsymmetric(a[0].key, e.key); }
    forall e | e in b[1..] ensures e in a[1..] { assert e in a; LessIsAsymmetric(b[0].key, e.key); }
  }

  lemma {:induction false} SortedOnce(a: seq<Entry>, b: seq<Entry>)
    requires Ascending(a) && Ascending(b) && forall e :: e in a <==> e in b
    ensures a == b
  {
    if b != [] { assert b[0] in a; }
    if a != [] {
      assert a[0] in b;
      SameFirst(a, b);
      SortedOnce(a[1..], b[1..]);
    }
  }

  lemma CanonicalIsInOrder(entries: seq<Entry>)
    requires DistinctKeys(entries)
    ensures Ascending(Canonical(entries)) && InKeyOrder(entries, Canonical(entries))
  {
    DefinedStaysDistinct(entries);
    SortAscends(Defined(entries));
    AscendingIsBefore(Canonical(entries));
  }

  /** The sorted members are the only ones in key order. */
  lemma OrderIsTheOnly(entries: seq<Entry>, order: seq<Entry>)
    requires DistinctKeys(entries)
    ensures InKeyOrder(entries, order) <==> order == Canonical(entries)
  {
    CanonicalIsInOrder(entries);
    if InKeyOrder(entries, order) {
      BeforeIsAscending(order);
      SortedOnce(order, Canonical(entries));
    }
  }

  // ----- The printer meets the form -----

  lemma JoinedStep(first: Text, more: seq<Text>)
    ensures Joined([first] + more) == if more == [] then first else first + [COMMA] + Joined(more)
  {
    OneUnit(',');
    assert ([first] + more)[1..] == more;
  }

  lemma {:induction false} TextIsTheOnly(v: Value, t: Text)
    requires Regular(v)
    ensures IsTextOf(v, t) <==> Serialize(v) == Ok(t)
    decreases v, 2
  {
    match v
    case String(s) => QuotedIff(s, t);
    case Numeric(x) => if x.IsFinite() { JsonNumberForm.PrintIsTheOnly(x, t); }
    case Array(items) => ArrayIff(v, t);
    case Object(entries) => ObjectIff(v, t);
    case _ => Letters();
  }

  lemma {:induction false} ArrayIff(v: Value, t: Text)
    requires Regular(v) && v.Array?
    ensures IsTextOf(v, t) <==> Serialize(v) == Ok(t)
    decreases v, 1
  {
    OneUnit('[');
    OneUnit(']');
    if SerializeItems(v, v.items).Ok? {
      var parts := ItemsParts(v, v.items);
      assert AreTextsOf(v, v.items, parts);
    }
    if IsTextOf(v, t) {
      var parts :| AreTextsOf(v, v.items, parts) && t == Units("[") + Joined(parts) + Units("]");
      ItemsPrinted(v, v.items, parts);
    }
  }

  lemma {:induction false} ItemsParts(parent: Value, items: seq<Value>) returns (parts: seq<Text>)
    requires forall i :: 0 <= i < |items| ==> items[i] < parent && Regular(items[i])
    requires SerializeItems(parent, items).Ok?
    ensures AreTextsOf(parent, items, parts) && SerializeItems(parent, items) == Ok(Joined(parts))
    decreases parent, 0, |items|
  {
    parts := [];
    if items != [] {
      var first := Serialize(items[0]).value;
      TextIsTheOnly(items[0], first);
      var more := ItemsParts(parent, items[1..]);
      parts := [first] + more;
      JoinedStep(first, more);
      forall i | 0 <= i < |items| ensures IsTextOf(items[i], parts[i]) {
        if i > 0 { assert items[i] == items[1..][i - 1] && parts[i] == more[i - 1]; }
      }
    }
  }

  lemma {:induction false} ItemsPrinted(parent: Value, items: seq<Value>, parts: seq<Text>)
    requires forall i :: 0 <= i < |items| ==> items[i] < parent && Regular(items[i])
    requires AreTextsOf(parent, items, parts)
    ensures SerializeItems(parent, items) == Ok(Joined(parts))
    decreases parent, 0, |items|
  {
    if items != [] {
      var more := parts[1..];
      assert IsTextOf(items[0], parts[0]);
      TextIsTheOnly(items[0], parts[0]);
      forall i | 0 <= i < |items[1..]| ensures IsTextOf(items[1..][i], more[i]) {
        assert items[1..][i] == items[i + 1] && more[i] == parts[i + 1];
      }
      ItemsPrinted(parent, items[1..], more);
      assert parts == [parts[0]] + more;
      JoinedStep(parts[0], more);
    }
  }

  lemma {:induction false} ObjectIff(v: Value, t: Text)
    requires Regular(v) && v.Object?
    ensures IsTextOf(v, t) <==> Serialize(v) == Ok(t)
    decreases v, 1
  {
    if Serialize(v) == Ok(t) {
      var parts := MemberParts(v, Canonical(v.entries));
      PrintedLists(v, parts, t);
      assert Lists(v, Canonical(v.entries), parts, t);
    }
    if order, parts :| Lists(v, order, parts, t) {
      OrderIsTheOnly(v.entries, order);
      MembersPrinted(v, order, parts);
      PrintedLists(v, parts, t);
    }
  }

  lemma PrintedLists(v: Value, parts: seq<Text>, t: Text)
    requires Regular(v) && v.Object?
    requires SerializeMembers(v, Canonical(v.entries)) == Ok(Joined(parts))
    ensures Serialize(v) == Ok(t) <==> t == Units("{") + Joined(parts) + Units("}")
    ensures InKeyOrder(v.entries, Canonical(v.entries))
  {
    OneUnit('{');
    OneUnit('}');
    OrderIsTheOnly(v.entries, Canonical(v.entries));
  }

  lemma QuotedMember(e: Entry, key: Text, value: Text)
    requires IsQuoted(e.key, key)
    ensures key + Units(":") + value == Quote(e.key) + [COLON] + value
  {
    OneUnit(':');
    QuotedIff(e.key, key);
  }

  /** The text of one member. */
  lemma {:induction false} MemberIff(e: Entry, part: Text)
    requires Regular(e.value)
    ensures IsMember(e, part)
            <==> Serialize(e.value).Ok? && part == Quote(e.key) + [COLON] + Serialize(e.value).value
    decreases e.value, 3
  {
    if key, value :| IsQuoted(e.key, key) && IsTextOf(e.value, value) && part == key + Units(":") + value {
      QuotedMember(e, key, value);
      TextIsTheOnly(e.value, value);
    }
    if Serialize(e.value).Ok? {
      QuotedIff(e.key, Quote(e.key));
      QuotedMember(e, Quote(e.key), Serialize(e.value).value);
      TextIsTheOnly(e.value, Serialize(e.value).value);
    }
  }

  lemma MembersStep(parent: Value, es: seq<Entry>, part: Text, more: Text)
    requires es != [] && forall i :: 0 <= i < |es| ==> es[i].value < parent && Regular(es[i].value)
    requires Serialize(es[0].value).Ok? && part == Quote(es[0].key) + [COLON] + Serialize(es[0].value).value
    requires SerializeMembers(parent, es[1..]) == Ok(more)
    ensures SerializeMembers(parent, es) == Ok(if |es| == 1 then part else part + [COMMA] + more)
  {
    assert part + [] == part && part + [COMMA] + more == part + ([COMMA] + more);
  }

  lemma {:induction false} MemberParts(parent: Value, es: seq<Entry>) returns (parts: seq<Text>)
    requires forall i :: 0 <= i < |es| ==> es[i].value < parent && Regular(es[i].value)
    requires SerializeMembers(parent, es).Ok?
    ensures AreMembers(parent, es, parts) && SerializeMembers(parent, es) == Ok(Joined(parts))
    decreases parent, 0, |es|
  {
    parts := [];
    if es != [] {
      var first := Quote(es[0].key) + [COLON] + Serialize(es[0].value).value;
      MemberIff(es[0], first);
      var more := MemberParts(parent, es[1..]);
      parts := [first] + more;
      JoinedStep(first, more);
      MembersStep(parent, es, first, Joined(more));
      forall i | 0 < i < |es| ensures IsMember(es[i], parts[i]) {
        assert IsMember(es[1..][i - 1], more[i - 1]);
      }
    }
  }

  lemma {:induction false} MembersPrinted(parent: Value, es: seq<Entry>, parts: seq<Text>)
    requires forall i :: 0 <= i < |es| ==> es[i].value < parent && Regular(es[i].value)
    requires AreMembers(parent, es, parts)
    ensures SerializeMembers(parent, es) == Ok(Joined(parts))
    decreases parent, 0, |es|
  {
    if es != [] {
      var more := parts[1..];
      MemberIff(es[0], parts[0]);
      forall i | 0 <= i < |es[1..]| ensures IsMember(es[1..][i], more[i]) {
        assert es[1..][i] == es[i + 1] && more[i] == parts[i + 1];
      }
      MembersPrinted(parent, es[1..], more);
      assert parts == [parts[0]] + more;
      JoinedStep(parts[0], more);
      MembersStep(parent, es, parts[0], Joined(more));
    }
  }

  // ----- Bytes and hash -----

  /** Two lower-case hexadecimal digits, the high one first. */
  predicate IsHexByte(high: CodeUnit, low: CodeUnit, b: Utf8.Byte) {
    high == HEX[b / 16] as int && low == HEX[b % 16] as int
  }

  predicate IsHexOf(t: Text, b: Utf8.Bytes) {
    |t| == 2 * |b| && forall i :: 0 <= i < |b| ==> IsHexByte(t[2 * i], t[2 * i + 1], b[i])
  }

  lemma FirstHex(first: Utf8.Byte, rest: Text, b: Utf8.Bytes)
    requires IsHexOf(rest, b)
    ensures IsHexOf([HexDigit(first / 16), HexDigit(first % 16)] + rest, [first] + b)
  {
    HexIsLowerCase(first / 16);
    HexIsLowerCase(first % 16);
    var t, all := [HexDigit(first / 16), HexDigit(first % 16)] + rest, [first] + b;
    forall i | 0 < i < |all| ensures IsHexByte(t[2 * i], t[2 * i + 1], all[i]) {
      var k := i - 1;
      assert t[2 * i] == rest[2 * k] && t[2 * i + 1] == rest[2 * k + 1] && all[i] == b[k];
    }
  }

  lemma {:induction false} HexIsRead(b: Utf8.Bytes)
    ensures IsHexOf(HexText(b), b)
  {
    if b != [] {
      HexIsRead(b[1..]);
      FirstHex(b[0], HexText(b[1..]), b[1..]);
      assert b == [b[0]] + b[1..];
    }
  }

  /**
   * The hash is `sha256:` and the digest, in hexadecimal, of the one legal UTF-8 encoding of the one canonical text;
   * the size counts the bytes of that encoding.
   */
  lemma HashIsOfTheText(v: Value, digest: Utf8.Bytes -> Utf8.Bytes, t: Text, b: Utf8.Bytes)
    requires Regular(v) && IsTextOf(v, t)
    ensures Utf8Form.Legal(b) && Utf8.Decode(b) == t <==> b == Utf8.Encode(t)
    ensures var hash := CanonicalContentHash(v, digest);
            Utf8Form.Legal(b) && Utf8.Decode(b) == t ==>
              CanonicalContentByteSize(v) == Ok(|b|)
              && hash.Ok? && |hash.value| >= 7 && hash.value[..7] == Units("sha256:") && IsHexOf(hash.value[7..], digest(b))
  {
    PrefixUnits();
    TextIsTheOnly(v, t);
    SerializeSucceeds(v);
    TextIsWellFormed(v);
    Utf8Form.EncodingIsTheOnly(t, b);
    HexIsRead(digest(Utf8.Encode(t)));
    assert (Prefix + HexText(digest(Utf8.Encode(t))))[7..] == HexText(digest(Utf8.Encode(t)));
  }
}
