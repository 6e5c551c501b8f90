/** Import items as they are hashed, and the replacement of one that is too large for a batch. */
module ImportItems {
  import opened Outcomes
  import opened JsonText
  import opened JsonNumber
  import opened JsonCanonical
  import JsonNumberForm
  import CanonicalHash
  import Utf8
  import ImportBatches

  const MIN_BATCH_BYTES := 1024

  /** The hashable content of an item is a JSON object; `ends`: an unrecoverable issue. */
  datatype DecodedItem = DecodedItem(number: nat, hashable: Value, ends: bool)

  predicate Acceptable(item: DecodedItem) {
    Regular(item.hashable) && Serializable(item.hashable)
  }

  function ByteSize(v: Value): nat
    requires Regular(v) && Serializable(v)
  {
    SerializeSucceeds(v);
    CanonicalHash.CanonicalContentByteSize(v).value
  }

  // ----- The replacement issue -----

  function Ascii(s: string): (t: Text)
    ensures |t| == |s|
  {
    seq(|s|, i requires 0 <= i < |s| => if s[i] as int < 0x1_0000 then s[i] as int else 63)
  }

  function Digits(n: nat): (d: seq<Digit>)
    ensures n > 0 ==> d != [] && d[0] != 0
    ensures n == 0 ==> d == []
  {
    if n == 0 then [] else Digits(n / 10) + [n % 10]
  }

  function DropTrailingZeros(d: seq<Digit>): (r: seq<Digit>)
    ensures |r| <= |d| && (r != [] ==> r[|r| - 1] != 0)
    ensures d != [] && d[0] != 0 ==> r != [] && r[0] == d[0]
  {
    if d != [] && d[|d| - 1] == 0 then DropTrailingZeros(d[..|d| - 1]) else d
  }

  function Natural(n: nat): (x: Number)
    ensures x.IsFinite() && x.Valid()
  {
    if n == 0 then Zero(false) else Decimal(false, DropTrailingZeros(Digits(n)), |Digits(n)|)
  }

  function TextMember(key: string, text: string): Entry {
    Entry(Ascii(key), String(Ascii(text)))
  }

  const OversizedMembers: seq<Entry> :=
    [TextMember("code", "record-domain-invalid"),
     TextMember("message", OversizedMessage),
     Entry(Ascii("recoverable"), Bool(false)),
     TextMember("scope", "record")]

  const OversizedIssue: Value := Object(OversizedMembers)

  /** The members of an issue item, in key order. */
  function IssueMembers(issue: Value, number: nat): seq<Entry> {
    [Entry(Ascii("issue"), issue), Entry(Ascii("itemNumber"), Numeric(Natural(number))), TextMember("kind", "issue")]
  }

  function Replacement(number: nat): DecodedItem {
    DecodedItem(number, Object(IssueMembers(OversizedIssue, number)), true)
  }

  // ----- Its size -----

  predicate PlainText(t: Text) {
    forall i :: 0 <= i < |t| ==> 32 <= t[i] < 127 && t[i] != QUOTE && t[i] != BACKSLASH
  }

  lemma {:induction false} PlainEscape(t: Text)
    requires PlainText(t)
    ensures |Escape(t)| == |t|
  {
    if t != [] {
      PlainEscape(t[1..]);
    }
  }

  lemma {:induction false} SortedStays(es: seq<Entry>)
    requires Ascending(es) && forall i :: 0 <= i < |es| ==> es[i].value != Undefined
    ensures Canonical(es) == es
  {
    if es != [] {
      SortedStays(es[1..]);
      if |es| > 1 {
        assert es[1] in es[1..];
      }
      assert [es[0]] + es[1..] == es;
    }
  }

  lemma MemberLength(parent: Value, es: seq<Entry>)
    requires es != []
    requires forall i :: 0 <= i < |es| ==>
               es[i].value < parent && Regular(es[i].value) && Serializable(es[i].value)
    ensures SerializeMembers(parent, es).Ok? && Serialize(es[0].value).Ok? && SerializeMembers(parent, es[1..]).Ok?
    ensures |SerializeMembers(parent, es).value| == |Quote(es[0].key)| + 1 + |Serialize(es[0].value).value|
              + if |es| == 1 then 0 else 1 + |SerializeMembers(parent, es[1..]).value|
  {
    MembersUnfold(parent, es);
  }

  ghost predicate MembersReady(parent: Value, es: seq<Entry>) {
    forall i :: 0 <= i < |es| ==>
      es[i].value < parent && Regular(es[i].value) && Serializable(es[i].value)
  }

  lemma MemberText(parent: Value, es: seq<Entry>)
    requires es != [] && MembersReady(parent, es)
    ensures SerializeMembers(parent, es).Ok? && Serialize(es[0].value).Ok? && SerializeMembers(parent, es[1..]).Ok?
    ensures |SerializeMembers(parent, es).value| == EntryLength(es[0])
              + if |es| == 1 then 0 else 1 + |SerializeMembers(parent, es[1..]).value|
    ensures MembersReady(parent, es[1..])
  {
    MemberLength(parent, es);
  }

  function EntryLength(e: Entry): nat
    requires Regular(e.value) && Serializable(e.value)
  {
    SerializeSucceeds(e.value);
    |Quote(e.key)| + 1 + |Serialize(e.value).value|
  }

  lemma ThreeLength(parent: Value, es: seq<Entry>)
    requires |es| == 3 && MembersReady(parent, es)
    ensures SerializeMembers(parent, es).Ok?
    ensures |SerializeMembers(parent, es).value| == EntryLength(es[0]) + EntryLength(es[1]) + EntryLength(es[2]) + 2
  {
    MemberText(parent, es);
    MemberText(parent, es[1..]);
    assert es[1..][1..] == es[2..];
    MemberText(parent, es[2..]);
  }

  lemma FourLength(parent: Value, es: seq<Entry>)
    requires |es| == 4 && MembersReady(parent, es)
    ensures SerializeMembers(parent, es).Ok?
    ensures |SerializeMembers(parent, es).value|
         == EntryLength(es[0]) + EntryLength(es[1]) + EntryLength(es[2]) + EntryLength(es[3]) + 3
  {
    MemberText(parent, es);
    ThreeLength(parent, es[1..]);
  }

  lemma QuotedLength(s: string)
    requires PlainText(Ascii(s))
    ensures |Quote(Ascii(s))| == |s| + 2
  {
    PlainEscape(Ascii(s));
  }

  lemma PlainParts(s: string, t: string)
    requires PlainText(Ascii(s)) && PlainText(Ascii(t))
    ensures PlainText(Ascii(s + t))
  {
    assert Ascii(s + t) == Ascii(s) + Ascii(t);
  }

  const OversizedMessage := "The normalized record " + "exceeds the configured " + "import batch limit."

  lemma MessageIsPlain()
    ensures PlainText(Ascii(OversizedMessage)) && |OversizedMessage| <= 70
  {
    PlainParts("The normalized record ", "exceeds the configured ");
    PlainParts("The normalized record " + "exceeds the configured ", "import batch limit.");
  }

  lemma KeysArePlain()
    ensures PlainText(Ascii("code")) && PlainText(Ascii("message")) && PlainText(Ascii("recoverable"))
    ensures PlainText(Ascii("scope")) && PlainText(Ascii("record")) && PlainText(Ascii("issue"))
    ensures PlainText(Ascii("itemNumber")) && PlainText(Ascii("kind")) && PlainText(Ascii("record-domain-invalid"))
  {
    ItemKeysArePlain();
    LongKeysArePlain();
  }

  lemma ItemKeysArePlain()
    ensures PlainText(Ascii("code")) && PlainText(Ascii("scope")) && PlainText(Ascii("record"))
    ensures PlainText(Ascii("issue")) && PlainText(Ascii("kind"))
  {
  }

  lemma LongKeysArePlain()
    ensures PlainText(Ascii("message")) && PlainText(Ascii("recoverable"))
    ensures PlainText(Ascii("itemNumber")) && PlainText(Ascii("record-domain-invalid"))
  {
  }

  lemma AscendingCons(e: Entry, es: seq<Entry>)
    requires Ascending(es) && (es != [] ==> Less(e.key, es[0].key))
    ensures Ascending([e] + es)
  {
    assert ([e] + es)[1..] == es;
    forall x | x in es ensures Less(e.key, x.key) {
      if x in es[1..] {
        LessIsTransitive(e.key, es[0].key, x.key);
      }
    }
  }

  lemma {:induction false} AscendingIsDistinct(es: seq<Entry>)
    requires Ascending(es)
    ensures DistinctKeys(es)
  {
    if es != [] {
      AscendingIsDistinct(es[1..]);
      forall e | e in es[1..] ensures e.key != es[0].key {
        LessIsAsymmetric(es[0].key, e.key);
      }
    }
  }

  lemma IssueIsAscending()
    ensures Ascending(OversizedMembers) && DistinctKeys(OversizedMembers)
  {
    var es := OversizedMembers;
    assert es[3..] == [es[3]] + [];
    assert es[2..] == [es[2]] + es[3..];
    assert es[1..] == [es[1]] + es[2..];
    assert es == [es[0]] + es[1..];
    AscendingCons(es[3], []);
    AscendingCons(es[2], es[3..]);
    AscendingCons(es[1], es[2..]);
    AscendingCons(es[0], es[1..]);
    AscendingIsDistinct(es);
  }

  lemma IssueIsAcceptable()
    ensures Regular(OversizedIssue) && Serializable(OversizedIssue) && Canonical(OversizedMembers) == OversizedMembers
  {
    IssueIsAscending();
    SimpleObject(OversizedMembers);
    SortedStays(OversizedMembers);
  }

  lemma SimpleObject(es: seq<Entry>)
    requires DistinctKeys(es)
    requires forall i :: 0 <= i < |es| ==> es[i].value.String? || es[i].value.Bool?
    ensures Regular(Object(es)) && Serializable(Object(es))
    ensures forall i :: 0 <= i < |es| ==> es[i].value != Undefined
  {
  }

  lemma IssueLength()
    ensures Regular(OversizedIssue) && Serializable(OversizedIssue)
    ensures Serialize(OversizedIssue).Ok? && |Serialize(OversizedIssue).value| <= 175
  {
    IssueIsAcceptable();
    SerializeSucceeds(OversizedIssue);
    MembersLength4();
  }

  lemma OversizedReady()
    requires Regular(OversizedIssue) && Serializable(OversizedIssue)
    ensures |OversizedMembers| == 4 && MembersReady(OversizedIssue, OversizedMembers)
  {
  }

  lemma MembersLength4()
    requires Regular(OversizedIssue) && Serializable(OversizedIssue)
    ensures SerializeMembers(OversizedIssue, OversizedMembers).Ok?
    ensures |SerializeMembers(OversizedIssue, OversizedMembers).value| <= 170
  {
    CodeLength();
    MessageLength();
    LastLengths();
    OversizedReady();
    FourLength(OversizedIssue, OversizedMembers);
  }

  lemma CodeLength()
    ensures EntryLength(OversizedMembers[0]) == 6 + 1 + 23
  {
    KeysArePlain();
    QuotedLength("code");
    QuotedLength("record-domain-invalid");
  }

  lemma MessageLength()
    ensures EntryLength(OversizedMembers[1]) <= 9 + 1 + 72
  {
    KeysArePlain();
    MessageIsPlain();
    QuotedLength("message");
    QuotedLength(OversizedMessage);
  }

  lemma LastLengths()
    ensures EntryLength(OversizedMembers[2]) == 13 + 1 + 5
    ensures EntryLength(OversizedMembers[3]) == 7 + 1 + 8
  {
    KeysArePlain();
    QuotedLength("recoverable");
    QuotedLength("scope");
    QuotedLength("record");
  }

  lemma {:induction false} DigitsLength(n: nat, limit: nat, k: nat)
    requires limit == Power10(k) && n < limit
    ensures |Digits(n)| <= k
    decreases k
  {
    if n > 0 {
      DigitsLength(n / 10, limit / 10, k - 1);
    }
  }

  function Power10(k: nat): (p: nat)
    ensures p > 0
  {
    if k == 0 then 1 else 10 * Power10(k - 1)
  }

  lemma {:induction false} CharactersLength(d: seq<Digit>)
    ensures |Characters(d)| == |d|
  {
    if d != [] {
      CharactersLength(d[1..]);
    }
  }

  /** An item number prints as its digits: at most sixteen for a safe integer. */
  lemma NumberLength(n: nat)
    requires n < Power10(16)
    ensures |Print(Natural(n))| <= 16
  {
    DigitsLength(n, Power10(16), 16);
    var s := ShapeOf(Natural(n));
    CharactersLength(s.whole);
    assert s.fraction == [] && s.exponent.None? && !s.negative;
    assert |s.whole| <= 16;
  }

  lemma ReplacementIsAscending(issue: Value, number: nat)
    ensures Ascending(IssueMembers(issue, number)) && DistinctKeys(IssueMembers(issue, number))
  {
    var es := IssueMembers(issue, number);
    assert Less(Ascii("issue"), Ascii("itemNumber")) by {
      assert Ascii("issue")[0] == Ascii("itemNumber")[0];
      assert Ascii("issue")[1..][0] < Ascii("itemNumber")[1..][0];
    }
    assert es[2..] == [es[2]] + [];
    assert es[1..] == [es[1]] + es[2..];
    assert es == [es[0]] + es[1..];
    AscendingCons(es[2], []);
    AscendingCons(es[1], es[2..]);
    AscendingCons(es[0], es[1..]);
    AscendingIsDistinct(es);
  }

  lemma IssueItemIsAcceptable(issue: Value, number: nat)
    requires Regular(issue) && Serializable(issue) && issue != Undefined
    ensures Regular(Object(IssueMembers(issue, number))) && Serializable(Object(IssueMembers(issue, number)))
    ensures Canonical(IssueMembers(issue, number)) == IssueMembers(issue, number)
  {
    var es := IssueMembers(issue, number);
    ReplacementIsAscending(issue, number);
    SortedStays(es);
  }

  lemma IssueItemLengths(issue: Value, number: nat)
    requires Regular(issue) && Serializable(issue) && number < Power10(16)
    ensures var es := IssueMembers(issue, number);
            Serialize(issue).Ok? && EntryLength(es[0]) == 8 + |Serialize(issue).value|
            && EntryLength(es[1]) <= 29 && EntryLength(es[2]) == 14
  {
    KeysArePlain();
    QuotedLength("issue");
    QuotedLength("itemNumber");
    QuotedLength("kind");
    NumberLength(number);
    SerializeSucceeds(issue);
  }

  lemma ObjectOfThree(es: seq<Entry>)
    requires |es| == 3 && Canonical(es) == es && Regular(Object(es)) && Serializable(Object(es))
    ensures Serialize(Object(es)).Ok?
    ensures |Serialize(Object(es)).value| == EntryLength(es[0]) + EntryLength(es[1]) + EntryLength(es[2]) + 4
  {
    SerializeSucceeds(Object(es));
    ThreeLength(Object(es), es);
  }

  lemma ReplacementLength(number: nat)
    requires number < Power10(16)
    ensures Acceptable(Replacement(number))
    ensures Serialize(Replacement(number).hashable).Ok? && |Serialize(Replacement(number).hashable).value| <= 260
  {
    IssueLength();
    IssueItemIsAcceptable(OversizedIssue, number);
    IssueItemLengths(OversizedIssue, number);
    ObjectOfThree(IssueMembers(OversizedIssue, number));
  }

  // ----- Its number -----

  lemma {:induction false} ValueAppend(a: seq<Digit>, d: Digit, k: int)
    ensures JsonNumberForm.ValueAt(a + [d], k)
         == JsonNumberForm.ValueAt(a, k) + JsonNumberForm.Times(d, JsonNumberForm.Scale(k - |a|))
    decreases |a|
  {
    if a == [] {
      assert [] + [d] == [d] && [d][1..] == [];
    } else {
      assert (a + [d])[1..] == a[1..] + [d];
      ValueAppend(a[1..], d, k - 1);
    }
  }

  lemma {:induction false} TimesTen(d: nat, p: real)
    ensures JsonNumberForm.Times(d, 10.0 * p) == 10.0 * JsonNumberForm.Times(d, p)
    ensures JsonNumberForm.Times(d, 1.0) == d as real
  {
    if d > 0 { TimesTen(d - 1, p); }
  }

  lemma {:induction false} ValueTenfold(a: seq<Digit>, k: int)
    ensures JsonNumberForm.ValueAt(a, k + 1) == 10.0 * JsonNumberForm.ValueAt(a, k)
    decreases |a|
  {
    if a != [] {
      JsonNumberForm.ScaleStep(k);
      TimesTen(a[0], JsonNumberForm.Scale(k));
      ValueTenfold(a[1..], k - 1);
    }
  }

  lemma {:induction false} DigitsValue(n: nat)
    ensures JsonNumberForm.ValueAt(Digits(n), |Digits(n)| - 1) == n as real
  {
    if n > 0 {
      var front := Digits(n / 10);
      DigitsValue(n / 10);
      ValueAppend(front, n % 10, |front|);
      ValueTenfold(front, |front| - 1);
      TimesTen(n % 10, 1.0);
      assert n == 10 * (n / 10) + n % 10;
    }
  }

  lemma {:induction false} DroppedZerosCountNothing(d: seq<Digit>, k: int)
    ensures JsonNumberForm.ValueAt(DropTrailingZeros(d), k) == JsonNumberForm.ValueAt(d, k)
    decreases |d|
  {
    if d != [] && d[|d| - 1] == 0 {
      var front := d[..|d| - 1];
      assert d == front + [0];
      ValueAppend(front, 0, k);
      DroppedZerosCountNothing(front, k);
    }
  }

  /** The replacement of an item is an issue that carries the number of that item. */
  lemma ReplacementNamesItem(number: nat)
    ensures Replacement(number).number == number && Replacement(number).ends
    ensures exists x ::
              Entry(Ascii("itemNumber"), Numeric(x)) in Replacement(number).hashable.entries && x.IsFinite()
              && (if number == 0 then x.Zero? else x.Decimal? && !x.negative && JsonNumberForm.Value(x) == number as real)
  {
    var x := Natural(number);
    assert IssueMembers(OversizedIssue, number)[1] == Entry(Ascii("itemNumber"), Numeric(x));
    DigitsValue(number);
    DroppedZerosCountNothing(Digits(number), |Digits(number)| - 1);
  }

  // ----- Bounding -----

  function BoundedItem(item: DecodedItem, maxBytes: nat): (r: DecodedItem)
    requires Acceptable(item)
    ensures Acceptable(r)
  {
    IssueIsAcceptable();
    IssueItemIsAcceptable(OversizedIssue, item.number);
    if ByteSize(item.hashable) <= maxBytes then item else Replacement(item.number)
  }

  /** Every bounded item fits a batch: the replacement is always smaller than the smallest batch limit. */
  lemma BoundedItemFits(item: DecodedItem, maxBytes: nat)
    requires Acceptable(item) && maxBytes >= MIN_BATCH_BYTES && item.number < Power10(16)
    ensures var b := BoundedItem(item, maxBytes);
            ByteSize(b.hashable) <= maxBytes && b.number == item.number
            && (b != item ==> b.ends && ByteSize(item.hashable) > maxBytes)
  {
    ReplacementLength(item.number);
    Utf8.EncodedSize(Serialize(Replacement(item.number).hashable).value);
  }

  /** The item as the batches hold it. */
  function Batched(item: DecodedItem, maxBytes: nat): ImportBatches.Item
    requires Acceptable(item)
  {
    var b := BoundedItem(item, maxBytes);
    SerializeSucceeds(b.hashable);
    ImportBatches.Item(item.number, ByteSize(b.hashable), Serialize(b.hashable).value, b.ends)
  }

  /** Decoded items, once bounded, meet the byte limit the batching asks for, one by one. */
  lemma BatchedItemsFit(decoded: seq<DecodedItem>, batched: seq<ImportBatches.Item>, l: ImportBatches.Limits)
    requires l.maxBytes >= MIN_BATCH_BYTES && |batched| == |decoded| < Power10(16)
    requires forall i :: 0 <= i < |decoded| ==>
               Acceptable(decoded[i]) && decoded[i].number == i + 1 && batched[i] == Batched(decoded[i], l.maxBytes)
    ensures ImportBatches.EachFits(l, batched)
    ensures forall i :: 0 <= i < |batched| ==> batched[i].number == i + 1
  {
    forall i | 0 <= i < |batched| ensures batched[i].bytes <= l.maxBytes {
      BoundedItemFits(decoded[i], l.maxBytes);
    }
  }
}
