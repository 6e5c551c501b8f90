/** The canonical JSON text of a value, and the reader that shows it is unambiguous. */
module JsonCanonical {
  import opened Outcomes
  import opened JsonText
  import opened JsonNumber

  const COMMA: CodeUnit := 44
  const COLON: CodeUnit := 58
  const OPEN_BRACKET: CodeUnit := 91
  const CLOSE_BRACKET: CodeUnit := 93
  const OPEN_BRACE: CodeUnit := 123
  const CLOSE_BRACE: CodeUnit := 125
  const NullText: Text := [110, 117, 108, 108]
  const TrueText: Text := [116, 114, 117, 101]
  const FalseText: Text := [102, 97, 108, 115, 101]

  /** A JavaScript value; `Other` stands for a bigint, a symbol or a function. */
  datatype Value =
    | Null
    | Bool(truth: bool)
    | Numeric(number: Number)
    | String(text: Text)
    | Array(items: seq<Value>)
    | Object(entries: seq<Entry>)
    | Undefined
    | Other

  datatype Entry = Entry(key: Text, value: Value)

  datatype Rejection = NonFiniteNumber | UnsupportedType

  /** What a JSON text denotes: objects are maps, so the order of keys is gone. */
  datatype Json =
    | JNull
    | JBool(truth: bool)
    | JNumber(quantity: Quantity)
    | JString(text: Text)
    | JArray(items: seq<Json>)
    | JObject(members: map<Text, Json>)

  // ----- Serialization -----

  function Defined(es: seq<Entry>): (r: seq<Entry>)
    ensures forall e :: e in r <==> e in es && e.value != Undefined
  {
    if es == [] then []
    else if es[0].value == Undefined then Defined(es[1..])
    else [es[0]] + Defined(es[1..])
  }

  function Insert(e: Entry, es: seq<Entry>): (r: seq<Entry>)
    ensures forall x :: x in r <==> x == e || x in es
  {
    if es == [] || CompareKeys(e.key, es[0].key) <= 0 then [e] + es
    else [es[0]] + Insert(e, es[1..])
  }

  function SortByKey(es: seq<Entry>): (r: seq<Entry>)
    ensures forall x :: x in r <==> x in es
  {
    if es == [] then [] else Insert(es[0], SortByKey(es[1..]))
  }

  function Canonical(es: seq<Entry>): (r: seq<Entry>)
    ensures forall e :: e in r <==> e in es && e.value != Undefined
  {
    SortByKey(Defined(es))
  }

  /** The recursive printer; `Object` entries with an undefined value are dropped. */
  function Serialize(v: Value): Result<Text, Rejection>
    requires Regular(v)
    decreases v
  {
    match v
    case Null => Ok(NullText)
    case Bool(truth) => Ok(if truth then TrueText else FalseText)
    case String(text) => Ok(Quote(text))
    case Numeric(x) => if x.IsFinite() then Ok(Print(x)) else Err(NonFiniteNumber)
    case Array(items) =>
      var body :- SerializeItems(v, items);
      Ok([OPEN_BRACKET] + body + [CLOSE_BRACKET])
    case Object(entries) =>
      var body :- SerializeMembers(v, Canonical(entries));
      Ok([OPEN_BRACE] + body + [CLOSE_BRACE])
    case Undefined => Err(UnsupportedType)
    case Other => Err(UnsupportedType)
  }

  function SerializeItems(ghost parent: Value, items: seq<Value>): Result<Text, Rejection>
    requires forall i :: 0 <= i < |items| ==> items[i] < parent && Regular(items[i])
    decreases parent, |items|
  {
    if items == [] then Ok([])
    else
      var first :- Serialize(items[0]);
      var more :- SerializeItems(parent, items[1..]);
      Ok(if |items| == 1 then first else first + [COMMA] + more)
  }

  function SerializeMembers(ghost parent: Value, es: seq<Entry>): Result<Text, Rejection>
    requires forall i :: 0 <= i < |es| ==> es[i].value < parent && Regular(es[i].value)
    decreases parent, |es|
  {
    if es == [] then Ok([])
    else
      var first :- Serialize(es[0].value);
      var more :- SerializeMembers(parent, es[1..]);
      Ok(Quote(es[0].key) + [COLON] + first + if |es| == 1 then [] else [COMMA] + more)
  }

  // ----- Meaning -----

  predicate DistinctKeys(es: seq<Entry>) {
    es == [] || ((forall e <- es[1..] :: e.key != es[0].key) && DistinctKeys(es[1..]))
  }

  predicate Ascending(es: seq<Entry>) {
    es == [] || ((forall e <- es[1..] :: Less(es[0].key, e.key)) && Ascending(es[1..]))
  }

  /** What every JavaScript value satisfies: an object has each key once. */
  predicate Regular(v: Value) {
    match v
    case Numeric(x) => x.Valid()
    case Array(items) => forall i :: 0 <= i < |items| ==> Regular(items[i])
    case Object(entries) => DistinctKeys(entries) && forall i :: 0 <= i < |entries| ==> Regular(entries[i].value)
    case _ => true
  }

  predicate Serializable(v: Value) {
    match v
    case Numeric(x) => x.IsFinite()
    case Array(items) => forall i :: 0 <= i < |items| ==> Serializable(items[i])
    case Object(entries) => forall i :: 0 <= i < |entries| ==> entries[i].value != Undefined ==> Serializable(entries[i].value)
    case Undefined => false
    case Other => false
    case _ => true
  }

  ghost predicate Plain(v: Value) {
    Regular(v) && Serializable(v)
  }

  function Meaning(v: Value): Json
    requires Serializable(v)
    decreases v
  {
    match v
    case Null => JNull
    case Bool(truth) => JBool(truth)
    case String(text) => JString(text)
    case Numeric(x) => JNumber(Magnitude(x))
    case Array(items) => JArray(MeaningItems(v, items))
    case Object(entries) => JObject(MeaningMembers(v, Defined(entries)))
  }

  function MeaningItems(ghost parent: Value, items: seq<Value>): (r: seq<Json>)
    requires forall i :: 0 <= i < |items| ==> items[i] < parent && Serializable(items[i])
    ensures |r| == |items|
    decreases parent, |items|
  {
    if items == [] then []
    else
      assert forall x <- items[1..] :: x in items;
      [Meaning(items[0])] + MeaningItems(parent, items[1..])
  }

  function MeaningMembers(ghost parent: Value, es: seq<Entry>): (r: map<Text, Json>)
    requires forall i :: 0 <= i < |es| ==> es[i].value < parent && Serializable(es[i].value)
    decreases parent, |es|
  {
    if es == [] then map[]
    else MeaningMembers(parent, es[1..])[es[0].key := Meaning(es[0].value)]
  }

  lemma {:induction false} SerializeSucceeds(v: Value)
    requires Regular(v)
    ensures Serialize(v).Ok? <==> Serializable(v)
    decreases v
  {
    match v
    case Array(items) => ItemsSucceed(v, items);
    case Object(entries) => MembersSucceed(v, Canonical(entries));
    case _ =>
  }

  lemma {:induction false} ItemsSucceed(parent: Value, items: seq<Value>)
    requires forall i :: 0 <= i < |items| ==> items[i] < parent && Regular(items[i])
    ensures SerializeItems(parent, items).Ok? <==> forall i :: 0 <= i < |items| ==> Serializable(items[i])
    decreases parent, |items|
  {
    if items != [] {
      assert items[0] in items;
      SerializeSucceeds(items[0]);
      ItemsSucceed(parent, items[1..]);
      assert items == [items[0]] + items[1..];
    }
  }

  lemma {:induction false} MembersSucceed(parent: Value, es: seq<Entry>)
    requires forall i :: 0 <= i < |es| ==> es[i].value < parent && Regular(es[i].value)
    ensures SerializeMembers(parent, es).Ok? <==> forall i :: 0 <= i < |es| ==> Serializable(es[i].value)
    decreases parent, |es|
  {
    if es != [] {
      SerializeSucceeds(es[0].value);
      MembersSucceed(parent, es[1..]);
      assert es == [es[0]] + es[1..];
    }
  }

  // ----- Reading (RFC 8259 without insignificant whitespace) -----

  function ParseValue(t: Text): (r: Option<Parsed<Json>>)
    ensures r.Some? ==> |r.value.rest| < |t|
    decreases |t|, 0
  {
    if t == [] then None
    else if NullText <= t then Some(Parsed(JNull, t[4..]))
    else if TrueText <= t then Some(Parsed(JBool(true), t[4..]))
    else if FalseText <= t then Some(Parsed(JBool(false), t[5..]))
    else if t[0] == QUOTE then
      match ParseQuoted(t)
      case None => None
      case Some(text) => Some(Parsed(JString(text.value), text.rest))
    else if t[0] == OPEN_BRACKET then
      if |t| > 1 && t[1] == CLOSE_BRACKET then Some(Parsed(JArray([]), t[2..]))
      else
        match ParseItems(t[1..])
        case None => None
        case Some(items) => Some(Parsed(JArray(items.value), items.rest))
    else if t[0] == OPEN_BRACE then
      if |t| > 1 && t[1] == CLOSE_BRACE then Some(Parsed(JObject(map[]), t[2..]))
      else
        match ParseMembers(t[1..])
        case None => None
        case Some(members) => Some(Parsed(JObject(members.value), members.rest))
    else
      match ParseNumber(t)
      case None => None
      case Some(number) => Some(Parsed(JNumber(number.value), number.rest))
  }

  /** One or more items up to and including the closing bracket. */
  function ParseItems(t: Text): (r: Option<Parsed<seq<Json>>>)
    ensures r.Some? ==> |r.value.rest| < |t|
    decreases |t|, 1
  {
    match ParseValue(t)
    case None => None
    case Some(first) =>
      if first.rest != [] && first.rest[0] == CLOSE_BRACKET then
        Some(Parsed([first.value], first.rest[1..]))
      else if first.rest != [] && first.rest[0] == COMMA then
        match ParseItems(first.rest[1..])
        case None => None
        case Some(more) => Some(Parsed([first.value] + more.value, more.rest))
      else None
  }

  /** One or more members up to and including the closing brace; a later duplicate wins. */
  function ParseMembers(t: Text): (r: Option<Parsed<map<Text, Json>>>)
    ensures r.Some? ==> |r.value.rest| < |t|
    decreases |t|, 1
  {
    match ParseQuoted(t)
    case None => None
    case Some(key) =>
      if key.rest == [] || key.rest[0] != COLON then None
      else
        match ParseValue(key.rest[1..])
        case None => None
        case Some(first) =>
          if first.rest != [] && first.rest[0] == CLOSE_BRACE then
            Some(Parsed(map[key.value := first.value], first.rest[1..]))
          else if first.rest != [] && first.rest[0] == COMMA then
            match ParseMembers(first.rest[1..])
            case None => None
            case Some(more) => Some(Parsed(map[key.value := first.value] + more.value, more.rest))
          else None
  }

  // ----- Reading recovers the meaning -----

  lemma {:induction false} DefinedStaysDistinct(es: seq<Entry>)
    requires DistinctKeys(es)
    ensures DistinctKeys(Defined(es))
  {
    if es != [] {
      DefinedStaysDistinct(es[1..]);
    }
  }

  lemma {:induction false} InsertAscends(e: Entry, es: seq<Entry>)
    requires Ascending(es) && forall i :: 0 <= i < |es| ==> es[i].key != e.key
    ensures Ascending(Insert(e, es))
  {
    if es != [] {
      LessIsTotal(e.key, es[0].key);
      if CompareKeys(e.key, es[0].key) <= 0 {
        forall x | x in es ensures Less(e.key, x.key) {
          if x in es[1..] {
            LessIsTransitive(e.key, es[0].key, x.key);
          }
        }
      } else {
        InsertAscends(e, es[1..]);
      }
    }
  }

  /** Distinct keys come out of the sort in strictly ascending order. */
  lemma {:induction false} SortAscends(es: seq<Entry>)
    requires DistinctKeys(es)
    ensures Ascending(SortByKey(es))
  {
    if es != [] {
      SortAscends(es[1..]);
      InsertAscends(es[0], SortByKey(es[1..]));
    }
  }

  lemma UpdatesCommute(m: map<Text, Json>, k: Text, x: Json, l: Text, y: Json)
    requires k != l
    ensures m[k := x][l := y] == m[l := y][k := x]
  {
  }

  lemma {:induction false} MeaningInsert(parent: Value, e: Entry, es: seq<Entry>)
    requires e.value < parent && Serializable(e.value)
    requires forall i :: 0 <= i < |es| ==> es[i].value < parent && Serializable(es[i].value)
    requires forall i :: 0 <= i < |es| ==> es[i].key != e.key
    ensures forall i :: 0 <= i < |Insert(e, es)| ==>
              Insert(e, es)[i].value < parent && Serializable(Insert(e, es)[i].value)
    ensures MeaningMembers(parent, Insert(e, es)) == MeaningMembers(parent, es)[e.key := Meaning(e.value)]
  {
    if es != [] && CompareKeys(e.key, es[0].key) > 0 {
      var tail := es[1..];
      MeaningInsert(parent, e, tail);
      UpdatesCommute(MeaningMembers(parent, tail), e.key, Meaning(e.value), es[0].key, Meaning(es[0].value));
    }
  }

  /** Sorting the members of an object does not change what the object means. */
  lemma {:induction false} MeaningSort(parent: Value, es: seq<Entry>)
    requires DistinctKeys(es)
    requires forall i :: 0 <= i < |es| ==> es[i].value < parent && Serializable(es[i].value)
    ensures forall i :: 0 <= i < |SortByKey(es)| ==>
              SortByKey(es)[i].value < parent && Serializable(SortByKey(es)[i].value)
    ensures MeaningMembers(parent, SortByKey(es)) == MeaningMembers(parent, es)
  {
    if es != [] {
      var sorted := SortByKey(es[1..]);
      MeaningSort(parent, es[1..]);
      forall i | 0 <= i < |sorted| ensures sorted[i].key != es[0].key {
        assert sorted[i] in sorted;
      }
      MeaningInsert(parent, es[0], sorted);
    }
  }

  lemma MeaningOfObject(v: Value)
    requires v.Object? && Plain(v)
    ensures Meaning(v) == JObject(MeaningMembers(v, Canonical(v.entries)))
    ensures Ascending(Canonical(v.entries))
  {
    DefinedStaysDistinct(v.entries);
    SortAscends(Defined(v.entries));
    MeaningSort(v, Defined(v.entries));
  }

  lemma ParseArrayText(body: Text, items: seq<Json>, rest: Text)
    requires ParseItems(body + ([CLOSE_BRACKET] + rest)) == Some(Parsed(items, rest))
    ensures ParseValue([OPEN_BRACKET] + body + [CLOSE_BRACKET] + rest) == Some(Parsed(JArray(items), rest))
  {
    var t := [OPEN_BRACKET] + body + [CLOSE_BRACKET] + rest;
    assert t[1..] == body + ([CLOSE_BRACKET] + rest);
    assert t[1] == t[1..][0];
  }

  lemma Bracketed(open: CodeUnit, body: Text, close: CodeUnit, rest: Text)
    requires body != []
    ensures var t := [open] + body + [close] + rest;
            |t| > 1 && t[0] == open && t[1] == body[0] && t[1..] == body + ([close] + rest)
  {
  }

  lemma ParseObjectText(body: Text, members: map<Text, Json>, rest: Text)
    requires body != [] && body[0] == QUOTE
    requires ParseMembers(body + ([CLOSE_BRACE] + rest)) == Some(Parsed(members, rest))
    ensures ParseValue([OPEN_BRACE] + body + [CLOSE_BRACE] + rest) == Some(Parsed(JObject(members), rest))
  {
    Bracketed(OPEN_BRACE, body, CLOSE_BRACE, rest);
  }

  lemma ParseEmptyText(rest: Text)
    ensures ParseValue([OPEN_BRACKET] + [] + [CLOSE_BRACKET] + rest) == Some(Parsed(JArray([]), rest))
    ensures ParseValue([OPEN_BRACE] + [] + [CLOSE_BRACE] + rest) == Some(Parsed(JObject(map[]), rest))
  {
    assert ([OPEN_BRACKET] + [] + [CLOSE_BRACKET] + rest)[2..] == rest;
    assert ([OPEN_BRACE] + [] + [CLOSE_BRACE] + rest)[2..] == rest;
  }

  lemma ParseKeywordText(rest: Text)
    ensures ParseValue(NullText + rest) == Some(Parsed(JNull, rest))
    ensures ParseValue(TrueText + rest) == Some(Parsed(JBool(true), rest))
    ensures ParseValue(FalseText + rest) == Some(Parsed(JBool(false), rest))
  {
    assert (NullText + rest)[4..] == rest && (NullText + rest)[0] == 110;
    assert (TrueText + rest)[4..] == rest && (TrueText + rest)[0] == 116;
    assert (FalseText + rest)[5..] == rest && (FalseText + rest)[0] == 102;
  }

  lemma ParseStringText(text: Text, rest: Text)
    ensures ParseValue(Quote(text) + rest) == Some(Parsed(JString(text), rest))
  {
    ParseQuotedText(text, rest);
    assert (Quote(text) + rest)[0] == QUOTE;
  }

  lemma ParseNumericText(x: Number, rest: Text)
    requires x.IsFinite() && x.Valid() && EndsNumber(rest)
    ensures ParseValue(Print(x) + rest) == Some(Parsed(JNumber(Magnitude(x)), rest))
  {
    PrintedStart(x, rest);
    ParsePrinted(x, rest);
  }

  lemma ParseScalarText(v: Value, rest: Text)
    requires Regular(v) && Serializable(v) && !v.Array? && !v.Object? && EndsNumber(rest)
    ensures Serialize(v).Ok?
    ensures ParseValue(Serialize(v).value + rest) == Some(Parsed(Meaning(v), rest))
  {
    match v
    case Null => ParseKeywordText(rest);
    case Bool(truth) => ParseKeywordText(rest);
    case String(text) => ParseStringText(text, rest);
    case Numeric(x) => ParseNumericText(x, rest);
  }

  /** The reader recovers the meaning of a value from its canonical text, whatever delimiter follows. */
  lemma {:induction false} ParseSerialized(v: Value, rest: Text)
    requires Regular(v) && Serializable(v) && EndsNumber(rest)
    ensures Serialize(v).Ok?
    ensures ParseValue(Serialize(v).value + rest) == Some(Parsed(Meaning(v), rest))
    decreases v
  {
    SerializeSucceeds(v);
    match v
    case Array(items) =>
      ItemsSucceed(v, items);
      if items == [] {
        ParseEmptyText(rest);
      } else {
        var body := SerializeItems(v, items).value;
        ParseSerializedItems(v, items, rest);
        ParseArrayText(body, MeaningItems(v, items), rest);
      }
    case Object(entries) =>
      var es := Canonical(entries);
      MembersSucceed(v, es);
      MeaningOfObject(v);
      if es == [] {
        ParseEmptyText(rest);
      } else {
        MembersText(v, es, rest);
        ParseSerializedMembers(v, es, rest);
        ParseObjectText(SerializeMembers(v, es).value, MeaningMembers(v, es), rest);
      }
    case _ => ParseScalarText(v, rest);
  }

  lemma ParseItemsStep(t: Text, head: Json, rest: Text)
    requires ParseValue(t) == Some(Parsed(head, rest)) && rest != []
    ensures rest[0] == CLOSE_BRACKET ==> ParseItems(t) == Some(Parsed([head], rest[1..]))
    ensures rest[0] == COMMA && ParseItems(rest[1..]).Some? ==>
              var more := ParseItems(rest[1..]).value;
              ParseItems(t) == Some(Parsed([head] + more.value, more.rest))
  {
  }

  lemma ItemsUnfold(parent: Value, items: seq<Value>)
    requires items != []
    requires forall i :: 0 <= i < |items| ==> items[i] < parent && Regular(items[i]) && Serializable(items[i])
    ensures SerializeItems(parent, items).Ok? && Serialize(items[0]).Ok? && SerializeItems(parent, items[1..]).Ok?
    ensures SerializeItems(parent, items).value
         == if |items| == 1 then Serialize(items[0]).value
            else Serialize(items[0]).value + [COMMA] + SerializeItems(parent, items[1..]).value
  {
    ItemsSucceed(parent, items);
    ItemsSucceed(parent, items[1..]);
    SerializeSucceeds(items[0]);
  }

  lemma RegroupItem(first: Text, more: Text, rest: Text)
    ensures first + [COMMA] + more + rest == first + ([COMMA] + (more + rest))
  {
  }

  lemma ItemsText(parent: Value, items: seq<Value>, rest: Text)
    requires items != []
    requires forall i :: 0 <= i < |items| ==> items[i] < parent && Regular(items[i]) && Serializable(items[i])
    ensures SerializeItems(parent, items).Ok? && Serialize(items[0]).Ok? && SerializeItems(parent, items[1..]).Ok?
    ensures SerializeItems(parent, items).value + rest ==
            if |items| == 1 then Serialize(items[0]).value + rest
            else Serialize(items[0]).value + ([COMMA] + (SerializeItems(parent, items[1..]).value + rest))
  {
    ItemsUnfold(parent, items);
    RegroupItem(Serialize(items[0]).value, SerializeItems(parent, items[1..]).value, rest);
  }

  lemma {:induction false} ParseSerializedItems(parent: Value, items: seq<Value>, rest: Text)
    requires items != []
    requires forall i :: 0 <= i < |items| ==> items[i] < parent && Regular(items[i]) && Serializable(items[i])
    ensures SerializeItems(parent, items).Ok?
    ensures ParseItems(SerializeItems(parent, items).value + ([CLOSE_BRACKET] + rest))
         == Some(Parsed(MeaningItems(parent, items), rest))
    decreases parent, |items|
  {
    var last := [CLOSE_BRACKET] + rest;
    assert last[1..] == rest;
    ItemsText(parent, items, last);
    if |items| == 1 {
      ParseSerialized(items[0], last);
      ParseItemsStep(Serialize(items[0]).value + last, Meaning(items[0]), last);
      assert MeaningItems(parent, items) == [Meaning(items[0])];
    } else {
      ParseSerializedItems(parent, items[1..], rest);
      var more := SerializeItems(parent, items[1..]).value + last;
      var tail := [COMMA] + more;
      assert tail[1..] == more;
      ParseSerialized(items[0], tail);
      ParseItemsStep(Serialize(items[0]).value + tail, Meaning(items[0]), tail);
    }
  }

  lemma ParseMembersStep(e: Entry, head: Json, first: Text, tail: Text)
    requires tail != [] && ParseValue(first + tail) == Some(Parsed(head, tail))
    ensures var t := Quote(e.key) + ([COLON] + (first + tail));
            (tail[0] == CLOSE_BRACE ==> ParseMembers(t) == Some(Parsed(map[e.key := head], tail[1..])))
            && (tail[0] == COMMA && ParseMembers(tail[1..]).Some? ==>
                  var more := ParseMembers(tail[1..]).value;
                  ParseMembers(t) == Some(Parsed(map[e.key := head] + more.value, more.rest)))
  {
    var afterKey := [COLON] + (first + tail);
    assert afterKey[1..] == first + tail;
    ParseQuotedText(e.key, afterKey);
  }

  lemma MembersUnfold(parent: Value, es: seq<Entry>)
    requires es != []
    requires forall i :: 0 <= i < |es| ==>
               es[i].value < parent && Regular(es[i].value) && Serializable(es[i].value)
    ensures SerializeMembers(parent, es).Ok? && Serialize(es[0].value).Ok?
    ensures SerializeMembers(parent, es[1..]).Ok?
    ensures SerializeMembers(parent, es).value == Quote(es[0].key) + [COLON] + Serialize(es[0].value).value
              + if |es| == 1 then [] else [COMMA] + SerializeMembers(parent, es[1..]).value
  {
    MembersSucceed(parent, es);
    MembersSucceed(parent, es[1..]);
    SerializeSucceeds(es[0].value);
  }

  lemma RegroupMember(key: Text, first: Text, more: Text, rest: Text)
    requires key != []
    ensures var whole := key + [COLON] + first + more;
            whole != [] && whole[0] == key[0]
            && whole + rest == key + ([COLON] + (first + (more + rest)))
  {
  }

  lemma RegroupComma(more: Text, rest: Text)
    ensures [COMMA] + more + rest == [COMMA] + (more + rest)
    ensures [] + rest == rest
  {
  }

  lemma MembersText(parent: Value, es: seq<Entry>, rest: Text)
    requires es != []
    requires forall i :: 0 <= i < |es| ==>
               es[i].value < parent && Regular(es[i].value) && Serializable(es[i].value)
    ensures SerializeMembers(parent, es).Ok? && Serialize(es[0].value).Ok?
    ensures SerializeMembers(parent, es[1..]).Ok?
    ensures SerializeMembers(parent, es).value != [] && SerializeMembers(parent, es).value[0] == QUOTE
    ensures SerializeMembers(parent, es).value + rest ==
            Quote(es[0].key) + ([COLON] + (Serialize(es[0].value).value
              + if |es| == 1 then rest else [COMMA] + (SerializeMembers(parent, es[1..]).value + rest)))
  {
    MembersUnfold(parent, es);
    var key, first := Quote(es[0].key), Serialize(es[0].value).value;
    assert key != [] && key[0] == QUOTE;
    var later := SerializeMembers(parent, es[1..]).value;
    RegroupMember(key, first, if |es| == 1 then [] else [COMMA] + later, rest);
    RegroupComma(later, rest);
  }

  lemma {:induction false} ParseSerializedMembers(parent: Value, es: seq<Entry>, rest: Text)
    requires es != [] && Ascending(es)
    requires forall i :: 0 <= i < |es| ==>
               es[i].value < parent && Regular(es[i].value) && Serializable(es[i].value)
    ensures SerializeMembers(parent, es).Ok?
    ensures ParseMembers(SerializeMembers(parent, es).value + ([CLOSE_BRACE] + rest))
         == Some(Parsed(MeaningMembers(parent, es), rest))
    decreases parent, |es|
  {
    var last := [CLOSE_BRACE] + rest;
    assert last[1..] == rest;
    MembersText(parent, es, last);
    LaterKeys(parent, es);
    if |es| == 1 {
      ParseSerialized(es[0].value, last);
      ParseMembersStep(es[0], Meaning(es[0].value), Serialize(es[0].value).value, last);
      assert MeaningMembers(parent, es[1..]) == map[];
    } else {
      ParseSerializedMembers(parent, es[1..], rest);
      var more := SerializeMembers(parent, es[1..]).value + last;
      var tail := [COMMA] + more;
      assert tail[1..] == more;
      ParseSerialized(es[0].value, tail);
      ParseMembersStep(es[0], Meaning(es[0].value), Serialize(es[0].value).value, tail);
    }
  }

  lemma {:induction false} MeaningKeys(parent: Value, es: seq<Entry>, k: Text)
    requires forall i :: 0 <= i < |es| ==> es[i].value < parent && Serializable(es[i].value)
    ensures k in MeaningMembers(parent, es) <==> exists i :: 0 <= i < |es| && es[i].key == k
  {
    if es != [] {
      MeaningKeys(parent, es[1..], k);
      if i :| 0 <= i < |es| && es[i].key == k && i > 0 {
        assert es[1..][i - 1].key == k;
      }
    }
  }

  lemma HeadKeyIsFresh(parent: Value, es: seq<Entry>)
    requires es != [] && Ascending(es)
    requires forall i :: 0 <= i < |es| ==> es[i].value < parent && Serializable(es[i].value)
    ensures es[0].key !in MeaningMembers(parent, es[1..])
  {
    MeaningKeys(parent, es[1..], es[0].key);
    if i :| 0 <= i < |es[1..]| && es[1..][i].key == es[0].key {
      assert es[1..][i] in es[1..];
      LessIsAsymmetric(es[0].key, es[1..][i].key);
    }
  }

  lemma LaterKeys(parent: Value, es: seq<Entry>)
    requires es != [] && Ascending(es)
    requires forall i :: 0 <= i < |es| ==> es[i].value < parent && Serializable(es[i].value)
    ensures var later := MeaningMembers(parent, es[1..]);
            map[es[0].key := Meaning(es[0].value)] + later == MeaningMembers(parent, es)
  {
    HeadKeyIsFresh(parent, es);
  }
}
