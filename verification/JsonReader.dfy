/**
 A reader for JSON text, and what it shows about the canonical encoder: it recovers the value, so two
 requests have the same canonical text exactly when they are the same JSON value.
 */
module JsonReader {
  import opened CanonicalJson
  import opened Wrappers

  /** A JSON value as such: the order of an object's properties is not part of it. */
  datatype Json = JNull | JBool(b: bool) | JNumber(numeral: Text) | JString(text: Text)
    | JArray(items: seq<Json>) | JObject(members: map<Text, Json>)

  function Meaning(v: Value): Json
    requires Wf(v) && IsJson(v)
  {
    match v
    case Null => JNull
    case Bool(b) => JBool(b)
    case Number(numeral) => JNumber(numeral)
    case Str(text) => JString(text)
    case Array(length, items, _) => JArray(seq(length, i requires 0 <= i < length => Meaning(items[i])))
    case Object(_, members, _, _) => JObject(map k | k in members :: Meaning(members[k].value))
  }

  // ------------------------------------------------------------------ reader

  /** Something read, and what follows it. */
  datatype Found<T> = Found(value: T, rest: Text)

  function HexValue(u: Unit): Option<nat> {
    if 48 <= u <= 57 then Some(u - 48)
    else if 97 <= u <= 102 then Some(u - 87)
    else if 65 <= u <= 70 then Some(u - 55)
    else None
  }

  /** The code unit of four hexadecimal digits. */
  function ReadHex(a: Unit, b: Unit, c: Unit, d: Unit): Option<Unit> {
    var h, i, j, k := HexValue(a), HexValue(b), HexValue(c), HexValue(d);
    if h.Some? && i.Some? && j.Some? && k.Some? && ((h.value * 16 + i.value) * 16 + j.value) * 16 + k.value < 0x1_0000
    then Some(((h.value * 16 + i.value) * 16 + j.value) * 16 + k.value)
    else None
  }

  function ReadShort(u: Unit): Option<Unit> {
    if u == 98 then Some(8)
    else if u == 116 then Some(9)
    else if u == 110 then Some(10)
    else if u == 102 then Some(12)
    else if u == 114 then Some(13)
    else if u == QUOTE || u == BACKSLASH || u == 47 then Some(u)
    else None
  }

  function Push(u: Option<Unit>, more: Option<Found<Text>>): Option<Found<Text>> {
    if u.None? || more.None? then None else Some(Found([u.value] + more.value.value, more.value.rest))
  }

  /** The rest of a string, after its opening quote. */
  function ReadBody(s: Text): (r: Option<Found<Text>>)
    ensures r.Some? ==> |r.value.rest| < |s|
    decreases |s|
  {
    if s == [] then None
    else if s[0] == QUOTE then Some(Found([], s[1..]))
    else if s[0] == BACKSLASH then
      if |s| < 2 then None
      else if s[1] != LETTER_U then Push(ReadShort(s[1]), ReadBody(s[2..]))
      else if |s| < 6 then None
      else Push(ReadHex(s[2], s[3], s[4], s[5]), ReadBody(s[6..]))
    else if s[0] < 32 then None
    else Push(Some(s[0]), ReadBody(s[1..]))
  }

  function NumeralLength(s: Text): (n: nat)
    ensures n <= |s|
    ensures s != [] && NumberUnit(s[0]) ==> n > 0
  {
    if s != [] && NumberUnit(s[0]) then 1 + NumeralLength(s[1..]) else 0
  }

  function ReadWord(s: Text, word: Text, value: Json): (r: Option<Found<Json>>)
    requires word != []
    ensures r.Some? ==> |r.value.rest| < |s|
  {
    if word <= s then Some(Found(value, s[|word|..])) else None
  }

  function ReadString(s: Text): (r: Option<Found<Json>>)
    ensures r.Some? ==> |r.value.rest| < |s|
  {
    var body := ReadBody(s);
    if body.None? then None else Some(Found(JString(body.value.value), body.value.rest))
  }

  function ReadValue(s: Text): (r: Option<Found<Json>>)
    ensures r.Some? ==> |r.value.rest| < |s|
    decreases |s|, 0
  {
    if s == [] then None
    else if s[0] == QUOTE then ReadString(s[1..])
    else if s[0] == OPEN_ARRAY then ReadArray(s[1..])
    else if s[0] == OPEN_OBJECT then ReadObject(s[1..])
    else if NumberUnit(s[0]) then Some(Found(JNumber(s[..NumeralLength(s)]), s[NumeralLength(s)..]))
    else if s[0] == NULL[0] then ReadWord(s, NULL, JNull)
    else if s[0] == TRUE[0] then ReadWord(s, TRUE, JBool(true))
    else ReadWord(s, FALSE, JBool(false))
  }

  function ReadArray(s: Text): (r: Option<Found<Json>>)
    ensures r.Some? ==> |r.value.rest| < |s|
    decreases |s|, 2
  {
    if s == [] then None
    else if s[0] == CLOSE_ARRAY then Some(Found(JArray([]), s[1..]))
    else
      var items := ReadItems(s);
      if items.None? then None else Some(Found(JArray(items.value.value), items.value.rest))
  }

  function ReadObject(s: Text): (r: Option<Found<Json>>)
    ensures r.Some? ==> |r.value.rest| < |s|
    decreases |s|, 3
  {
    if s == [] then None
    else if s[0] == CLOSE_OBJECT then Some(Found(JObject(map[]), s[1..]))
    else
      var members := ReadMembers(s);
      if members.None? then None else Some(Found(JObject(members.value.value), members.value.rest))
  }

  function ReadItems(s: Text): (r: Option<Found<seq<Json>>>)
    ensures r.Some? ==> |r.value.rest| < |s|
    decreases |s|, 1
  {
    var first := ReadValue(s);
    if first.None? || first.value.rest == [] then None
    else if first.value.rest[0] == CLOSE_ARRAY then Some(Found([first.value.value], first.value.rest[1..]))
    else if first.value.rest[0] != COMMA then None
    else
      var more := ReadItems(first.value.rest[1..]);
      if more.None? then None else Some(Found([first.value.value] + more.value.value, more.value.rest))
  }

  function ReadMember(s: Text): (r: Option<Found<(Text, Json)>>)
    ensures r.Some? ==> |r.value.rest| < |s|
    decreases |s|, 1
  {
    if s == [] || s[0] != QUOTE then None
    else
      var key := ReadBody(s[1..]);
      if key.None? || key.value.rest == [] || key.value.rest[0] != COLON then None
      else
        var value := ReadValue(key.value.rest[1..]);
        if value.None? then None else Some(Found((key.value.value, value.value.value), value.value.rest))
  }

  /** Members in order; a repeated key takes its last value. */
  function ReadMembers(s: Text): (r: Option<Found<map<Text, Json>>>)
    ensures r.Some? ==> |r.value.rest| < |s|
    decreases |s|, 2
  {
    var first := ReadMember(s);
    if first.None? || first.value.rest == [] then None
    else
      var one := map[first.value.value.0 := first.value.value.1];
      if first.value.rest[0] == CLOSE_OBJECT then Some(Found(one, first.value.rest[1..]))
      else if first.value.rest[0] != COMMA then None
      else
        var more := ReadMembers(first.value.rest[1..]);
        if more.None? then None else Some(Found(one + more.value.value, more.value.rest))
  }

  function Decode(text: Text): Option<Json> {
    var v := ReadValue(text);
    if v.Some? && v.value.rest == [] then Some(v.value.value) else None
  }

  // --------------------------------------------------------- reading back

  lemma HexReads(u: Unit)
    requires u < 32
    ensures ReadHex(48, 48, HexDigit(u / 16), HexDigit(u % 16)) == Some(u)
  {
  }

  lemma EscapeReads(u: Unit, more: Text)
    ensures ReadBody(Escape(u) + more) == Push(Some(u), ReadBody(more))
  {
    var s := Escape(u) + more;
    if |Escape(u)| == 6 {
      HexReads(u);
      assert s[6..] == more;
    } else if |Escape(u)| == 2 {
      assert s[2..] == more;
    } else {
      assert s[1..] == more;
    }
  }

  lemma RegroupBody(first: Text, more: Text, rest: Text)
    ensures first + more + [QUOTE] + rest == first + (more + [QUOTE] + rest)
  {
  }

  /** Every string is recovered from its quoted form, whatever follows. */
  lemma {:induction false} BodyReads(t: Text, rest: Text)
    ensures ReadBody(EscapeAll(t) + [QUOTE] + rest) == Some(Found(t, rest))
    decreases |t|
  {
    if t == [] {
      assert EscapeAll(t) + [QUOTE] + rest == [QUOTE] + rest;
    } else {
      var first, more := Escape(t[0]), EscapeAll(t[1..]);
      BodyReads(t[1..], rest);
      EscapeReads(t[0], more + [QUOTE] + rest);
      RegroupBody(first, more, rest);
      assert [t[0]] + t[1..] == t;
    }
  }

  lemma {:induction false} NumeralReads(t: Text, rest: Text)
    requires forall i :: 0 <= i < |t| ==> NumberUnit(t[i])
    requires rest == [] || !NumberUnit(rest[0])
    ensures NumeralLength(t + rest) == |t|
    decreases |t|
  {
    if t == [] {
      assert t + rest == rest;
    } else {
      NumeralReads(t[1..], rest);
      assert (t + rest)[1..] == t[1..] + rest;
    }
  }

  /** What may follow a value: nothing, or a unit that cannot continue a number. */
  predicate Ends(rest: Text) {
    rest == [] || !NumberUnit(rest[0])
  }

  lemma FirstUnit(v: Value, depth: nat)
    requires Wf(v) && Encode(v, depth).Ok?
    ensures var t := Encode(v, depth).value; t != [] && t[0] != CLOSE_ARRAY
  {
  }

  lemma WordReads(word: Text, value: Json, rest: Text)
    requires word != []
    ensures ReadWord(word + rest, word, value) == Some(Found(value, rest))
  {
    assert (word + rest)[|word|..] == rest;
  }

  lemma NumberReads(numeral: Numeral, rest: Text)
    requires Ends(rest)
    ensures ReadValue(numeral + rest) == Some(Found(JNumber(numeral), rest))
  {
    NumeralReads(numeral, rest);
    assert (numeral + rest)[..|numeral|] == numeral && (numeral + rest)[|numeral|..] == rest;
  }

  lemma StringReads(text: Text, rest: Text)
    ensures ReadValue(Quote(text) + rest) == Some(Found(JString(text), rest))
  {
    BodyReads(text, rest);
    AfterQuote(text, rest);
  }

  lemma AfterQuote(text: Text, rest: Text)
    ensures var s := Quote(text) + rest;
            |s| > 0 && s[0] == QUOTE && s[1..] == EscapeAll(text) + [QUOTE] + rest
  {
  }

  lemma ScalarReadsBack(v: Value, depth: nat, rest: Text)
    requires Wf(v) && IsJson(v) && !v.Array? && !v.Object? && Ends(rest)
    ensures Encode(v, depth).Ok? && ReadValue(Encode(v, depth).value + rest) == Some(Found(Meaning(v), rest))
  {
    match v {
      case Null => WordReads(NULL, JNull, rest);
      case Bool(b) => WordReads(if b then TRUE else FALSE, JBool(b), rest);
      case Number(numeral) => NumberReads(numeral, rest);
      case Str(text) => StringReads(text, rest);
    }
  }

  // ------------------------------------------------------------- containers

  lemma ArrayReads(body: Text, items: seq<Json>, rest: Text)
    requires body != [] && body[0] != CLOSE_ARRAY
    requires ReadItems(body + [CLOSE_ARRAY] + rest) == Some(Found(items, rest))
    ensures ReadValue([OPEN_ARRAY] + body + [CLOSE_ARRAY] + rest) == Some(Found(JArray(items), rest))
  {
    assert ([OPEN_ARRAY] + body + [CLOSE_ARRAY] + rest)[1..] == body + [CLOSE_ARRAY] + rest;
  }

  lemma EmptyArrayReads(rest: Text)
    ensures ReadValue([OPEN_ARRAY] + [] + [CLOSE_ARRAY] + rest) == Some(Found(JArray([]), rest))
  {
    var s := [OPEN_ARRAY] + [] + [CLOSE_ARRAY] + rest;
    assert s[1..] == [CLOSE_ARRAY] + rest && s[1..][1..] == rest;
  }

  lemma ObjectReads(body: Text, members: map<Text, Json>, rest: Text)
    requires body != [] && body[0] != CLOSE_OBJECT
    requires ReadMembers(body + [CLOSE_OBJECT] + rest) == Some(Found(members, rest))
    ensures ReadValue([OPEN_OBJECT] + body + [CLOSE_OBJECT] + rest) == Some(Found(JObject(members), rest))
  {
    assert ([OPEN_OBJECT] + body + [CLOSE_OBJECT] + rest)[1..] == body + [CLOSE_OBJECT] + rest;
  }

  lemma EmptyObjectReads(rest: Text)
    ensures ReadValue([OPEN_OBJECT] + [] + [CLOSE_OBJECT] + rest) == Some(Found(JObject(map[]), rest))
  {
    var s := [OPEN_OBJECT] + [] + [CLOSE_OBJECT] + rest;
    assert s[1..] == [CLOSE_OBJECT] + rest && s[1..][1..] == rest;
  }

  lemma LastItemReads(text: Text, item: Json, rest: Text)
    requires ReadValue(text + ([CLOSE_ARRAY] + rest)) == Some(Found(item, [CLOSE_ARRAY] + rest))
    ensures ReadItems(text + [CLOSE_ARRAY] + rest) == Some(Found([item], rest))
  {
    assert text + [CLOSE_ARRAY] + rest == text + ([CLOSE_ARRAY] + rest);
    assert ([CLOSE_ARRAY] + rest)[1..] == rest;
  }

  lemma NextItemReads(text: Text, item: Json, more: Text, items: seq<Json>, rest: Text)
    requires ReadValue(text + ([COMMA] + more)) == Some(Found(item, [COMMA] + more))
    requires ReadItems(more) == Some(Found(items, rest))
    ensures ReadItems(text + [COMMA] + more) == Some(Found([item] + items, rest))
  {
    assert text + [COMMA] + more == text + ([COMMA] + more);
    assert ([COMMA] + more)[1..] == more;
  }

  lemma MemberReads(key: Text, more: Text, value: Json, rest: Text)
    requires ReadValue(more) == Some(Found(value, rest))
    ensures ReadMember(Quote(key) + ([COLON] + more)) == Some(Found((key, value), rest))
  {
    var tail := [COLON] + more;
    BodyReads(key, tail);
    AfterQuote(key, tail);
    assert tail[1..] == more;
  }

  lemma LastMemberReads(text: Text, member: (Text, Json), rest: Text)
    requires ReadMember(text + ([CLOSE_OBJECT] + rest)) == Some(Found(member, [CLOSE_OBJECT] + rest))
    ensures ReadMembers(text + [CLOSE_OBJECT] + rest) == Some(Found(map[member.0 := member.1], rest))
  {
    assert text + [CLOSE_OBJECT] + rest == text + ([CLOSE_OBJECT] + rest);
    assert ([CLOSE_OBJECT] + rest)[1..] == rest;
  }

  lemma NextMemberReads(text: Text, member: (Text, Json), more: Text, members: map<Text, Json>, rest: Text)
    requires ReadMember(text + ([COMMA] + more)) == Some(Found(member, [COMMA] + more))
    requires ReadMembers(more) == Some(Found(members, rest))
    ensures ReadMembers(text + [COMMA] + more) == Some(Found(map[member.0 := member.1] + members, rest))
  {
    assert text + [COMMA] + more == text + ([COMMA] + more);
    assert ([COMMA] + more)[1..] == more;
  }

  // ---------------------------------------------------------- the round trip

  /** What the members from some position on mean. */
  function MeaningFrom(v: Value, keys: seq<Text>, i: nat): map<Text, Json>
    requires Wf(v) && IsJson(v) && v.Object? && i <= |keys| && forall k :: k in keys ==> k in v.members
    decreases |keys| - i
  {
    if i == |keys| then map[] else map[keys[i] := Meaning(v.members[keys[i]].value)] + MeaningFrom(v, keys, i + 1)
  }

  lemma {:induction false} MeaningFromAt(v: Value, keys: seq<Text>, i: nat, k: Text)
    requires Wf(v) && IsJson(v) && v.Object? && i <= |keys| && forall k :: k in keys ==> k in v.members
    ensures k in MeaningFrom(v, keys, i) <==> k in keys[i..]
    ensures k in keys[i..] ==> MeaningFrom(v, keys, i)[k] == Meaning(v.members[k].value)
    decreases |keys| - i
  {
    if i < |keys| {
      MeaningFromAt(v, keys, i + 1, k);
      assert keys[i..] == [keys[i]] + keys[i + 1..];
    }
  }

  lemma MeaningFromStep(v: Value, keys: seq<Text>, i: nat)
    requires Wf(v) && IsJson(v) && v.Object? && i < |keys| && forall k :: k in keys ==> k in v.members
    ensures var one := map[keys[i] := Meaning(v.members[keys[i]].value)];
            && MeaningFrom(v, keys, i) == one + MeaningFrom(v, keys, i + 1)
            && (i + 1 == |keys| ==> MeaningFrom(v, keys, i) == one)
  {
  }

  lemma ObjectMeaning(v: Value)
    requires Wf(v) && IsJson(v) && v.Object?
    ensures Meaning(v) == JObject(MeaningFrom(v, Sort(v.order), 0))
    ensures Sort(v.order) == [] ==> Meaning(v) == JObject(map[])
  {
    var keys := Sort(v.order);
    assert keys[0..] == keys;
    forall k
      ensures k in MeaningFrom(v, keys, 0) <==> k in v.members
      ensures k in v.members ==> MeaningFrom(v, keys, 0)[k] == Meaning(v.members[k].value)
    {
      MeaningFromAt(v, keys, 0, k);
    }
    assert MeaningFrom(v, keys, 0) == Meaning(v).members;
  }

  lemma ItemMeaning(v: Value, i: nat)
    requires Wf(v) && IsJson(v) && v.Array? && i < v.length
    ensures i in v.items && |Meaning(v).items| == v.length && Meaning(v).items[i] == Meaning(v.items[i])
  {
  }

  lemma ArrayMeaning(v: Value)
    requires Wf(v) && IsJson(v) && v.Array?
    ensures Meaning(v).JArray? && |Meaning(v).items| == v.length
    ensures v.length == 0 ==> Meaning(v) == JArray([])
  {
  }

  lemma {:induction false} ReadsBack(v: Value, depth: nat, rest: Text)
    requires Wf(v) && IsJson(v) && Encode(v, depth).Ok? && Ends(rest)
    ensures ReadValue(Encode(v, depth).value + rest) == Some(Found(Meaning(v), rest))
    decreases v, 2, 0
  {
    if v.Array? {
      ArrayReadsBack(v, depth, rest);
    } else if v.Object? {
      ObjectReadsBack(v, depth, rest);
    } else {
      ScalarReadsBack(v, depth, rest);
    }
  }

  lemma {:induction false} ArrayReadsBack(v: Value, depth: nat, rest: Text)
    requires Wf(v) && IsJson(v) && v.Array? && Encode(v, depth).Ok?
    ensures ReadValue(Encode(v, depth).value + rest) == Some(Found(Meaning(v), rest))
    decreases v, 1, 0
  {
    ArrayText(v, depth);
    ArrayMeaning(v);
    if v.length == 0 {
      EmptyArrayReads(rest);
    } else {
      ItemsReadBack(v, 0, depth + 1, rest);
      ItemsStart(v, depth + 1);
      ArrayReads(EncodeItems(v, 0, depth + 1).value, Meaning(v).items[0..], rest);
    }
  }

  lemma {:induction false} ObjectReadsBack(v: Value, depth: nat, rest: Text)
    requires Wf(v) && IsJson(v) && v.Object? && Encode(v, depth).Ok?
    ensures ReadValue(Encode(v, depth).value + rest) == Some(Found(Meaning(v), rest))
    decreases v, 1, 0
  {
    var keys := Sort(v.order);
    ObjectText(v, depth);
    ObjectMeaning(v);
    if keys == [] {
      EmptyObjectReads(rest);
    } else {
      MembersReadBack(v, keys, 0, depth + 1, rest);
      MembersStart(v, keys, depth + 1);
      ObjectReads(EncodeMembers(v, keys, 0, depth + 1).value, MeaningFrom(v, keys, 0), rest);
    }
  }

  lemma ArrayText(v: Value, depth: nat)
    requires Wf(v) && v.Array? && Encode(v, depth).Ok?
    ensures EncodeItems(v, 0, depth + 1).Ok?
    ensures Encode(v, depth).value == [OPEN_ARRAY] + EncodeItems(v, 0, depth + 1).value + [CLOSE_ARRAY]
    ensures v.length == 0 ==> EncodeItems(v, 0, depth + 1).value == []
  {
  }

  lemma ItemsStart(v: Value, depth: nat)
    requires Wf(v) && v.Array? && IsJson(v) && v.length > 0 && EncodeItems(v, 0, depth).Ok?
    ensures var t := EncodeItems(v, 0, depth).value; t != [] && t[0] != CLOSE_ARRAY
  {
    ItemsText(v, 0, depth);
    FirstUnit(v.items[0], depth);
  }

  lemma ObjectText(v: Value, depth: nat)
    requires Wf(v) && v.Object? && Encode(v, depth).Ok?
    ensures EncodeMembers(v, Sort(v.order), 0, depth + 1).Ok?
    ensures Encode(v, depth).value ==
            [OPEN_OBJECT] + EncodeMembers(v, Sort(v.order), 0, depth + 1).value + [CLOSE_OBJECT]
    ensures Sort(v.order) == [] ==> EncodeMembers(v, Sort(v.order), 0, depth + 1).value == []
  {
  }

  /** How the text of the items from some position on is put together. */
  lemma ItemsText(v: Value, i: nat, depth: nat)
    requires Wf(v) && v.Array? && IsJson(v) && i < v.length && EncodeItems(v, i, depth).Ok?
    ensures Encode(v.items[i], depth).Ok?
    ensures i + 1 == v.length ==> EncodeItems(v, i, depth) == Encode(v.items[i], depth)
    ensures i + 1 < v.length ==>
              && EncodeItems(v, i + 1, depth).Ok?
              && EncodeItems(v, i, depth).value ==
                 Encode(v.items[i], depth).value + [COMMA] + EncodeItems(v, i + 1, depth).value
  {
  }

  lemma {:induction false} ItemsReadBack(v: Value, i: nat, depth: nat, rest: Text)
    requires Wf(v) && IsJson(v) && v.Array? && i < v.length && EncodeItems(v, i, depth).Ok?
    ensures ReadItems(EncodeItems(v, i, depth).value + [CLOSE_ARRAY] + rest) == Some(Found(Meaning(v).items[i..], rest))
    decreases v, 0, v.length - i
  {
    ItemsText(v, i, depth);
    ItemMeaning(v, i);
    var text := Encode(v.items[i], depth).value;
    var items := Meaning(v).items;
    ItemsSplit(items, i);
    if i + 1 == v.length {
      ReadsBack(v.items[i], depth, [CLOSE_ARRAY] + rest);
      LastItemReads(text, items[i], rest);
    } else {
      var tail := EncodeItems(v, i + 1, depth).value;
      var more := tail + [CLOSE_ARRAY] + rest;
      ItemsReadBack(v, i + 1, depth, rest);
      ReadsBack(v.items[i], depth, [COMMA] + more);
      NextItemReads(text, items[i], more, items[i + 1..], rest);
      Regroup(text, tail, CLOSE_ARRAY, rest);
    }
  }

  lemma ItemsSplit(items: seq<Json>, i: nat)
    requires i < |items|
    ensures items[i..] == [items[i]] + items[i + 1..]
    ensures i + 1 == |items| ==> items[i..] == [items[i]]
  {
  }

  lemma {:induction false} MemberReadsBack(v: Value, key: Text, depth: nat, rest: Text)
    requires Wf(v) && IsJson(v) && v.Object? && key in v.members && EncodeMember(key, v.members[key], depth).Ok?
             && Ends(rest)
    ensures ReadMember(EncodeMember(key, v.members[key], depth).value + rest) ==
            Some(Found((key, Meaning(v.members[key].value)), rest))
    decreases v, 0, 0
  {
    ReadsBack(v.members[key].value, depth, rest);
    var text := Encode(v.members[key].value, depth).value;
    MemberReads(key, text + rest, Meaning(v.members[key].value), rest);
    RegroupMember(Quote(key), text, rest);
  }

  lemma RegroupMember(key: Text, text: Text, rest: Text)
    ensures key + [COLON] + text + rest == key + ([COLON] + (text + rest))
  {
  }

  lemma MembersText(v: Value, keys: seq<Text>, i: nat, depth: nat)
    requires Wf(v) && v.Object? && i < |keys| && forall k :: k in keys ==> k in v.members
    requires EncodeMembers(v, keys, i, depth).Ok?
    ensures EncodeMember(keys[i], v.members[keys[i]], depth).Ok?
    ensures i + 1 == |keys| ==> EncodeMembers(v, keys, i, depth) == EncodeMember(keys[i], v.members[keys[i]], depth)
    ensures i + 1 < |keys| ==>
              && EncodeMembers(v, keys, i + 1, depth).Ok?
              && EncodeMembers(v, keys, i, depth).value ==
                 EncodeMember(keys[i], v.members[keys[i]], depth).value + [COMMA]
                   + EncodeMembers(v, keys, i + 1, depth).value
  {
  }

  lemma {:induction false} MembersReadBack(v: Value, keys: seq<Text>, i: nat, depth: nat, rest: Text)
    requires Wf(v) && IsJson(v) && v.Object? && i < |keys| && forall k :: k in keys ==> k in v.members
    requires EncodeMembers(v, keys, i, depth).Ok?
    ensures ReadMembers(EncodeMembers(v, keys, i, depth).value + [CLOSE_OBJECT] + rest) ==
            Some(Found(MeaningFrom(v, keys, i), rest))
    decreases v, 0, |keys| - i + 1
  {
    MembersText(v, keys, i, depth);
    var text := EncodeMember(keys[i], v.members[keys[i]], depth).value;
    var member := (keys[i], Meaning(v.members[keys[i]].value));
    var later := MeaningFrom(v, keys, i + 1);
    MeaningFromStep(v, keys, i);
    if i + 1 == |keys| {
      MemberReadsBack(v, keys[i], depth, [CLOSE_OBJECT] + rest);
      LastMemberReads(text, member, rest);
    } else {
      var tail := EncodeMembers(v, keys, i + 1, depth).value;
      var more := tail + [CLOSE_OBJECT] + rest;
      MembersReadBack(v, keys, i + 1, depth, rest);
      MemberReadsBack(v, keys[i], depth, [COMMA] + more);
      NextMemberReads(text, member, more, later, rest);
      Regroup(text, tail, CLOSE_OBJECT, rest);
    }
  }

  lemma Regroup(text: Text, tail: Text, close: Unit, rest: Text)
    ensures text + [COMMA] + tail + [close] + rest == text + [COMMA] + (tail + [close] + rest)
  {
  }

  lemma MembersStart(v: Value, keys: seq<Text>, depth: nat)
    requires Wf(v) && v.Object? && keys != [] && (forall k :: k in keys ==> k in v.members)
    requires EncodeMembers(v, keys, 0, depth).Ok?
    ensures var t := EncodeMembers(v, keys, 0, depth).value; t != [] && t[0] == QUOTE
  {
    assert EncodeMember(keys[0], v.members[keys[0]], depth).value[0] == QUOTE;
  }

  /** The canonical text of a value is read back as that value. */
  lemma DecodeInvertsEncode(v: Value)
    requires Wf(v) && PlainArrays(v) && CanonicalCommandJson(v).Ok?
    ensures IsJson(v) && Decode(CanonicalCommandJson(v).value) == Some(Meaning(v))
  {
    EncodesJsonExactly(v);
    ReadsBack(v, 0, []);
    assert Encode(v, 0).value + [] == Encode(v, 0).value;
  }

  // ------------------------------------------------------- one text a value

  /** The text depends only on what the value means, not on the order in which properties were inserted. */
  lemma {:induction false} TextOfMeaning(v: Value, w: Value, depth: nat)
    requires Wf(v) && Wf(w) && IsJson(v) && IsJson(w) && Meaning(v) == Meaning(w)
    ensures Encode(v, depth) == Encode(w, depth)
    decreases v, 1, 0
  {
    if v.Array? {
      ItemsAgree(v, w, 0, depth + 1);
      WrapItems(v, w, depth);
    } else if v.Object? {
      SameKeys(v, w);
      MembersAgree(v, w, Sort(v.order), 0, depth + 1);
      WrapMembers(v, w, depth);
    } else {
      ScalarsAgree(v, w, depth);
    }
  }

  lemma ScalarsAgree(v: Value, w: Value, depth: nat)
    requires Wf(v) && Wf(w) && IsJson(v) && IsJson(w) && Meaning(v) == Meaning(w) && !v.Array? && !v.Object?
    ensures Encode(v, depth) == Encode(w, depth)
  {
  }

  lemma WrapItems(v: Value, w: Value, depth: nat)
    requires Wf(v) && Wf(w) && IsJson(v) && IsJson(w) && v.Array? && w.Array? && v.length == w.length
    requires EncodeItems(v, 0, depth + 1) == EncodeItems(w, 0, depth + 1)
    ensures Encode(v, depth) == Encode(w, depth)
  {
    CountingTellsHoles(v);
    CountingTellsHoles(w);
  }

  lemma WrapMembers(v: Value, w: Value, depth: nat)
    requires Wf(v) && Wf(w) && IsJson(v) && IsJson(w) && v.Object? && w.Object? && Sort(v.order) == Sort(w.order)
    requires EncodeMembers(v, Sort(v.order), 0, depth + 1) == EncodeMembers(w, Sort(w.order), 0, depth + 1)
    ensures Encode(v, depth) == Encode(w, depth)
  {
  }

  lemma SameKeys(v: Value, w: Value)
    requires Wf(v) && Wf(w) && IsJson(v) && IsJson(w) && v.Object? && Meaning(v) == Meaning(w)
    ensures w.Object? && v.members.Keys == w.members.Keys && Sort(v.order) == Sort(w.order)
  {
    assert v.members.Keys == Meaning(v).members.Keys && w.members.Keys == Meaning(w).members.Keys;
    SortAscends(v.order);
    SortAscends(w.order);
    forall k
      ensures k in Sort(v.order) <==> k in Sort(w.order)
    {
      assert k in v.members.Keys <==> k in w.members.Keys;
    }
    AscendingIsUnique(Sort(v.order), Sort(w.order));
  }

  lemma {:induction false} ItemsAgree(v: Value, w: Value, i: nat, depth: nat)
    requires Wf(v) && Wf(w) && IsJson(v) && IsJson(w) && v.Array? && Meaning(v) == Meaning(w) && i <= v.length
    ensures w.Array? && w.length == v.length && EncodeItems(v, i, depth) == EncodeItems(w, i, depth)
    decreases v, 0, v.length - i
  {
    ArrayMeaning(v);
    assert w.Array?;
    ArrayMeaning(w);
    if i < v.length {
      ItemMeaning(v, i);
      ItemMeaning(w, i);
      TextOfMeaning(v.items[i], w.items[i], depth);
      ItemsAgree(v, w, i + 1, depth);
      JoinItems(v, w, i, depth);
    }
  }

  lemma JoinItems(v: Value, w: Value, i: nat, depth: nat)
    requires Wf(v) && Wf(w) && v.Array? && w.Array? && i < v.length == w.length && i in v.items && i in w.items
    requires Encode(v.items[i], depth) == Encode(w.items[i], depth)
    requires EncodeItems(v, i + 1, depth) == EncodeItems(w, i + 1, depth)
    ensures EncodeItems(v, i, depth) == EncodeItems(w, i, depth)
  {
  }

  lemma {:induction false} MembersAgree(v: Value, w: Value, keys: seq<Text>, i: nat, depth: nat)
    requires Wf(v) && Wf(w) && IsJson(v) && IsJson(w) && v.Object? && w.Object? && Meaning(v) == Meaning(w)
    requires i <= |keys| && forall k :: k in keys ==> k in v.members && k in w.members
    ensures EncodeMembers(v, keys, i, depth) == EncodeMembers(w, keys, i, depth)
    decreases v, 0, |keys| - i
  {
    if i < |keys| {
      var k := keys[i];
      MemberMeaning(v, k);
      MemberMeaning(w, k);
      TextOfMeaning(v.members[k].value, w.members[k].value, depth);
      MembersAgree(v, w, keys, i + 1, depth);
      JoinMembers(v, w, keys, i, depth);
    }
  }

  lemma MemberMeaning(v: Value, k: Text)
    requires Wf(v) && IsJson(v) && v.Object? && k in v.members
    ensures Meaning(v).members[k] == Meaning(v.members[k].value) && v.members[k].data
  {
  }

  lemma JoinMembers(v: Value, w: Value, keys: seq<Text>, i: nat, depth: nat)
    requires Wf(v) && Wf(w) && v.Object? && w.Object?
    requires i < |keys| && forall k :: k in keys ==> k in v.members && k in w.members
    requires v.members[keys[i]].data && w.members[keys[i]].data
    requires Encode(v.members[keys[i]].value, depth) == Encode(w.members[keys[i]].value, depth)
    requires EncodeMembers(v, keys, i + 1, depth) == EncodeMembers(w, keys, i + 1, depth)
    ensures EncodeMembers(v, keys, i, depth) == EncodeMembers(w, keys, i, depth)
  {
    assert EncodeMember(keys[i], v.members[keys[i]], depth) == EncodeMember(keys[i], w.members[keys[i]], depth);
  }

  /** Two requests share their canonical text exactly when they are the same JSON value. */
  lemma SameTextIffSameValue(v: Value, w: Value)
    requires Wf(v) && Wf(w) && PlainArrays(v) && PlainArrays(w)
    requires CanonicalCommandJson(v).Ok? && CanonicalCommandJson(w).Ok?
    ensures IsJson(v) && IsJson(w)
    ensures CanonicalCommandJson(v) == CanonicalCommandJson(w) <==> Meaning(v) == Meaning(w)
  {
    DecodeInvertsEncode(v);
    DecodeInvertsEncode(w);
    if Meaning(v) == Meaning(w) {
      TextOfMeaning(v, w, 0);
    }
  }
}
