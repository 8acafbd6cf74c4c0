/**
 Canonical command JSON (section 3.2 of RFC 8785) over values as the encoder meets them: objects carry
 the order in which their properties were inserted, and anything that is not JSON data is refused.
 */
module CanonicalJson {
  import opened Wrappers

  /** UTF-16 code units. */
  type Unit = n: nat | n < 0x1_0000
  type Text = seq<Unit>

  const MAX_LEVELS: nat := 64

  const QUOTE: Unit := 34
  const COMMA: Unit := 44
  const COLON: Unit := 58
  const OPEN_ARRAY: Unit := 91
  const BACKSLASH: Unit := 92
  const CLOSE_ARRAY: Unit := 93
  const LETTER_U: Unit := 117
  const OPEN_OBJECT: Unit := 123
  const CLOSE_OBJECT: Unit := 125
  const NULL: Text := [110, 117, 108, 108]
  const TRUE: Text := [116, 114, 117, 101]
  const FALSE: Text := [102, 97, 108, 115, 101]

  datatype Fault = InvalidUnicode | NonFiniteNumber | NonJsonValue | CyclicValue | TooDeep | SparseArray
    | NonPlainObject | SymbolProperty | NonDataProperty

  // ----------------------------------------------------------------- strings

  predicate High(u: Unit) {
    0xd800 <= u <= 0xdbff
  }

  predicate Low(u: Unit) {
    0xdc00 <= u <= 0xdfff
  }

  /** Every surrogate is one half of a pair. */
  predicate WellFormed(s: Text) {
    && (forall i :: 0 <= i < |s| && High(s[i]) ==> i + 1 < |s| && Low(s[i + 1]))
    && (forall i :: 0 <= i < |s| && Low(s[i]) ==> 0 < i && High(s[i - 1]))
  }

  function HexDigit(n: nat): Unit
    requires n < 16
  {
    if n < 10 then 48 + n else 87 + n
  }

  /** One code unit as the quoting of strings spells it. */
  function Escape(u: Unit): Text {
    if u == 8 then [BACKSLASH, 98]
    else if u == 9 then [BACKSLASH, 116]
    else if u == 10 then [BACKSLASH, 110]
    else if u == 12 then [BACKSLASH, 102]
    else if u == 13 then [BACKSLASH, 114]
    else if u == QUOTE || u == BACKSLASH then [BACKSLASH, u]
    else if u < 32 then [BACKSLASH, LETTER_U, 48, 48, HexDigit(u / 16), HexDigit(u % 16)]
    else [u]
  }

  function EscapeAll(s: Text): Text {
    if s == [] then [] else Escape(s[0]) + EscapeAll(s[1..])
  }

  function Quote(s: Text): Text {
    [QUOTE] + EscapeAll(s) + [QUOTE]
  }

  function JsonString(s: Text): Result<Text, Fault> {
    if WellFormed(s) then Ok(Quote(s)) else Err(InvalidUnicode)
  }

  /** The scan over code units accepts exactly the strings whose surrogates all pair up. */
  method QuoteString(value: Text) returns (r: Result<Text, Fault>)
    ensures r == JsonString(value)
  {
    var index := 0;
    while index < |value|
      invariant 0 <= index <= |value|
      invariant forall i :: 0 <= i < index && High(value[i]) ==> i + 1 < index && Low(value[i + 1])
      invariant forall i :: 0 <= i < index && Low(value[i]) ==> 0 < i && High(value[i - 1])
    {
      var unit := value[index];
      if High(unit) {
        if index + 1 == |value| || !Low(value[index + 1]) {
          return Err(InvalidUnicode);
        }
        index := index + 1;
      } else if Low(unit) {
        assert 0 < index ==> !High(value[index - 1]);
        return Err(InvalidUnicode);
      }
      index := index + 1;
    }
    return Ok(Quote(value));
  }

  // -------------------------------------------------------------- key order

  /** Order of strings by UTF-16 code units. */
  predicate Less(a: Text, b: Text) {
    b != [] && (a == [] || a[0] < b[0] || (a[0] == b[0] && Less(a[1..], b[1..])))
  }

  lemma {:induction false} LessIsTotal(a: Text, b: Text)
    ensures a == b || Less(a, b) || Less(b, a)
    ensures !(Less(a, b) && Less(b, a))
    ensures !Less(a, a)
  {
    if a != [] {
      LessIsTotal(a[1..], if b == [] then [] else b[1..]);
      if b != [] && a[0] == b[0] && a[1..] == b[1..] {
        assert a == [a[0]] + a[1..] && b == [b[0]] + b[1..];
      }
    }
  }

  lemma {:induction false} LessIsTransitive(a: Text, b: Text, c: Text)
    requires Less(a, b) && Less(b, c)
    ensures Less(a, c)
  {
    if a != [] && a[0] == b[0] && b[0] == c[0] {
      LessIsTransitive(a[1..], b[1..], c[1..]);
    }
  }

  ghost predicate Ascending(keys: seq<Text>) {
    forall i, j :: 0 <= i < j < |keys| ==> Less(keys[i], keys[j])
  }

  ghost predicate Distinct(keys: seq<Text>) {
    forall i, j :: 0 <= i < j < |keys| ==> keys[i] != keys[j]
  }

  function Insert(key: Text, sorted: seq<Text>): (r: seq<Text>)
    ensures forall k :: k in r <==> k == key || k in sorted
  {
    if sorted == [] then [key]
    else if Less(key, sorted[0]) then [key] + sorted
    else
      var rest := Insert(key, sorted[1..]);
      assert forall k :: k in sorted <==> k == sorted[0] || k in sorted[1..];
      [sorted[0]] + rest
  }

  function Sort(keys: seq<Text>): (r: seq<Text>)
    ensures forall k :: k in r <==> k in keys
  {
    if keys == [] then []
    else
      assert forall k :: k in keys <==> k == keys[0] || k in keys[1..];
      Insert(keys[0], Sort(keys[1..]))
  }

  lemma {:induction false} InsertAscends(key: Text, sorted: seq<Text>)
    requires Ascending(sorted) && key !in sorted
    ensures Ascending(Insert(key, sorted))
  {
    if sorted != [] {
      LessIsTotal(key, sorted[0]);
      if Less(key, sorted[0]) {
        forall j | 0 < j < |sorted|
          ensures Less(key, sorted[j])
        {
          LessIsTransitive(key, sorted[0], sorted[j]);
        }
      } else {
        InsertAscends(key, sorted[1..]);
        var rest := Insert(key, sorted[1..]);
        forall j | 0 <= j < |rest|
          ensures Less(sorted[0], rest[j])
        {
          assert rest[j] in rest;
        }
      }
    }
  }

  /** Distinct keys come out strictly ascending, none lost and none added. */
  lemma {:induction false} SortAscends(keys: seq<Text>)
    requires Distinct(keys)
    ensures Ascending(Sort(keys))
  {
    if keys != [] {
      SortAscends(keys[1..]);
      InsertAscends(keys[0], Sort(keys[1..]));
    }
  }

  /** Only one ascending sequence has a given set of keys. */
  lemma {:induction false} AscendingIsUnique(a: seq<Text>, b: seq<Text>)
    requires Ascending(a) && Ascending(b) && forall k :: k in a <==> k in b
    ensures a == b
    decreases |a|
  {
    assert (|a| > 0 ==> a[0] in a) && (|b| > 0 ==> b[0] in b);
    if a != [] && b != [] {
      assert a[0] in b && b[0] in a;
      LessIsTotal(a[0], b[0]);
      forall k
        ensures k in a[1..] <==> k in b[1..]
      {
        LessIsTotal(a[0], k);
        LessIsTotal(b[0], k);
        assert k in a <==> k in b;
      }
      AscendingIsUnique(a[1..], b[1..]);
    }
  }

  // ----------------------------------------------------------------- values

  /** The text of a finite number; negative zero has the text of zero. */
  type Numeral = t: Text | IsNumeral(t) witness [48]

  predicate NumberUnit(u: Unit) {
    48 <= u <= 57 || u in [43, 45, 46, 69, 101]
  }

  predicate IsNumeral(t: Text) {
    t != [] && (48 <= t[0] <= 57 || t[0] == 45) && forall i :: 0 <= i < |t| ==> NumberUnit(t[i])
  }

  /**
   Whatever a caller may pass. `Cycle` is a reference back to a container that is being visited. An array
   has the elements that are present, which may leave holes below its length, and may carry other keys.
   */
  datatype Value = Null | Bool(b: bool) | Number(numeral: Numeral) | NonFinite | Str(text: Text) | NonJson | Cycle
    | Array(length: nat, items: map<nat, Value>, extra: set<Text>)
    | Object(order: seq<Text>, members: map<Text, Property>, plain: bool, symbols: bool)

  datatype Property = Property(value: Value, data: bool)

  /** What JavaScript guarantees: elements below the length, and each own key once, in some order. */
  ghost predicate Wf(v: Value) {
    match v
    case Array(length, items, _) => forall i :: i in items ==> i < length && Wf(items[i])
    case Object(order, members, _, _) =>
      && Distinct(order)
      && (forall k :: k in order <==> k in members)
      && (forall k :: k in members ==> Wf(members[k].value))
    case _ => true
  }

  // ---------------------------------------------------------------- encoder

  /** `depth` is the number of containers being visited around the value. */
  function Encode(v: Value, depth: nat): Result<Text, Fault>
    requires Wf(v)
    decreases v, 1, 0
  {
    match v
    case Null => Ok(NULL)
    case Bool(b) => Ok(if b then TRUE else FALSE)
    case Number(numeral) => Ok(numeral)
    case NonFinite => Err(NonFiniteNumber)
    case Str(text) => JsonString(text)
    case NonJson => Err(NonJsonValue)
    case Cycle => Err(CyclicValue)
    case Array(length, items, extra) =>
      if depth >= MAX_LEVELS then Err(TooDeep)
      else if |items| + |extra| != length then Err(SparseArray)
      else Wrap(OPEN_ARRAY, EncodeItems(v, 0, depth + 1), CLOSE_ARRAY)
    case Object(order, members, plain, symbols) =>
      if depth >= MAX_LEVELS then Err(TooDeep)
      else if !plain then Err(NonPlainObject)
      else if symbols then Err(SymbolProperty)
      else Wrap(OPEN_OBJECT, EncodeMembers(v, Sort(order), 0, depth + 1), CLOSE_OBJECT)
  }

  function Wrap(open: Unit, body: Result<Text, Fault>, close: Unit): Result<Text, Fault> {
    if body.Err? then body else Ok([open] + body.value + [close])
  }

  function Join(first: Result<Text, Fault>, rest: Result<Text, Fault>): Result<Text, Fault> {
    if first.Err? then first else if rest.Err? then rest else Ok(first.value + [COMMA] + rest.value)
  }

  /** A hole is passed over, and then joined as the empty text. */
  function EncodeItem(v: Value, i: nat, depth: nat): Result<Text, Fault>
    requires Wf(v) && v.Array?
    decreases v, 0, 0
  {
    if i in v.items then Encode(v.items[i], depth) else Ok([])
  }

  function EncodeItems(v: Value, i: nat, depth: nat): Result<Text, Fault>
    requires Wf(v) && v.Array? && i <= v.length
    decreases v, 0, v.length - i + 1
  {
    if i == v.length then Ok([])
    else if i + 1 == v.length then EncodeItem(v, i, depth)
    else Join(EncodeItem(v, i, depth), EncodeItems(v, i + 1, depth))
  }

  function EncodeMember(key: Text, property: Property, depth: nat): Result<Text, Fault>
    requires Wf(property.value)
    decreases property.value, 2, 0
  {
    if !property.data then Err(NonDataProperty)
    else if JsonString(key).Err? then JsonString(key)
    else
      var value := Encode(property.value, depth);
      if value.Err? then value else Ok(Quote(key) + [COLON] + value.value)
  }

  function EncodeMembers(v: Value, keys: seq<Text>, i: nat, depth: nat): Result<Text, Fault>
    requires Wf(v) && v.Object? && i <= |keys| && forall k :: k in keys ==> k in v.members
    decreases v, 0, |keys| - i
  {
    if i == |keys| then Ok([])
    else if i + 1 == |keys| then EncodeMember(keys[i], v.members[keys[i]], depth)
    else Join(EncodeMember(keys[i], v.members[keys[i]], depth), EncodeMembers(v, keys, i + 1, depth))
  }

  function CanonicalCommandJson(v: Value): Result<Text, Fault>
    requires Wf(v)
  {
    Encode(v, 0)
  }

  // ----------------------------------------------- when encoding succeeds

  /** JSON data all the way down, every string and every key well-formed. */
  ghost predicate IsJson(v: Value)
    requires Wf(v)
  {
    match v
    case Null => true
    case Bool(_) => true
    case Number(_) => true
    case Str(text) => WellFormed(text)
    case Array(length, items, extra) =>
      && extra == {} && (forall i: nat :: i < length ==> i in items)
      && forall i :: i in items ==> IsJson(items[i])
    case Object(order, members, plain, symbols) =>
      && plain && !symbols
      && forall k :: k in members ==> WellFormed(k) && members[k].data && IsJson(members[k].value)
    case _ => false
  }

  /** What the encoder accepts: of an array it only counts the keys. */
  ghost predicate Encodable(v: Value)
    requires Wf(v)
  {
    match v
    case Null => true
    case Bool(_) => true
    case Number(_) => true
    case Str(text) => WellFormed(text)
    case Array(length, items, extra) =>
      |items| + |extra| == length && forall i :: i in items ==> Encodable(items[i])
    case Object(order, members, plain, symbols) =>
      && plain && !symbols
      && forall k :: k in members ==> WellFormed(k) && members[k].data && Encodable(members[k].value)
    case _ => false
  }

  /** No array anywhere in the value carries a key that is not an index, as in everything a JSON parser returns. */
  ghost predicate PlainArrays(v: Value)
    requires Wf(v)
  {
    match v
    case Array(_, items, extra) => extra == {} && forall i :: i in items ==> PlainArrays(items[i])
    case Object(_, members, _, _) => forall k :: k in members ==> PlainArrays(members[k].value)
    case _ => true
  }

  lemma {:induction false} IndicesBelow(keys: set<nat>, length: nat)
    requires forall i :: i in keys ==> i < length
    ensures |keys| <= length
    ensures |keys| == length <==> forall i: nat :: i < length ==> i in keys
    decreases length
  {
    if length > 0 {
      var last := length - 1;
      var below := keys - {last};
      IndicesBelow(below, last);
      if last in keys {
        assert |keys| == |below| + 1;
        assert forall i :: i in keys <==> i == last || i in below;
        if forall i: nat :: i < length ==> i in keys {
          assert forall i: nat :: i < last ==> i in below;
        }
      } else {
        assert below == keys;
      }
    } else {
      assert keys == {};
    }
  }

  /** Counting keys tells an array without holes exactly when it has no other keys. */
  lemma CountingTellsHoles(v: Value)
    requires Wf(v) && v.Array? && v.extra == {}
    ensures |v.items| + |v.extra| == v.length <==> forall i: nat :: i < v.length ==> i in v.items
  {
    IndicesBelow(v.items.Keys, v.length);
    assert |v.items| == |v.items.Keys|;
  }

  /** What is accepted is JSON data exactly when its arrays are plain. */
  lemma {:induction false} JsonIffPlainArrays(v: Value)
    requires Wf(v)
    ensures IsJson(v) <==> Encodable(v) && PlainArrays(v)
  {
    if v.Array? {
      forall i | i in v.items
        ensures IsJson(v.items[i]) <==> Encodable(v.items[i]) && PlainArrays(v.items[i])
      {
        JsonIffPlainArrays(v.items[i]);
      }
      if v.extra == {} {
        CountingTellsHoles(v);
      }
    } else if v.Object? {
      forall k | k in v.members
        ensures IsJson(v.members[k].value) <==> Encodable(v.members[k].value) && PlainArrays(v.members[k].value)
      {
        JsonIffPlainArrays(v.members[k].value);
      }
    }
  }

  /** An array with a hole and one other key is accepted, and has the text of the empty array. */
  lemma HoleIsEncodedAsEmpty(key: Text)
    ensures var v := Array(1, map[], {key});
            && Wf(v) && !IsJson(v) && !PlainArrays(v)
            && CanonicalCommandJson(v) == CanonicalCommandJson(Array(0, map[], {})) ==
               Ok([OPEN_ARRAY] + [] + [CLOSE_ARRAY])
  {
    var v, w := Array(1, map[], {key}), Array(0, map[], {});
    assert |v.extra| == 1 && |w.extra| == 0 && 0 !in v.items;
    assert EncodeItems(v, 0, 1) == EncodeItem(v, 0, 1) == Ok([]);
    assert EncodeItems(w, 0, 1) == Ok([]);
  }

  /** Containers nest at most that many levels. */
  ghost predicate Within(v: Value, levels: nat) {
    match v
    case Array(_, items, _) => levels > 0 && forall i :: i in items ==> Within(items[i], levels - 1)
    case Object(_, members, _, _) => levels > 0 && forall k :: k in members ==> Within(members[k].value, levels - 1)
    case _ => true
  }

  ghost predicate GoodItem(v: Value, j: nat, levels: nat)
    requires Wf(v) && v.Array?
  {
    j in v.items ==> Encodable(v.items[j]) && Within(v.items[j], levels)
  }

  ghost predicate GoodMember(v: Value, k: Text, levels: nat)
    requires Wf(v) && v.Object? && k in v.members
  {
    WellFormed(k) && v.members[k].data && Encodable(v.members[k].value) && Within(v.members[k].value, levels)
  }

  lemma GoodItems(v: Value, levels: nat)
    requires Wf(v) && v.Array? && |v.items| + |v.extra| == v.length
    ensures Encodable(v) && Within(v, levels + 1) <==> forall j: nat :: j < v.length ==> GoodItem(v, j, levels)
  {
    if forall j: nat :: j < v.length ==> GoodItem(v, j, levels) {
      forall i | i in v.items
        ensures Encodable(v.items[i]) && Within(v.items[i], levels)
      {
        assert GoodItem(v, i, levels);
      }
    }
  }

  ghost predicate AllGood(v: Value, keys: seq<Text>, i: nat, levels: nat)
    requires Wf(v) && v.Object? && i <= |keys| && forall k :: k in keys ==> k in v.members
    decreases |keys| - i
  {
    i == |keys| || (GoodMember(v, keys[i], levels) && AllGood(v, keys, i + 1, levels))
  }

  lemma {:induction false} AllGoodIsAll(v: Value, keys: seq<Text>, i: nat, levels: nat)
    requires Wf(v) && v.Object? && i <= |keys| && forall k :: k in keys ==> k in v.members
    ensures AllGood(v, keys, i, levels) <==> forall k :: k in keys[i..] ==> GoodMember(v, k, levels)
    decreases |keys| - i
  {
    if i < |keys| {
      AllGoodIsAll(v, keys, i + 1, levels);
      assert keys[i..] == [keys[i]] + keys[i + 1..];
    }
  }

  lemma GoodMembers(v: Value, levels: nat)
    requires Wf(v) && v.Object? && v.plain && !v.symbols
    ensures Encodable(v) && Within(v, levels + 1) <==> AllGood(v, Sort(v.order), 0, levels)
  {
    AllGoodIsAll(v, Sort(v.order), 0, levels);
    assert Sort(v.order)[0..] == Sort(v.order);
    assert forall k :: k in Sort(v.order) <==> k in v.members;
    GoodMembersAre(v, levels);
  }

  lemma GoodMembersAre(v: Value, levels: nat)
    requires Wf(v) && v.Object? && v.plain && !v.symbols
    ensures Encodable(v) && Within(v, levels + 1) <==> forall k :: k in v.members ==> GoodMember(v, k, levels)
  {
  }

  /** Encoding succeeds exactly on what is accepted within the remaining levels. */
  lemma {:induction false} EncodesExactly(v: Value, depth: nat)
    requires Wf(v) && depth <= MAX_LEVELS
    ensures Encode(v, depth).Ok? <==> Encodable(v) && Within(v, MAX_LEVELS - depth)
    decreases v, 1, 0
  {
    if v.Array? {
      if depth < MAX_LEVELS && |v.items| + |v.extra| == v.length {
        ItemsEncodeExactly(v, 0, depth + 1, MAX_LEVELS - depth - 1);
        GoodItems(v, MAX_LEVELS - depth - 1);
      }
    } else if v.Object? {
      if depth < MAX_LEVELS && v.plain && !v.symbols {
        MembersEncodeExactly(v, Sort(v.order), 0, depth + 1, MAX_LEVELS - depth - 1);
        GoodMembers(v, MAX_LEVELS - depth - 1);
      }
    }
  }

  lemma {:induction false} ItemsEncodeExactly(v: Value, i: nat, depth: nat, levels: nat)
    requires Wf(v) && v.Array? && i <= v.length && depth + levels == MAX_LEVELS
    ensures EncodeItems(v, i, depth).Ok? <==> forall j: nat :: i <= j < v.length ==> GoodItem(v, j, levels)
    decreases v, 0, v.length - i
  {
    if i < v.length {
      if i in v.items {
        EncodesExactly(v.items[i], depth);
      }
      ItemsEncodeExactly(v, i + 1, depth, levels);
      assert GoodItem(v, i, levels) <==> EncodeItem(v, i, depth).Ok?;
    }
  }

  lemma {:induction false} MemberEncodesExactly(v: Value, k: Text, depth: nat, levels: nat)
    requires Wf(v) && v.Object? && k in v.members && depth + levels == MAX_LEVELS
    ensures EncodeMember(k, v.members[k], depth).Ok? <==> GoodMember(v, k, levels)
    decreases v, 0, 0
  {
    EncodesExactly(v.members[k].value, depth);
  }

  lemma {:induction false} MembersEncodeExactly(v: Value, keys: seq<Text>, i: nat, depth: nat, levels: nat)
    requires Wf(v) && v.Object? && i <= |keys| && depth + levels == MAX_LEVELS
    requires forall k :: k in keys ==> k in v.members
    ensures EncodeMembers(v, keys, i, depth).Ok? <==> AllGood(v, keys, i, levels)
    decreases v, 0, |keys| - i + 1
  {
    if i < |keys| {
      MemberEncodesExactly(v, keys[i], depth, levels);
      MembersEncodeExactly(v, keys, i + 1, depth, levels);
    }
  }

  /**
   Of values whose arrays are plain, exactly the well-formed JSON data nested at most 64 containers deep
   is encoded; and whatever is encoded is JSON data if and only if its arrays are plain.
   */
  lemma EncodesJsonExactly(v: Value)
    requires Wf(v)
    ensures PlainArrays(v) ==> (CanonicalCommandJson(v).Ok? <==> IsJson(v) && Within(v, 64))
    ensures CanonicalCommandJson(v).Ok? ==> (IsJson(v) <==> PlainArrays(v))
  {
    EncodesExactly(v, 0);
    JsonIffPlainArrays(v);
  }
}
