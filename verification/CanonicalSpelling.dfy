/**
 The canonical text itself, unit by unit (sections 3.2.2 and 3.2.3 of RFC 8785): how values are spelled, and in
 which order the properties of an object come.
 */
module CanonicalSpelling {
  import opened CanonicalJson
  import opened Wrappers

  // ------------------------------------------------------------------- order

  /** Up to a place the texts agree, and there the first one ends or has the smaller unit. */
  ghost predicate DiffersAt(a: Text, b: Text, k: nat) {
    && k <= |a| && k < |b| && a[..k] == b[..k]
    && (k == |a| || a[k] < b[k])
  }

  ghost predicate Precedes(a: Text, b: Text) {
    exists k: nat :: DiffersAt(a, b, k)
  }

  lemma DiffersLater(a: Text, b: Text, k: nat)
    requires a != [] && b != [] && a[0] == b[0]
    ensures DiffersAt(a, b, k + 1) <==> DiffersAt(a[1..], b[1..], k)
  {
    if k < |a| && k < |b| {
      assert a[..k + 1] == [a[0]] + a[1..][..k] && b[..k + 1] == [b[0]] + b[1..][..k];
      assert a[..k + 1] == b[..k + 1] ==> a[..k + 1][1..] == b[..k + 1][1..];
      assert a[..k + 1][1..] == a[1..][..k] && b[..k + 1][1..] == b[1..][..k];
    }
  }

  /** The order of keys is the order of texts by their UTF-16 code units. */
  lemma {:induction false} LessIsByUnits(a: Text, b: Text)
    ensures Less(a, b) <==> Precedes(a, b)
  {
    if a != [] && b != [] && a[0] == b[0] {
      LessIsByUnits(a[1..], b[1..]);
      if Less(a, b) {
        var k: nat :| DiffersAt(a[1..], b[1..], k);
        DiffersLater(a, b, k);
      }
      if Precedes(a, b) {
        var k: nat :| DiffersAt(a, b, k);
        assert k > 0;
        DiffersLater(a, b, k - 1);
      }
    } else {
      if Less(a, b) {
        assert DiffersAt(a, b, 0);
      }
      if Precedes(a, b) {
        var k: nat :| DiffersAt(a, b, k);
        if k > 0 {
          assert a[..k][0] == b[..k][0];
        }
      }
    }
  }

  ghost predicate InOrder(keys: seq<Text>) {
    forall i, j :: 0 <= i < j < |keys| ==> Precedes(keys[i], keys[j])
  }

  /** Distinct keys come out in the order of their units, none lost and none added. */
  lemma SortsByUnits(keys: seq<Text>)
    requires Distinct(keys)
    ensures InOrder(Sort(keys)) && forall k :: k in Sort(keys) <==> k in keys
  {
    SortAscends(keys);
    forall i, j | 0 <= i < j < |Sort(keys)|
      ensures Precedes(Sort(keys)[i], Sort(keys)[j])
    {
      LessIsByUnits(Sort(keys)[i], Sort(keys)[j]);
    }
  }

  // --------------------------------------------------------------- spelling

  /** Texts with commas between them. */
  ghost function Commas(texts: seq<Text>): Text {
    if texts == [] then []
    else if |texts| == 1 then texts[0]
    else texts[0] + [44] + Commas(texts[1..])
  }

  lemma ScalarsAreSpelled(b: bool, numeral: Numeral, text: Text, depth: nat)
    ensures Encode(Null, depth) == Ok([110, 117, 108, 108])
    ensures Encode(Bool(b), depth) == Ok(if b then [116, 114, 117, 101] else [102, 97, 108, 115, 101])
    ensures Encode(Number(numeral), depth) == Ok(numeral)
    ensures Encode(Str(text), depth).Ok? ==> Encode(Str(text), depth).value == [34] + EscapeAll(text) + [34]
    ensures Encode(NonFinite, depth) == Err(NonFiniteNumber) && Encode(NonJson, depth) == Err(NonJsonValue)
    ensures Encode(Cycle, depth) == Err(CyclicValue)
  {
  }

  /** The texts taken for numbers: digits, signs, point and exponent, with a digit or a minus in front. */
  lemma NumeralsAre(text: Text)
    ensures IsNumeral(text) <==>
            && text != [] && text[0] in [45, 48, 49, 50, 51, 52, 53, 54, 55, 56, 57]
            && forall i :: 0 <= i < |text| ==>
                 text[i] in [43, 45, 46, 48, 49, 50, 51, 52, 53, 54, 55, 56, 57, 69, 101]
  {
    forall i | 0 <= i < |text|
      ensures NumberUnit(text[i]) <==>
              text[i] in [43, 45, 46, 48, 49, 50, 51, 52, 53, 54, 55, 56, 57, 69, 101]
    {
    }
  }

  lemma CommasBefore(text: Text, rest: seq<Text>)
    ensures Commas([text] + rest) == if rest == [] then text else text + [44] + Commas(rest)
  {
    assert ([text] + rest)[1..] == rest;
  }

  /** The short escapes, lower-case hexadecimal for the other control characters, and every other unit as it is. */
  ghost function Spelling(u: Unit): Text {
    match u
    case 8 => [92, 98]
    case 9 => [92, 116]
    case 10 => [92, 110]
    case 12 => [92, 102]
    case 13 => [92, 114]
    case 34 => [92, 34]
    case 92 => [92, 92]
    case _ =>
      if u < 16 then [92, 117, 48, 48, 48, if u < 10 then 48 + u else 97 + u - 10]
      else if u < 32 then [92, 117, 48, 48, 49, if u < 26 then 48 + u - 16 else 97 + u - 26]
      else [u]
  }

  /** A text is spelled unit by unit. */
  lemma UnitsAreSpelled(u: Unit, more: Text)
    ensures EscapeAll([]) == [] && EscapeAll([u] + more) == Spelling(u) + EscapeAll(more)
  {
    assert ([u] + more)[1..] == more;
  }

  /** A text is spelled exactly if its units of d800 to dbff and those of dc00 to dfff come in pairs, in this order. */
  lemma TextIsRefused(text: Text, depth: nat)
    ensures Encode(Str(text), depth).Ok? <==>
            && (forall i :: 0 <= i < |text| && 0xd800 <= text[i] <= 0xdbff ==>
                  i + 1 < |text| && 0xdc00 <= text[i + 1] <= 0xdfff)
            && (forall i :: 0 <= i < |text| && 0xdc00 <= text[i] <= 0xdfff ==>
                  0 < i && 0xd800 <= text[i - 1] <= 0xdbff)
    ensures Encode(Str(text), depth).Err? ==> Encode(Str(text), depth).error == InvalidUnicode
  {
    assert WellFormed(text) <==>
           && (forall i :: 0 <= i < |text| && High(text[i]) ==> i + 1 < |text| && Low(text[i + 1]))
           && (forall i :: 0 <= i < |text| && Low(text[i]) ==> 0 < i && High(text[i - 1]));
  }

  ghost predicate ItemSpelled(v: Value, i: nat, depth: nat, text: Text)
    requires Wf(v) && v.Array?
  {
    if i in v.items then Encode(v.items[i], depth) == Ok(text) else text == []
  }

  lemma ItemsGoOn(v: Value, i: nat, depth: nat)
    requires Wf(v) && v.Array? && i < v.length && EncodeItems(v, i, depth).Ok?
    ensures EncodeItem(v, i, depth).Ok? && EncodeItems(v, i + 1, depth).Ok?
    ensures EncodeItems(v, i, depth).value ==
            if i + 1 == v.length then EncodeItem(v, i, depth).value
            else EncodeItem(v, i, depth).value + [44] + EncodeItems(v, i + 1, depth).value
  {
  }

  ghost predicate AllItemsSpelled(v: Value, i: nat, depth: nat, texts: seq<Text>)
    requires Wf(v) && v.Array?
  {
    |texts| == v.length && forall j :: i <= j < v.length ==> ItemSpelled(v, j, depth, texts[j])
  }

  lemma {:induction false} ItemsAreSpelled(v: Value, i: nat, depth: nat) returns (texts: seq<Text>)
    requires Wf(v) && v.Array? && i <= v.length && EncodeItems(v, i, depth).Ok?
    ensures AllItemsSpelled(v, i, depth, texts) && EncodeItems(v, i, depth).value == Commas(texts[i..])
    decreases v.length - i
  {
    if i == v.length {
      texts := seq(v.length, _ => []);
    } else {
      ItemsGoOn(v, i, depth);
      var first := EncodeItem(v, i, depth).value;
      var rest := ItemsAreSpelled(v, i + 1, depth);
      texts := rest[i := first];
      CommasBefore(first, rest[i + 1..]);
      assert texts[i..] == [first] + rest[i + 1..];
      assert ItemSpelled(v, i, depth, first);
    }
  }

  /** An array is its items in order, in brackets; a hole has the empty text. */
  lemma ArrayIsSpelled(v: Value, depth: nat) returns (texts: seq<Text>)
    requires Wf(v) && v.Array? && Encode(v, depth).Ok?
    ensures AllItemsSpelled(v, 0, depth + 1, texts) && Encode(v, depth).value == [91] + Commas(texts) + [93]
  {
    texts := ItemsAreSpelled(v, 0, depth + 1);
    assert texts[0..] == texts;
  }

  ghost predicate MemberSpelled(v: Value, key: Text, depth: nat, text: Text)
    requires Wf(v) && v.Object?
  {
    && key in v.members
    && var value := Encode(v.members[key].value, depth);
    value.Ok? && text == [34] + EscapeAll(key) + [34] + [58] + value.value
  }

  lemma MemberIsSpelled(v: Value, key: Text, depth: nat)
    requires Wf(v) && v.Object? && key in v.members && EncodeMember(key, v.members[key], depth).Ok?
    ensures MemberSpelled(v, key, depth, EncodeMember(key, v.members[key], depth).value)
  {
  }

  lemma MembersGoOn(v: Value, keys: seq<Text>, i: nat, depth: nat)
    requires Wf(v) && v.Object? && i < |keys| && forall k :: k in keys ==> k in v.members
    requires EncodeMembers(v, keys, i, depth).Ok?
    ensures EncodeMember(keys[i], v.members[keys[i]], depth).Ok? && EncodeMembers(v, keys, i + 1, depth).Ok?
    ensures var first := EncodeMember(keys[i], v.members[keys[i]], depth).value;
            EncodeMembers(v, keys, i, depth).value ==
            if i + 1 == |keys| then first else first + [44] + EncodeMembers(v, keys, i + 1, depth).value
  {
  }

  /** From some position on, these are the members' texts. */
  ghost predicate AllSpelled(v: Value, keys: seq<Text>, i: nat, depth: nat, texts: seq<Text>)
    requires Wf(v) && v.Object?
  {
    |texts| == |keys| && forall j :: i <= j < |keys| ==> MemberSpelled(v, keys[j], depth, texts[j])
  }

  lemma {:induction false} MembersAreSpelled(v: Value, keys: seq<Text>, i: nat, depth: nat) returns (texts: seq<Text>)
    requires Wf(v) && v.Object? && i <= |keys| && (forall k :: k in keys ==> k in v.members)
    requires EncodeMembers(v, keys, i, depth).Ok?
    ensures AllSpelled(v, keys, i, depth, texts) && EncodeMembers(v, keys, i, depth).value == Commas(texts[i..])
    decreases |keys| - i
  {
    if i == |keys| {
      texts := seq(|keys|, _ => []);
    } else {
      MembersGoOn(v, keys, i, depth);
      MemberIsSpelled(v, keys[i], depth);
      var first := EncodeMember(keys[i], v.members[keys[i]], depth).value;
      var rest := MembersAreSpelled(v, keys, i + 1, depth);
      texts := rest[i := first];
      CommasBefore(first, rest[i + 1..]);
      assert texts[i..] == [first] + rest[i + 1..];
    }
  }

  lemma KeysOf(v: Value)
    requires Wf(v) && v.Object?
    ensures InOrder(Sort(v.order)) && forall k :: k in Sort(v.order) <==> k in v.members
  {
    SortsByUnits(v.order);
  }

  lemma Braced(v: Value, depth: nat)
    requires Wf(v) && v.Object? && Encode(v, depth).Ok?
    ensures EncodeMembers(v, Sort(v.order), 0, depth + 1).Ok?
    ensures Encode(v, depth).value == [123] + EncodeMembers(v, Sort(v.order), 0, depth + 1).value + [125]
  {
  }

  /** An object is its properties in the order of their keys' units, in braces, each once. */
  lemma ObjectIsSpelled(v: Value, depth: nat)
    requires Wf(v) && v.Object? && Encode(v, depth).Ok?
    ensures exists keys, texts ::
              && InOrder(keys) && (forall k :: k in keys <==> k in v.members)
              && AllSpelled(v, keys, 0, depth + 1, texts) && Encode(v, depth).value == [123] + Commas(texts) + [125]
  {
    var keys := Sort(v.order);
    KeysOf(v);
    Braced(v, depth);
    var texts := MembersAreSpelled(v, keys, 0, depth + 1);
    assert texts[0..] == texts;
    assert AllSpelled(v, keys, 0, depth + 1, texts);
  }
}
