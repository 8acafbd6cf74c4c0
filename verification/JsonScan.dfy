/**
 The byte scanner that bounds a frame's JSON before it is decoded, and what it decides about the
 text of a JSON value (grammar: sections 2 and 7 of RFC 8259).
 */
module JsonScan {
  import opened Framing
  import opened Wrappers

  const MAX_DEPTH: int := 32
  const MAX_STRUCTURES: nat := 8192

  const QUOTE: byte := 34
  const COMMA: byte := 44
  const COLON: byte := 58
  const OPEN_ARRAY: byte := 91
  const BACKSLASH: byte := 92
  const CLOSE_ARRAY: byte := 93
  const OPEN_OBJECT: byte := 123
  const CLOSE_OBJECT: byte := 125

  // ---------------------------------------------------------------- scanner

  datatype State = State(quoted: bool, escaped: bool, depth: int, structures: nat)

  const START := State(false, false, 0, 0)

  predicate Over(s: State) {
    s.depth > MAX_DEPTH || s.structures > MAX_STRUCTURES
  }

  function Step(s: State, b: byte): State {
    if s.quoted then
      if s.escaped then s.(escaped := false)
      else if b == BACKSLASH then s.(escaped := true)
      else if b == QUOTE then s.(quoted := false)
      else s
    else
      var opens := b == OPEN_OBJECT || b == OPEN_ARRAY;
      var closes := b == CLOSE_OBJECT || b == CLOSE_ARRAY;
      s.(quoted := b == QUOTE,
         depth := s.depth + (if opens then 1 else 0) - (if closes then 1 else 0),
         structures := s.structures + (if opens || b == COMMA || b == COLON then 1 else 0))
  }

  /** The state after all the bytes, or None when a bound is passed on the way. */
  function Scan(s: State, frame: seq<byte>): Option<State>
    decreases |frame|
  {
    if frame == [] then Some(s)
    else
      var t := Step(s, frame[0]);
      if Over(t) then None else Scan(t, frame[1..])
  }

  method ParseFrameBounds(frame: seq<byte>) returns (refused: bool)
    ensures refused <==> |frame| > MAX_FRAME_BYTES || Scan(START, frame).None?
  {
    if |frame| > MAX_FRAME_BYTES {
      return true;
    }
    var quoted, escaped := false, false;
    var depth: int, structures: nat := 0, 0;
    for i := 0 to |frame|
      invariant !Over(State(quoted, escaped, depth, structures))
      invariant Scan(START, frame) == Scan(State(quoted, escaped, depth, structures), frame[i..])
    {
      assert frame[i..][1..] == frame[i + 1..];
      var b := frame[i];
      if quoted {
        if escaped {
          escaped := false;
        } else if b == BACKSLASH {
          escaped := true;
        } else if b == QUOTE {
          quoted := false;
        }
        continue;
      }
      if b == QUOTE {
        quoted := true;
      }
      if b == OPEN_OBJECT || b == OPEN_ARRAY {
        depth := depth + 1;
      }
      if b == CLOSE_OBJECT || b == CLOSE_ARRAY {
        depth := depth - 1;
      }
      if b == OPEN_OBJECT || b == OPEN_ARRAY || b == COMMA || b == COLON {
        structures := structures + 1;
      }
      if depth > MAX_DEPTH || structures > MAX_STRUCTURES {
        return true;
      }
    }
    return false;
  }

  lemma {:induction false} ScanAppend(s: State, a: seq<byte>, b: seq<byte>)
    ensures Scan(s, a + b) == if Scan(s, a).None? then None else Scan(Scan(s, a).value, b)
    decreases |a|
  {
    if a == [] {
      assert a + b == b;
    } else {
      ScanAppend(Step(s, a[0]), a[1..], b);
      assert (a + b)[1..] == a[1..] + b;
    }
  }

  // ------------------------------------------------------------- JSON texts

  /** A string's body is kept as it is spelled between its quotes, escapes included. */
  datatype Json = Literal(text: seq<byte>) | Str(body: seq<byte>) | Array(items: Items) | Object(members: Members)
  datatype Items = NoItems | Item(head: Json, rest: Items)
  datatype Members = NoMembers | Member(key: seq<byte>, value: Json, rest: Members)

  /** The tokens of section 2 of RFC 8259; `Blank` is insignificant whitespace. */
  datatype Token = BeginObject | EndObject | BeginArray | EndArray | Comma | Colon
    | Word(text: seq<byte>) | Quoted(body: seq<byte>) | Blank(text: seq<byte>)

  /** Bytes of numbers, of the literal names and of whitespace: none that the scanner looks at. */
  ghost predicate Inert(b: byte) {
    b !in [34, 44, 58, 91, 93, 123, 125]
  }

  ghost predicate AllInert(text: seq<byte>) {
    forall i :: 0 <= i < |text| ==> Inert(text[i])
  }

  /** Every quote and every backslash is escaped, and no escape runs over the end. */
  ghost predicate WellEscaped(body: seq<byte>) {
    if body == [] then true
    else if body[0] == 92 then |body| >= 2 && WellEscaped(body[2..])
    else body[0] != 34 && WellEscaped(body[1..])
  }

  ghost predicate TokenOk(t: Token) {
    match t
    case Word(text) => AllInert(text)
    case Blank(text) => AllInert(text)
    case Quoted(body) => WellEscaped(body)
    case _ => true
  }

  function Spelling(t: Token): seq<byte> {
    match t
    case BeginObject => [123]
    case EndObject => [125]
    case BeginArray => [91]
    case EndArray => [93]
    case Comma => [44]
    case Colon => [58]
    case Word(text) => text
    case Quoted(body) => [34] + body + [34]
    case Blank(text) => text
  }

  function Text(tokens: seq<Token>): seq<byte> {
    if tokens == [] then [] else Spelling(tokens[0]) + Text(tokens[1..])
  }

  function Significant(tokens: seq<Token>): seq<Token> {
    if tokens == [] then []
    else (if tokens[0].Blank? then [] else [tokens[0]]) + Significant(tokens[1..])
  }

  function Tokens(v: Json): seq<Token> {
    match v
    case Literal(text) => [Word(text)]
    case Str(body) => [Quoted(body)]
    case Array(items) => [BeginArray] + ItemTokens(items) + [EndArray]
    case Object(members) => [BeginObject] + MemberTokens(members) + [EndObject]
  }

  function ItemTokens(items: Items): seq<Token> {
    match items
    case NoItems => []
    case Item(head, rest) => Tokens(head) + (if rest.NoItems? then [] else [Comma] + ItemTokens(rest))
  }

  function MemberTokens(members: Members): seq<Token> {
    match members
    case NoMembers => []
    case Member(key, value, rest) =>
      [Quoted(key), Colon] + Tokens(value) + (if rest.NoMembers? then [] else [Comma] + MemberTokens(rest))
  }

  /** The tokens are those of the value, with whitespace anywhere between them. */
  ghost predicate Spells(tokens: seq<Token>, v: Json) {
    (forall i :: 0 <= i < |tokens| ==> TokenOk(tokens[i])) && Significant(tokens) == Tokens(v)
  }

  /** How many containers deep a value goes. */
  function Nesting(v: Json): nat {
    match v
    case Array(items) => 1 + ItemNesting(items)
    case Object(members) => 1 + MemberNesting(members)
    case _ => 0
  }

  function ItemNesting(items: Items): nat {
    match items
    case NoItems => 0
    case Item(head, rest) => Max(Nesting(head), ItemNesting(rest))
  }

  function MemberNesting(members: Members): nat {
    match members
    case NoMembers => 0
    case Member(_, value, rest) => Max(Nesting(value), MemberNesting(rest))
  }

  function Max(a: nat, b: nat): nat {
    if a < b then b else a
  }

  /** How many of the tokens are the structural characters that the scanner counts. */
  function Structural(tokens: seq<Token>): nat {
    if tokens == [] then 0
    else (if tokens[0] in [BeginObject, BeginArray, Comma, Colon] then 1 else 0) + Structural(tokens[1..])
  }

  lemma {:induction false} StructuralAppend(a: seq<Token>, b: seq<Token>)
    ensures Structural(a + b) == Structural(a) + Structural(b)
  {
    if a == [] {
      assert a + b == b;
    } else {
      StructuralAppend(a[1..], b);
      assert (a + b)[1..] == a[1..] + b;
    }
  }

  lemma {:induction false} StructuralIgnoresBlanks(tokens: seq<Token>)
    ensures Structural(Significant(tokens)) == Structural(tokens)
  {
    if tokens != [] {
      StructuralIgnoresBlanks(tokens[1..]);
      StructuralAppend(if tokens[0].Blank? then [] else [tokens[0]], Significant(tokens[1..]));
    }
  }

  // ------------------------------------------------------ bytes to tokens

  function AfterToken(s: State, t: Token): State {
    match t
    case BeginObject => s.(depth := s.depth + 1, structures := s.structures + 1)
    case BeginArray => s.(depth := s.depth + 1, structures := s.structures + 1)
    case EndObject => s.(depth := s.depth - 1)
    case EndArray => s.(depth := s.depth - 1)
    case Comma => s.(structures := s.structures + 1)
    case Colon => s.(structures := s.structures + 1)
    case _ => s
  }

  function Walk(s: State, tokens: seq<Token>): Option<State>
    decreases |tokens|
  {
    if tokens == [] then Some(s)
    else
      var t := AfterToken(s, tokens[0]);
      if Over(t) then None else Walk(t, tokens[1..])
  }

  ghost predicate Between(s: State) {
    !s.quoted && !s.escaped && !Over(s)
  }

  lemma {:induction false} InertText(s: State, text: seq<byte>)
    requires Between(s) && AllInert(text)
    ensures Scan(s, text) == Some(s)
    decreases |text|
  {
    if text != [] {
      assert Inert(text[0]) && Step(s, text[0]) == s;
      InertText(s, text[1..]);
    }
  }

  lemma {:induction false} QuotedBody(s: State, body: seq<byte>)
    requires s.quoted && !s.escaped && !Over(s) && WellEscaped(body)
    ensures Scan(s, body) == Some(s)
    decreases |body|
  {
    if body != [] {
      if body[0] == BACKSLASH {
        var inside := s.(escaped := true);
        assert body[1..][1..] == body[2..] && body[1..][0] == body[1];
        assert Step(inside, body[1]) == s;
        QuotedBody(s, body[2..]);
        assert Scan(inside, body[1..]) == Scan(s, body[2..]);
      } else {
        QuotedBody(s, body[1..]);
      }
    }
  }

  lemma ScanOne(s: State, b: byte)
    ensures Scan(s, [b]) == if Over(Step(s, b)) then None else Some(Step(s, b))
  {
    assert [b][1..] == [];
  }

  lemma ScanToken(s: State, t: Token)
    requires Between(s) && TokenOk(t)
    ensures Scan(s, Spelling(t)) == if Over(AfterToken(s, t)) then None else Some(AfterToken(s, t))
  {
    match t {
      case Word(text) => InertText(s, text);
      case Blank(text) => InertText(s, text);
      case Quoted(body) =>
        var inside := s.(quoted := true);
        ScanOne(s, QUOTE);
        QuotedBody(inside, body);
        ScanOne(inside, QUOTE);
        ScanAppend(s, [QUOTE], body);
        ScanAppend(s, [QUOTE] + body, [QUOTE]);
      case _ => ScanOne(s, Spelling(t)[0]);
    }
  }

  lemma {:induction false} ScanIsWalk(s: State, tokens: seq<Token>)
    requires Between(s) && forall i :: 0 <= i < |tokens| ==> TokenOk(tokens[i])
    ensures Scan(s, Text(tokens)) == Walk(s, tokens)
    decreases |tokens|
  {
    if tokens != [] {
      ScanToken(s, tokens[0]);
      ScanAppend(s, Spelling(tokens[0]), Text(tokens[1..]));
      if !Over(AfterToken(s, tokens[0])) {
        ScanIsWalk(AfterToken(s, tokens[0]), tokens[1..]);
      }
    }
  }

  lemma {:induction false} BlanksDoNotMatter(s: State, tokens: seq<Token>)
    requires !Over(s)
    ensures Walk(s, tokens) == Walk(s, Significant(tokens))
    decreases |tokens|
  {
    if tokens != [] {
      var rest := Significant(tokens[1..]);
      if tokens[0].Blank? {
        BlanksDoNotMatter(s, tokens[1..]);
        assert Significant(tokens) == rest;
      } else {
        assert ([tokens[0]] + rest)[1..] == rest;
        if !Over(AfterToken(s, tokens[0])) {
          BlanksDoNotMatter(AfterToken(s, tokens[0]), tokens[1..]);
        }
      }
    }
  }

  lemma {:induction false} WalkAppend(s: State, a: seq<Token>, b: seq<Token>)
    ensures Walk(s, a + b) == if Walk(s, a).None? then None else Walk(Walk(s, a).value, b)
    ensures Structural(a + b) == Structural(a) + Structural(b)
    decreases |a|
  {
    StructuralAppend(a, b);
    if a == [] {
      assert a + b == b;
    } else {
      WalkAppend(AfterToken(s, a[0]), a[1..], b);
      assert (a + b)[1..] == a[1..] + b;
    }
  }

  // ----------------------------------------------------- tokens to values

  /** Something `deep` containers deep with `count` structural characters, met in state s. */
  function Crossed(s: State, deep: nat, count: nat): Option<State> {
    if s.depth + deep > MAX_DEPTH || s.structures + count > MAX_STRUCTURES then None
    else Some(s.(structures := s.structures + count))
  }

  lemma WalkOne(s: State, t: Token)
    ensures Structural([t]) == AfterToken(s, t).structures - s.structures
    ensures Walk(s, [t]) == if Over(AfterToken(s, t)) then None else Some(AfterToken(s, t))
  {
    assert [t][1..] == [];
  }

  /** A container: one deeper, one more structural character, and back at the same depth. */
  lemma WalkBracketed(s: State, open: Token, inner: seq<Token>, close: Token, deep: nat)
    requires !Over(s) && open in [BeginArray, BeginObject] && close in [EndArray, EndObject]
    requires var t := AfterToken(s, open); !Over(t) ==> Walk(t, inner) == Crossed(t, deep, Structural(inner))
    ensures Walk(s, [open] + inner + [close]) == Crossed(s, 1 + deep, Structural([open] + inner + [close]))
  {
    var t := AfterToken(s, open);
    WalkOne(s, open);
    WalkAppend(s, [open], inner);
    WalkAppend(s, [open] + inner, [close]);
    WalkOne(t.(structures := t.structures + Structural(inner)), close);
  }

  /**
   Wherever a value stands, the scanner leaves it at the depth at which it met it, has counted its
   structural characters, and stops inside exactly when the value goes too deep or counts too many.
   */
  lemma {:induction false} WalkValue(s: State, v: Json)
    requires !Over(s)
    ensures Walk(s, Tokens(v)) == Crossed(s, Nesting(v), Structural(Tokens(v)))
    decreases v, 0
  {
    match v {
      case Literal(text) => WalkOne(s, Word(text));
      case Str(body) => WalkOne(s, Quoted(body));
      case Array(items) =>
        if !Over(AfterToken(s, BeginArray)) {
          WalkItems(AfterToken(s, BeginArray), items);
        }
        WalkBracketed(s, BeginArray, ItemTokens(items), EndArray, ItemNesting(items));
      case Object(members) =>
        if !Over(AfterToken(s, BeginObject)) {
          WalkMembers(AfterToken(s, BeginObject), members);
        }
        WalkBracketed(s, BeginObject, MemberTokens(members), EndObject, MemberNesting(members));
    }
  }

  lemma {:induction false} WalkItems(s: State, items: Items)
    requires !Over(s)
    ensures Walk(s, ItemTokens(items)) == Crossed(s, ItemNesting(items), Structural(ItemTokens(items)))
    decreases items, 0
  {
    match items {
      case NoItems =>
      case Item(head, rest) =>
        WalkValue(s, head);
        if rest.NoItems? {
          assert Tokens(head) + [] == Tokens(head);
        } else {
          WalkAppend(s, Tokens(head), [Comma] + ItemTokens(rest));
          if Walk(s, Tokens(head)).Some? {
            WalkComma(Walk(s, Tokens(head)).value, ItemTokens(rest));
            var t := AfterToken(Walk(s, Tokens(head)).value, Comma);
            if !Over(t) {
              WalkItems(t, rest);
            }
          }
        }
    }
  }

  lemma WalkComma(s: State, rest: seq<Token>)
    ensures Structural([Comma] + rest) == 1 + Structural(rest)
    ensures Walk(s, [Comma] + rest) == if Over(AfterToken(s, Comma)) then None else Walk(AfterToken(s, Comma), rest)
  {
    assert ([Comma] + rest)[1..] == rest;
  }

  lemma {:induction false} WalkMembers(s: State, members: Members)
    requires !Over(s)
    ensures Walk(s, MemberTokens(members)) == Crossed(s, MemberNesting(members), Structural(MemberTokens(members)))
    decreases members, 0
  {
    match members {
      case NoMembers =>
      case Member(key, value, rest) =>
        var front := [Quoted(key), Colon] + Tokens(value);
        WalkMember(s, key, value);
        if rest.NoMembers? {
          assert front + [] == front;
        } else {
          WalkAppend(s, front, [Comma] + MemberTokens(rest));
          if Walk(s, front).Some? {
            WalkComma(Walk(s, front).value, MemberTokens(rest));
            var t := AfterToken(Walk(s, front).value, Comma);
            if !Over(t) {
              WalkMembers(t, rest);
            }
          }
        }
    }
  }

  lemma {:induction false} WalkMember(s: State, key: seq<byte>, value: Json)
    requires !Over(s)
    ensures Walk(s, [Quoted(key), Colon] + Tokens(value)) ==
            Crossed(s, Nesting(value), Structural([Quoted(key), Colon] + Tokens(value)))
    decreases value, 1
  {
    assert [Quoted(key), Colon] + Tokens(value) == [Quoted(key)] + ([Colon] + Tokens(value));
    WalkAppend(s, [Quoted(key)], [Colon] + Tokens(value));
    WalkAppend(s, [Colon], Tokens(value));
    WalkOne(s, Quoted(key));
    WalkOne(s, Colon);
    if !Over(AfterToken(s, Colon)) {
      WalkValue(AfterToken(s, Colon), value);
    }
  }

  // ------------------------------------------------------------ main result

  /**
   Any spelling of a JSON value, however it is spaced and whatever its strings contain: the scanner
   accepts it exactly when the value nests at most 32 containers and its spelling has at most 8192
   structural characters, and then it ends outside any string, at depth zero, with the exact count.
   */
  lemma ScannerAcceptsExactly(tokens: seq<Token>, v: Json)
    requires Spells(tokens, v)
    ensures Scan(START, Text(tokens)) ==
              if Nesting(v) <= 32 && Structural(tokens) <= 8192
              then Some(State(false, false, 0, Structural(tokens))) else None
  {
    ScanIsWalk(START, tokens);
    BlanksDoNotMatter(START, tokens);
    WalkValue(START, v);
    StructuralIgnoresBlanks(tokens);
  }
}
