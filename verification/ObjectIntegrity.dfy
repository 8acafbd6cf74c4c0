/**
 Integrity headers of runtime objects: the SHA-256 digest as a Structured Field byte sequence
 (section 3.3.5 of RFC 8941, section 4 of RFC 4648), the entity tag (section 8.8.3 of RFC 9110) and
 the content range of a partial response. An absent header reads as the empty text.
 */
module ObjectIntegrity {
  import opened Decimal
  import opened Wrappers

  type byte = n: nat | n < 256

  const HASH_BYTES: nat := 32
  const MAX_GENERATION: nat := 2_147_483_647
  const MAX_SAFE_INTEGER: nat := 0x1F_FFFF_FFFF_FFFF
  const MAX_OBJECT_RESPONSE_BYTES: nat := 8_388_608

  const DIGEST_START := "sha-256=:"

  // ------------------------------------------------------------- hexadecimal

  function HexChar(n: nat): char
    requires n < 16
  {
    if n < 10 then '0' + n as char else 'a' + (n - 10) as char
  }

  predicate IsHex(c: char) {
    '0' <= c <= '9' || 'a' <= c <= 'f'
  }

  function HexValue(c: char): (n: nat)
    requires IsHex(c)
    ensures n < 16
  {
    if c <= '9' then (c - '0') as nat else (c - 'a') as nat + 10
  }

  predicate IsHexText(s: string) {
    |s| % 2 == 0 && forall i :: 0 <= i < |s| ==> IsHex(s[i])
  }

  function ToHex(bytes: seq<byte>): (s: string)
    ensures IsHexText(s) && |s| == 2 * |bytes|
  {
    if bytes == [] then "" else [HexChar(bytes[0] / 16), HexChar(bytes[0] % 16)] + ToHex(bytes[1..])
  }

  function FromHex(s: string): (bytes: seq<byte>)
    requires IsHexText(s)
    ensures 2 * |bytes| == |s|
  {
    if s == "" then [] else [HexValue(s[0]) * 16 + HexValue(s[1])] + FromHex(s[2..])
  }

  /** Two lower-case digits a byte, the high one first. */
  lemma HexIsSpelled(b: byte, more: seq<byte>)
    ensures ToHex([]) == ""
    ensures ToHex([b] + more) == ["0123456789abcdef"[b / 16], "0123456789abcdef"[b % 16]] + ToHex(more)
  {
    assert forall n :: 0 <= n < 16 ==> HexChar(n) == "0123456789abcdef"[n];
    assert ([b] + more)[1..] == more;
  }

  lemma HexCharReads(n: nat)
    requires n < 16
    ensures IsHex(HexChar(n)) && HexValue(HexChar(n)) == n
  {
  }

  lemma HexPair(c: char, d: char)
    requires IsHex(c) && IsHex(d)
    ensures var n := HexValue(c) * 16 + HexValue(d);
            n / 16 == HexValue(c) && n % 16 == HexValue(d) && HexChar(n / 16) == c && HexChar(n % 16) == d
  {
  }

  lemma {:induction false} FromHexInvertsToHex(bytes: seq<byte>)
    ensures FromHex(ToHex(bytes)) == bytes
  {
    if bytes != [] {
      HexCharReads(bytes[0] / 16);
      HexCharReads(bytes[0] % 16);
      FromHexInvertsToHex(bytes[1..]);
      assert ToHex(bytes)[2..] == ToHex(bytes[1..]);
    }
  }

  lemma {:induction false} ToHexInvertsFromHex(s: string)
    requires IsHexText(s)
    ensures ToHex(FromHex(s)) == s
  {
    if s != "" {
      HexPair(s[0], s[1]);
      ToHexInvertsFromHex(s[2..]);
      assert FromHex(s)[1..] == FromHex(s[2..]);
      assert s == [s[0], s[1]] + s[2..];
    }
  }

  // ------------------------------------------------------------------ base64

  predicate IsBase64(c: char) {
    'A' <= c <= 'Z' || 'a' <= c <= 'z' || '0' <= c <= '9' || c == '+' || c == '/'
  }

  function Base64Char(n: nat): char
    requires n < 64
  {
    if n < 26 then 'A' + n as char
    else if n < 52 then 'a' + (n - 26) as char
    else if n < 62 then '0' + (n - 52) as char
    else if n == 62 then '+' else '/'
  }

  function Base64Value(c: char): (n: nat)
    requires IsBase64(c)
    ensures n < 64
  {
    if 'A' <= c <= 'Z' then (c - 'A') as nat
    else if 'a' <= c <= 'z' then (c - 'a') as nat + 26
    else if '0' <= c <= '9' then (c - '0') as nat + 52
    else if c == '+' then 62 else 63
  }

  lemma DigitReads(n: nat)
    requires n < 64
    ensures IsBase64(Base64Char(n)) && Base64Value(Base64Char(n)) == n
  {
  }

  predicate IsBase64Text(s: string) {
    forall i :: 0 <= i < |s| ==> IsBase64(s[i])
  }

  function Four(a: byte, b: byte, c: byte): string {
    [Base64Char(a / 4), Base64Char(a % 4 * 16 + b / 16), Base64Char(b % 16 * 4 + c / 64), Base64Char(c % 64)]
  }

  /** Without padding: three bytes are four digits, two are three and one is two. */
  function Encode64(b: seq<byte>): string {
    if |b| == 0 then ""
    else if |b| == 1 then [Base64Char(b[0] / 4), Base64Char(b[0] % 4 * 16)]
    else if |b| == 2 then
      [Base64Char(b[0] / 4), Base64Char(b[0] % 4 * 16 + b[1] / 16), Base64Char(b[1] % 16 * 4)]
    else Four(b[0], b[1], b[2]) + Encode64(b[3..])
  }

  lemma Base64CharIs(n: nat)
    requires n < 64
    ensures n < 26 ==> Base64Char(n) == "ABCDEFGHIJKLMNOPQRSTUVWXYZ"[n]
    ensures 26 <= n < 52 ==> Base64Char(n) == "abcdefghijklmnopqrstuvwxyz"[n - 26]
    ensures 52 <= n ==> Base64Char(n) == "0123456789+/"[n - 52]
  {
    assert forall k :: 0 <= k < 26 ==> "ABCDEFGHIJKLMNOPQRSTUVWXYZ"[k] == 'A' + k as char;
    assert forall k :: 0 <= k < 26 ==> "abcdefghijklmnopqrstuvwxyz"[k] == 'a' + k as char;
    assert forall k :: 0 <= k < 10 ==> "0123456789+/"[k] == '0' + k as char;
  }

  lemma DigitsHoldTheBits(a: byte, b: byte, c: byte)
    ensures a / 4 < 64 && a % 4 * 16 + b / 16 < 64 && b % 16 * 4 + c / 64 < 64
    ensures ((a / 4 * 64 + (a % 4 * 16 + b / 16)) * 64 + (b % 16 * 4 + c / 64)) * 64 + c % 64
            == (a * 256 + b) * 256 + c
  {
  }

  lemma FourAndRest(a: byte, b: byte, c: byte, more: seq<byte>)
    ensures Encode64([a, b, c] + more) == Four(a, b, c) + Encode64(more)
  {
    assert ([a, b, c] + more)[3..] == more;
  }

  /**
   Three bytes are four digits with the same 24 bits, the highest first. Of two bytes three digits are written and of
   one byte two, as if the missing bytes were zero.
   */
  lemma Base64IsSpelled(a: byte, b: byte, c: byte, more: seq<byte>) returns (d: nat, e: nat, f: nat, g: nat)
    ensures d < 64 && e < 64 && f < 64 && g < 64 && ((d * 64 + e) * 64 + f) * 64 + g == (a * 256 + b) * 256 + c
    ensures Encode64([a, b, c] + more) == [Base64Char(d), Base64Char(e), Base64Char(f), Base64Char(g)] + Encode64(more)
    ensures c == 0 ==> Encode64([a, b]) == [Base64Char(d), Base64Char(e), Base64Char(f)]
    ensures b == 0 && c == 0 ==> Encode64([a]) == [Base64Char(d), Base64Char(e)]
    ensures Encode64([]) == ""
  {
    FourAndRest(a, b, c, more);
    DigitsHoldTheBits(a, b, c);
    d, e, f, g := a / 4, a % 4 * 16 + b / 16, b % 16 * 4 + c / 64, c % 64;
  }

  function FirstByte(s: string): byte
    requires |s| >= 2 && IsBase64Text(s)
  {
    Base64Value(s[0]) * 4 + Base64Value(s[1]) / 16
  }

  function SecondByte(s: string): byte
    requires |s| >= 3 && IsBase64Text(s)
  {
    Base64Value(s[1]) % 16 * 16 + Base64Value(s[2]) / 4
  }

  function ThirdByte(s: string): byte
    requires |s| >= 4 && IsBase64Text(s)
  {
    Base64Value(s[2]) % 4 * 64 + Base64Value(s[3])
  }

  /** The lenient decoder: bits left over at the end are dropped. */
  function Decode64(s: string): seq<byte>
    requires IsBase64Text(s)
  {
    if |s| < 2 then []
    else if |s| == 2 then [FirstByte(s)]
    else if |s| == 3 then [FirstByte(s), SecondByte(s)]
    else [FirstByte(s), SecondByte(s), ThirdByte(s)] + Decode64(s[4..])
  }

  function Padding(n: nat): string {
    if n % 3 == 0 then "" else if n % 3 == 1 then "==" else "="
  }

  /** The bits of up to three bytes, cut into sixes and put together again. */
  lemma SixBits(a: byte, b: byte, c: byte)
    ensures a / 4 < 64 && a % 4 * 16 + b / 16 < 64 && b % 16 * 4 + c / 64 < 64
    ensures a / 4 * 4 + (a % 4 * 16 + b / 16) / 16 == a
    ensures (a % 4 * 16 + b / 16) % 16 * 16 + (b % 16 * 4 + c / 64) / 4 == b
    ensures (b % 16 * 4 + c / 64) % 4 * 64 + c % 64 == c
  {
  }

  lemma FourRead(a: byte, b: byte, c: byte)
    ensures IsBase64Text(Four(a, b, c))
    ensures [FirstByte(Four(a, b, c)), SecondByte(Four(a, b, c)), ThirdByte(Four(a, b, c))] == [a, b, c]
  {
    SixBits(a, b, c);
    DigitReads(a / 4);
    DigitReads(a % 4 * 16 + b / 16);
    DigitReads(b % 16 * 4 + c / 64);
    DigitReads(c % 64);
  }

  lemma GroupReads(group: string, rest: string)
    requires |group| == 4 && IsBase64Text(group) && IsBase64Text(rest)
    ensures IsBase64Text(group + rest)
    ensures Decode64(group + rest) == [FirstByte(group), SecondByte(group), ThirdByte(group)] + Decode64(rest)
  {
    assert (group + rest)[4..] == rest;
  }

  lemma ThreeAndRest(b: seq<byte>)
    requires |b| >= 3
    ensures b == [b[0], b[1], b[2]] + b[3..]
  {
  }

  lemma OneReads(b: seq<byte>)
    requires |b| == 1
    ensures IsBase64Text(Encode64(b)) && |Encode64(b)| == 2 && Decode64(Encode64(b)) == b
  {
    SixBits(b[0], 0, 0);
    DigitReads(b[0] / 4);
    DigitReads(b[0] % 4 * 16);
    assert FirstByte(Encode64(b)) == b[0];
  }

  lemma TwoRead(b: seq<byte>)
    requires |b| == 2
    ensures IsBase64Text(Encode64(b)) && |Encode64(b)| == 3 && Decode64(Encode64(b)) == b
  {
    SixBits(b[0], b[1], 0);
    DigitReads(b[0] / 4);
    DigitReads(b[0] % 4 * 16 + b[1] / 16);
    DigitReads(b[1] % 16 * 4);
    assert [FirstByte(Encode64(b)), SecondByte(Encode64(b))] == [b[0], b[1]];
  }

  lemma {:induction false} DecodeInvertsEncode64(b: seq<byte>)
    ensures IsBase64Text(Encode64(b)) && Decode64(Encode64(b)) == b
  {
    if |b| >= 3 {
      DecodeInvertsEncode64(b[3..]);
      FourRead(b[0], b[1], b[2]);
      GroupReads(Four(b[0], b[1], b[2]), Encode64(b[3..]));
      ThreeAndRest(b);
    } else if |b| == 2 {
      TwoRead(b);
    } else if |b| == 1 {
      OneReads(b);
    }
  }

  lemma {:induction false} EncodedLength(b: seq<byte>, groups: nat)
    requires |b| == 3 * groups + 2
    ensures |Encode64(b)| == 4 * groups + 3
  {
    if groups > 0 {
      EncodedLength(b[3..], groups - 1);
    }
  }

  // ------------------------------------------------------------------ digest

  /** The header for a hash given in hexadecimal. */
  function ObjectDigest(sha256: string): string
    requires IsHexText(sha256)
  {
    DIGEST_START + Encode64(FromHex(sha256)) + Padding(|sha256| / 2) + ":"
  }

  /** The 43 digits of a header of the right shape, which is `sha-256=:`, 43 digits, `=:`. */
  function DigestDigits(header: string): Option<string> {
    if |header| == 54 && header[..9] == DIGEST_START && IsBase64Text(header[9..52]) && header[52..] == "=:"
    then Some(header[9..52]) else None
  }

  function ParseObjectDigest(header: string): Option<string> {
    var digits := DigestDigits(header);
    if digits.None? then None
    else
      var bytes := Decode64(digits.value);
      if |bytes| == HASH_BYTES && Encode64(bytes) + Padding(|bytes|) == digits.value + "=" then Some(ToHex(bytes))
      else None
  }

  ghost predicate IsHash(sha256: string) {
    |sha256| == 64 && IsHexText(sha256)
  }

  lemma DigitsOf(digits: string)
    requires |digits| == 43 && IsBase64Text(digits)
    ensures DigestDigits(DIGEST_START + digits + "=:") == Some(digits)
  {
    var header := DIGEST_START + digits + "=:";
    assert header[..9] == DIGEST_START && header[9..52] == digits && header[52..] == "=:";
  }

  lemma Spelled(start: string, digits: string)
    ensures start + digits + "=" + ":" == start + digits + "=:"
    ensures (digits + "=")[..|digits|] == digits
  {
  }

  /** Every 32-byte hash is recovered from its header. */
  lemma DigestReads(sha256: string)
    requires IsHash(sha256)
    ensures ParseObjectDigest(ObjectDigest(sha256)) == Some(sha256)
  {
    ToHexInvertsFromHex(sha256);
    var bytes := FromHex(sha256);
    BytesRead(bytes);
    assert |sha256| / 2 == HASH_BYTES;
    assert ObjectDigest(sha256) == DIGEST_START + Encode64(bytes) + Padding(HASH_BYTES) + ":";
  }

  lemma BytesRead(bytes: seq<byte>)
    requires |bytes| == HASH_BYTES
    ensures ParseObjectDigest(DIGEST_START + Encode64(bytes) + Padding(HASH_BYTES) + ":") == Some(ToHex(bytes))
  {
    DecodeInvertsEncode64(bytes);
    EncodedLength(bytes, 10);
    DigitsOf(Encode64(bytes));
    Spelled(DIGEST_START, Encode64(bytes));
    assert Padding(HASH_BYTES) == "=";
  }

  lemma Pieces(header: string)
    requires |header| == 54 && header[52..] == "=:"
    ensures header == header[..9] + header[9..52] + "=:"
  {
  }

  /** A header that is accepted is the one spelling of the hash it stands for. */
  lemma DigestPrints(header: string)
    requires ParseObjectDigest(header).Some?
    ensures IsHash(ParseObjectDigest(header).value) && ObjectDigest(ParseObjectDigest(header).value) == header
  {
    var digits := DigestDigits(header).value;
    var bytes := Decode64(digits);
    FromHexInvertsToHex(bytes);
    Pieces(header);
    Spelled(DIGEST_START, digits);
    Spelled(DIGEST_START, Encode64(bytes));
    EncodedLength(bytes, 10);
    assert Padding(|bytes|) == "=";
    assert Encode64(bytes) == digits;
  }

  /** The headers that are accepted are exactly those of hashes. */
  lemma DigestAcceptsExactly(header: string)
    ensures ParseObjectDigest(header).Some? <==> exists h :: IsHash(h) && ObjectDigest(h) == header
  {
    if ParseObjectDigest(header).Some? {
      DigestPrints(header);
    }
    forall h | IsHash(h) && ObjectDigest(h) == header
      ensures ParseObjectDigest(header).Some?
    {
      DigestReads(h);
    }
  }

  // --------------------------------------------------------------- entity tag

  datatype Etag = Etag(generation: nat, sha256: string)

  function ObjectEtag(generation: nat, sha256: string): string {
    "\"" + Print(generation) + "-" + sha256 + "\""
  }

  /** A quote, a number without leading zero, a dash, 64 hexadecimal digits, a quote. */
  function EtagParts(header: string): Option<(string, string)> {
    var n := |header|;
    if n >= 68 && header[0] == '"' && header[n - 66] == '-' && header[n - 1] == '"'
    && Canonical(header[1..n - 66]) && header[1] != '0' && IsHexText(header[n - 65..n - 1])
    then Some((header[1..n - 66], header[n - 65..n - 1])) else None
  }

  function ParseObjectEtag(header: string): Option<Etag> {
    var parts := EtagParts(header);
    if parts.None? then None
    else
      var generation := Value(parts.value.0);
      if generation <= MAX_SAFE_INTEGER && generation <= MAX_GENERATION then Some(Etag(generation, parts.value.1))
      else None
  }

  ghost predicate IsTag(t: Etag) {
    1 <= t.generation <= 2_147_483_647 && IsHash(t.sha256)
  }

  lemma EtagReads(t: Etag)
    requires IsTag(t)
    ensures ParseObjectEtag(ObjectEtag(t.generation, t.sha256)) == Some(t)
  {
    var digits := Print(t.generation);
    var header := ObjectEtag(t.generation, t.sha256);
    var n := |header|;
    PrintIsCanonical(t.generation);
    assert n == |digits| + 67 && header[1..n - 66] == digits && header[n - 65..n - 1] == t.sha256;
    assert header[0] == '"' && header[n - 66] == '-' && header[n - 1] == '"' && header[1] == digits[0];
  }

  lemma EtagPrints(header: string)
    requires ParseObjectEtag(header).Some?
    ensures var t := ParseObjectEtag(header).value; IsTag(t) && ObjectEtag(t.generation, t.sha256) == header
  {
    var n := |header|;
    var digits := header[1..n - 66];
    ValuePrints(digits);
    assert digits[0] == header[1];
    assert header == "\"" + digits + "-" + header[n - 65..n - 1] + "\"";
  }

  /** Distinct generations or hashes have distinct tags. */
  lemma EtagsAreDistinct(t: Etag, u: Etag)
    requires IsTag(t) && IsTag(u)
    ensures ObjectEtag(t.generation, t.sha256) == ObjectEtag(u.generation, u.sha256) <==> t == u
  {
    EtagReads(t);
    EtagReads(u);
  }

  // ------------------------------------------------------------ content range

  datatype Range = Range(start: nat, end: nat, total: nat)

  const RANGE_START := "bytes "

  function Join(a: string, c: char, b: string): string {
    a + [c] + b
  }

  /** `bytes `, the first and the last position, and the total length. */
  function ContentRange(r: Range): string {
    RANGE_START + Join(Print(r.start), '-', Join(Print(r.end), '/', Print(r.total)))
  }

  /** Where a character first occurs, or the length. */
  function Find(s: string, c: char): (k: nat)
    ensures k <= |s| && (k < |s| ==> s[k] == c)
    ensures forall i :: 0 <= i < k ==> s[i] != c
  {
    if s == "" || s[0] == c then 0 else 1 + Find(s[1..], c)
  }

  /** Two texts around the first occurrence of a separator. */
  function Split(s: string, c: char): Option<(string, string)> {
    if Find(s, c) == |s| then None else Some((s[..Find(s, c)], s[Find(s, c) + 1..]))
  }

  function RangeParts(header: string): Option<(string, string, string)> {
    if |header| < 6 || header[..6] != RANGE_START || Split(header[6..], '-').None? then None
    else
      var (start, rest) := Split(header[6..], '-').value;
      if Split(rest, '/').None? then None else Some((start, Split(rest, '/').value.0, Split(rest, '/').value.1))
  }

  predicate Acceptable(r: Range) {
    && r.start <= MAX_SAFE_INTEGER && r.end <= MAX_SAFE_INTEGER && r.total <= MAX_SAFE_INTEGER
    && r.start <= r.end < r.total && r.end - r.start + 1 <= MAX_OBJECT_RESPONSE_BYTES
  }

  function ParseObjectContentRange(header: string): Option<Range> {
    var parts := RangeParts(header);
    if parts.None? || !Canonical(parts.value.0) || !Canonical(parts.value.1) || !Canonical(parts.value.2)
    || parts.value.2[0] == '0' then None
    else
      var r := Range(Value(parts.value.0), Value(parts.value.1), Value(parts.value.2));
      if Acceptable(r) then Some(r) else None
  }

  lemma SplitReads(a: string, c: char, b: string)
    requires c !in a
    ensures Split(Join(a, c, b), c) == Some((a, b))
  {
    var s := Join(a, c, b);
    assert s[|a|] == c && forall i :: 0 <= i < |a| ==> s[i] == a[i] && a[i] in a;
    assert s[..|a|] == a && s[|a| + 1..] == b;
  }

  lemma SplitPrints(s: string, c: char)
    requires Split(s, c).Some?
    ensures s == Join(Split(s, c).value.0, c, Split(s, c).value.1)
  {
  }

  lemma PartsRead(start: string, end: string, total: string)
    requires '-' !in start && '/' !in end
    ensures RangeParts(RANGE_START + Join(start, '-', Join(end, '/', total))) == Some((start, end, total))
  {
    var rest := Join(end, '/', total);
    var body := Join(start, '-', rest);
    SplitReads(start, '-', rest);
    SplitReads(end, '/', total);
    assert (RANGE_START + body)[..6] == RANGE_START && (RANGE_START + body)[6..] == body;
  }

  lemma PartsPrint(header: string)
    requires RangeParts(header).Some?
    ensures var (start, end, total) := RangeParts(header).value;
            header == RANGE_START + Join(start, '-', Join(end, '/', total))
  {
    SplitPrints(header[6..], '-');
    SplitPrints(Split(header[6..], '-').value.1, '/');
    assert header == header[..6] + header[6..];
  }

  lemma NoSeparator(n: nat, c: char)
    requires !IsDigit(c)
    ensures c !in Print(n)
  {
    PrintIsCanonical(n);
  }

  lemma RangeReads(r: Range)
    requires Acceptable(r)
    ensures ParseObjectContentRange(ContentRange(r)) == Some(r)
  {
    PrintIsCanonical(r.start);
    PrintIsCanonical(r.end);
    PrintIsCanonical(r.total);
    NoSeparator(r.start, '-');
    NoSeparator(r.end, '/');
    PartsRead(Print(r.start), Print(r.end), Print(r.total));
  }

  /** Of all ranges, those are accepted that are not empty, lie within the object and fit one response of 8 MiB. */
  lemma RangeAcceptsExactly(r: Range)
    ensures ParseObjectContentRange(ContentRange(r)).Some? <==>
              r.start <= r.end < r.total <= 0x1F_FFFF_FFFF_FFFF && r.end - r.start + 1 <= 8_388_608
  {
    PrintIsCanonical(r.start);
    PrintIsCanonical(r.end);
    PrintIsCanonical(r.total);
    NoSeparator(r.start, '-');
    NoSeparator(r.end, '/');
    PartsRead(Print(r.start), Print(r.end), Print(r.total));
  }

  lemma RangePrints(header: string)
    requires ParseObjectContentRange(header).Some?
    ensures var r := ParseObjectContentRange(header).value; Acceptable(r) && ContentRange(r) == header
  {
    var parts := RangeParts(header).value;
    ValuePrints(parts.0);
    ValuePrints(parts.1);
    ValuePrints(parts.2);
    PartsPrint(header);
  }

  /** The text of the three headers. */
  lemma HeadersAreSpelled(bytes: seq<byte>, t: Etag, r: Range)
    requires |bytes| == 32
    ensures ObjectDigest(ToHex(bytes)) == "sha-256=:" + Encode64(bytes) + "=:"
    ensures ObjectEtag(t.generation, t.sha256) == "\"" + Print(t.generation) + "-" + t.sha256 + "\""
    ensures ContentRange(r) == "bytes " + Print(r.start) + "-" + Print(r.end) + "/" + Print(r.total)
  {
    FromHexInvertsToHex(bytes);
    Spelled(DIGEST_START, Encode64(bytes));
    assert Padding(32) == "=";
  }
}
