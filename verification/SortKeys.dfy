/** The fixed-width text keys by which the outbox tables are ordered, and the sequence parser. */
module SortKeys {
  import opened Wrappers
  import opened Decimal

  const MAX_SEQUENCE: nat := 0x7FFF_FFFF_FFFF_FFFF
  const WIDTH: nat := 20

  datatype SequenceError = NotCanonical | AboveCounterLimit

  /** A sequence is read back only from canonical decimal text no greater than the counter limit. */
  function ParseSequence(text: string): (r: Result<nat, SequenceError>) {
    if !Canonical(text) then Err(NotCanonical)
    else if Value(text) > MAX_SEQUENCE then Err(AboveCounterLimit)
    else Ok(Value(text))
  }

  lemma ParseInvertsPrint(n: nat)
    ensures n < 0x8000_0000_0000_0000 ==> ParseSequence(Print(n)) == Ok(n)
    ensures n >= 0x8000_0000_0000_0000 ==> ParseSequence(Print(n)) == Err(AboveCounterLimit)
  {
    PrintIsCanonical(n);
  }

  lemma PrintInvertsParse(text: string)
    requires ParseSequence(text).Ok?
    ensures Print(ParseSequence(text).value) == text
  {
    ValuePrints(text);
  }

  function Zeros(k: nat): (s: string)
    ensures |s| == k
    ensures forall i :: 0 <= i < k ==> s[i] == '0'
  {
    seq(k, _ => '0')
  }

  predicate Sortable(n: int) {
    -1 <= n <= MAX_SEQUENCE
  }

  /** -1 stands for "nothing acknowledged yet" and is written "-000...". */
  function SortKey(n: int): (key: string)
    requires Sortable(n)
    ensures |key| == WIDTH
  {
    if n == -1 then "-" + Zeros(WIDTH - 1)
    else
      DigitCount(n);
      Zeros(WIDTH - |Print(n)|) + Print(n)
  }

  /** No sequence needs more than nineteen digits, so the padding is never negative. */
  lemma DigitCount(n: nat)
    requires n <= MAX_SEQUENCE
    ensures |Print(n)| <= WIDTH
  {
    PrintIsCanonical(n);
    ValueBounds(Print(n));
    PowerAboveLimit();
    Pow10Grows(19, |Print(n)| - 1);
  }

  lemma PowerAboveLimit()
    ensures Pow10(19) > MAX_SEQUENCE
  {
    assert Pow10(5) == 100_000;
    assert Pow10(10) == 10_000_000_000;
    assert Pow10(15) == 1_000_000_000_000_000;
  }

  lemma {:induction false} Pow10Grows(a: nat, b: nat)
    ensures a <= b ==> Pow10(a) <= Pow10(b)
  {
    if a < b {
      Pow10Grows(a, b - 1);
    }
  }

  /** SQLite's BINARY collation on ASCII text. */
  predicate TextLess(a: string, b: string) {
    if b == [] then false
    else if a == [] then true
    else if a[0] != b[0] then a[0] < b[0]
    else TextLess(a[1..], b[1..])
  }

  lemma {:induction false} TextLessBySuffix(a: string, x: char, b: string, y: char)
    requires |a| == |b|
    ensures TextLess(a + [x], b + [y]) <==> TextLess(a, b) || (a == b && x < y)
  {
    if a == [] {
      assert a + [x] == [x] && b + [y] == [y];
      assert [x][1..] == [] && [y][1..] == [];
    } else {
      assert (a + [x])[1..] == a[1..] + [x] && (b + [y])[1..] == b[1..] + [y];
      TextLessBySuffix(a[1..], x, b[1..], y);
      assert a == [a[0]] + a[1..] && b == [b[0]] + b[1..];
    }
  }

  lemma {:induction false} DigitOrder(a: string, b: string)
    requires |a| == |b| && AllDigits(a) && AllDigits(b)
    ensures TextLess(a, b) <==> Value(a) < Value(b)
    ensures a == b <==> Value(a) == Value(b)
  {
    if |a| > 0 {
      var n := |a| - 1;
      DigitOrder(a[..n], b[..n]);
      TextLessBySuffix(a[..n], a[n], b[..n], b[n]);
      assert a == a[..n] + [a[n]] && b == b[..n] + [b[n]];
    }
  }

  lemma {:induction false} LeadingZeros(k: nat, s: string)
    requires AllDigits(s)
    ensures AllDigits(Zeros(k) + s) && Value(Zeros(k) + s) == Value(s)
  {
    if s == [] {
      assert Zeros(k) + s == Zeros(k);
      if k > 0 {
        LeadingZeros(k - 1, s);
        assert Zeros(k)[..k - 1] == Zeros(k - 1) == Zeros(k - 1) + s;
      }
    } else {
      LeadingZeros(k, s[..|s| - 1]);
      var t := Zeros(k) + s;
      assert t[..|t| - 1] == Zeros(k) + s[..|s| - 1];
    }
  }

  /** Key order is integer order on everything the tables store, the sentinel included. */
  lemma KeyOrder(m: int, n: int)
    requires Sortable(m) && Sortable(n)
    ensures TextLess(SortKey(m), SortKey(n)) <==> m < n
    ensures SortKey(m) == SortKey(n) <==> m == n
  {
    if m >= 0 && n >= 0 {
      KeyValue(m);
      KeyValue(n);
      DigitOrder(SortKey(m), SortKey(n));
    } else if m >= 0 {
      KeyValue(m);
      assert IsDigit(SortKey(m)[0]) && SortKey(n)[0] == '-';
    } else if n >= 0 {
      KeyValue(n);
      assert IsDigit(SortKey(n)[0]) && SortKey(m)[0] == '-';
    } else {
      TextLessIrreflexive(SortKey(m));
    }
  }

  lemma {:induction false} TextLessIrreflexive(a: string)
    ensures !TextLess(a, a)
  {
    if a != [] {
      TextLessIrreflexive(a[1..]);
    }
  }

  lemma KeyValue(n: nat)
    requires n <= MAX_SEQUENCE
    ensures AllDigits(SortKey(n)) && Value(SortKey(n)) == n
  {
    PrintIsCanonical(n);
    DigitCount(n);
    LeadingZeros(WIDTH - |Print(n)|, Print(n));
  }

  /** A key has twenty characters, the number with zeros in front; nothing acknowledged is a minus and zeros. */
  lemma KeyIsSpelled(n: int)
    requires -1 <= n < 0x8000_0000_0000_0000
    ensures |SortKey(n)| == 20
    ensures n == -1 ==> SortKey(n) == "-0000000000000000000"
    ensures n >= 0 ==>
              exists zeros: string ::
                (forall i :: 0 <= i < |zeros| ==> zeros[i] == '0') && SortKey(n) == zeros + Print(n)
  {
    if n >= 0 {
      DigitCount(n);
      assert SortKey(n) == Zeros(20 - |Print(n)|) + Print(n);
    }
  }

  /** "" and "~" are used as open bounds: they really are below and above every key. */
  lemma OpenBounds(n: int)
    requires Sortable(n)
    ensures TextLess("", SortKey(n)) && TextLess(SortKey(n), "~")
  {
    if n >= 0 {
      KeyValue(n);
    }
  }
}
