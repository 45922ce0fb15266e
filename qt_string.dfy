/** The pieces of Qt's QString that the style-string parsers rely on:
    whitespace classification (QChar::isSpace), splitting with and without
    empty parts, trimming, the base-10 conversion of QString::toInt and the
    decimal text written by QString::number and QString::arg(int). */
module QtString {

  datatype Option<T> = None | Some(value: T) {
    function GetOr(default: T): T {
      match this
      case Some(v) => v
      case None => default
    }
  }

  const INT_MIN: int := -0x8000_0000
  const INT_MAX: int := 0x7fff_ffff

  /** The C++ `int` of the source. */
  type int32 = x: int | INT_MIN <= x <= INT_MAX

  /** qBound(lo, v, hi): qMax(lo, qMin(hi, v)). */
  function Bound(lo: int, v: int, hi: int): int {
    if v > hi then (if hi < lo then lo else hi) else if v < lo then lo else v
  }

  lemma {:induction false} BoundInRange(lo: int, v: int, hi: int)
    requires lo <= hi
    ensures lo <= Bound(lo, v, hi) <= hi
    ensures lo <= v <= hi ==> Bound(lo, v, hi) == v
    ensures v < lo ==> Bound(lo, v, hi) == lo
    ensures v > hi ==> Bound(lo, v, hi) == hi
  {
  }

  /** C++ integer division by a positive divisor, which truncates toward
      zero (Dafny's `/` rounds toward negative infinity for a negative
      dividend). */
  function TruncDiv(a: int, b: int): int
    requires b > 0
  {
    if a >= 0 then a / b else -((-a) / b)
  }

  /** QChar::isSpace: the ASCII controls TAB..CR, U+0085, and the Unicode
      categories Zs, Zl and Zp. */
  predicate IsSpace(c: char) {
    c == ' ' || ('\t' <= c <= '\r') || c == '\U{85}' || c == '\U{A0}' || c == '\U{1680}'
    || ('\U{2000}' <= c <= '\U{200A}') || c == '\U{2028}' || c == '\U{2029}'
    || c == '\U{202F}' || c == '\U{205F}' || c == '\U{3000}'
  }

  predicate IsDigit(c: char) { '0' <= c <= '9' }

  predicate AllDigits(s: string) {
    forall i :: 0 <= i < |s| ==> IsDigit(s[i])
  }

  predicate NoneOf(s: string, isSep: char -> bool) {
    forall i :: 0 <= i < |s| ==> !isSep(s[i])
  }

  /** QString::split with KeepEmptyParts: the text between separators, in
      order; the empty string splits into one empty part. */
  function Split(s: string, isSep: char -> bool): (parts: seq<string>)
    ensures |parts| >= 1
    decreases |s|
  {
    if s == [] then [[]]
    else
      var rest := Split(s[1..], isSep);
      if isSep(s[0]) then [[]] + rest
      else [[s[0]] + rest[0]] + rest[1..]
  }

  /** The SkipEmptyParts filter. */
  function NonEmpty(parts: seq<string>): (r: seq<string>)
    ensures forall i :: 0 <= i < |r| ==> r[i] != []
    ensures |r| <= |parts|
  {
    if parts == [] then []
    else (if parts[0] == [] then [] else [parts[0]]) + NonEmpty(parts[1..])
  }

  function SplitSkipEmpty(s: string, isSep: char -> bool): seq<string> {
    NonEmpty(Split(s, isSep))
  }

  /** `s.simplified().split(' ', SkipEmptyParts)`: the maximal runs of
      non-whitespace characters (simplified() turns every whitespace run
      into one space and trims the ends). */
  function Words(s: string): seq<string> {
    SplitSkipEmpty(s, IsSpace)
  }

  function TrimStart(s: string): (r: string)
    ensures |r| <= |s|
  {
    if s != [] && IsSpace(s[0]) then TrimStart(s[1..]) else s
  }

  function TrimEnd(s: string): (r: string)
    ensures |r| <= |s|
  {
    if s != [] && IsSpace(s[|s| - 1]) then TrimEnd(s[..|s| - 1]) else s
  }

  /** QString::trimmed. */
  function Trimmed(s: string): string {
    TrimEnd(TrimStart(s))
  }

  /** QString::indexOf(c, from) for 0 <= from: the first index at or after
      `from` holding `c`, or -1. */
  function IndexOf(s: string, c: char, from: nat): (r: int)
    ensures r == -1 || from <= r < |s|
    ensures r != -1 ==> s[r] == c && forall k :: from <= k < r ==> s[k] != c
    ensures r == -1 ==> forall k :: from <= k < |s| ==> s[k] != c
    decreases |s| - from
  {
    if from >= |s| then -1
    else if s[from] == c then from
    else IndexOf(s, c, from + 1)
  }

  function DigitsValue(s: string): nat
    requires AllDigits(s)
  {
    if s == [] then 0
    else
      var last := s[|s| - 1];
      assert IsDigit(last);
      DigitsValue(s[..|s| - 1]) * 10 + (last as int - '0' as int)
  }

  /** QString::toInt(&ok) in base 10: an optional sign followed by at least
      one digit, whose value fits in an `int`; None is `ok == false` (the
      call itself then returns 0). */
  function ToInt(s: string): Option<int32> {
    var negative := |s| > 0 && s[0] == '-';
    var digits := if |s| > 0 && (s[0] == '-' || s[0] == '+') then s[1..] else s;
    if digits == [] || !AllDigits(digits) then None
    else
      var v: int := if negative then -(DigitsValue(digits) as int) else DigitsValue(digits);
      if INT_MIN <= v <= INT_MAX then Some(v) else None
  }

  /** The value QString::toInt returns: 0 when the conversion fails. */
  function ToIntOrZero(s: string): int32 {
    ToInt(s).GetOr(0)
  }

  function DigitChar(d: nat): char
    requires d < 10
  {
    ('0' as int + d) as char
  }

  function NatDigits(n: nat): (r: string)
    ensures |r| >= 1 && AllDigits(r)
  {
    if n < 10 then [DigitChar(n)] else NatDigits(n / 10) + [DigitChar(n % 10)]
  }

  /** QString::number(int) and QString::arg(int): decimal, '-' for negatives. */
  function Decimal(n: int): string {
    if n < 0 then "-" + NatDigits(-n) else NatDigits(n)
  }

  lemma {:induction false} NatDigitsValue(n: nat)
    ensures DigitsValue(NatDigits(n)) == n
  {
    var s := NatDigits(n);
    if n >= 10 {
      NatDigitsValue(n / 10);
      assert s[..|s| - 1] == NatDigits(n / 10);
    }
  }

  /** Printing an `int` and parsing it back gives the same value. */
  lemma {:induction false} ToIntDecimal(n: int32)
    ensures ToInt(Decimal(n)) == Some(n)
  {
    if n < 0 {
      var m: nat := -(n as int);
      NatDigitsValue(m);
      var s := Decimal(n);
      assert s == "-" + NatDigits(m);
      assert s[1..] == NatDigits(m);
      assert s[0] == '-';
      assert NatDigits(m) != [] && AllDigits(NatDigits(m));
      assert -(DigitsValue(NatDigits(m)) as int) == n as int;
    } else {
      NatDigitsValue(n);
      var s := Decimal(n);
      assert s == NatDigits(n as nat);
      assert s[0] != '-' && s[0] != '+';
      assert s != [] && AllDigits(s);
    }
  }

  /** The decimal text of a number holds only digits and a leading '-'. */
  lemma {:induction false} DecimalChars(n: int)
    ensures |Decimal(n)| >= 1
    ensures forall i :: 0 <= i < |Decimal(n)| ==> IsDigit(Decimal(n)[i]) || (i == 0 && Decimal(n)[i] == '-')
  {
  }

  lemma {:induction false} DecimalHasNo(n: int, isSep: char -> bool)
    requires !isSep('-') && forall c: char :: IsDigit(c) ==> !isSep(c)
    ensures NoneOf(Decimal(n), isSep)
  {
    DecimalChars(n);
  }

  /** A string without separators is one part. */
  lemma {:induction false} SplitNone(s: string, isSep: char -> bool)
    requires NoneOf(s, isSep)
    ensures Split(s, isSep) == [s]
  {
    if s != [] {
      assert !isSep(s[0]);
      assert NoneOf(s[1..], isSep);
      SplitNone(s[1..], isSep);
      assert [s[0]] + s[1..] == s;
    }
  }

  /** Splitting at a separator splits the two sides independently. */
  lemma {:induction false} SplitAround(a: string, c: char, b: string, isSep: char -> bool)
    requires isSep(c)
    ensures Split(a + [c] + b, isSep) == Split(a, isSep) + Split(b, isSep)
    decreases |a|
  {
    if a == [] {
      assert a + [c] + b == [c] + b;
      assert ([c] + b)[1..] == b;
    } else {
      assert (a + [c] + b)[1..] == a[1..] + [c] + b;
      SplitAround(a[1..], c, b, isSep);
    }
  }

  lemma {:induction false} NonEmptyAppend(p: seq<string>, q: seq<string>)
    ensures NonEmpty(p + q) == NonEmpty(p) + NonEmpty(q)
  {
    if p != [] {
      assert (p + q)[1..] == p[1..] + q;
      NonEmptyAppend(p[1..], q);
    } else {
      assert p + q == q;
    }
  }

  lemma {:induction false} TrimmedOfNoSpace(s: string)
    requires NoneOf(s, IsSpace)
    ensures Trimmed(s) == s
  {
  }

  lemma {:induction false} TrimmedLeadingSpace(s: string)
    requires NoneOf(s, IsSpace) && s != []
    ensures Trimmed(" " + s) == s
  {
    assert (" " + s)[1..] == s;
    assert !IsSpace(s[0]) && !IsSpace(s[|s| - 1]);
    assert TrimStart(" " + s) == s;
  }

  lemma {:induction false} SplitOfFour(a: string, b: string, c: string, d: string)
    requires NoneOf(a, IsSpace) && NoneOf(b, IsSpace) && NoneOf(c, IsSpace) && NoneOf(d, IsSpace)
    ensures Split(a + " " + b + " " + c + " " + d, IsSpace) == [a, b, c, d]
  {
    var cd := c + " " + d;
    var bcd := b + " " + cd;
    assert a + " " + b + " " + c + " " + d == a + [' '] + bcd;
    assert bcd == b + [' '] + cd;
    assert cd == c + [' '] + d;
    SplitAround(c, ' ', d, IsSpace);
    SplitAround(b, ' ', cd, IsSpace);
    SplitAround(a, ' ', bcd, IsSpace);
    SplitNone(a, IsSpace);
    SplitNone(b, IsSpace);
    SplitNone(c, IsSpace);
    SplitNone(d, IsSpace);
  }

  lemma {:induction false} NonEmptyOfFour(a: string, b: string, c: string, d: string)
    requires a != [] && b != [] && c != [] && d != []
    ensures NonEmpty([a, b, c, d]) == [a, b, c, d]
  {
    assert NonEmpty([d]) == [d];
    assert NonEmpty([c, d]) == [c] + NonEmpty([d]);
    assert NonEmpty([b, c, d]) == [b] + NonEmpty([c, d]);
    assert NonEmpty([a, b, c, d]) == [a] + NonEmpty([b, c, d]);
  }

  /** Four space-free, non-empty words joined by single spaces read back as
      those four words. */
  lemma {:induction false} WordsOfFour(a: string, b: string, c: string, d: string)
    requires a != [] && b != [] && c != [] && d != []
    requires NoneOf(a, IsSpace) && NoneOf(b, IsSpace) && NoneOf(c, IsSpace) && NoneOf(d, IsSpace)
    ensures Words(a + " " + b + " " + c + " " + d) == [a, b, c, d]
  {
    SplitOfFour(a, b, c, d);
    NonEmptyOfFour(a, b, c, d);
  }

  /** Two space-free, non-empty words joined by one space read back as
      those two words. */
  lemma {:induction false} WordsOfTwo(a: string, b: string)
    requires a != [] && b != [] && NoneOf(a, IsSpace) && NoneOf(b, IsSpace)
    ensures Words(a + " " + b) == [a, b]
  {
    assert a + " " + b == a + [' '] + b;
    SplitAround(a, ' ', b, IsSpace);
    SplitNone(a, IsSpace);
    SplitNone(b, IsSpace);
    NonEmptyAppend([a], [b]);
    assert NonEmpty([a]) == [a] && NonEmpty([b]) == [b];
  }

  /** QString's operator<: lexicographic by character code, a proper prefix
      before the longer string. This is the order a QMap keyed by QString
      visits its keys in. */
  predicate StrLess(a: string, b: string)
    decreases |a|
  {
    if a == [] then b != []
    else if b == [] then false
    else a[0] < b[0] || (a[0] == b[0] && StrLess(a[1..], b[1..]))
  }

  lemma {:induction false} StrLessIrreflexive(a: string)
    ensures !StrLess(a, a)
    decreases |a|
  {
    if a != [] {
      StrLessIrreflexive(a[1..]);
    }
  }

  lemma {:induction false} StrLessTransitive(a: string, b: string, c: string)
    requires StrLess(a, b) && StrLess(b, c)
    ensures StrLess(a, c)
    decreases |a|
  {
    if a != [] && b != [] && c != [] && a[0] == b[0] && b[0] == c[0] {
      StrLessTransitive(a[1..], b[1..], c[1..]);
    }
  }

  lemma {:induction false} StrLessTotal(a: string, b: string)
    requires a != b
    ensures StrLess(a, b) || StrLess(b, a)
    decreases |a|
  {
    if a != [] && b != [] && a[0] == b[0] {
      StrLessTotal(a[1..], b[1..]);
    }
  }

  /** Strictly ascending in QString order: the keys of a QMap, in
      iteration order. */
  predicate Ascending(s: seq<string>) {
    forall i, j :: 0 <= i < j < |s| ==> StrLess(s[i], s[j])
  }

  /** The key sequence after inserting `k` into the map. */
  function InsertKey(s: seq<string>, k: string): (r: seq<string>)
    requires Ascending(s)
    ensures Ascending(r)
    ensures forall x :: x in r <==> x in s || x == k
    decreases |s|
  {
    if s == [] then [k]
    else if k == s[0] then s
    else if StrLess(k, s[0]) then
      assert forall j :: 0 < j < |s| ==> StrLess(k, s[j]) by {
        forall j | 0 < j < |s| ensures StrLess(k, s[j]) {
          StrLessTransitive(k, s[0], s[j]);
        }
      }
      [k] + s
    else
      StrLessTotal(k, s[0]);
      var rest := InsertKey(s[1..], k);
      assert forall j :: 0 <= j < |rest| ==> rest[j] in rest;
      [s[0]] + rest
  }

  /** The key sequence after removing `k` from the map. */
  function RemoveKey(s: seq<string>, k: string): (r: seq<string>)
    requires Ascending(s)
    ensures Ascending(r)
    ensures forall x :: x in r <==> x in s && x != k
    decreases |s|
  {
    if s == [] then []
    else if s[0] == k then RemoveKey(s[1..], k)
    else
      var rest := RemoveKey(s[1..], k);
      assert forall j :: 0 <= j < |rest| ==> rest[j] in rest;
      [s[0]] + rest
  }
}
