/** The integer box shorthand of MarginsToStr: "top right bottom left" with
    one to four whitespace-separated values, as in the `margin` shorthand of
    section 8.3 of CSS 2.1. */
module MarginsText {
  import opened QtString

  /** QMargins, stored in the (left, top, right, bottom) order of its
      constructor. */
  datatype Margins = Margins(left: int32, top: int32, right: int32, bottom: int32)

  const NoMargins := Margins(0, 0, 0, 0)

  /** The value of each token, as `QStringRef::toInt()` gives it (0 when the
      token is not an integer). */
  function TokenValues(tokens: seq<string>): (vs: seq<int32>)
    ensures |vs| == |tokens|
    ensures forall i :: 0 <= i < |tokens| ==> vs[i] == ToIntOrZero(tokens[i])
  {
    seq(|tokens|, i requires 0 <= i < |tokens| => ToIntOrZero(tokens[i]))
  }

  /** strToMargins: the simplified text split at spaces, then a switch on the
      number of tokens; no token, or more than four, gives zero margins. */
  function StrToMargins(s: string): (m: Margins)
    ensures var v := TokenValues(Words(s));
      m == if 1 <= |v| <= 4 then CssShorthand(v) else NoMargins
  {
    var v := TokenValues(Words(s));
    match |v|
    case 0 => NoMargins
    case 1 => Margins(v[0], v[0], v[0], v[0])
    case 2 => Margins(v[1], v[0], v[1], v[0])
    case 3 => Margins(v[1], v[0], v[1], v[2])
    case 4 => Margins(v[3], v[0], v[1], v[2])
    case _ => NoMargins
  }

  /** marginsToStr: "%1 %2 %3 %4" filled with top, right, bottom, left. */
  function MarginsToStr(m: Margins): (r: string)
    ensures Words(r) == [Decimal(m.top), Decimal(m.right), Decimal(m.bottom), Decimal(m.left)]
  {
    DecimalWord(m.top);
    DecimalWord(m.right);
    DecimalWord(m.bottom);
    DecimalWord(m.left);
    WordsOfFour(Decimal(m.top), Decimal(m.right), Decimal(m.bottom), Decimal(m.left));
    Decimal(m.top) + " " + Decimal(m.right) + " " + Decimal(m.bottom) + " " + Decimal(m.left)
  }

  /** The CSS 2.1 margin shorthand, stated independently of the switch above:
      the values are top, right, bottom, left in that order; a missing bottom
      copies top, and a missing left copies right. */
  function CssShorthand(v: seq<int32>): (m: Margins)
    requires 1 <= |v| <= 4
  {
    var top := v[0];
    var right := if |v| >= 2 then v[1] else top;
    var bottom := if |v| >= 3 then v[2] else top;
    var left := if |v| >= 4 then v[3] else right;
    Margins(left, top, right, bottom)
  }

  /** One value gives all four sides that value. */
  lemma {:induction false} OneValue(s: string)
    requires |Words(s)| == 1
    ensures var x := ToIntOrZero(Words(s)[0]);
      StrToMargins(s) == Margins(x, x, x, x)
  {
  }

  /** Two values "a b": top = bottom = a, left = right = b. */
  lemma {:induction false} TwoValues(s: string)
    requires |Words(s)| == 2
    ensures var a, b := ToIntOrZero(Words(s)[0]), ToIntOrZero(Words(s)[1]);
      var m := StrToMargins(s);
      m.top == m.bottom == a && m.left == m.right == b
  {
  }

  /** Three values "a b c": top = a, left = right = b, bottom = c. */
  lemma {:induction false} ThreeValues(s: string)
    requires |Words(s)| == 3
    ensures var w := Words(s);
      var m := StrToMargins(s);
      m.top == ToIntOrZero(w[0]) && m.left == m.right == ToIntOrZero(w[1]) && m.bottom == ToIntOrZero(w[2])
  {
  }

  /** No value, or more than four, reads as zero margins. */
  lemma {:induction false} WrongCount(s: string)
    requires |Words(s)| == 0 || |Words(s)| > 4
    ensures StrToMargins(s) == NoMargins
  {
  }

  lemma {:induction false} DecimalWord(n: int)
    ensures Decimal(n) != [] && NoneOf(Decimal(n), IsSpace)
  {
    DecimalHasNo(n, IsSpace);
    DecimalChars(n);
  }

  /** Writing margins and reading them back gives the same margins. */
  lemma {:induction false} RoundTrip(m: Margins)
    ensures StrToMargins(MarginsToStr(m)) == m
  {
    DecimalValues(m.top, m.right, m.bottom, m.left);
  }

  /** The decimal texts of four values read back as those values. */
  lemma {:induction false} DecimalValues(a: int32, b: int32, c: int32, d: int32)
    ensures TokenValues([Decimal(a), Decimal(b), Decimal(c), Decimal(d)]) == [a, b, c, d]
  {
    ToIntDecimal(a);
    ToIntDecimal(b);
    ToIntDecimal(c);
    ToIntDecimal(d);
  }
}
