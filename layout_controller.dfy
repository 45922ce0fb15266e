/** AbstractLayoutController: the style-sheet properties of a widget's
    layout. The index lists "[i j] v, [*] w" used for per-row and per-column
    values, the margin properties and the spacing properties. The QLayout
    behind the controller is a record with a Box, Grid or Form variant. */
module LayoutControl {
  import opened QtString
  import opened MarginsText

  /** The value every getter reports when there is no layout. */
  const INVALID_INT_VALUE: int32 := -1

  /* ---------------------------------------------------------------------
     squashIntValues: "[0] v0, [1] v1, ..., [n-1] vn-1"
     --------------------------------------------------------------------- */

  /** The text written for index i holding value v. */
  function EntryText(i: int, v: int): string {
    "[" + Decimal(i) + "] " + Decimal(v)
  }

  /** The entries of `values`, in index order, joined by ", ". */
  function Squashed(values: seq<int32>): (r: string)
    ensures r == [] <==> values == []
    ensures values != [] ==> EntryText(0, values[0]) <= r
    decreases |values|
  {
    if |values| == 0 then ""
    else if |values| == 1 then EntryText(0, values[0])
    else Squashed(values[..|values| - 1]) + ", " + EntryText(|values| - 1, values[|values| - 1])
  }

  /** squashIntValues(count, indexToVal), with `values[i]` standing for
      `indexToVal(i)`: each entry followed by ", ", then the last two
      characters chopped off when there was any entry. */
  method SquashIntValues(values: seq<int32>) returns (result: string)
    ensures result == Squashed(values)
  {
    result := "";
    var i := 0;
    while i < |values|
      invariant 0 <= i <= |values|
      invariant i == 0 ==> result == ""
      invariant i > 0 ==> result == Squashed(values[..i]) + ", "
    {
      ghost var prefix := values[..i + 1];
      assert prefix[..i] == values[..i] && prefix[i] == values[i];
      assert Squashed(prefix) == if i == 0 then EntryText(0, values[0])
        else Squashed(values[..i]) + ", " + EntryText(i, values[i]);
      result := result + EntryText(i, values[i]) + ", ";
      i := i + 1;
    }
    if |values| > 0 {
      assert values[..|values|] == values;
      ghost var body := Squashed(values);
      assert result == body + ", ";
      result := result[..|result| - 2];
      assert result == body;
    }
  }

  /* ---------------------------------------------------------------------
     applyIntValues: the calls apply(index, value) made for a text
     --------------------------------------------------------------------- */

  predicate IsComma(c: char) { c == ',' }
  predicate IsBlank(c: char) { c == ' ' }

  /** Every index below `count`, each with value v: what "[*] v" applies. */
  function AllIndices(count: int, v: int32): (calls: seq<(int, int32)>)
    ensures |calls| == if count <= 0 then 0 else count
    ensures forall i :: 0 <= i < |calls| ==> calls[i] == (i, v)
  {
    if count <= 0 then [] else seq(count, i => (i, v))
  }

  /** The calls made for one token of the bracket: "*" reaches every index
      below `count`; an integer reaches that index, with no range check;
      anything else is ignored. */
  function ParamCalls(param: string, v: int32, count: int): (calls: seq<(int, int32)>)
    ensures forall i :: 0 <= i < |calls| ==> calls[i].1 == v
    ensures Trimmed(param) == "*" ==> forall i :: 0 <= i < |calls| ==> calls[i].0 == i
    ensures Trimmed(param) != "*" ==> (calls != [] <==> ToInt(Trimmed(param)).Some?)
    ensures Trimmed(param) != "*" ==>
      forall i :: 0 <= i < |calls| ==> i == 0 && calls[i].0 == ToInt(Trimmed(param)).value as int
  {
    var p := Trimmed(param);
    if p == "*" then AllIndices(count, v)
    else match ToInt(p)
      case Some(index) => [(index, v)]
      case None => []
  }

  function ParamsCalls(params: seq<string>, v: int32, count: int): (calls: seq<(int, int32)>)
    ensures forall i :: 0 <= i < |calls| ==> calls[i].1 == v
    decreases |params|
  {
    if params == [] then []
    else ParamsCalls(params[..|params| - 1], v, count) + ParamCalls(params[|params| - 1], v, count)
  }

  /** The value after the closing bracket: empty reads as 0, text that is
      not an integer rejects the entry. */
  function EntryValue(entry: string, end: nat): Option<int32>
    requires end < |entry|
  {
    var valueStr := Trimmed(entry[end + 1..]);
    if valueStr == [] then Some(0) else ToInt(valueStr)
  }

  /** The calls made for one comma-separated entry: none without a "[...]"
      pair or with a value that is not an integer; otherwise the calls of
      every space-separated token inside the brackets, in order. */
  function EntryCalls(entry: string, count: int): seq<(int, int32)> {
    var start := IndexOf(entry, '[', 0);
    if start == -1 then []
    else
      var end := IndexOf(entry, ']', start);
      if end == -1 || start == end then []
      else
        var params := SplitSkipEmpty(entry[start + 1..end], IsBlank);
        match EntryValue(entry, end)
        case None => []
        case Some(v) => ParamsCalls(params, v, count)
  }

  /** An entry without "[" makes no call; an entry that makes calls has
      "[" before "]" and a value that reads as an integer, and every call
      carries that value. */
  lemma {:induction false} EntryCallsCarryValue(entry: string, count: int)
    ensures IndexOf(entry, '[', 0) == -1 ==> EntryCalls(entry, count) == []
    ensures EntryCalls(entry, count) != [] ==>
      var start := IndexOf(entry, '[', 0);
      var end := IndexOf(entry, ']', start);
      0 <= start < end < |entry| && EntryValue(entry, end).Some?
      && forall i :: 0 <= i < |EntryCalls(entry, count)| ==> EntryCalls(entry, count)[i].1 == EntryValue(entry, end).value
  {
  }

  function EntriesCalls(entries: seq<string>, count: int): seq<(int, int32)>
    decreases |entries|
  {
    if entries == [] then []
    else EntriesCalls(entries[..|entries| - 1], count) + EntryCalls(entries[|entries| - 1], count)
  }

  /** The calls made for one token of the bracket (the innermost loop of
      applyIntValues). */
  method ApplyParam(dirty: string, v: int32, layoutCount: int32) returns (calls: seq<(int, int32)>)
    ensures calls == ParamCalls(dirty, v, layoutCount)
  {
    var param := Trimmed(dirty);
    calls := [];
    if param == "*" {
      var i := 0;
      while i < layoutCount
        invariant 0 <= i <= if layoutCount < 0 then 0 else layoutCount
        invariant calls == AllIndices(i, v)
      {
        calls := calls + [(i as int, v)];
        i := i + 1;
      }
    } else {
      var index := ToInt(param);
      if index.Some? {
        calls := [(index.value as int, v)];
      }
    }
  }

  /** The calls made for one comma-separated entry. */
  method ApplyEntry(entry: string, layoutCount: int32) returns (calls: seq<(int, int32)>)
    ensures calls == EntryCalls(entry, layoutCount)
  {
    calls := [];
    var start := IndexOf(entry, '[', 0);
    if start == -1 {
      return;
    }
    var end := IndexOf(entry, ']', start);
    if end == -1 || start == end {
      return;
    }
    var params := SplitSkipEmpty(entry[start + 1..end], IsBlank);
    var value := EntryValue(entry, end);
    if value.None? {
      return;
    }
    calls := ApplyParams(params, value.value, layoutCount);
    EntryCallsOf(entry, layoutCount, start, end, value.value);
  }

  /** The loop over the tokens of one bracket, in order. */
  method ApplyParams(params: seq<string>, v: int32, layoutCount: int32) returns (calls: seq<(int, int32)>)
    ensures calls == ParamsCalls(params, v, layoutCount)
  {
    calls := [];
    var k := 0;
    while k < |params|
      invariant 0 <= k <= |params|
      invariant calls == ParamsCalls(params[..k], v, layoutCount)
    {
      assert params[..k + 1][..k] == params[..k];
      var more := ApplyParam(params[k], v, layoutCount);
      calls := calls + more;
      k := k + 1;
    }
    assert params[..|params|] == params;
  }

  lemma {:induction false} EntriesCallsStep(entries: seq<string>, e: nat, count: int)
    requires e < |entries|
    ensures EntriesCalls(entries[..e + 1], count) == EntriesCalls(entries[..e], count) + EntryCalls(entries[e], count)
  {
    assert entries[..e + 1][..e] == entries[..e];
  }

  lemma {:induction false} EntriesCallsSnoc(entries: seq<string>, entry: string, count: int)
    ensures EntriesCalls(entries + [entry], count) == EntriesCalls(entries, count) + EntryCalls(entry, count)
  {
    assert (entries + [entry])[..|entries|] == entries;
  }

  /** applyIntValues(str, layoutCount, apply), with the calls to `apply`
      returned in the order they are made. */
  method ApplyIntValues(str: string, layoutCount: int32) returns (calls: seq<(int, int32)>)
    ensures calls == EntriesCalls(SplitSkipEmpty(str, IsComma), layoutCount)
  {
    var entries := SplitSkipEmpty(str, IsComma);
    calls := [];
    var e := 0;
    while e < |entries|
      invariant 0 <= e <= |entries|
      invariant calls == EntriesCalls(entries[..e], layoutCount)
    {
      var more := ApplyEntry(entries[e], layoutCount);
      EntriesCallsStep(entries, e, layoutCount);
      calls := calls + more;
      e := e + 1;
    }
    assert entries[..|entries|] == entries;
  }

  /** The calls for the text of `values`. */
  function IntValueCalls(str: string, count: int): seq<(int, int32)> {
    EntriesCalls(SplitSkipEmpty(str, IsComma), count)
  }

  /* ---------------------------------------------------------------------
     Round trip of the index list
     --------------------------------------------------------------------- */

  /** The i-th comma-separated piece of the squashed text. */
  function Piece(i: int, v: int): string {
    (if i == 0 then "" else " ") + EntryText(i, v)
  }

  function Pieces(values: seq<int32>): (ps: seq<string>)
    ensures |ps| == |values|
  {
    seq(|values|, i requires 0 <= i < |values| => Piece(i, values[i]))
  }

  lemma {:induction false} PieceHasNo(i: int, v: int, c: char)
    requires c == ',' || c == ' ' || c == '[' || c == ']' || c == '*'
    ensures forall k :: 0 <= k < |Decimal(i)| ==> Decimal(i)[k] != c
    ensures forall k :: 0 <= k < |Decimal(v)| ==> Decimal(v)[k] != c
  {
    DecimalChars(i);
    DecimalChars(v);
  }

  /** A piece holds no comma, and is one non-empty part when split at
      commas. */
  lemma {:induction false} PieceAlone(i: int, v: int)
    ensures Piece(i, v) != []
    ensures SplitSkipEmpty(Piece(i, v), IsComma) == [Piece(i, v)]
  {
    var p := Piece(i, v);
    PieceHasNo(i, v, ',');
    assert p == (if i == 0 then "" else " ") + "[" + Decimal(i) + "] " + Decimal(v);
    assert NoneOf(p, IsComma);
    SplitNone(p, IsComma);
    assert NonEmpty([p]) == [p];
  }

  lemma {:induction false} SquashedStep(values: seq<int32>)
    requires |values| >= 2
    ensures Squashed(values) == Squashed(values[..|values| - 1]) + [','] + Piece(|values| - 1, values[|values| - 1])
  {
  }

  lemma {:induction false} PiecesStep(values: seq<int32>)
    requires |values| >= 1
    ensures Pieces(values) == Pieces(values[..|values| - 1]) + [Piece(|values| - 1, values[|values| - 1])]
  {
  }

  lemma {:induction false} SplitSquashed(values: seq<int32>)
    ensures SplitSkipEmpty(Squashed(values), IsComma) == Pieces(values)
    decreases |values|
  {
    var n := |values|;
    if n == 0 {
      assert Split("", IsComma) == [[]];
    } else if n == 1 {
      PieceAlone(0, values[0]);
      assert Squashed(values) == Piece(0, values[0]);
      assert Pieces(values) == [Piece(0, values[0])];
    } else {
      var prefix := values[..n - 1];
      var last := Piece(n - 1, values[n - 1]);
      SplitSquashed(prefix);
      PieceAlone(n - 1, values[n - 1]);
      SquashedStep(values);
      SplitAround(Squashed(prefix), ',', last, IsComma);
      NonEmptyAppend(Split(Squashed(prefix), IsComma), Split(last, IsComma));
      PiecesStep(values);
    }
  }

  /** The index of the first occurrence of `c`, stated by position. */
  lemma {:induction false} IndexOfAt(s: string, c: char, from: nat, at: nat)
    requires from <= at < |s| && s[at] == c
    requires forall k :: from <= k < at ==> s[k] != c
    ensures IndexOf(s, c, from) == at
  {
  }

  /** The bracket of a piece holds the index text, and its value text
      follows after one space. */
  lemma {:induction false} PieceParts(i: int, v: int) returns (start: nat, end: nat)
    ensures start < end < |Piece(i, v)|
    ensures IndexOf(Piece(i, v), '[', 0) == start
    ensures IndexOf(Piece(i, v), ']', start) == end
    ensures Piece(i, v)[start + 1..end] == Decimal(i)
    ensures Piece(i, v)[end + 1..] == " " + Decimal(v)
  {
    var lead: string := if i == 0 then "" else " ";
    var di, dv := Decimal(i), Decimal(v);
    var head := lead + "[" + di + "]";
    var t := Piece(i, v);
    assert t == head + (" " + dv);
    PieceHasNo(i, v, '[');
    PieceHasNo(i, v, ']');
    start := |lead|;
    end := |head| - 1;
    assert t[start] == '[';
    IndexOfAt(t, '[', 0, start);
    assert t[end] == ']';
    IndexOfAt(t, ']', start, end);
    assert head[start + 1..end] == di;
    assert t[start + 1..end] == di;
    assert t[end + 1..] == " " + dv;
  }

  /** The index text of a piece is one token reading back as the index. */
  lemma {:induction false} IndexTokenCalls(i: int32, v: int32, count: int)
    ensures ParamsCalls(SplitSkipEmpty(Decimal(i), IsBlank), v, count) == [(i as int, v)]
  {
    var di := Decimal(i);
    PieceHasNo(i, v, ' ');
    PieceHasNo(i, v, '*');
    DecimalChars(i);
    assert NoneOf(di, IsBlank);
    SplitNone(di, IsBlank);
    assert NonEmpty([di]) == [di];
    assert NoneOf(di, IsSpace);
    TrimmedOfNoSpace(di);
    assert di != "*" by { assert di[0] != '*'; }
    ToIntDecimal(i);
    assert ParamCalls(di, v, count) == [(i as int, v)];
    assert [di][..0] == [];
  }

  /** The calls of an entry whose brackets and value have been found. */
  lemma {:induction false} EntryCallsOf(entry: string, count: int, start: nat, end: nat, v: int32)
    requires IndexOf(entry, '[', 0) == start && IndexOf(entry, ']', start) == end && start < end < |entry|
    requires EntryValue(entry, end) == Some(v)
    ensures EntryCalls(entry, count) == ParamsCalls(SplitSkipEmpty(entry[start + 1..end], IsBlank), v, count)
  {
  }

  /** A value written after one space reads back. */
  lemma {:induction false} ValueAfter(entry: string, end: nat, v: int32)
    requires end < |entry| && entry[end + 1..] == " " + Decimal(v)
    ensures EntryValue(entry, end) == Some(v)
  {
    var dv := Decimal(v);
    DecimalChars(v);
    assert NoneOf(dv, IsSpace);
    TrimmedLeadingSpace(dv);
    ToIntDecimal(v);
  }

  /** One piece of the squashed text applies exactly its own value at its
      own index. */
  lemma {:induction false} PieceCalls(i: int32, v: int32, count: int)
    ensures EntryCalls(Piece(i, v), count) == [(i as int, v)]
  {
    var t := Piece(i, v);
    var start, end := PieceParts(i, v);
    ValueAfter(t, end, v);
    EntryCallsOf(t, count, start, end, v);
    IndexTokenCalls(i, v, count);
  }

  /** The calls that apply each value at its own index, in index order. */
  function Indexed(values: seq<int32>): (calls: seq<(int, int32)>)
    ensures |calls| == |values|
    ensures forall i :: 0 <= i < |values| ==> calls[i] == (i, values[i])
  {
    seq(|values|, i requires 0 <= i < |values| => (i, values[i]))
  }

  lemma {:induction false} IndexedStep(values: seq<int32>)
    requires |values| >= 1
    ensures Indexed(values) == Indexed(values[..|values| - 1]) + [(|values| - 1, values[|values| - 1])]
  {
  }

  lemma {:induction false} PiecesCalls(values: seq<int32>, count: int)
    requires |values| <= INT_MAX + 1
    ensures EntriesCalls(Pieces(values), count) == Indexed(values)
    decreases |values|
  {
    var n := |values|;
    if n > 0 {
      var prefix := values[..n - 1];
      PiecesCalls(prefix, count);
      PiecesStep(values);
      PieceCalls(n - 1, values[n - 1], count);
      EntriesCallsSnoc(Pieces(prefix), Piece(n - 1, values[n - 1]), count);
      IndexedStep(values);
    } else {
      assert Pieces(values) == [];
    }
  }

  /** Reading back the text squashIntValues writes applies every value at
      its own index, in index order, and nothing else. */
  lemma {:induction false} SquashRoundTrip(values: seq<int32>, count: int)
    requires |values| <= INT_MAX + 1
    ensures IntValueCalls(Squashed(values), count) == Indexed(values)
  {
    SplitSquashed(values);
    PiecesCalls(values, count);
  }

  /** "[*] v" holds no comma: it is one entry. */
  lemma {:induction false} StarAlone(v: int32)
    ensures SplitSkipEmpty("[*] " + Decimal(v), IsComma) == ["[*] " + Decimal(v)]
  {
    var t := "[*] " + Decimal(v);
    PieceHasNo(0, v, ',');
    assert NoneOf(t, IsComma);
    SplitNone(t, IsComma);
    assert NonEmpty([t]) == [t];
  }

  /** The brackets of "[*] v" hold "*", and v follows them. */
  lemma {:induction false} StarParts(v: int32)
    ensures IndexOf("[*] " + Decimal(v), '[', 0) == 0
    ensures IndexOf("[*] " + Decimal(v), ']', 0) == 2
    ensures ("[*] " + Decimal(v))[1..2] == "*"
    ensures EntryValue("[*] " + Decimal(v), 2) == Some(v)
  {
    var t := "[*] " + Decimal(v);
    IndexOfAt(t, '[', 0, 0);
    IndexOfAt(t, ']', 0, 2);
    assert t[3..] == " " + Decimal(v);
    ValueAfter(t, 2, v);
  }

  /** "[*] v" applies v at every index below the layout count. */
  lemma {:induction false} StarCalls(v: int32, count: int)
    ensures IntValueCalls("[*] " + Decimal(v), count) == AllIndices(count, v)
  {
    var t := "[*] " + Decimal(v);
    StarAlone(v);
    StarParts(v);
    var one: seq<string> := [t];
    assert one[..0] == [];
    assert EntriesCalls(one, count) == EntryCalls(t, count);
    EntryCallsOf(t, count, 0, 2, v);
    StarToken(v, count);
  }

  lemma {:induction false} StarToken(v: int32, count: int)
    ensures ParamsCalls(SplitSkipEmpty("*", IsBlank), v, count) == AllIndices(count, v)
  {
    SplitNone("*", IsBlank);
    assert NonEmpty(["*"]) == ["*"];
    assert Trimmed("*") == "*";
    var star: seq<string> := ["*"];
    assert star[..0] == [];
  }

  /** An entry without an opening bracket, or without a closing one after
      it, applies nothing. */
  lemma {:induction false} NoBracketNoCalls(entry: string, count: int)
    requires NoneOf(entry, c => c == '[') || NoneOf(entry, c => c == ']')
    ensures EntryCalls(entry, count) == []
  {
  }

  /** An entry whose value is not an integer applies nothing, whatever its
      brackets hold. */
  lemma {:induction false} BadValueNoCalls(entry: string, count: int, end: nat)
    requires 0 <= IndexOf(entry, '[', 0) && IndexOf(entry, ']', IndexOf(entry, '[', 0)) == end
    requires Trimmed(entry[end + 1..]) != [] && ToInt(Trimmed(entry[end + 1..])).None?
    ensures EntryCalls(entry, count) == []
  {
  }

  /* ---------------------------------------------------------------------
     The layout and its margin and spacing properties
     --------------------------------------------------------------------- */

  datatype Direction = LeftToRight | RightToLeft | TopToBottom | BottomToTop

  predicate IsHorizontal(d: Direction) { d == LeftToRight || d == RightToLeft }
  predicate IsVertical(d: Direction) { d == TopToBottom || d == BottomToTop }

  /** The kinds of QLayout the controller tells apart. */
  datatype LayoutKind =
    | Box(direction: Direction, spacing: int32)
    | Grid(hSpacing: int32, vSpacing: int32)
    | Form(hSpacing: int32, vSpacing: int32)
    | OtherLayout(spacing: int32)

  datatype Layout = Layout(margins: Margins, kind: LayoutKind)

  /** QLayout::setSpacing: the one spacing of a box, both spacings of a
      grid or form layout. */
  function SetSpacing(k: LayoutKind, s: int32): (r: LayoutKind)
    ensures r.Box? == k.Box? && r.Grid? == k.Grid? && r.Form? == k.Form?
    ensures r.Box? ==>
      r.direction == k.direction
      && (IsHorizontal(k.direction) ==> HSpacing(r) == s) && (IsVertical(k.direction) ==> VSpacing(r) == s)
    ensures r.Grid? || r.Form? ==> HSpacing(r) == s && VSpacing(r) == s
  {
    match k
    case Box(d, _) => Box(d, s)
    case Grid(_, _) => Grid(s, s)
    case Form(_, _) => Form(s, s)
    case OtherLayout(_) => OtherLayout(s)
  }

  /** layoutHSpacing of an existing layout: the horizontal spacing of a grid
      or form, the spacing of a horizontal box, -1 otherwise. */
  function HSpacing(k: LayoutKind): (r: int32)
    ensures WithHSpacing(k, r) == k
  {
    match k
    case Grid(h, _) => h
    case Form(h, _) => h
    case Box(d, s) => if IsHorizontal(d) then s else INVALID_INT_VALUE
    case OtherLayout(_) => INVALID_INT_VALUE
  }

  function VSpacing(k: LayoutKind): (r: int32)
    ensures WithVSpacing(k, r) == k
  {
    match k
    case Grid(_, v) => v
    case Form(_, v) => v
    case Box(d, s) => if IsVertical(d) then s else INVALID_INT_VALUE
    case OtherLayout(_) => INVALID_INT_VALUE
  }

  /** setLayoutHSpacing on an existing layout; a vertical box and any other
      kind of layout are left alone. */
  function WithHSpacing(k: LayoutKind, h: int32): LayoutKind {
    match k
    case Grid(_, v) => Grid(h, v)
    case Form(_, v) => Form(h, v)
    case Box(d, s) => if IsHorizontal(d) then Box(d, h) else k
    case OtherLayout(_) => k
  }

  function WithVSpacing(k: LayoutKind, v: int32): LayoutKind {
    match k
    case Grid(h, _) => Grid(h, v)
    case Form(h, _) => Form(h, v)
    case Box(d, s) => if IsVertical(d) then Box(d, v) else k
    case OtherLayout(_) => k
  }

  /** layoutSpacing of an existing layout: one number for a box, "h v" for
      a grid or form layout, "-1" for any other layout. */
  function SpacingText(k: LayoutKind): (r: string)
    ensures k.Box? ==> ToInt(r) == Some(k.spacing)
    ensures k.OtherLayout? ==> ToInt(r) == Some(INVALID_INT_VALUE)
    ensures k.Grid? || k.Form? ==> Words(r) == [Decimal(k.hSpacing), Decimal(k.vSpacing)]
  {
    match k
    case Box(_, s) =>
      ToIntDecimal(s);
      Decimal(s)
    case Grid(h, v) =>
      DecimalWord(h);
      DecimalWord(v);
      WordsOfTwo(Decimal(h), Decimal(v));
      Decimal(h) + " " + Decimal(v)
    case Form(h, v) =>
      DecimalWord(h);
      DecimalWord(v);
      WordsOfTwo(Decimal(h), Decimal(v));
      Decimal(h) + " " + Decimal(v)
    case OtherLayout(_) =>
      ToIntDecimal(INVALID_INT_VALUE);
      Decimal(INVALID_INT_VALUE)
  }

  /** setLayoutSpacing on an existing layout: one token sets the spacing,
      two set the horizontal then the vertical spacing, any other count
      does nothing; a token that is not an integer reads as 0. */
  function ApplySpacingText(k: LayoutKind, str: string): (r: LayoutKind)
    ensures r.Box? == k.Box? && r.Grid? == k.Grid? && r.Form? == k.Form?
    ensures r.Box? ==> r.direction == k.direction
    ensures |Words(str)| != 1 && |Words(str)| != 2 ==> r == k
  {
    var tokens := Words(str);
    if |tokens| == 1 then SetSpacing(k, ToIntOrZero(tokens[0]))
    else if |tokens| == 2 then WithVSpacing(WithHSpacing(k, ToIntOrZero(tokens[0])), ToIntOrZero(tokens[1]))
    else k
  }

  /** The horizontal spacing of a vertical box reads -1, and setting it
      leaves the layout as it is; the same for the vertical spacing of a
      horizontal box. */
  lemma {:induction false} OffAxisSpacing(k: LayoutKind, x: int32)
    requires k.Box?
    ensures IsVertical(k.direction) ==> HSpacing(k) == -1 && WithHSpacing(k, x) == k
    ensures IsHorizontal(k.direction) ==> VSpacing(k) == -1 && WithVSpacing(k, x) == k
  {
  }

  /** Setting the horizontal spacing, where it exists, reads back and leaves
      the vertical spacing alone. */
  lemma {:induction false} HSpacingReadsBack(k: LayoutKind, x: int32)
    requires HSpacing(k) != -1 || k.Grid? || k.Form?
    ensures HSpacing(WithHSpacing(k, x)) == x
    ensures VSpacing(WithHSpacing(k, x)) == VSpacing(k)
  {
  }

  lemma {:induction false} VSpacingReadsBack(k: LayoutKind, x: int32)
    requires VSpacing(k) != -1 || k.Grid? || k.Form?
    ensures VSpacing(WithVSpacing(k, x)) == x
    ensures HSpacing(WithVSpacing(k, x)) == HSpacing(k)
  {
  }

  /** The spacing text of a grid or form layout sets the same spacings back. */
  lemma {:induction false} SpacingRoundTrip(k: LayoutKind)
    requires k.Grid? || k.Form?
    ensures ApplySpacingText(k, SpacingText(k)) == k
  {
    DecimalWord(k.hSpacing);
    DecimalWord(k.vSpacing);
    WordsOfTwo(Decimal(k.hSpacing), Decimal(k.vSpacing));
    ToIntDecimal(k.hSpacing);
    ToIntDecimal(k.vSpacing);
  }

  /** A spacing text with neither one nor two tokens changes nothing. */
  lemma {:induction false} SpacingWrongCount(k: LayoutKind, str: string)
    requires |Words(str)| != 1 && |Words(str)| != 2
    ensures ApplySpacingText(k, str) == k
  {
  }

  /** The controller of one widget; `layout` is what getLayout() returns,
      None for a null layout. */
  class LayoutController {
    var layout: Option<Layout>

    constructor (layout: Option<Layout>)
      ensures this.layout == layout
    {
      this.layout := layout;
    }

    /** layoutMargin: the margins as "top right bottom left", or "-1". */
    function LayoutMargin(): (s: string)
      reads this
      ensures layout.None? ==> s == "-1"
      ensures layout.Some? ==> StrToMargins(s) == layout.value.margins
    {
      match layout
      case None => Decimal(INVALID_INT_VALUE)
      case Some(l) => RoundTrip(l.margins); MarginsToStr(l.margins)
    }

    method SetLayoutMargin(s: string)
      modifies this
      ensures layout == if old(layout).None? then None else Some(old(layout).value.(margins := StrToMargins(s)))
    {
      if layout.Some? {
        layout := Some(layout.value.(margins := StrToMargins(s)));
      }
    }

    function LayoutMarginLeft(): (r: int32)
      reads this
      ensures r == if layout.None? then INVALID_INT_VALUE else layout.value.margins.left
    {
      if layout.None? then INVALID_INT_VALUE else layout.value.margins.left
    }

    function LayoutMarginRight(): (r: int32)
      reads this
      ensures r == if layout.None? then INVALID_INT_VALUE else layout.value.margins.right
    {
      if layout.None? then INVALID_INT_VALUE else layout.value.margins.right
    }

    function LayoutMarginTop(): (r: int32)
      reads this
      ensures r == if layout.None? then INVALID_INT_VALUE else layout.value.margins.top
    {
      if layout.None? then INVALID_INT_VALUE else layout.value.margins.top
    }

    function LayoutMarginBottom(): (r: int32)
      reads this
      ensures r == if layout.None? then INVALID_INT_VALUE else layout.value.margins.bottom
    {
      if layout.None? then INVALID_INT_VALUE else layout.value.margins.bottom
    }

    /** Changes the left margin only. */
    method SetLayoutMarginLeft(x: int32)
      modifies this
      ensures old(layout).None? ==> layout == old(layout)
      ensures old(layout).Some? ==> layout == Some(old(layout).value.(margins := old(layout).value.margins.(left := x)))
    {
      if layout.Some? {
        var l := layout.value;
        layout := Some(l.(margins := l.margins.(left := x)));
      }
    }

    method SetLayoutMarginRight(x: int32)
      modifies this
      ensures old(layout).None? ==> layout == old(layout)
      ensures old(layout).Some? ==> layout == Some(old(layout).value.(margins := old(layout).value.margins.(right := x)))
    {
      if layout.Some? {
        var l := layout.value;
        layout := Some(l.(margins := l.margins.(right := x)));
      }
    }

    method SetLayoutMarginTop(x: int32)
      modifies this
      ensures old(layout).None? ==> layout == old(layout)
      ensures old(layout).Some? ==> layout == Some(old(layout).value.(margins := old(layout).value.margins.(top := x)))
    {
      if layout.Some? {
        var l := layout.value;
        layout := Some(l.(margins := l.margins.(top := x)));
      }
    }

    method SetLayoutMarginBottom(x: int32)
      modifies this
      ensures old(layout).None? ==> layout == old(layout)
      ensures old(layout).Some? ==> layout == Some(old(layout).value.(margins := old(layout).value.margins.(bottom := x)))
    {
      if layout.Some? {
        var l := layout.value;
        layout := Some(l.(margins := l.margins.(bottom := x)));
      }
    }

    /** layoutSpacing: "-1" without a layout or for a layout that is
        neither a box, a grid nor a form; a box's one spacing; a grid's or
        form's two spacings, horizontal then vertical. */
    function LayoutSpacing(): (s: string)
      reads this
      ensures layout.None? ==> s == "-1"
      ensures layout.Some? && layout.value.kind.OtherLayout? ==> s == "-1"
      ensures layout.Some? && layout.value.kind.Box? ==> ToInt(s) == Some(layout.value.kind.spacing)
      ensures layout.Some? && (layout.value.kind.Grid? || layout.value.kind.Form?) ==>
        var w := Words(s);
        |w| == 2 && ToInt(w[0]) == Some(layout.value.kind.hSpacing) && ToInt(w[1]) == Some(layout.value.kind.vSpacing)
        && ApplySpacingText(layout.value.kind, s) == layout.value.kind
    {
      match layout
      case None => Decimal(INVALID_INT_VALUE)
      case Some(l) =>
        if l.kind.Box? then ToIntDecimal(l.kind.spacing); SpacingText(l.kind)
        else if l.kind.Grid? || l.kind.Form? then
          DecimalWord(l.kind.hSpacing);
          DecimalWord(l.kind.vSpacing);
          WordsOfTwo(Decimal(l.kind.hSpacing), Decimal(l.kind.vSpacing));
          ToIntDecimal(l.kind.hSpacing);
          ToIntDecimal(l.kind.vSpacing);
          SpacingRoundTrip(l.kind);
          SpacingText(l.kind)
        else SpacingText(l.kind)
    }

    method SetLayoutSpacing(str: string)
      modifies this
      ensures old(layout).None? ==> layout == old(layout)
      ensures old(layout).Some? ==> layout == Some(old(layout).value.(kind := ApplySpacingText(old(layout).value.kind, str)))
    {
      if layout.Some? {
        var tokens := Words(str);
        if |tokens| == 1 {
          layout := Some(layout.value.(kind := SetSpacing(layout.value.kind, ToIntOrZero(tokens[0]))));
        } else if |tokens| == 2 {
          SetLayoutHSpacing(ToIntOrZero(tokens[0]));
          SetLayoutVSpacing(ToIntOrZero(tokens[1]));
        }
      }
    }

    function LayoutHSpacing(): (r: int32)
      reads this
      ensures layout.None? ==> r == INVALID_INT_VALUE
      ensures layout.Some? && layout.value.kind.Grid? ==> r == layout.value.kind.hSpacing
      ensures layout.Some? && layout.value.kind.Form? ==> r == layout.value.kind.hSpacing
      ensures layout.Some? && layout.value.kind.Box? ==>
        r == (if IsHorizontal(layout.value.kind.direction) then layout.value.kind.spacing else INVALID_INT_VALUE)
      ensures layout.Some? && layout.value.kind.OtherLayout? ==> r == INVALID_INT_VALUE
    {
      if layout.None? then INVALID_INT_VALUE else HSpacing(layout.value.kind)
    }

    method SetLayoutHSpacing(h: int32)
      modifies this
      ensures old(layout).None? ==> layout == old(layout)
      ensures old(layout).Some? ==> layout == Some(old(layout).value.(kind := WithHSpacing(old(layout).value.kind, h)))
    {
      if layout.Some? {
        layout := Some(layout.value.(kind := WithHSpacing(layout.value.kind, h)));
      }
    }

    function LayoutVSpacing(): (r: int32)
      reads this
      ensures layout.None? ==> r == INVALID_INT_VALUE
      ensures layout.Some? && layout.value.kind.Grid? ==> r == layout.value.kind.vSpacing
      ensures layout.Some? && layout.value.kind.Form? ==> r == layout.value.kind.vSpacing
      ensures layout.Some? && layout.value.kind.Box? ==>
        r == (if IsVertical(layout.value.kind.direction) then layout.value.kind.spacing else INVALID_INT_VALUE)
      ensures layout.Some? && layout.value.kind.OtherLayout? ==> r == INVALID_INT_VALUE
    {
      if layout.None? then INVALID_INT_VALUE else VSpacing(layout.value.kind)
    }

    method SetLayoutVSpacing(v: int32)
      modifies this
      ensures old(layout).None? ==> layout == old(layout)
      ensures old(layout).Some? ==> layout == Some(old(layout).value.(kind := WithVSpacing(old(layout).value.kind, v)))
    {
      if layout.Some? {
        layout := Some(layout.value.(kind := WithVSpacing(layout.value.kind, v)));
      }
    }
  }
}
