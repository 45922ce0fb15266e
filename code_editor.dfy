/** CodeEditor, the plain-text editor of the runtime stylesheet editor:
    the width of its line-number margin, the block comment toggle around
    the selection, and tab indentation of the selected lines.

    The document is its plain text, blocks separated by '\n'; cursor
    positions are offsets into that text, a block separator taking one
    position as in QTextDocument. */
module StylesheetEditor {
  import opened QtString

  const LINE_NUMBER_AREA_MARGIN: int := 3

  // ---------------------------------------------------------------------
  // Blocks

  predicate IsNewline(c: char) {
    c == '\n'
  }

  predicate NoNewline(line: string) {
    forall i :: 0 <= i < |line| ==> line[i] != '\n'
  }

  /** Blocks as QTextDocument has them: at least one, none holding a
      separator. */
  predicate BlockText(lines: seq<string>) {
    |lines| >= 1 && forall i :: 0 <= i < |lines| ==> NoNewline(lines[i])
  }

  /** The text of a sequence of blocks. */
  function Join(lines: seq<string>): string
    requires |lines| >= 1
  {
    if |lines| == 1 then lines[0] else lines[0] + "\n" + Join(lines[1..])
  }

  /** Every block of a split is free of separators. */
  lemma {:induction false} SplitParts(text: string)
    ensures BlockText(Split(text, IsNewline))
    decreases |text|
  {
    if text != [] {
      SplitParts(text[1..]);
    }
  }

  lemma {:induction false} JoinCons(a: string, b: string, rest: seq<string>)
    ensures Join([a + b] + rest) == a + Join([b] + rest)
  {
    if rest != [] {
      assert ([a + b] + rest)[1..] == rest;
      assert ([b] + rest)[1..] == rest;
    }
  }

  /** Joining the blocks of a text gives the text back. */
  lemma {:induction false} JoinLines(text: string)
    ensures Join(Split(text, IsNewline)) == text
    decreases |text|
  {
    if text != [] {
      var rest := Split(text[1..], IsNewline);
      JoinLines(text[1..]);
      if IsNewline(text[0]) {
        assert Split(text, IsNewline) == [[]] + rest;
        assert ([[]] + rest)[1..] == rest;
        assert text == [text[0]] + text[1..];
      } else {
        assert Split(text, IsNewline) == [[text[0]] + rest[0]] + rest[1..];
        JoinCons([text[0]], rest[0], rest[1..]);
        assert [rest[0]] + rest[1..] == rest;
        assert text == [text[0]] + text[1..];
      }
    }
  }

  /** Splitting the text of separator-free blocks gives the blocks back. */
  lemma {:induction false} LinesJoin(lines: seq<string>)
    requires BlockText(lines)
    ensures Split(Join(lines), IsNewline) == lines
    decreases |lines|
  {
    assert NoneOf(lines[0], IsNewline) by {
      assert NoNewline(lines[0]);
    }
    SplitNone(lines[0], IsNewline);
    if |lines| > 1 {
      LinesJoin(lines[1..]);
      SplitAround(lines[0], '\n', Join(lines[1..]), IsNewline);
      assert lines == [lines[0]] + lines[1..];
    }
  }

  /** The position of the start of block `b`. */
  function Offset(lines: seq<string>, b: nat): nat
    requires b < |lines|
  {
    if b == 0 then 0 else Offset(lines, b - 1) + |lines[b - 1]| + 1
  }

  /** The last position of the document. */
  function Length(lines: seq<string>): int
    requires |lines| >= 1
  {
    Offset(lines, |lines| - 1) + |lines[|lines| - 1]|
  }

  lemma {:induction false} OffsetShift(lines: seq<string>, b: nat)
    requires 1 <= b < |lines|
    ensures Offset(lines, b) == |lines[0]| + 1 + Offset(lines[1..], b - 1)
  {
    if b > 1 {
      OffsetShift(lines, b - 1);
    }
  }

  /** The text is as long as the offsets say. */
  lemma {:induction false} JoinLength(lines: seq<string>)
    requires |lines| >= 1
    ensures |Join(lines)| == Length(lines)
    decreases |lines|
  {
    if |lines| > 1 {
      var rest, n := lines[1..], |lines|;
      JoinLength(rest);
      OffsetShift(lines, n - 1);
      assert rest[n - 2] == lines[n - 1];
      assert Length(rest) == Offset(rest, n - 2) + |lines[n - 1]|;
      assert Length(lines) == |lines[0]| + 1 + Length(rest);
      assert |Join(lines)| == |lines[0]| + 1 + |Join(rest)|;
    }
  }

  /** The blocks of a text (QTextDocument's blocks): at least one, none
      holding a separator, joined back into the text, ending at its last
      position. */
  function Lines(text: string): (lines: seq<string>)
    ensures BlockText(lines) && Join(lines) == text && Length(lines) == |text|
  {
    SplitParts(text);
    JoinLines(text);
    JoinLength(Split(text, IsNewline));
    Split(text, IsNewline)
  }

  /** Later blocks start later: past the end of every earlier block. */
  lemma {:induction false} OffsetMonotone(lines: seq<string>, a: nat, b: nat)
    requires a < b < |lines|
    ensures Offset(lines, a) + |lines[a]| < Offset(lines, b)
    decreases b - a
  {
    if a + 1 < b {
      OffsetMonotone(lines, a, b - 1);
    }
  }

  /** Blocks that agree before `b` put `b` at the same offset. */
  lemma {:induction false} OffsetPrefix(lines: seq<string>, other: seq<string>, b: nat)
    requires b < |lines| && b < |other|
    requires forall j :: 0 <= j < b ==> lines[j] == other[j]
    ensures Offset(lines, b) == Offset(other, b)
  {
    if b > 0 {
      OffsetPrefix(lines, other, b - 1);
    }
  }

  /** QTextCursor::block(): the block holding a position, searching from
      block `b` on. A position at a block's end (on its separator) belongs
      to that block. */
  function LocateFrom(lines: seq<string>, pos: int, b: nat): (r: nat)
    requires b < |lines| && Offset(lines, b) <= pos <= Length(lines)
    ensures b <= r < |lines| && Offset(lines, r) <= pos <= Offset(lines, r) + |lines[r]|
    decreases |lines| - b
  {
    if pos <= Offset(lines, b) + |lines[b]| then b else LocateFrom(lines, pos, b + 1)
  }

  function Locate(lines: seq<string>, pos: int): (r: nat)
    requires |lines| >= 1 && 0 <= pos <= Length(lines)
    ensures r < |lines| && Offset(lines, r) <= pos <= Offset(lines, r) + |lines[r]|
  {
    LocateFrom(lines, pos, 0)
  }

  /** Every block ends within the document. */
  lemma {:induction false} BlockEndInDoc(lines: seq<string>, b: nat)
    requires b < |lines|
    ensures Offset(lines, b) + |lines[b]| <= Length(lines)
  {
    if b < |lines| - 1 {
      OffsetMonotone(lines, b, |lines| - 1);
    }
  }

  /** The block holding a position is the only one whose span holds it. */
  lemma {:induction false} LocateUnique(lines: seq<string>, pos: int, b: nat)
    requires |lines| >= 1 && b < |lines| && Offset(lines, b) <= pos <= Offset(lines, b) + |lines[b]|
    requires pos <= Length(lines)
    ensures Locate(lines, pos) == b
  {
    var r := Locate(lines, pos);
    if r < b {
      OffsetMonotone(lines, r, b);
    } else if b < r {
      OffsetMonotone(lines, b, r);
    }
  }

  // ---------------------------------------------------------------------
  // Line-number margin

  /** 10^k. */
  function Pow10(k: nat): (r: nat)
    ensures r >= 1
  {
    if k == 0 then 1 else 10 * Pow10(k - 1)
  }

  /** The number of decimal digits of n. */
  function DigitCount(n: nat): (d: nat)
    ensures d >= 1
  {
    |NatDigits(n)|
  }

  /** The digit count is the k with 10^(k-1) <= n < 10^k. */
  lemma {:induction false} DigitCountBounds(n: nat)
    requires n >= 1
    ensures Pow10(DigitCount(n) - 1) <= n < Pow10(DigitCount(n))
  {
    if n >= 10 {
      DigitCountBounds(n / 10);
      assert DigitCount(n) == DigitCount(n / 10) + 1;
    }
  }

  // ---------------------------------------------------------------------
  // Cursor primitives

  /** A QTextCursor: the anchor and the position. */
  datatype Cursor = Cursor(anchor: int, position: int)

  function SelStart(c: Cursor): int {
    if c.anchor <= c.position then c.anchor else c.position
  }

  function SelEnd(c: Cursor): int {
    if c.anchor <= c.position then c.position else c.anchor
  }

  predicate InDoc(c: Cursor, len: int) {
    0 <= c.anchor <= len && 0 <= c.position <= len
  }

  /** QTextCursor::setPosition; a position outside the document moves
      nothing. */
  function SetPosition(c: Cursor, pos: int, keepAnchor: bool, len: int): (r: Cursor)
    ensures InDoc(c, len) ==> InDoc(r, len)
    ensures 0 <= pos <= len ==> r.position == pos && (keepAnchor ==> r.anchor == c.anchor) && (!keepAnchor ==> SelStart(r) == SelEnd(r))
    ensures !(0 <= pos <= len) ==> r == c
  {
    if 0 <= pos <= len then Cursor(if keepAnchor then c.anchor else pos, pos) else c
  }

  /** QTextCursor::selectedText. */
  function SelectedText(text: string, c: Cursor): string
    requires InDoc(c, |text|)
  {
    text[SelStart(c)..SelEnd(c)]
  }

  /** QTextCursor::removeSelectedText: the cursor is left, unselected,
      where the selection was. */
  function RemoveSelectedText(text: string, c: Cursor): (string, Cursor)
    requires InDoc(c, |text|)
  {
    (text[..SelStart(c)] + text[SelEnd(c)..], Cursor(SelStart(c), SelStart(c)))
  }

  /** QTextCursor::insertText: replaces the selection, leaving the cursor,
      unselected, after the inserted text. */
  function InsertText(text: string, c: Cursor, t: string): (string, Cursor)
    requires InDoc(c, |text|)
  {
    var p := SelStart(c) + |t|;
    (text[..SelStart(c)] + t + text[SelEnd(c)..], Cursor(p, p))
  }

  // ---------------------------------------------------------------------
  // Comment toggle

  /** The comment markers, BEGIN_COMMENT and END_COMMENT. */
  const BEGIN_COMMENT: string := "/" + "*"
  const END_COMMENT: string := "*" + "/"

  /** The test of ToggleCommentSelection: the two characters from the
      selection's start read BEGIN_COMMENT and the two before its end read
      END_COMMENT. A text that runs past the document reads as empty. */
  predicate HasMarkers(text: string, s: int, e: int) {
    0 <= s && s + 2 <= |text| && 2 <= e <= |text| && text[s..s + 2] == BEGIN_COMMENT && text[e - 2..e] == END_COMMENT
  }

  /** The selection [s, e) put inside a comment. */
  function Commented(text: string, s: int, e: int): (r: string)
    requires 0 <= s <= e <= |text|
    ensures |r| == |text| + 4
  {
    text[..s] + BEGIN_COMMENT + text[s..e] + END_COMMENT + text[e..]
  }

  /** The comment markers of the selection [s, e) taken off. */
  function Uncommented(text: string, s: int, e: int): string
    requires 0 <= s && s + 4 <= e <= |text|
  {
    text[..s] + text[s + 2..e - 2] + text[e..]
  }

  /** The steps of the removing branch, from the selection [s, e): take
      off the two characters at s, then the two before e - 2, then select
      from s to e - 4. */
  function StripSteps(text: string, s: int, e: int): (r: (string, Cursor))
    requires 0 <= s <= e <= |text| && s + 2 <= |text| && 2 <= e
    ensures InDoc(r.1, |r.0|)
  {
    var c0 := SetPosition(SetPosition(Cursor(0, 0), s, false, |text|), s + 2, true, |text|);
    var (t1, c1) := RemoveSelectedText(text, c0);
    var c2 := SetPosition(SetPosition(c1, e - 2, false, |t1|), e - 4, true, |t1|);
    var (t2, c3) := RemoveSelectedText(t1, c2);
    (t2, SetPosition(SetPosition(c3, s, false, |t2|), e - 4, true, |t2|))
  }

  /** The steps of the inserting branch: BEGIN_COMMENT at s, END_COMMENT at
      e + 2, then select from s to e + 4. */
  function InsertSteps(text: string, s: int, e: int): (r: (string, Cursor))
    requires 0 <= s <= e <= |text|
    ensures InDoc(r.1, |r.0|)
  {
    var (t1, c1) := InsertText(text, SetPosition(Cursor(0, 0), s, false, |text|), BEGIN_COMMENT);
    var (t2, c2) := InsertText(t1, SetPosition(c1, e + 2, false, |t1|), END_COMMENT);
    (t2, SetPosition(SetPosition(c2, s, false, |t2|), e + 4, true, |t2|))
  }

  /** Inserting puts the selection inside a comment and selects it with
      its markers. */
  lemma {:induction false} InsertStepsComment(text: string, s: int, e: int)
    requires 0 <= s <= e <= |text|
    ensures InsertSteps(text, s, e) == (Commented(text, s, e), Cursor(s, e + 4))
  {
    var t1 := text[..s] + BEGIN_COMMENT + text[s..];
    assert t1[..e + 2] == text[..s] + BEGIN_COMMENT + text[s..e];
    assert t1[e + 2..] == text[e..];
  }

  /** With markers at least four characters apart, removing takes off
      exactly the two markers and selects what was between them. */
  lemma {:induction false} StripStepsUncomment(text: string, s: int, e: int)
    requires 0 <= s && s + 4 <= e <= |text|
    ensures StripSteps(text, s, e) == (Uncommented(text, s, e), Cursor(s, e - 4))
  {
    var t1 := text[..s] + text[s + 2..];
    assert t1[..e - 4] == text[..s] + text[s + 2..e - 2];
    assert t1[e - 2..] == text[e..];
  }

  /** Commenting, then taking the comment off the new selection, gives the
      text back. */
  lemma {:induction false} CommentRoundTrip(text: string, s: int, e: int)
    requires 0 <= s <= e <= |text|
    ensures HasMarkers(Commented(text, s, e), s, e + 4)
    ensures Uncommented(Commented(text, s, e), s, e + 4) == text
  {
    var t := Commented(text, s, e);
    assert t[s..s + 2] == BEGIN_COMMENT;
    assert t[e + 2..e + 4] == END_COMMENT;
    assert t[..s] == text[..s];
    assert t[s + 2..e + 2] == text[s..e];
    assert t[e + 4..] == text[e..];
    assert text == text[..s] + text[s..e] + text[e..];
  }

  /** The selection commenting leaves is a comment that uncomments back
      to the text and the original selection. */
  lemma {:induction false} CommentedSelection(text: string, s: int, e: int, t: string, c: Cursor)
    requires 0 <= s <= e <= |text| && t == Commented(text, s, e) && c == Cursor(s, e + 4)
    ensures InDoc(c, |t|) && SelStart(c) == s && SelEnd(c) == e + 4
    ensures HasMarkers(t, SelStart(c), SelEnd(c)) && SelStart(c) + 4 <= SelEnd(c)
    ensures Uncommented(t, SelStart(c), SelEnd(c)) == text
  {
    CommentRoundTrip(text, s, e);
  }

  /** Taking a comment off, then commenting the new selection, gives the
      text back. */
  lemma {:induction false} UncommentRoundTrip(text: string, s: int, e: int)
    requires s + 4 <= e && HasMarkers(text, s, e)
    ensures Commented(Uncommented(text, s, e), s, e - 4) == text
  {
    var t := Uncommented(text, s, e);
    assert t[..s] == text[..s];
    assert t[s..e - 4] == text[s + 2..e - 2];
    assert t[e - 4..] == text[e..];
    assert text == text[..s] + text[s..s + 2] + text[s + 2..e - 2] + text[e - 2..e] + text[e..];
  }

  /** When the two markers overlap (a selection shorter than four
      characters; here a three-character one whose middle character
      belongs to both), removing deletes the character before the
      selection: in "x" + BEGIN_COMMENT + "/" with all but the "x" selected,
      everything goes. */
  lemma {:induction false} OverlapDeletesOutside()
    ensures HasMarkers("x/" + "*/", 1, 4)
    ensures StripSteps("x/" + "*/", 1, 4).0 == ""
  {
    var t := "x/" + "*/";
    var t1 := t[..1] + t[3..];
    assert t1 == "x/";
  }

  /** The markers overlap on a one-character selection too: in
      END_COMMENT + "*" with the slash selected, both reads match, and the
      removal takes the star after the selection. */
  lemma {:induction false} OverlapOneCharacter()
    ensures HasMarkers(END_COMMENT + "*", 1, 2)
    ensures StripSteps(END_COMMENT + "*", 1, 2).0 == "*"
  {
    var t := END_COMMENT + "*";
    assert t[1..3] == BEGIN_COMMENT && t[0..2] == END_COMMENT;
    assert t[..1] + t[3..] == "*";
  }

  // ---------------------------------------------------------------------
  // Indentation

  datatype IndentOperation = IncreaseLevel | DecreaseLevel

  const INDENT: string := "\t"

  /** QString::simplified().isEmpty(): nothing but white space. */
  predicate Blank(line: string) {
    forall i :: 0 <= i < |line| ==> IsSpace(line[i])
  }

  /** What IndentSelectedLines does to one selected block: one more tab at
      the start of a block that is not blank, or one leading tab fewer. */
  function IndentLine(op: IndentOperation, line: string): (r: string)
    ensures NoNewline(line) ==> NoNewline(r)
    ensures |r| + 1 >= |line|
  {
    match op
    case IncreaseLevel => if !Blank(line) then INDENT + line else line
    case DecreaseLevel => if |line| > 0 && line[0] == '\t' then line[1..] else line
  }

  /** Increasing leaves exactly the blank blocks alone and otherwise adds
      one tab in front; decreasing changes exactly the blocks that start
      with a tab, and removes only that tab. */
  lemma {:induction false} IndentLineEffect(line: string)
    ensures IndentLine(IncreaseLevel, line) == line <==> Blank(line)
    ensures !Blank(line) ==> IndentLine(IncreaseLevel, line) == INDENT + line
    ensures IndentLine(DecreaseLevel, line) != line <==> |line| > 0 && line[0] == '\t'
    ensures IndentLine(DecreaseLevel, line) != line ==> INDENT + IndentLine(DecreaseLevel, line) == line
  {
    if !Blank(line) {
      assert |INDENT + line| != |line|;
    }
    if |line| > 0 && line[0] == '\t' {
      assert |line[1..]| != |line|;
    }
  }

  /** A block that increasing leaves alone but that starts with a tab. */
  predicate BlankTabbed(line: string) {
    Blank(line) && |line| > 0 && line[0] == '\t'
  }

  /** Decreasing undoes increasing, except on a blank block starting with a
      tab: increasing skips it and decreasing takes its tab. */
  lemma {:induction false} UnindentAfterIndent(line: string)
    requires !BlankTabbed(line)
    ensures IndentLine(DecreaseLevel, IndentLine(IncreaseLevel, line)) == line
  {
    if !Blank(line) {
      assert (INDENT + line)[1..] == line;
    }
  }

  /** Increasing undoes decreasing on a block that is not blank. */
  lemma {:induction false} IndentAfterUnindent(line: string)
    requires |line| > 0 && line[0] == '\t' && !Blank(line)
    ensures IndentLine(IncreaseLevel, IndentLine(DecreaseLevel, line)) == line
  {
    var rest := line[1..];
    assert !Blank(rest) by {
      var i :| 0 <= i < |line| && !IsSpace(line[i]);
      assert i > 0 && rest[i - 1] == line[i];
    }
    assert INDENT + rest == line;
  }

  /** The blocks with those from `from` to `to` indented by `op`. */
  function Reindent(lines: seq<string>, op: IndentOperation, from: int, to: int): (r: seq<string>)
    ensures |r| == |lines|
    ensures forall j :: 0 <= j < |lines| && !(from <= j <= to) ==> r[j] == lines[j]
    ensures forall j :: 0 <= j < |lines| && from <= j <= to ==> r[j] == IndentLine(op, lines[j])
  {
    seq(|lines|, j requires 0 <= j < |lines| => if from <= j <= to then IndentLine(op, lines[j]) else lines[j])
  }

  /** Decreasing the blocks just increased gives them back, when none of
      them is blank and starts with a tab. */
  lemma {:induction false} ReindentRoundTrip(lines: seq<string>, from: int, to: int)
    requires forall j :: 0 <= j < |lines| && from <= j <= to ==> !BlankTabbed(lines[j])
    ensures Reindent(Reindent(lines, IncreaseLevel, from, to), DecreaseLevel, from, to) == lines
  {
    var r := Reindent(Reindent(lines, IncreaseLevel, from, to), DecreaseLevel, from, to);
    forall j | 0 <= j < |lines| && from <= j <= to
      ensures r[j] == lines[j]
    {
      UnindentAfterIndent(lines[j]);
    }
  }

  /** The selection after IndentSelectedLines' adjustment: the first and
      last block it reaches and the adjusted start and end positions. */
  datatype Range = Range(startBlock: nat, startPos: int, endBlock: nat, endPos: int)

  /** The adjustment: a start on the end of a block moves to the start of
      the next block (or of its own block when it is the last), and an end
      on the start of a block moves to the end of the block before (or of
      its own block when it is the first). */
  function AdjustSelection(lines: seq<string>, s: int, e: int): (a: Range)
    requires |lines| >= 1 && 0 <= s <= e <= Length(lines)
    ensures a.startBlock < |lines| && a.endBlock < |lines|
    ensures Offset(lines, a.startBlock) <= a.startPos < Offset(lines, a.startBlock) + |lines[a.startBlock]|
      || a.startPos == Offset(lines, a.startBlock)
    ensures Offset(lines, a.endBlock) <= a.endPos <= Offset(lines, a.endBlock) + |lines[a.endBlock]|
  {
    var sb := Locate(lines, s);
    var startBlock := if s == Offset(lines, sb) + |lines[sb]| && sb + 1 < |lines| then sb + 1 else sb;
    var startPos := if s == Offset(lines, sb) + |lines[sb]| then Offset(lines, startBlock) else s;
    var eb := Locate(lines, e);
    var endBlock := if e == Offset(lines, eb) && eb > 0 then eb - 1 else eb;
    var endPos := if e == Offset(lines, eb) then Offset(lines, endBlock) + |lines[endBlock]| else e;
    Range(startBlock, startPos, endBlock, endPos)
  }

  /** Which blocks the adjusted selection reaches: when it is not empty,
      exactly the blocks with a character after the selection's start and
      starting before its end. So a start on a block's end leaves that
      block out, and so does an end on a block's start. */
  lemma {:induction false} AdjustSelectionBlocks(lines: seq<string>, s: int, e: int)
    requires |lines| >= 1 && 0 <= s < e <= Length(lines)
    ensures var a := AdjustSelection(lines, s, e);
      a.startPos < a.endPos ==>
        a.startBlock <= a.endBlock
        && forall b :: 0 <= b < |lines| ==>
          (a.startBlock <= b <= a.endBlock <==> s < Offset(lines, b) + |lines[b]| && Offset(lines, b) < e)
  {
    var a := AdjustSelection(lines, s, e);
    var sb, eb := Locate(lines, s), Locate(lines, e);
    if a.startPos < a.endPos {
      if a.endBlock < a.startBlock {
        OffsetMonotone(lines, a.endBlock, a.startBlock);
        assert false;
      }
      forall b | 0 <= b < |lines|
        ensures a.startBlock <= b <= a.endBlock <==> s < Offset(lines, b) + |lines[b]| && Offset(lines, b) < e
      {
        if b < sb {
          OffsetMonotone(lines, b, sb);
        } else if sb < b {
          OffsetMonotone(lines, sb, b);
        }
        if b < eb {
          OffsetMonotone(lines, b, eb);
        } else if eb < b {
          OffsetMonotone(lines, eb, b);
        }
        if sb + 1 < b {
          OffsetMonotone(lines, sb + 1, b);
        }
        if 0 < eb && b < eb - 1 {
          OffsetMonotone(lines, b, eb - 1);
        }
        BlockEndInDoc(lines, b);
      }
    }
  }

  /** The loop of IndentSelectedLines: from startBlock, block after block
      up to endBlock, each block indented in place. */
  method IndentBlocks(lines: seq<string>, op: IndentOperation, startBlock: nat, endBlock: nat)
    returns (r: seq<string>)
    requires BlockText(lines) && startBlock <= endBlock < |lines|
    ensures r == Reindent(lines, op, startBlock, endBlock) && BlockText(r)
  {
    r := lines;
    var i, blocksDelta := 0, endBlock - startBlock;
    var b := startBlock;
    while i <= blocksDelta
      invariant 0 <= i <= blocksDelta + 1 && b == startBlock + i
      invariant |r| == |lines|
      invariant forall j :: 0 <= j < |lines| && !(startBlock <= j < b) ==> r[j] == lines[j]
      invariant forall j :: 0 <= j < |lines| && startBlock <= j < b ==> r[j] == IndentLine(op, lines[j])
    {
      r := r[b := IndentLine(op, r[b])];
      b := b + 1;
      i := i + 1;
    }
    assert forall j :: 0 <= j < |lines| ==> NoNewline(lines[j]);
  }

  /** The final selection of IndentSelectedLines: from the start of the
      block holding `startPos`, forward block by block to the end of
      `endBlock`. */
  method SelectBlocks(lines: seq<string>, startPos: int, startBlock: nat, endBlock: nat)
    returns (anchor: int, position: int)
    requires |lines| >= 1 && startBlock <= endBlock < |lines|
    requires Offset(lines, startBlock) <= startPos <= Offset(lines, startBlock) + |lines[startBlock]|
    ensures anchor == Offset(lines, startBlock)
    ensures position == Offset(lines, endBlock) + |lines[endBlock]|
    ensures 0 <= anchor <= position <= Length(lines)
  {
    BlockEndInDoc(lines, startBlock);
    LocateUnique(lines, startPos, startBlock);
    var k := Locate(lines, startPos);
    anchor := Offset(lines, k);
    position := anchor;
    while k < endBlock
      invariant startBlock <= k <= endBlock
      invariant position == Offset(lines, k)
    {
      k := k + 1;
      position := Offset(lines, k);
    }
    BlockEndInDoc(lines, k);
    if startBlock < endBlock {
      OffsetMonotone(lines, startBlock, endBlock);
    }
    position := position + |lines[k]|;
  }

  /** How ToggleCommentSelection reads the markers: it selects the two
      characters from the selection's start, then the two before its end,
      and compares what each selection holds with the marker. A position
      past the document leaves the cursor where it was, so the marker is
      not read there. */
  function ReadsMarkers(text: string, cursor: Cursor, s: int, e: int): (r: bool)
    requires InDoc(cursor, |text|) && 0 <= s < e <= |text|
    ensures r <==> HasMarkers(text, s, e)
  {
    var c1 := SetPosition(SetPosition(cursor, s, false, |text|), s + |BEGIN_COMMENT|, true, |text|);
    var c2 := SetPosition(SetPosition(c1, e, false, |text|), e - |END_COMMENT|, true, |text|);
    SelectedText(text, c1) == BEGIN_COMMENT && SelectedText(text, c2) == END_COMMENT
  }

  /** The computation of ToggleCommentSelection on the editor's text and
      cursor, as written: the markers are read through the cursor, and a
      selection that starts and ends with them goes through the removing
      steps even when they overlap. */
  method ToggleComment(text: string, cursor: Cursor) returns (ok: bool, newText: string, newCursor: Cursor)
    requires InDoc(cursor, |text|)
    ensures InDoc(newCursor, |newText|)
    ensures ok == (cursor.anchor != cursor.position)
    ensures !ok ==> newText == text && newCursor == cursor
    ensures ok ==> var s, e := SelStart(cursor), SelEnd(cursor);
      (!HasMarkers(text, s, e) ==> newText == Commented(text, s, e) && newCursor == Cursor(s, e + 4))
      && (HasMarkers(text, s, e) && s + 4 <= e ==> newText == Uncommented(text, s, e) && newCursor == Cursor(s, e - 4))
      && (HasMarkers(text, s, e) ==> (newText, newCursor) == StripSteps(text, s, e))
  {
    newText, newCursor := text, cursor;
    if cursor.anchor == cursor.position {
      return false, newText, newCursor;
    }
    var startPos, endPos := cursor.anchor, cursor.position;
    if startPos > endPos {
      startPos, endPos := endPos, startPos;
    }
    var r: (string, Cursor);
    if ReadsMarkers(text, cursor, startPos, endPos) {
      r := StripSteps(text, startPos, endPos);
      if startPos + 4 <= endPos {
        StripStepsUncomment(text, startPos, endPos);
      }
    } else {
      r := InsertSteps(text, startPos, endPos);
      InsertStepsComment(text, startPos, endPos);
    }
    newText, newCursor := r.0, r.1;
    ok := true;
  }

  /** Commenting and uncommenting keep the text before the selection and
      the text after it. */
  lemma {:induction false} OutsideKept(text: string, s: int, e: int)
    requires 0 <= s <= e <= |text|
    ensures var t := Commented(text, s, e); t[..s] == text[..s] && t[|t| - (|text| - e)..] == text[e..]
    ensures s + 4 <= e ==> var t := Uncommented(text, s, e); t[..s] == text[..s] && t[|t| - (|text| - e)..] == text[e..]
  {
    var t := Commented(text, s, e);
    assert t == (text[..s] + BEGIN_COMMENT + text[s..e] + END_COMMENT) + text[e..];
    if s + 4 <= e {
      var u := Uncommented(text, s, e);
      assert u == (text[..s] + text[s + 2..e - 2]) + text[e..];
    }
  }

  /** The computation of ToggleCommentSelection as intended: markers count
      only when they do not overlap. */
  method ToggleCommentChecked(text: string, cursor: Cursor) returns (ok: bool, newText: string, newCursor: Cursor)
    requires InDoc(cursor, |text|)
    ensures InDoc(newCursor, |newText|)
    ensures ok == (cursor.anchor != cursor.position)
    ensures !ok ==> newText == text && newCursor == cursor
    ensures ok ==> var s, e := SelStart(cursor), SelEnd(cursor);
      (HasMarkers(text, s, e) && s + 4 <= e ==> newText == Uncommented(text, s, e) && newCursor == Cursor(s, e - 4))
      && (!(HasMarkers(text, s, e) && s + 4 <= e) ==> newText == Commented(text, s, e) && newCursor == Cursor(s, e + 4))
      && newText[..s] == text[..s] && newText[|newText| - (|text| - e)..] == text[e..]
  {
    newText, newCursor := text, cursor;
    if cursor.anchor == cursor.position {
      return false, newText, newCursor;
    }
    var startPos, endPos := SelStart(cursor), SelEnd(cursor);
    var r: (string, Cursor);
    if HasMarkers(text, startPos, endPos) && startPos + 4 <= endPos {
      r := StripSteps(text, startPos, endPos);
      StripStepsUncomment(text, startPos, endPos);
    } else {
      r := InsertSteps(text, startPos, endPos);
      InsertStepsComment(text, startPos, endPos);
    }
    OutsideKept(text, startPos, endPos);
    newText, newCursor := r.0, r.1;
    ok := true;
  }

  /** The computation of IndentSelectedLines on the editor's text and
      cursor: the new text and cursor, and whether anything was done. */
  method IndentSelection(text: string, cursor: Cursor, op: IndentOperation)
    returns (ok: bool, newText: string, newCursor: Cursor)
    requires InDoc(cursor, |text|)
    ensures InDoc(newCursor, |newText|)
    ensures var a := AdjustSelection(Lines(text), SelStart(cursor), SelEnd(cursor));
      ok == (cursor.anchor != cursor.position && a.startPos < a.endPos)
    ensures !ok ==> newText == text && newCursor == cursor
    ensures ok ==>
      var a := AdjustSelection(Lines(text), SelStart(cursor), SelEnd(cursor));
      Lines(newText) == Reindent(Lines(text), op, a.startBlock, a.endBlock)
      && newCursor.anchor == Offset(Lines(newText), a.startBlock)
      && newCursor.position == Offset(Lines(newText), a.endBlock) + |Lines(newText)[a.endBlock]|
  {
    newText, newCursor := text, cursor;
    if cursor.anchor == cursor.position {
      return false, newText, newCursor;
    }
    var startPos, endPos := SelStart(cursor), SelEnd(cursor);
    var lines := Lines(text);
    var adjusted := AdjustSelection(lines, startPos, endPos);
    if adjusted.startPos >= adjusted.endPos {
      return false, newText, newCursor;
    }
    AdjustSelectionBlocks(lines, startPos, endPos);
    var indented;
    indented, newCursor := IndentRange(lines, op, adjusted);
    newText := Join(indented);
    LinesOfJoin(indented);
    ok := true;
  }

  /** A position inside block `b`, or at its start, stays inside it once
      the block is indented and the blocks before it are kept. */
  lemma {:induction false} IndentedStart(lines: seq<string>, r: seq<string>, op: IndentOperation, b: nat, pos: int)
    requires b < |lines| == |r|
    requires forall j :: 0 <= j < b ==> r[j] == lines[j]
    requires r[b] == IndentLine(op, lines[b])
    requires Offset(lines, b) <= pos < Offset(lines, b) + |lines[b]| || pos == Offset(lines, b)
    ensures Offset(r, b) == Offset(lines, b)
    ensures Offset(r, b) <= pos <= Offset(r, b) + |r[b]|
  {
    OffsetPrefix(lines, r, b);
  }

  /** The blocks of a non-empty adjusted selection indented, and the
      selection over them. */
  method IndentRange(lines: seq<string>, op: IndentOperation, a: Range) returns (indented: seq<string>, newCursor: Cursor)
    requires BlockText(lines) && a.startBlock <= a.endBlock < |lines|
    requires Offset(lines, a.startBlock) <= a.startPos < Offset(lines, a.startBlock) + |lines[a.startBlock]|
      || a.startPos == Offset(lines, a.startBlock)
    ensures indented == Reindent(lines, op, a.startBlock, a.endBlock) && BlockText(indented)
    ensures newCursor.anchor == Offset(indented, a.startBlock)
    ensures newCursor.position == Offset(indented, a.endBlock) + |indented[a.endBlock]|
    ensures 0 <= newCursor.anchor <= newCursor.position <= Length(indented)
  {
    indented := IndentBlocks(lines, op, a.startBlock, a.endBlock);
    IndentedStart(lines, indented, op, a.startBlock, a.startPos);
    var anchor, position := SelectBlocks(indented, a.startPos, a.startBlock, a.endBlock);
    newCursor := Cursor(anchor, position);
  }

  /** The blocks of the text of separator-free blocks are those blocks. */
  lemma {:induction false} LinesOfJoin(lines: seq<string>)
    requires BlockText(lines)
    ensures Lines(Join(lines)) == lines && |Join(lines)| == Length(lines)
  {
    LinesJoin(lines);
    JoinLength(lines);
  }

  /** The editor: its text and its text cursor. */
  class CodeEditor {
    var text: string
    var anchor: int
    var position: int

    ghost predicate Valid()
      reads this
    {
      InDoc(Cursor(anchor, position), |text|)
    }

    /** An empty document with the cursor at its start. */
    constructor ()
      ensures Valid() && text == "" && anchor == 0 && position == 0
    {
      text, anchor, position := "", 0, 0;
    }

    /** LineNumbersAreaWidth: the margins plus one 'M' width per decimal
        digit of the block count (at least one digit). */
    method LineNumbersAreaWidth(charWidth: int) returns (width: int)
      ensures width == 2 * LINE_NUMBER_AREA_MARGIN + charWidth * DigitCount(Max1(|Lines(text)|))
    {
      var digits := 1;
      var max := Max1(|Lines(text)|);
      while max >= 10
        invariant max >= 1
        invariant digits - 1 + DigitCount(max) == DigitCount(Max1(|Lines(text)|))
        decreases max
      {
        assert DigitCount(max) == DigitCount(max / 10) + 1;
        max := max / 10;
        digits := digits + 1;
      }
      width := 2 * LINE_NUMBER_AREA_MARGIN + charWidth * digits;
    }

    /** ToggleCommentSelection as written. Without a selection it does
        nothing and answers false. Otherwise, when the selection starts
        with BEGIN_COMMENT and ends with END_COMMENT, it takes both off and
        selects what was between them; else it puts the selection between
        the two markers and selects the whole comment. Markers that overlap
        (the markers share a character) go through the removing steps all
        the same. */
    method ToggleCommentSelection() returns (ok: bool)
      requires Valid()
      modifies this
      ensures Valid()
      ensures ok == (old(anchor) != old(position))
      ensures !ok ==> text == old(text) && anchor == old(anchor) && position == old(position)
      ensures ok ==> var s, e := SelStart(old(Cursor(anchor, position))), SelEnd(old(Cursor(anchor, position)));
        (!HasMarkers(old(text), s, e) ==>
          text == Commented(old(text), s, e) && anchor == s && position == e + 4)
        && (HasMarkers(old(text), s, e) && s + 4 <= e ==>
          text == Uncommented(old(text), s, e) && anchor == s && position == e - 4)
        && (HasMarkers(old(text), s, e) ==>
          (text, Cursor(anchor, position)) == StripSteps(old(text), s, e))
    {
      var t, c;
      ok, t, c := ToggleComment(text, Cursor(anchor, position));
      text, anchor, position := t, c.anchor, c.position;
    }

    /** IndentSelectedLines: without a selection, or when the adjusted
        selection is empty, nothing changes and the answer is false.
        Otherwise the blocks from the adjusted start's block to the adjusted
        end's block are indented by `op`, every other block is kept, and
        the selection grows to cover those blocks whole. */
    method IndentSelectedLines(op: IndentOperation) returns (ok: bool)
      requires Valid()
      modifies this
      ensures Valid()
      ensures var a := AdjustSelection(Lines(old(text)), SelStart(old(Cursor(anchor, position))),
                                       SelEnd(old(Cursor(anchor, position))));
        ok == (old(anchor) != old(position) && a.startPos < a.endPos)
      ensures !ok ==> text == old(text) && anchor == old(anchor) && position == old(position)
      ensures ok ==>
        var a := AdjustSelection(Lines(old(text)), SelStart(old(Cursor(anchor, position))),
                                 SelEnd(old(Cursor(anchor, position))));
        Lines(text) == Reindent(Lines(old(text)), op, a.startBlock, a.endBlock)
        && anchor == Offset(Lines(text), a.startBlock)
        && position == Offset(Lines(text), a.endBlock) + |Lines(text)[a.endBlock]|
    {
      var t, c;
      ok, t, c := IndentSelection(text, Cursor(anchor, position), op);
      text, anchor, position := t, c.anchor, c.position;
    }

    /** ToggleCommentSelection as intended: markers count only when they do
        not overlap, so the text outside the selection is never touched. */
    method ToggleCommentSelectionChecked() returns (ok: bool)
      requires Valid()
      modifies this
      ensures Valid()
      ensures ok == (old(anchor) != old(position))
      ensures !ok ==> text == old(text) && anchor == old(anchor) && position == old(position)
      ensures ok ==> var s, e := SelStart(old(Cursor(anchor, position))), SelEnd(old(Cursor(anchor, position)));
        (HasMarkers(old(text), s, e) && s + 4 <= e ==>
          text == Uncommented(old(text), s, e) && anchor == s && position == e - 4)
        && (!(HasMarkers(old(text), s, e) && s + 4 <= e) ==>
          text == Commented(old(text), s, e) && anchor == s && position == e + 4)
      ensures ok ==> var s, e := SelStart(old(Cursor(anchor, position))), SelEnd(old(Cursor(anchor, position)));
        text[..s] == old(text)[..s] && text[|text| - (|old(text)| - e)..] == old(text)[e..]
    {
      var t, c;
      ok, t, c := ToggleCommentChecked(text, Cursor(anchor, position));
      text, anchor, position := t, c.anchor, c.position;
    }
  }

  function Max1(n: int): nat {
    if n < 1 then 1 else n
  }

  /** ToggleComment on a selection that is not a comment: it is put inside
      markers and the selection grows by the four marker characters. */
  method ToggleOn(text: string, cursor: Cursor) returns (newText: string, newCursor: Cursor)
    requires InDoc(cursor, |text|) && cursor.anchor != cursor.position
    requires !HasMarkers(text, SelStart(cursor), SelEnd(cursor))
    ensures newText == Commented(text, SelStart(cursor), SelEnd(cursor))
    ensures newCursor == Cursor(SelStart(cursor), SelEnd(cursor) + 4)
  {
    var _, t, c := ToggleComment(text, cursor);
    newText, newCursor := t, c;
  }

  /** ToggleComment on a comment with room for both markers: they are
      taken off and the selection shrinks by four. */
  method ToggleOff(text: string, cursor: Cursor) returns (newText: string, newCursor: Cursor)
    requires InDoc(cursor, |text|)
    requires SelStart(cursor) + 4 <= SelEnd(cursor) && HasMarkers(text, SelStart(cursor), SelEnd(cursor))
    ensures newText == Uncommented(text, SelStart(cursor), SelEnd(cursor))
    ensures newCursor == Cursor(SelStart(cursor), SelEnd(cursor) - 4)
  {
    var _, t, c := ToggleComment(text, cursor);
    newText, newCursor := t, c;
  }

  /** Toggling a selection that is not a comment twice restores the text
      and selects the same range. */
  method ToggleTwice(text: string, cursor: Cursor) returns (finalText: string, finalCursor: Cursor)
    requires InDoc(cursor, |text|) && cursor.anchor != cursor.position
    requires !HasMarkers(text, SelStart(cursor), SelEnd(cursor))
    ensures finalText == text && finalCursor == Cursor(SelStart(cursor), SelEnd(cursor))
  {
    var s, e := SelStart(cursor), SelEnd(cursor);
    var t1, c1 := ToggleOn(text, cursor);
    CommentedSelection(text, s, e, t1, c1);
    finalText, finalCursor := ToggleOff(t1, c1);
  }

  /** Toggling a commented selection twice restores it, when something
      lies between the markers and it is not itself a comment. (An empty
      comment uncomments to an empty selection, which the second toggle
      leaves alone.) */
  method UntoggleTwice(text: string, cursor: Cursor) returns (finalText: string, finalCursor: Cursor)
    requires InDoc(cursor, |text|)
    requires var s, e := SelStart(cursor), SelEnd(cursor);
      s + 4 < e && HasMarkers(text, s, e) && !HasMarkers(Uncommented(text, s, e), s, e - 4)
    ensures finalText == text && finalCursor == Cursor(SelStart(cursor), SelEnd(cursor))
  {
    var s, e := SelStart(cursor), SelEnd(cursor);
    UncommentRoundTrip(text, s, e);
    var t1, c1 := ToggleOff(text, cursor);
    finalText, finalCursor := ToggleOn(t1, c1);
  }
}
