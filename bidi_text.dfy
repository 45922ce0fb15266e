/** MLabel and MLineEdit: a label and a line edit that keep an "original"
    text beside the (possibly elided) text they show. Both force
    left-to-right direction by wrapping the stored text in a
    LEFT-TO-RIGHT EMBEDDING ... POP DIRECTIONAL FORMATTING pair (Unicode
    UAX #9, sections 2.1 and 2.3), and the originalText() getter takes the
    markers off again. Font-metric elision is a function parameter. */
module BidiText {
  import opened QtString

  /** LEFT-TO-RIGHT EMBEDDING. */
  const LRE: char := '\U{202A}'
  /** POP DIRECTIONAL FORMATTING. */
  const PDF: char := '\U{202C}'

  predicate IsMarker(c: char) {
    c == LRE || c == PDF
  }

  predicate NoMarkers(s: string) {
    forall i :: 0 <= i < |s| ==> !IsMarker(s[i])
  }

  /** The direction correction: LRE + s + PDF. */
  function Wrap(s: string): (r: string)
    ensures |r| == |s| + 2 && r[0] == LRE && r[|r| - 1] == PDF && r[1..|r| - 1] == s
  {
    [LRE] + s + [PDF]
  }

  /** QString::remove of both markers: every LRE and every PDF goes, all
      other characters stay in order. */
  function Strip(s: string): (r: string)
    ensures NoMarkers(r)
    ensures NoMarkers(s) ==> r == s
    ensures |r| <= |s|
  {
    if s == [] then []
    else if IsMarker(s[0]) then Strip(s[1..])
    else
      assert NoMarkers(s) ==> NoMarkers(s[1..]);
      [s[0]] + Strip(s[1..])
  }

  /** Stripping distributes over concatenation. */
  lemma {:induction false} StripConcat(a: string, b: string)
    ensures Strip(a + b) == Strip(a) + Strip(b)
  {
    if a != [] {
      assert (a + b)[0] == a[0];
      assert (a + b)[1..] == a[1..] + b;
      StripConcat(a[1..], b);
    } else {
      assert a + b == b;
    }
  }

  /** Exactly the characters other than the markers are left. */
  lemma {:induction false} StripKeepsOthers(s: string)
    ensures forall c :: c in Strip(s) <==> c in s && !IsMarker(c)
  {
    if s != [] {
      StripKeepsOthers(s[1..]);
      assert forall c :: c in s <==> c == s[0] || c in s[1..];
    }
  }

  /** Stripping a wrapped text strips the text itself. */
  lemma {:induction false} StripWrap(s: string)
    ensures Strip(Wrap(s)) == Strip(s)
  {
    StripConcat([LRE], s);
    StripConcat([LRE] + s, [PDF]);
    assert Strip([PDF]) == [];
  }

  /** originalText(): with the direction fix on and a stored text that
      starts with LRE, the stored text with every marker removed; the
      stored text as it is otherwise. */
  function Unwrap(stored: string, directionFix: bool): (r: string)
    ensures r != stored ==> directionFix && |stored| > 0 && stored[0] == LRE
    ensures directionFix && |stored| > 0 && stored[0] == LRE ==> NoMarkers(r)
    ensures NoMarkers(stored) ==> r == stored
  {
    if directionFix && |stored| > 0 && stored[0] == LRE then Strip(stored) else stored
  }

  /** The round trip: a text without markers that was wrapped reads back
      as itself. */
  lemma {:induction false} UnwrapWrap(s: string)
    requires NoMarkers(s)
    ensures Unwrap(Wrap(s), true) == s
  {
    StripWrap(s);
  }

  /** Reading back is idempotent: what originalText() gives reads back as
      itself. */
  lemma {:induction false} UnwrapIdempotent(stored: string, directionFix: bool)
    ensures Unwrap(Unwrap(stored, directionFix), directionFix) == Unwrap(stored, directionFix)
  {
    var r := Unwrap(stored, directionFix);
    if r != stored {
      assert NoMarkers(r);
    }
  }

  /** A wrapped text wrapped once more reads back as the original text,
      although the stored text has grown by another pair of markers. */
  lemma {:induction false} UnwrapWrapTwice(s: string)
    requires NoMarkers(s)
    ensures Unwrap(Wrap(Wrap(s)), true) == s
    ensures Wrap(Wrap(s)) != Wrap(s)
  {
    StripWrap(Wrap(s));
    StripWrap(s);
    assert |Wrap(Wrap(s))| == |Wrap(s)| + 2;
  }

  /** MLabel. `stored` is m_originalText; `text` and `toolTip` are what
      the QLabel base shows. */
  class MLabel {
    var stored: string
    var viewText: string
    var text: string
    var toolTip: string
    var eliding: bool
    var clickable: bool
    var directionFix: bool

    /** Built showing "MLabel", eliding, clickable, with the direction fix
        on (the initial text is not wrapped). */
    constructor ()
      ensures stored == "MLabel" && viewText == "MLabel" && text == "MLabel" && toolTip == ""
      ensures eliding && clickable && directionFix
    {
      stored, viewText, text, toolTip := "MLabel", "MLabel", "MLabel", "";
      eliding, clickable, directionFix := true, true, true;
    }

    /** originalText(): the stored text, with the marks taken out when
        the fix is on and the text starts with LRE. */
    function OriginalText(): (r: string)
      reads this
      ensures !directionFix || NoMarkers(stored) ==> r == stored
      ensures directionFix && |stored| > 0 && stored[0] == LRE ==> NoMarkers(r)
    {
      Unwrap(stored, directionFix)
    }

    /** The view after updateViewText with the elision `elide`: without
        eliding, the stored text and no tooltip; with it, the elided text,
        and the stored text as tooltip exactly when elision changed it. */
    ghost predicate Shows(elide: string -> string)
      reads this
    {
      (!eliding ==> text == stored && toolTip == "")
      && (eliding ==> viewText == elide(stored) && text == viewText
                      && toolTip == (if viewText != stored then stored else ""))
    }

    method UpdateViewText(elide: string -> string)
      modifies this`viewText, this`text, this`toolTip
      ensures Shows(elide)
      ensures !eliding ==> viewText == old(viewText)
    {
      if !eliding {
        text := stored;
        toolTip := "";
      } else {
        viewText := elide(stored);
        text := viewText;
        if viewText != stored {
          toolTip := stored;
        } else {
          toolTip := "";
        }
      }
    }

    /** setOriginalText: returns the originalTextChanged signal's argument,
        if it is emitted. Setting the text it already reads back is a
        no-op without a signal. */
    method SetOriginalText(str: string, elide: string -> string) returns (changed: Option<string>)
      modifies this`stored, this`viewText, this`text, this`toolTip
      ensures old(OriginalText()) == str ==>
        changed == None && stored == old(stored) && viewText == old(viewText)
        && text == old(text) && toolTip == old(toolTip)
      ensures old(OriginalText()) != str ==>
        changed == Some(str) && stored == (if directionFix then Wrap(str) else str) && Shows(elide)
      ensures NoMarkers(str) || !directionFix ==> OriginalText() == str
    {
      if OriginalText() == str {
        return None;
      }
      stored := str;
      if directionFix {
        stored := [LRE] + stored;
        stored := stored + [PDF];
        UnwrapWrap2(str);
      }
      UpdateViewText(elide);
      changed := Some(str);
    }

    /** setEliding: a change of the flag refreshes the view. */
    method SetEliding(e: bool, elide: string -> string)
      modifies this`eliding, this`viewText, this`text, this`toolTip
      ensures eliding == e && stored == old(stored)
      ensures e == old(eliding) ==>
        viewText == old(viewText) && text == old(text) && toolTip == old(toolTip)
      ensures e != old(eliding) ==> Shows(elide)
    {
      if eliding == e {
        return;
      }
      eliding := e;
      UpdateViewText(elide);
    }

    /** setClickable: only the flag. */
    method SetClickable(c: bool)
      modifies this`clickable
      ensures clickable == c
    {
      if c == clickable {
        return;
      }
      clickable := c;
    }

    /** setDirectionFix as written: the text read back before the switch is
        set again under the new flag, through setOriginalText's no-op
        guard. */
    method SetDirectionFix(fix: bool, elide: string -> string) returns (changed: Option<string>)
      modifies this`directionFix, this`stored, this`viewText, this`text, this`toolTip
      ensures directionFix == fix
      ensures fix == old(directionFix) ==> stored == old(stored) && changed == None
      ensures fix == old(directionFix) ==>
        viewText == old(viewText) && text == old(text) && toolTip == old(toolTip)
      ensures NoMarkers(old(OriginalText())) ==> OriginalText() == old(OriginalText())
      ensures fix != old(directionFix) && Unwrap(old(stored), fix) == old(OriginalText()) ==>
        stored == old(stored) && changed == None
        && viewText == old(viewText) && text == old(text) && toolTip == old(toolTip)
      ensures fix != old(directionFix) && Unwrap(old(stored), fix) != old(OriginalText()) ==>
        stored == (if fix then Wrap(old(OriginalText())) else old(OriginalText()))
        && changed == Some(old(OriginalText())) && Shows(elide)
    {
      if fix == directionFix {
        return None;
      }
      var str := OriginalText();
      directionFix := fix;
      changed := SetOriginalText(str, elide);
    }

    /** setDirectionFix as intended: the text read back before the switch
        is stored again under the new flag, wrapped when the fix is on. */
    method SetDirectionFixWrapped(fix: bool, elide: string -> string)
      modifies this`directionFix, this`stored, this`viewText, this`text, this`toolTip
      ensures directionFix == fix
      ensures fix == old(directionFix) ==> stored == old(stored)
      ensures fix == old(directionFix) ==>
        viewText == old(viewText) && text == old(text) && toolTip == old(toolTip)
      ensures fix != old(directionFix) ==>
        stored == (if fix then Wrap(old(OriginalText())) else old(OriginalText())) && Shows(elide)
      ensures NoMarkers(old(OriginalText())) ==> OriginalText() == old(OriginalText())
    {
      if fix == directionFix {
        return;
      }
      var str := OriginalText();
      directionFix := fix;
      if fix {
        stored := Wrap(str);
        UnwrapWrap2(str);
      } else {
        stored := str;
      }
      UpdateViewText(elide);
    }
  }

  /** Wrap spelled as the two appends of setOriginalText, read back. */
  lemma {:induction false} UnwrapWrap2(s: string)
    ensures [LRE] + s + [PDF] == Wrap(s)
    ensures NoMarkers(s) ==> Unwrap(Wrap(s), true) == s
  {
    if NoMarkers(s) {
      UnwrapWrap(s);
    }
  }

  /** A label without the fix whose text has no markers: switching the fix
      on keeps the text unwrapped, since the text read back under the new
      flag already equals the text to set. */
  method EnableDirectionFix(lbl: MLabel, elide: string -> string) returns (changed: Option<string>)
    requires !lbl.directionFix && NoMarkers(lbl.stored)
    modifies lbl
    ensures lbl.directionFix && changed == None
    ensures lbl.stored == old(lbl.stored) && lbl.stored != Wrap(lbl.stored)
  {
    changed := lbl.SetDirectionFix(true, elide);
  }

  /** The same switch with the intended setDirectionFix wraps the text. */
  method EnableDirectionFixWrapped(lbl: MLabel, elide: string -> string)
    requires !lbl.directionFix && NoMarkers(lbl.stored)
    modifies lbl
    ensures lbl.directionFix && lbl.stored == Wrap(old(lbl.stored))
    ensures lbl.OriginalText() == old(lbl.stored)
  {
    lbl.SetDirectionFixWrapped(true, elide);
  }

  /** MLineEdit. `stored` is m_originalText; `text`, `toolTip` and
      `cursorPosition` are the QLineEdit base's state, and `text` is what
      the user edits. */
  class MLineEdit {
    var stored: string
    var viewText: string
    var text: string
    var toolTip: string
    var cursorPosition: int
    var eliding: bool
    var focused: bool

    /** Built empty, eliding, without focus. */
    constructor ()
      ensures stored == "" && viewText == "" && text == "" && toolTip == "" && cursorPosition == 0
      ensures eliding && !focused
    {
      stored, viewText, text, toolTip := "", "", "", "";
      cursorPosition := 0;
      eliding, focused := true, false;
    }

    /** originalText(): the fix is always on. */
    function OriginalText(): (r: string)
      reads this
      ensures NoMarkers(stored) ==> r == stored
      ensures |stored| > 0 && stored[0] == LRE ==> NoMarkers(r)
    {
      Unwrap(stored, true)
    }

    /** isEliding(): the flag setEliding stored. */
    function IsEliding(): (r: bool)
      reads this
      ensures r == eliding
    {
      eliding
    }

    /** setEliding: only the flag; the view is refreshed by the next
        update. */
    method SetEliding(e: bool)
      modifies this`eliding
      ensures eliding == e
    {
      if e == eliding {
        return;
      }
      eliding := e;
    }

    /** The view after updateViewText: elided only while unfocused and
        eliding, the stored text as tooltip exactly when the view differs
        from it, the cursor at the start. */
    ghost predicate Shows(elide: string -> string)
      reads this
    {
      viewText == (if !focused && eliding then elide(stored) else stored)
      && text == viewText
      && toolTip == (if viewText != stored then stored else "")
      && cursorPosition == 0
    }

    method UpdateViewText(elide: string -> string)
      modifies this`viewText, this`text, this`toolTip, this`cursorPosition
      ensures Shows(elide)
      ensures focused || !eliding ==> text == stored && toolTip == ""
    {
      if !focused && eliding {
        viewText := elide(stored);
      } else {
        viewText := stored;
      }
      text := viewText;
      if viewText != stored {
        toolTip := stored;
      } else {
        toolTip := "";
      }
      cursorPosition := 0;
    }

    /** setOriginalText: always wraps. Returns the originalTextChanged
        signal's argument, if it is emitted. */
    method SetOriginalText(str: string, elide: string -> string) returns (changed: Option<string>)
      modifies this`stored, this`viewText, this`text, this`toolTip, this`cursorPosition
      ensures old(OriginalText()) == str ==>
        changed == None && stored == old(stored) && viewText == old(viewText)
        && text == old(text) && toolTip == old(toolTip) && cursorPosition == old(cursorPosition)
      ensures old(OriginalText()) != str ==>
        changed == Some(str) && stored == Wrap(str) && Shows(elide)
      ensures NoMarkers(str) ==> OriginalText() == str
    {
      if OriginalText() == str {
        return None;
      }
      stored := str;
      stored := [LRE] + stored;
      stored := stored + [PDF];
      UnwrapWrap2(str);
      UpdateViewText(elide);
      changed := Some(str);
    }

    /** focusInEvent: the full stored text is shown for editing. */
    method FocusIn(elide: string -> string)
      modifies this`focused, this`viewText, this`text, this`toolTip, this`cursorPosition
      ensures focused && Shows(elide) && text == stored && toolTip == ""
    {
      focused := true;
      UpdateViewText(elide);
    }

    /** focusOutEvent as written: the line edit's text, markers included,
        is committed through setOriginalText. */
    method FocusOut(elide: string -> string) returns (changed: Option<string>)
      modifies this`focused, this`stored, this`viewText, this`text, this`toolTip, this`cursorPosition
      ensures !focused
      ensures old(OriginalText()) == old(text) ==>
        changed == None && stored == old(stored)
        && viewText == old(viewText) && text == old(text) && toolTip == old(toolTip)
        && cursorPosition == old(cursorPosition)
      ensures old(OriginalText()) != old(text) ==>
        changed == Some(old(text)) && stored == Wrap(old(text)) && Shows(elide)
    {
      focused := false;
      var currentText := text;
      changed := SetOriginalText(currentText, elide);
    }

    /** focusOutEvent as intended: the text is read back the way
        originalText() reads the stored text before it is committed. */
    method FocusOutUnwrapped(elide: string -> string) returns (changed: Option<string>)
      modifies this`focused, this`stored, this`viewText, this`text, this`toolTip, this`cursorPosition
      ensures !focused
      ensures old(OriginalText()) == Unwrap(old(text), true) ==>
        changed == None && stored == old(stored)
        && viewText == old(viewText) && text == old(text) && toolTip == old(toolTip)
        && cursorPosition == old(cursorPosition)
      ensures old(OriginalText()) != Unwrap(old(text), true) ==>
        changed == Some(Unwrap(old(text), true)) && stored == Wrap(Unwrap(old(text), true)) && Shows(elide)
      ensures NoMarkers(Unwrap(old(text), true)) ==> OriginalText() == Unwrap(old(text), true)
    {
      focused := false;
      var currentText := Unwrap(text, true);
      changed := SetOriginalText(currentText, elide);
    }
  }

  /** Focus in and out without editing, as written: the text read back is
      the same, but the stored text gains a second pair of markers and the
      signal carries the wrapped text. */
  method FocusCycle(e: MLineEdit, s: string, elide: string -> string) returns (changed: Option<string>)
    requires e.stored == Wrap(s) && NoMarkers(s)
    modifies e
    ensures e.stored == Wrap(Wrap(s)) && changed == Some(Wrap(s))
    ensures e.OriginalText() == s
  {
    e.FocusIn(elide);
    UnwrapWrap(s);
    assert Wrap(s) != s;
    changed := e.FocusOut(elide);
    UnwrapWrapTwice(s);
  }

  /** The same cycle with the intended focus-out changes nothing and emits
      nothing. */
  method FocusCycleUnwrapped(e: MLineEdit, s: string, elide: string -> string) returns (changed: Option<string>)
    requires e.stored == Wrap(s) && NoMarkers(s)
    modifies e
    ensures e.stored == Wrap(s) && changed == None
    ensures e.OriginalText() == s
  {
    e.FocusIn(elide);
    UnwrapWrap(s);
    changed := e.FocusOutUnwrapped(elide);
  }
}
