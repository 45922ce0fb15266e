/** WidgetGroup: a list of widgets whose visibility or enabled state is
    set all at once. The widgets are shared objects: a widget may sit in
    several groups, or twice in one. */
module WidgetGroups {

  /** The two flags of a QWidget a group sets. */
  class Widget {
    var visible: bool
    var enabled: bool

    constructor (visible: bool, enabled: bool)
      ensures this.visible == visible && this.enabled == enabled
    {
      this.visible := visible;
      this.enabled := enabled;
    }
  }

  /** QList::removeOne: the list without the first occurrence of `x`, or
      the list itself when `x` is absent. */
  function RemoveOne<T(==)>(s: seq<T>, x: T): (r: seq<T>)
    ensures x !in s ==> r == s
    ensures x in s ==> |r| == |s| - 1
    ensures multiset(r) == multiset(s) - multiset{x}
  {
    if s == [] then []
    else if s[0] == x then
      assert s == [s[0]] + s[1..];
      s[1..]
    else
      assert s == [s[0]] + s[1..];
      [s[0]] + RemoveOne(s[1..], x)
  }

  /** The occurrence removed is the first one: everything before it and
      everything after it stays, in order. */
  lemma {:induction false} RemoveOneAt<T>(s: seq<T>, x: T, i: nat)
    requires i < |s| && s[i] == x && x !in s[..i]
    ensures RemoveOne(s, x) == s[..i] + s[i + 1..]
  {
    if i > 0 {
      assert s[0] in s[..i];
      var t := s[1..];
      assert t[..i - 1] == s[1..i];
      RemoveOneAt(t, x, i - 1);
      assert RemoveOne(s, x) == [s[0]] + RemoveOne(t, x);
      DropHead(s, i);
    }
  }

  /** Cutting out element i commutes with taking off the head. */
  lemma {:induction false} DropHead<T>(s: seq<T>, i: nat)
    requires 0 < i < |s|
    ensures s[..i] + s[i + 1..] == [s[0]] + (s[1..][..i - 1] + s[1..][i..])
  {
    var t := s[1..];
    assert s[..i] == [s[0]] + t[..i - 1];
    assert s[i + 1..] == t[i..];
  }

  /** Adding a widget that was not in the list and removing it again
      gives the list back. */
  lemma {:induction false} AddThenRemove<T>(s: seq<T>, x: T)
    requires x !in s
    ensures RemoveOne(s + [x], x) == s
  {
    if s != [] {
      assert (s + [x])[1..] == s[1..] + [x];
      AddThenRemove(s[1..], x);
    }
  }

  class WidgetGroup {
    var widgets: seq<Widget>

    /** WidgetGroup() and WidgetGroup(widgets). */
    constructor (widgets: seq<Widget>)
      ensures this.widgets == widgets
    {
      this.widgets := widgets;
    }

    /** addWidget: appended at the end. */
    method AddWidget(widget: Widget)
      modifies this`widgets
      ensures widgets == old(widgets) + [widget]
    {
      widgets := widgets + [widget];
    }

    /** addWidgets: the list appended, in order. */
    method AddWidgets(ws: seq<Widget>)
      modifies this`widgets
      ensures widgets == old(widgets) + ws
    {
      widgets := widgets + ws;
    }

    /** removeWidget: the first occurrence goes. */
    method RemoveWidget(widget: Widget)
      modifies this`widgets
      ensures widgets == RemoveOne(old(widgets), widget)
    {
      widgets := RemoveOne(widgets, widget);
    }

    /** widgets(): the list as it is. */
    function Widgets(): (ws: seq<Widget>)
      reads this
      ensures ws == widgets
    {
      widgets
    }

    /** setVisible: every member gets the flag; enabled flags, and widgets
        outside the group, are left alone. */
    method SetVisible(visible: bool)
      modifies set w | w in widgets
      ensures forall w :: w in widgets ==> w.visible == visible
      ensures forall w :: w in widgets ==> w.enabled == old(w.enabled)
    {
      var i := 0;
      while i < |widgets|
        invariant 0 <= i <= |widgets|
        invariant forall j :: 0 <= j < i ==> widgets[j].visible == visible
        invariant forall w :: w in widgets ==> w.enabled == old(w.enabled)
      {
        widgets[i].visible := visible;
        i := i + 1;
      }
    }

    /** setEnabled: every member gets the flag; visibility is left alone. */
    method SetEnabled(enabled: bool)
      modifies set w | w in widgets
      ensures forall w :: w in widgets ==> w.enabled == enabled
      ensures forall w :: w in widgets ==> w.visible == old(w.visible)
    {
      var i := 0;
      while i < |widgets|
        invariant 0 <= i <= |widgets|
        invariant forall j :: 0 <= j < i ==> widgets[j].enabled == enabled
        invariant forall w :: w in widgets ==> w.visible == old(w.visible)
      {
        widgets[i].enabled := enabled;
        i := i + 1;
      }
    }

    /** hide(): every member invisible. */
    method Hide()
      modifies set w | w in widgets
      ensures forall w :: w in widgets ==> !w.visible && w.enabled == old(w.enabled)
    {
      SetVisible(false);
    }

    /** show() as written: it enables the members and leaves their
        visibility as it was. */
    method Show()
      modifies set w | w in widgets
      ensures forall w :: w in widgets ==> w.enabled && w.visible == old(w.visible)
    {
      SetEnabled(true);
    }

    /** show() as its name and its pairing with hide() intend: every
        member visible. */
    method ShowVisible()
      modifies set w | w in widgets
      ensures forall w :: w in widgets ==> w.visible && w.enabled == old(w.enabled)
    {
      SetVisible(true);
    }

    /** enable(). */
    method Enable()
      modifies set w | w in widgets
      ensures forall w :: w in widgets ==> w.enabled && w.visible == old(w.visible)
    {
      SetEnabled(true);
    }

    /** disable(). */
    method Disable()
      modifies set w | w in widgets
      ensures forall w :: w in widgets ==> !w.enabled && w.visible == old(w.visible)
    {
      SetEnabled(false);
    }
  }

  /** hide() then show() as written: a member stays hidden. */
  method HideThenShow(group: WidgetGroup, w: Widget)
    requires w in group.widgets
    modifies set x | x in group.widgets
    ensures !w.visible
  {
    group.Hide();
    group.Show();
  }

  /** hide() then the intended show(): every member is visible again. */
  method HideThenShowVisible(group: WidgetGroup)
    modifies set x | x in group.widgets
    ensures forall x :: x in group.widgets ==> x.visible
  {
    group.Hide();
    group.ShowVisible();
  }
}
