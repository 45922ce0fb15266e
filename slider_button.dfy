/** MSliderButton: a volume button made of a stack of tool buttons, one per
    level, over a popup slider with range 0..100. The value picks which
    button is shown; toggling mutes to 0 and restores the saved value. */
module SliderButton {
  import opened QtString

  /** The range the constructor gives the popup slider. */
  const SLIDER_MIN: int32 := 0
  const SLIDER_MAX: int32 := 100

  /** The button shown for `value` (already bounded) with `count` buttons:
      the first one at the minimum, otherwise the value's share of the range
      scaled to the remaining buttons, rounded up to at least 1 and capped
      at the last one. */
  function ButtonIndex(value: int, min: int, max: int, count: int): (r: int)
    requires min <= value <= max
    ensures value == min ==> r == 0
    ensures value > min ==> r <= count - 1
  {
    var maxButtonIndex := count - 1;
    if value == min then 0
    else
      var scaled := TruncDiv((value - min) * maxButtonIndex, max - min) + 1;
      if scaled < maxButtonIndex then scaled else maxButtonIndex
  }

  /** With at least one button, the index names one of them. */
  lemma {:induction false} ButtonIndexInRange(value: int, min: int, max: int, count: int)
    requires min <= value <= max && count >= 1
    ensures 0 <= ButtonIndex(value, min, max, count) < count
  {
    if value != min {
      var x := (value - min) * (count - 1);
      MulMonotone(0, value - min, count - 1);
      assert TruncDiv(x, max - min) == x / (max - min) >= 0;
    }
  }

  /** The minimum shows the first button and the maximum the last. */
  lemma {:induction false} ButtonIndexEnds(min: int, max: int, count: int)
    requires min < max && count >= 1
    ensures ButtonIndex(min, min, max, count) == 0
    ensures ButtonIndex(max, min, max, count) == count - 1
  {
    MulDivCancel(count - 1, max - min);
    assert (max - min) * (count - 1) == (count - 1) * (max - min);
  }

  /** Any value above the minimum shows a button past the first, when there
      are two or more. */
  lemma {:induction false} ButtonIndexPastFirst(v: int, min: int, max: int, count: int)
    requires min < v <= max && count >= 2
    ensures ButtonIndex(v, min, max, count) >= 1
  {
    var x := (v - min) * (count - 1);
    assert x >= 0 by {
      MulMonotone(0, v - min, count - 1);
    }
    var q := x / (max - min);
    assert q >= 0;
    assert TruncDiv(x, max - min) == q;
  }

  lemma {:induction false} MulDivCancel(a: nat, d: int)
    requires d > 0
    ensures (a * d) / d == a
  {
    var q := (a * d) / d;
    var r := (a * d) % d;
    assert a * d == q * d + r && 0 <= r < d;
    if q < a {
      MulMonotone(q + 1, a, d);
      assert false;
    } else if q > a {
      MulMonotone(a + 1, q, d);
      assert false;
    }
  }

  /** A larger value never shows an earlier button. */
  lemma {:induction false} ButtonIndexMonotone(v1: int, v2: int, min: int, max: int, count: int)
    requires min <= v1 <= v2 <= max && count >= 1
    ensures ButtonIndex(v1, min, max, count) <= ButtonIndex(v2, min, max, count)
  {
    if v1 == min {
      ButtonIndexInRange(v2, min, max, count);
    } else {
      var d := max - min;
      var x1, x2 := (v1 - min) * (count - 1), (v2 - min) * (count - 1);
      MulMonotone(0, v1 - min, count - 1);
      MulMonotone(v1 - min, v2 - min, count - 1);
      DivMonotone(x1, x2, d);
      assert TruncDiv(x1, d) == x1 / d && TruncDiv(x2, d) == x2 / d;
    }
  }

  lemma {:induction false} MulMonotone(a: int, b: int, c: nat)
    requires a <= b
    ensures a * c <= b * c
  {
    assert b * c == a * c + (b - a) * c;
  }

  lemma {:induction false} DivMonotone(a: nat, b: nat, d: int)
    requires a <= b && d > 0
    ensures a / d <= b / d
  {
    var qa, qb := a / d, b / d;
    assert a == qa * d + a % d && b == qb * d + b % d;
    if qa > qb {
      MulMonotone(qb + 1, qa, d);
      assert false;
    }
  }

  class MSliderButton {
    /** The popup slider's value. */
    var value: int32
    /** The value saved by the last mute. */
    var oldValue: int32
    var state: bool
    /** Whether setVolumeLevelsNumber has created the button stack, how many
        buttons it holds, and the shown one (-1 for none). */
    var hasStack: bool
    var count: int
    var currentIndex: int

    ghost predicate Valid()
      reads this
    {
      SLIDER_MIN <= value <= SLIDER_MAX && SLIDER_MIN <= oldValue <= SLIDER_MAX
      && count >= 0 && (hasStack || count == 0)
      && (count == 0 ==> currentIndex == -1) && (count > 0 ==> 0 <= currentIndex < count)
    }

    /** The constructor: slider at 0 in 0..100, nothing saved, unmuted
        state false, no button stack yet. */
    constructor ()
      ensures Valid()
      ensures value == 0 && oldValue == 0 && !state && !hasStack && count == 0
    {
      value, oldValue, state := 0, 0, false;
      hasStack, count, currentIndex := false, 0, -1;
    }

    /** setVolumeLevelsNumber: a new stack of `levels` buttons (none for a
        negative count), showing the last one. */
    method SetVolumeLevelsNumber(levels: int32)
      requires Valid()
      modifies this`hasStack, this`count, this`currentIndex
      ensures Valid() && hasStack
      ensures count == (if levels < 0 then 0 else levels)
      ensures currentIndex == count - 1
    {
      hasStack := true;
      count := if levels < 0 then 0 else levels;
      currentIndex := count - 1;
    }

    /** setValue: without a button stack nothing happens and nothing is
        emitted; otherwise the bounded value is stored, the matching button
        shown, and valueChanged(value) emitted. */
    method SetValue(v: int32) returns (emitted: Option<int32>)
      requires Valid()
      modifies this`value, this`currentIndex
      ensures Valid()
      ensures !hasStack ==> emitted == None && value == old(value) && currentIndex == old(currentIndex)
      ensures hasStack ==> value == Bound(SLIDER_MIN, v, SLIDER_MAX) && emitted == Some(value)
      ensures hasStack && count > 0 ==> currentIndex == ButtonIndex(value, SLIDER_MIN, SLIDER_MAX, count)
      ensures count == 0 ==> currentIndex == -1
    {
      if !hasStack {
        return None;
      }
      BoundInRange(SLIDER_MIN, v, SLIDER_MAX);
      value := Bound(SLIDER_MIN, v, SLIDER_MAX);
      var index := ButtonIndex(value, SLIDER_MIN, SLIDER_MAX, count);
      if 0 <= index < count {
        currentIndex := index;
      }
      if count > 0 {
        ButtonIndexInRange(value, SLIDER_MIN, SLIDER_MAX, count);
      }
      emitted := Some(value);
    }

    /** toggle(state): switching off saves the value and sets 0; switching
        on sets the saved value back. */
    method Toggle(on: bool)
      requires Valid()
      modifies this`value, this`currentIndex, this`oldValue, this`state
      ensures Valid() && state == on
      ensures !on ==> oldValue == old(value) && value == (if hasStack then SLIDER_MIN else old(value))
      ensures on ==> oldValue == old(oldValue) && value == (if hasStack then old(oldValue) else old(value))
      ensures hasStack && count > 0 ==> currentIndex == ButtonIndex(value, SLIDER_MIN, SLIDER_MAX, count)
    {
      if !on {
        oldValue := value;
        var _ := SetValue(0);
      } else {
        var _ := SetValue(oldValue);
      }
      state := on;
    }

    /** toggle(): flips the state. */
    method ToggleState()
      requires Valid()
      modifies this`value, this`currentIndex, this`oldValue, this`state
      ensures Valid() && state == !old(state)
      ensures old(state) ==> oldValue == old(value) && value == (if hasStack then SLIDER_MIN else old(value))
      ensures !old(state) ==> oldValue == old(oldValue) && value == (if hasStack then old(oldValue) else old(value))
      ensures hasStack && count > 0 ==> currentIndex == ButtonIndex(value, SLIDER_MIN, SLIDER_MAX, count)
    {
      Toggle(!state);
    }
  }

  /** Muting and unmuting restore the value and the shown button. */
  method MuteRoundTrip(button: MSliderButton)
    requires button.Valid() && button.hasStack
    modifies button
    ensures button.Valid() && button.value == old(button.value)
    ensures button.count > 0 ==> button.currentIndex == ButtonIndex(button.value, SLIDER_MIN, SLIDER_MAX, button.count)
  {
    button.Toggle(false);
    button.Toggle(true);
  }
}
