/** MTimeEdit: a time editor whose arrow steps never wrap across
    midnight and stay inside the allowed range, and which picks, from a
    list of display formats, the one that shows the time with the least
    loss. A time of day is a count of milliseconds since midnight. */
module TimeEdit {
  import opened QtString

  /** Milliseconds in a day; QTime arithmetic wraps modulo this. */
  const MS_PER_DAY: int := 86_400_000
  /** QTime(23, 59, 59, 999). */
  const LAST_MS: int := 86_399_999

  /** A valid QTime. */
  type Time = t: int | 0 <= t < MS_PER_DAY

  /** The section of the editor the cursor is in. Any section other than
      the four time sections (the AM/PM marker, none) is `OtherSection`. */
  datatype Section = MSecSection | SecondSection | MinuteSection | HourSection | OtherSection

  /** The cost of one step in each section, with the configured
      millisecond step. */
  function StepCost(section: Section, msecStep: int): (cost: int)
    ensures section == OtherSection ==> cost == 0
    ensures section == MSecSection ==> cost == msecStep
    ensures section == SecondSection ==> cost == 1000
    ensures section == MinuteSection ==> cost == 60 * 1000
    ensures section == HourSection ==> cost == 3600 * 1000
  {
    match section
    case MSecSection => msecStep
    case SecondSection => 1000
    case MinuteSection => 60 * 1000
    case HourSection => 3600 * 1000
    case OtherSection => 0
  }

  /** QTime::addMSecs: the time `ms` milliseconds later, wrapping around
      midnight in either direction. */
  function AddMSecs(t: Time, ms: int): (r: Time)
    ensures (r - (t + ms)) % MS_PER_DAY == 0
    ensures 0 <= t + ms < MS_PER_DAY ==> r == t + ms
  {
    (t + ms) % MS_PER_DAY
  }

  /** The time a step of `steps` sections of cost `cost` aims at: the
      shifted time, except that a step down that wrapped to a later time
      stops at 00:00:00.000 and a step up that wrapped to an earlier time
      stops at 23:59:59.999. */
  function StepTarget(t: Time, steps: int, cost: int): (r: Time)
    ensures steps < 0 ==> r <= t
    ensures steps > 0 ==> r >= t
    ensures steps == 0 ==> r == t
    ensures cost >= 0 && 0 <= t + steps * cost < MS_PER_DAY ==> r == t + steps * cost
  {
    var changed := AddMSecs(t, steps * cost);
    if steps < 0 && changed > t then 0
    else if steps > 0 && changed < t then LAST_MS
    else changed
  }

  /** The time after a step: the target, clamped into the allowed range. */
  function Stepped(t: Time, steps: int, cost: int, minimumTime: Time, maximumTime: Time): (r: Time)
    ensures minimumTime <= StepTarget(t, steps, cost) <= maximumTime ==> r == StepTarget(t, steps, cost)
    ensures r == StepTarget(t, steps, cost) || r == minimumTime || r == maximumTime
  {
    var changed := StepTarget(t, steps, cost);
    if changed > maximumTime then maximumTime
    else if changed < minimumTime then minimumTime
    else changed
  }

  /** A step never leaves the allowed range. */
  lemma {:induction false} SteppedInRange(t: Time, steps: int, cost: int, minimumTime: Time, maximumTime: Time)
    requires minimumTime <= maximumTime
    ensures minimumTime <= Stepped(t, steps, cost, minimumTime, maximumTime) <= maximumTime
  {
  }

  /** From a time in range, stepping down never gives a later time and
      stepping up never an earlier one. */
  lemma {:induction false} SteppedMonotone(t: Time, steps: int, cost: int, minimumTime: Time, maximumTime: Time)
    requires minimumTime <= t <= maximumTime
    ensures steps < 0 ==> Stepped(t, steps, cost, minimumTime, maximumTime) <= t
    ensures steps > 0 ==> Stepped(t, steps, cost, minimumTime, maximumTime) >= t
  {
  }

  /** A step that neither crosses midnight nor leaves the range moves the
      time by exactly steps * cost; in particular a zero step, or a step in
      a section of cost 0, keeps a time in range. A negative millisecond
      step is excluded: its steps go the other way and meet the wrap
      rules. */
  lemma {:induction false} SteppedExact(t: Time, steps: int, cost: int, minimumTime: Time, maximumTime: Time)
    requires cost >= 0
    requires minimumTime <= t + steps * cost <= maximumTime
    ensures Stepped(t, steps, cost, minimumTime, maximumTime) == t + steps * cost
  {
    if steps < 0 {
      assert steps * cost <= 0;
    } else {
      assert steps * cost >= 0;
    }
  }

  /** How far the time `t` shown in a format lands from `t`: the round
      trip of formatting and parsing is `roundTrip`, which gives None when
      the text does not parse; QTime::msecsTo with an invalid time is 0. */
  function VisibleError(roundTrip: (string, Time) -> Option<Time>, format: string, t: Time): (e: nat)
    ensures e < MS_PER_DAY
    ensures roundTrip(format, t) == Some(t) ==> e == 0
  {
    match roundTrip(format, t)
    case None => 0
    case Some(v) => if v >= t then v - t else t - v
  }

  /** Larger than any error (errors are below a day), standing for the
      1e300 the selection starts from. */
  const NO_ERROR_YET: int := MS_PER_DAY

  /** The format selection of updateStyle: the index of the format with
      the least error for `t`, the first one on ties. */
  method SelectFormat(formats: seq<string>, roundTrip: (string, Time) -> Option<Time>, t: Time)
    returns (selected: int)
    requires |formats| > 0
    ensures 0 <= selected < |formats|
    ensures forall j :: 0 <= j < |formats| ==>
      VisibleError(roundTrip, formats[selected], t) <= VisibleError(roundTrip, formats[j], t)
    ensures forall j :: 0 <= j < selected ==>
      VisibleError(roundTrip, formats[j], t) > VisibleError(roundTrip, formats[selected], t)
  {
    var selectedError := NO_ERROR_YET;
    selected := -1;
    var i := 0;
    while i < |formats|
      invariant 0 <= i <= |formats|
      invariant i == 0 <==> selected == -1
      invariant i == 0 ==> selectedError == NO_ERROR_YET
      invariant i > 0 ==> 0 <= selected < i && selectedError == VisibleError(roundTrip, formats[selected], t)
      invariant forall j :: 0 <= j < i ==> selectedError <= VisibleError(roundTrip, formats[j], t)
      invariant forall j :: 0 <= j < selected ==> VisibleError(roundTrip, formats[j], t) > selectedError
    {
      var visibleError := VisibleError(roundTrip, formats[i], t);
      if visibleError < selectedError {
        selected := i;
        selectedError := visibleError;
      }
      i := i + 1;
    }
  }

  /** `formats[i]` is the format updateStyle picks for `t`: no format
      shows `t` with a smaller error, and every earlier one shows it with
      a larger error. */
  ghost predicate FirstLeastError(formats: seq<string>, roundTrip: (string, Time) -> Option<Time>, t: Time, i: int) {
    0 <= i < |formats|
    && (forall j :: 0 <= j < |formats| ==>
          VisibleError(roundTrip, formats[i], t) <= VisibleError(roundTrip, formats[j], t))
    && (forall j :: 0 <= j < i ==>
          VisibleError(roundTrip, formats[j], t) > VisibleError(roundTrip, formats[i], t))
  }

  /** The editor. Positions of the cursor, the style tag's width fitting
      and the text shown are not part of this model. */
  class MTimeEdit {
    var time: Time
    var minimumTime: Time
    var maximumTime: Time
    var msecStep: int
    var currentSection: Section
    var displayFormatList: seq<string>
    var displayFormat: string
    var focused: bool
    var forceMaxtimeFormat: bool

    ghost predicate Valid()
      reads this
    {
      minimumTime <= time <= maximumTime
    }

    /** A new editor: QTimeEdit's defaults (00:00, the whole day, the
        locale's format), a millisecond step of 1, no format list. */
    constructor (localeFormat: string)
      ensures Valid()
      ensures time == 0 && minimumTime == 0 && maximumTime == LAST_MS
      ensures msecStep == 1 && displayFormatList == [] && displayFormat == localeFormat
      ensures !focused && !forceMaxtimeFormat
    {
      time, minimumTime, maximumTime := 0, 0, LAST_MS;
      msecStep := 1;
      currentSection := HourSection;
      displayFormatList := [];
      displayFormat := localeFormat;
      focused, forceMaxtimeFormat := false, false;
    }

    /** The time the format is chosen for: the maximum while the editor
        has focus or is forced to, the current time otherwise. */
    function MatchTime(): Time
      reads this
    {
      if focused || forceMaxtimeFormat then maximumTime else time
    }

    /** The format shown is the one updateStyle picks for MatchTime():
        the first of the list with the least error. With an empty list
        nothing is picked. */
    ghost predicate ShowsBestFormat(roundTrip: (string, Time) -> Option<Time>)
      reads this
    {
      displayFormatList != [] ==>
        exists i :: FirstLeastError(displayFormatList, roundTrip, MatchTime(), i)
                    && displayFormat == displayFormatList[i]
    }

    /** updateStyle: with a non-empty list, switch to the first format with
        the least error for MatchTime(). */
    method UpdateStyle(roundTrip: (string, Time) -> Option<Time>)
      modifies this`displayFormat
      ensures displayFormatList == [] ==> displayFormat == old(displayFormat)
      ensures ShowsBestFormat(roundTrip)
      ensures displayFormatList != [] ==> displayFormat in displayFormatList
      ensures displayFormatList != [] ==> forall f :: f in displayFormatList ==>
        VisibleError(roundTrip, displayFormat, MatchTime()) <= VisibleError(roundTrip, f, MatchTime())
    {
      if |displayFormatList| > 0 {
        var i := SelectFormat(displayFormatList, roundTrip, MatchTime());
        assert FirstLeastError(displayFormatList, roundTrip, MatchTime(), i);
        var selectedFormat := displayFormatList[i];
        if selectedFormat != displayFormat {
          displayFormat := selectedFormat;
        }
      }
    }

    /** setTime: the time clamped into the allowed range, then the
        format update. */
    method SetTime(t: Time, roundTrip: (string, Time) -> Option<Time>)
      requires minimumTime <= maximumTime
      modifies this`time, this`displayFormat
      ensures Valid()
      ensures time == Bound(minimumTime, t, maximumTime)
      ensures minimumTime <= t <= maximumTime ==> time == t
      ensures ShowsBestFormat(roundTrip)
    {
      time := Bound(minimumTime, t, maximumTime);
      UpdateStyle(roundTrip);
    }

    /** stepBy: move by `steps` units of the current section, never
        across midnight and never out of range. */
    method StepBy(steps: int, roundTrip: (string, Time) -> Option<Time>)
      requires Valid()
      modifies this`time, this`displayFormat
      ensures Valid()
      ensures time == Stepped(old(time), steps, StepCost(currentSection, msecStep), minimumTime, maximumTime)
      ensures steps < 0 ==> time <= old(time)
      ensures steps > 0 ==> time >= old(time)
      ensures ShowsBestFormat(roundTrip)
    {
      var stepCost := StepCost(currentSection, msecStep);
      var changedTime := AddMSecs(time, steps * stepCost);
      if steps < 0 && changedTime > time {
        changedTime := 0;
      }
      if steps > 0 && changedTime < time {
        changedTime := LAST_MS;
      }
      SteppedMonotone(time, steps, stepCost, minimumTime, maximumTime);
      if changedTime > maximumTime {
        SetTime(maximumTime, roundTrip);
      } else if changedTime < minimumTime {
        SetTime(minimumTime, roundTrip);
      } else {
        SetTime(changedTime, roundTrip);
      }
    }

    /** setDisplayFormatList: store the list and reselect the format. */
    method SetDisplayFormatList(list: seq<string>, roundTrip: (string, Time) -> Option<Time>)
      modifies this`displayFormatList, this`displayFormat
      ensures displayFormatList == list
      ensures list != [] ==> displayFormat in list
      ensures list == [] ==> displayFormat == old(displayFormat)
      ensures ShowsBestFormat(roundTrip)
    {
      displayFormatList := list;
      UpdateStyle(roundTrip);
    }

    /** focusInEvent / focusOutEvent: the focus flag, then the format
        update, which while focused is chosen for the maximum time. */
    method SetFocus(hasFocus: bool, roundTrip: (string, Time) -> Option<Time>)
      modifies this`focused, this`displayFormat
      ensures focused == hasFocus
      ensures ShowsBestFormat(roundTrip)
      ensures hasFocus && displayFormatList != [] ==> forall f :: f in displayFormatList ==>
        VisibleError(roundTrip, displayFormat, maximumTime) <= VisibleError(roundTrip, f, maximumTime)
      ensures !hasFocus && !forceMaxtimeFormat && displayFormatList != [] ==> forall f :: f in displayFormatList ==>
        VisibleError(roundTrip, displayFormat, time) <= VisibleError(roundTrip, f, time)
    {
      focused := hasFocus;
      UpdateStyle(roundTrip);
    }

    /** setMSecStep. */
    method SetMSecStep(msec: int32)
      modifies this`msecStep
      ensures msecStep == msec
    {
      msecStep := msec;
    }
  }
}
