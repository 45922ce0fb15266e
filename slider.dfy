/** MSlider and MSliderThumb: a slider with any number of named thumbs.
    Each thumb keeps its value inside the slider's range and its own range;
    at most one thumb is checked, and the slider tracks a selected and a
    default thumb across additions and removals. Thumbs are raised in
    ascending z-order. */
module Slider {
  import opened QtString

  /** The name of the thumb every slider creates and treats as default. */
  const DEFAULT: string := "default"

  /** The state of one MSliderThumb that the bookkeeping reads or writes. */
  datatype Thumb = Thumb(
    value: int32, minimum: int32, maximum: int32,
    zOrder: int32, pointOffset: int32, parentMargin: int32,
    checked: bool, positionable: bool)

  /** A freshly constructed thumb: at the slider minimum, bounds INT_MIN and
      INT_MAX, z-order 0, point offset 7, margin 0, unchecked, positionable. */
  function NewThumb(sliderMinimum: int32): Thumb {
    Thumb(sliderMinimum, INT_MIN, INT_MAX, 0, 7, 0, false, true)
  }

  /** MSliderThumb::setValue's clamping: into the slider range first, then
      into the thumb's own range, each bound applied in turn. */
  function ClampValue(v: int32, sliderMin: int32, sliderMax: int32, thumbMin: int32, thumbMax: int32): (r: int32)
    ensures r == v || r == sliderMin || r == sliderMax || r == thumbMin || r == thumbMax
    ensures sliderMin <= v <= sliderMax && thumbMin <= v <= thumbMax ==> r == v
  {
    var a := if v < sliderMin then sliderMin else v;
    var b := if a > sliderMax then sliderMax else a;
    var c := if b < thumbMin then thumbMin else b;
    if c > thumbMax then thumbMax else c
  }

  /** The thumb's own bounds win: the result always lies in the thumb's
      range (when that range is not empty), even outside the slider's. */
  lemma {:induction false} ThumbBoundsWin(v: int32, sliderMin: int32, sliderMax: int32, thumbMin: int32, thumbMax: int32)
    requires thumbMin <= thumbMax
    ensures thumbMin <= ClampValue(v, sliderMin, sliderMax, thumbMin, thumbMax) <= thumbMax
  {
  }

  /** When the two ranges overlap, the result lies in both; a value already
      in both is kept. */
  lemma {:induction false} ClampIntoBoth(v: int32, sliderMin: int32, sliderMax: int32, thumbMin: int32, thumbMax: int32)
    requires sliderMin <= sliderMax && thumbMin <= thumbMax
    requires thumbMin <= sliderMax && sliderMin <= thumbMax
    ensures var r := ClampValue(v, sliderMin, sliderMax, thumbMin, thumbMax);
      sliderMin <= r <= sliderMax && thumbMin <= r <= thumbMax
      && (sliderMin <= v <= sliderMax && thumbMin <= v <= thumbMax ==> r == v)
  {
  }

  /** Clamping a clamped value again changes nothing, so re-running setValue
      on the current value reports no change. */
  lemma {:induction false} ClampIdempotent(v: int32, sliderMin: int32, sliderMax: int32, thumbMin: int32, thumbMax: int32)
    requires sliderMin <= sliderMax && thumbMin <= thumbMax
    ensures var r := ClampValue(v, sliderMin, sliderMax, thumbMin, thumbMax);
      ClampValue(r, sliderMin, sliderMax, thumbMin, thumbMax) == r
  {
  }

  /** An interval painted on the groove. */
  datatype Range = Range(from: int32, to: int32, selected: bool)

  /** Ranges given to setRanges must not overlap (they may touch). */
  predicate NonOverlapping(rs: seq<Range>) {
    forall i, j :: 0 <= i < j < |rs| ==> rs[i].to <= rs[j].from || rs[j].to <= rs[i].from
  }

  predicate Distinct(s: seq<string>) {
    forall i, j :: 0 <= i < j < |s| ==> s[i] != s[j]
  }

  /** `s` without the elements of `r`. */
  function Without(s: seq<string>, r: seq<string>): (t: seq<string>)
    ensures forall x :: x in t <==> x in s && x !in r
    ensures |t| <= |s|
  {
    if s == [] then []
    else (if s[0] in r then [] else [s[0]]) + Without(s[1..], r)
  }

  /** QWidget::raise on a stacking order listed bottom to top. */
  function Raise(s: seq<string>, x: string): seq<string> {
    Without(s, [x]) + [x]
  }

  lemma {:induction false} WithoutAppend(a: seq<string>, b: seq<string>, r: seq<string>)
    ensures Without(a + b, r) == Without(a, r) + Without(b, r)
    decreases |a|
  {
    if a == [] {
      assert a + b == b;
    } else {
      assert (a + b)[1..] == a[1..] + b;
      WithoutAppend(a[1..], b, r);
    }
  }

  lemma {:induction false} WithoutNothing(s: seq<string>, r: seq<string>)
    requires forall x :: x in s ==> x !in r
    ensures Without(s, r) == s
    decreases |s|
  {
    if s != [] {
      assert s[0] in s;
      assert forall x :: x in s[1..] ==> x in s;
      WithoutNothing(s[1..], r);
      assert Without(s, r) == [s[0]] + Without(s[1..], r);
    }
  }

  lemma {:induction false} WithoutTwice(s: seq<string>, r: seq<string>, x: string)
    ensures Without(Without(s, r), [x]) == Without(s, r + [x])
    decreases |s|
  {
    if s != [] {
      WithoutTwice(s[1..], r, x);
      var head := if s[0] in r then [] else [s[0]];
      assert Without(s, r) == head + Without(s[1..], r);
      WithoutAppend(head, Without(s[1..], r), [x]);
      assert s[0] in r + [x] <==> s[0] in r || s[0] == x;
    }
  }

  lemma {:induction false} WithoutEverything(s: seq<string>, r: seq<string>)
    requires forall x :: x in s ==> x in r
    ensures Without(s, r) == []
    decreases |s|
  {
    if s != [] {
      WithoutEverything(s[1..], r);
    }
  }

  /** Raising an element not raised before keeps the shape "the elements not
      raised yet, in their old order, then the raised ones in raise order". */
  lemma {:induction false} RaiseStep(s: seq<string>, r: seq<string>, x: string)
    requires x !in r
    ensures Raise(Without(s, r) + r, x) == Without(s, r + [x]) + (r + [x])
  {
    WithoutAppend(Without(s, r), r, [x]);
    WithoutNothing(r, [x]);
    WithoutTwice(s, r, x);
  }

  /** The z-order of a thumb by name (0 for a name with no thumb). */
  function ZOf(thumbs: map<string, Thumb>, n: string): int {
    if n in thumbs then thumbs[n].zOrder as int else 0
  }

  /** The names among `names` whose thumb has z-order z, in map order. */
  function AtZ(names: seq<string>, thumbs: map<string, Thumb>, z: int): (r: seq<string>)
    ensures forall x :: x in r <==> x in names && ZOf(thumbs, x) == z
    ensures forall i :: 0 <= i < |r| ==> ZOf(thumbs, r[i]) == z
  {
    if names == [] then []
    else
      var prefix := AtZ(names[..|names| - 1], thumbs, z);
      var last := names[|names| - 1];
      assert forall x :: x in names <==> x in names[..|names| - 1] || x == last;
      if ZOf(thumbs, last) == z then prefix + [last] else prefix
  }

  /** The order updateThumbLayout raises thumbs in: z-order lo, then lo+1,
      ..., up to hi; within one z-order, map order. */
  function RaiseOrder(names: seq<string>, thumbs: map<string, Thumb>, lo: int, hi: int): (r: seq<string>)
    ensures forall x :: x in r <==> x in names && lo <= ZOf(thumbs, x) <= hi
    decreases hi - lo
  {
    if hi < lo then [] else RaiseOrder(names, thumbs, lo, hi - 1) + AtZ(names, thumbs, hi)
  }

  /** The smallest z-order of the thumbs, or 0 if that is smaller. */
  function LowestZ(names: seq<string>, thumbs: map<string, Thumb>): (z: int)
    ensures z <= 0 && forall n :: n in names ==> z <= ZOf(thumbs, n)
  {
    if names == [] then 0
    else
      var rest := LowestZ(names[..|names| - 1], thumbs);
      assert forall x :: x in names ==> x in names[..|names| - 1] || x == names[|names| - 1];
      var z := ZOf(thumbs, names[|names| - 1]);
      if z < rest then z else rest
  }

  /** The largest z-order of the thumbs, or 0 if that is larger. */
  function HighestZ(names: seq<string>, thumbs: map<string, Thumb>): (z: int)
    ensures z >= 0 && forall n :: n in names ==> ZOf(thumbs, n) <= z
  {
    if names == [] then 0
    else
      var rest := HighestZ(names[..|names| - 1], thumbs);
      assert forall x :: x in names ==> x in names[..|names| - 1] || x == names[|names| - 1];
      var z := ZOf(thumbs, names[|names| - 1]);
      if z > rest then z else rest
  }

  /** Bottom-to-top order by ascending z-order. */
  predicate SortedByZ(r: seq<string>, thumbs: map<string, Thumb>)
  {
    forall i, j :: 0 <= i < j < |r| ==> ZOf(thumbs, r[i]) <= ZOf(thumbs, r[j])
  }

  /** The stacking updateThumbLayout produces is sorted by z-order, bottom
      to top. */
  lemma {:induction false} RaiseOrderSorted(names: seq<string>, thumbs: map<string, Thumb>, lo: int, hi: int)
    ensures SortedByZ(RaiseOrder(names, thumbs, lo, hi), thumbs)
    decreases hi - lo
  {
    if hi >= lo {
      RaiseOrderSorted(names, thumbs, lo, hi - 1);
      var a := RaiseOrder(names, thumbs, lo, hi - 1);
      var b := AtZ(names, thumbs, hi);
      var r := a + b;
      forall i, j | 0 <= i < j < |r| ensures ZOf(thumbs, r[i]) <= ZOf(thumbs, r[j]) {
        if j < |a| {
          assert r[i] == a[i] && r[j] == a[j];
          assert SortedByZ(a, thumbs);
        } else {
          assert r[j] == b[j - |a|];
          if i < |a| {
            assert r[i] in a;
          } else {
            assert r[i] == b[i - |a|];
          }
        }
      }
    }
  }

  lemma {:induction false} AtZStep(names: seq<string>, thumbs: map<string, Thumb>, z: int, k: nat)
    requires k < |names|
    ensures AtZ(names[..k + 1], thumbs, z) ==
      AtZ(names[..k], thumbs, z) + (if ZOf(thumbs, names[k]) == z then [names[k]] else [])
  {
    assert names[..k + 1][..k] == names[..k];
  }

  lemma {:induction false} ExtremesStep(names: seq<string>, thumbs: map<string, Thumb>, k: nat)
    requires k < |names|
    ensures var z := ZOf(thumbs, names[k]);
      var lo := LowestZ(names[..k], thumbs);
      var hi := HighestZ(names[..k], thumbs);
      LowestZ(names[..k + 1], thumbs) == (if z < lo then z else lo)
      && HighestZ(names[..k + 1], thumbs) == (if z > hi then z else hi)
  {
    assert names[..k + 1][..k] == names[..k];
  }

  lemma {:induction false} AtZDistinct(names: seq<string>, thumbs: map<string, Thumb>, z: int)
    requires Distinct(names)
    ensures Distinct(AtZ(names, thumbs, z))
  {
    if names != [] {
      var prefix := names[..|names| - 1];
      AtZDistinct(prefix, thumbs, z);
      assert names[|names| - 1] !in prefix;
    }
  }

  /** Every thumb is raised exactly once. */
  lemma {:induction false} RaiseOrderDistinct(names: seq<string>, thumbs: map<string, Thumb>, lo: int, hi: int)
    requires Distinct(names)
    ensures Distinct(RaiseOrder(names, thumbs, lo, hi))
    decreases hi - lo
  {
    if hi >= lo {
      RaiseOrderDistinct(names, thumbs, lo, hi - 1);
      AtZDistinct(names, thumbs, hi);
      var a := RaiseOrder(names, thumbs, lo, hi - 1);
      var b := AtZ(names, thumbs, hi);
      forall i, j | 0 <= i < j < |a + b| ensures (a + b)[i] != (a + b)[j] {
        if i < |a| && j >= |a| {
          assert (a + b)[i] in a && (a + b)[j] in b;
        }
      }
    }
  }

  /** The stacking after raising the elements of `r`, in order, starting
      from `s0`. */
  function Pending(s0: seq<string>, r: seq<string>): seq<string> {
    Without(s0, r) + r
  }

  /** Every thumb of `ns` already raised has a z-order below `z`. */
  predicate RaisedBelow(raised: seq<string>, ns: seq<string>, ts: map<string, Thumb>, z: int) {
    forall x :: x in raised ==> x !in ns || ZOf(ts, x) < z
  }

  /** One step of updateThumbLayout's inner loop: the thumb at index k is
      raised exactly when it has the z-order being processed. */
  lemma {:induction false} InnerStep(s0: seq<string>, raised: seq<string>, ns: seq<string>, ts: map<string, Thumb>, z: int, k: nat)
    requires Distinct(ns) && k < |ns|
    requires RaisedBelow(raised, ns, ts, z)
    ensures var before := Pending(s0, raised + AtZ(ns[..k], ts, z));
      Pending(s0, raised + AtZ(ns[..k + 1], ts, z))
        == if ZOf(ts, ns[k]) == z then Raise(before, ns[k]) else before
  {
    AtZStep(ns, ts, z, k);
    var n := ns[k];
    if ZOf(ts, n) == z {
      assert n !in ns[..k];
      assert raised + AtZ(ns[..k + 1], ts, z) == (raised + AtZ(ns[..k], ts, z)) + [n];
      RaiseStep(s0, raised + AtZ(ns[..k], ts, z), n);
    } else {
      assert raised + AtZ(ns[..k + 1], ts, z) == raised + AtZ(ns[..k], ts, z);
    }
  }

  /** updateThumbLayout's first loop: the lowest and the highest z-order
      of the thumbs `ns`, starting from 0. */
  method ZRange(ns: seq<string>, ts: map<string, Thumb>) returns (minZ: int, maxZ: int)
    ensures minZ == LowestZ(ns, ts) && maxZ == HighestZ(ns, ts)
  {
    minZ, maxZ := 0, 0;
    var i := 0;
    while i < |ns|
      invariant 0 <= i <= |ns|
      invariant minZ == LowestZ(ns[..i], ts) && maxZ == HighestZ(ns[..i], ts)
    {
      ExtremesStep(ns, ts, i);
      var z := ZOf(ts, ns[i]);
      minZ := if z < minZ then z else minZ;
      maxZ := if z > maxZ then z else maxZ;
      i := i + 1;
    }
    ExtremesEnd(ns, ts);
  }

  lemma {:induction false} ExtremesEnd(ns: seq<string>, ts: map<string, Thumb>)
    ensures LowestZ(ns[..|ns|], ts) == LowestZ(ns, ts) && HighestZ(ns[..|ns|], ts) == HighestZ(ns, ts)
  {
    assert ns[..|ns|] == ns;
  }

  lemma {:induction false} RaiseOrderStep(ns: seq<string>, ts: map<string, Thumb>, lo: int, z: int)
    requires lo <= z
    ensures forall x :: x in RaiseOrder(ns, ts, lo, z - 1) ==> x !in ns || ZOf(ts, x) < z
    ensures RaiseOrder(ns, ts, lo, z + 1 - 1) == RaiseOrder(ns, ts, lo, z - 1) + AtZ(ns, ts, z)
  {
    assert z + 1 - 1 == z;
  }

  /** Every element of `s0` is among `ns`. */
  predicate Within(s0: seq<string>, ns: seq<string>) {
    forall x :: x in s0 ==> x in ns
  }

  /** Once every z-order of the range is processed, nothing of the old
      stacking is left below the raised thumbs. */
  lemma {:induction false} AllRaised(s0: seq<string>, ns: seq<string>, ts: map<string, Thumb>, lo: int, hi: int, z: int, done: seq<string>, st: seq<string>)
    requires Within(s0, ns)
    requires lo == LowestZ(ns, ts) && hi == HighestZ(ns, ts) && z == hi + 1
    requires done == RaiseOrder(ns, ts, lo, z - 1) && st == Pending(s0, done)
    ensures st == RaiseOrder(ns, ts, LowestZ(ns, ts), HighestZ(ns, ts))
  {
    assert z - 1 == hi;
    assert forall x :: x in s0 ==> x in done;
    WithoutEverything(s0, done);
    assert Pending(s0, done) == [] + done;
  }

  /** updateThumbLayout's inner loop: raises, in map order, every thumb
      of z-order z, on a stacking `st` obtained from `s0` by raising
      `raised`. */
  method RaiseLevel(ns: seq<string>, ts: map<string, Thumb>, z: int, ghost s0: seq<string>, ghost raised: seq<string>, st: seq<string>)
    returns (r: seq<string>)
    requires Distinct(ns)
    requires RaisedBelow(raised, ns, ts, z)
    requires st == Pending(s0, raised)
    ensures r == Pending(s0, raised + AtZ(ns, ts, z))
  {
    r := st;
    var k := 0;
    AtZEnds(ns, ts, z, raised);
    while k < |ns|
      invariant 0 <= k <= |ns|
      invariant r == Pending(s0, raised + AtZ(ns[..k], ts, z))
    {
      InnerStep(s0, raised, ns, ts, z, k);
      ghost var next := Pending(s0, raised + AtZ(ns[..k + 1], ts, z));
      if ZOf(ts, ns[k]) == z {
        r := Raise(r, ns[k]);
      }
      assert r == next;
      k := k + 1;
    }
  }

  /** The inner loop starts from nothing raised at `z` and ends with all
      of `ns` looked at. */
  lemma {:induction false} AtZEnds(ns: seq<string>, ts: map<string, Thumb>, z: int, raised: seq<string>)
    ensures raised + AtZ(ns[..0], ts, z) == raised
    ensures AtZ(ns[..|ns|], ts, z) == AtZ(ns, ts, z)
  {
    assert ns[..0] == [];
    assert ns[..|ns|] == ns;
  }

  /** updateThumbLayout's loops: the z-order range of the thumbs `ns`
      (counting 0), then for each z-order in turn a raise of every thumb
      having it, in map order, applied to the stacking `s0`. */
  method RaiseByZ(ns: seq<string>, ts: map<string, Thumb>, s0: seq<string>) returns (r: seq<string>)
    requires Distinct(ns) && Within(s0, ns)
    ensures r == RaiseOrder(ns, ts, LowestZ(ns, ts), HighestZ(ns, ts))
  {
    var st := s0;
    var minZ, maxZ := ZRange(ns, ts);
    var curZ := minZ;
    ghost var done: seq<string> := [];
    WithoutNothing(s0, []);
    while curZ <= maxZ
      invariant minZ <= curZ <= maxZ + 1
      invariant done == RaiseOrder(ns, ts, minZ, curZ - 1)
      invariant st == Pending(s0, done)
      decreases maxZ - curZ
    {
      RaiseOrderStep(ns, ts, minZ, curZ);
      st := RaiseLevel(ns, ts, curZ, s0, done, st);
      done := done + AtZ(ns, ts, curZ);
      curZ := curZ + 1;
    }
    AllRaised(s0, ns, ts, minZ, maxZ, curZ, done, st);
    r := st;
  }

  /** The counter of updateThumbLayout's second loop as declared, an
      `int`: its increment past INT_MAX wraps to INT_MIN on two's
      complement targets (the language leaves it undefined). */
  function NextZ32(z: int32): (r: int32)
    ensures z < INT_MAX ==> r as int == z as int + 1
    ensures z == INT_MAX ==> r == INT_MIN
  {
    if z == INT_MAX then INT_MIN else z + 1
  }

  /** Whether `for (int curZ = z; curZ <= maxZ; ++curZ)` with an `int`
      counter leaves the loop within `fuel` increments. */
  function LoopExits32(z: int32, maxZ: int32, fuel: nat): bool
    decreases fuel
  {
    if z > maxZ then true
    else if fuel == 0 then false
    else LoopExits32(NextZ32(z), maxZ, fuel - 1)
  }

  /** With maxZ == INT_MAX, no counter value exceeds maxZ: the loop never
      ends, however many increments are allowed. */
  lemma {:induction false} LoopNeverExitsAtMax(z: int32, fuel: nat)
    ensures !LoopExits32(z, INT_MAX, fuel)
    decreases fuel
  {
    if fuel > 0 {
      LoopNeverExitsAtMax(NextZ32(z), fuel - 1);
    }
  }

  /** Below INT_MAX the `int` counter is enough: the loop ends after
      maxZ - z + 1 increments. */
  lemma {:induction false} LoopExitsBelowMax(z: int32, maxZ: int32)
    requires maxZ < INT_MAX
    ensures LoopExits32(z, maxZ, if z > maxZ then 0 else (maxZ as int - z as int + 1) as nat)
    decreases maxZ as int - z as int
  {
    if z <= maxZ {
      LoopExitsBelowMax(z + 1, maxZ);
    }
  }

  /** The extremes of z-orders stored as `int` are themselves `int` values. */
  lemma {:induction false} ExtremesInRange(ns: seq<string>, ts: map<string, Thumb>)
    ensures INT_MIN <= LowestZ(ns, ts) && HighestZ(ns, ts) <= INT_MAX
  {
    if ns != [] {
      ExtremesInRange(ns[..|ns| - 1], ts);
    }
  }

  /** updateThumbLayout as written: once a thumb has z-order INT_MAX
      (setZOrder accepts any `int`), the second loop, run from the lowest
      to the highest z-order with an `int` counter, never ends. */
  lemma {:induction false} UpdateThumbLayoutHangs(ns: seq<string>, ts: map<string, Thumb>, k: nat, fuel: nat)
    requires k < |ns| && ZOf(ts, ns[k]) == INT_MAX
    ensures INT_MIN <= LowestZ(ns, ts) && HighestZ(ns, ts) == INT_MAX
    ensures !LoopExits32(LowestZ(ns, ts) as int32, HighestZ(ns, ts) as int32, fuel)
  {
    ExtremesInRange(ns, ts);
    assert ns[k] in ns;
    LoopNeverExitsAtMax(LowestZ(ns, ts) as int32, fuel);
  }

  lemma {:induction false} AscendingDistinct(s: seq<string>)
    requires Ascending(s)
    ensures Distinct(s)
  {
    forall i, j | 0 <= i < j < |s| ensures s[i] != s[j] {
      if s[i] == s[j] {
        StrLessIrreflexive(s[i]);
      }
    }
  }

  /** The slider's bookkeeping: `names` lists the thumbs in map order,
      `stacking` lists each of them once, the default thumb is the one
      named "default", and the selected thumb exists. */
  ghost predicate Shaped(names: seq<string>, thumbs: map<string, Thumb>, stacking: seq<string>,
                   selected: Option<string>, defaultThumb: Option<string>)
  {
    Ascending(names) && (forall n :: n in thumbs <==> n in names)
    && Distinct(stacking) && (forall n :: n in stacking <==> n in thumbs)
    && defaultThumb == (if DEFAULT in thumbs then Some(DEFAULT) else None)
    && (selected.Some? ==> selected.value in thumbs)
  }

  predicate CheckedIsSelected(thumbs: map<string, Thumb>, selected: Option<string>) {
    forall n :: n in thumbs && thumbs[n].checked ==> selected == Some(n)
  }

  /** Changing thumbs in place, without adding, removing, checking or
      unchecking any, keeps the bookkeeping valid. */
  lemma {:induction false} Retouched(names: seq<string>, thumbs: map<string, Thumb>, thumbs2: map<string, Thumb>, stacking: seq<string>,
                  selected: Option<string>, defaultThumb: Option<string>)
    requires Shaped(names, thumbs, stacking, selected, defaultThumb) && CheckedIsSelected(thumbs, selected)
    requires thumbs2.Keys == thumbs.Keys && forall n :: n in thumbs ==> thumbs2[n].checked == thumbs[n].checked
    ensures Shaped(names, thumbs2, stacking, selected, defaultThumb) && CheckedIsSelected(thumbs2, selected)
  {
  }

  /** The names among the first `i` of `names`. */
  ghost function Prefix(names: seq<string>, i: nat): (d: set<string>)
    requires i <= |names|
    ensures forall n :: n in d <==> n in names[..i]
  {
    set n | n in names[..i]
  }

  lemma {:induction false} PrefixAll(names: seq<string>)
    ensures Prefix(names, |names|) == set n | n in names
  {
    assert names[..|names|] == names;
  }

  /** The thumbs with every thumb named in `done` re-clamped to the
      slider range and its own. */
  ghost function Reclamped(t0: map<string, Thumb>, done: set<string>, min: int32, max: int32): (r: map<string, Thumb>)
    ensures r.Keys == t0.Keys
    ensures forall n :: n in t0 && n !in done ==> r[n] == t0[n]
    ensures forall n :: n in t0 && n in done ==>
      r[n] == t0[n].(value := ClampValue(t0[n].value, min, max, t0[n].minimum, t0[n].maximum))
  {
    map n | n in t0 :: if n in done then t0[n].(value := ClampValue(t0[n].value, min, max, t0[n].minimum, t0[n].maximum)) else t0[n]
  }

  /** One more name of a list without repeats re-clamped. */
  lemma {:induction false} ReclampStep(t0: map<string, Thumb>, names: seq<string>, i: nat, min: int32, max: int32)
    requires i < |names| && Distinct(names) && names[i] in t0
    ensures names[i] !in Prefix(names, i)
    ensures var x, t := names[i], Reclamped(t0, Prefix(names, i), min, max);
      Reclamped(t0, Prefix(names, i + 1), min, max)
        == t[x := t[x].(value := ClampValue(t[x].value, min, max, t[x].minimum, t[x].maximum))]
  {
    assert names[..i + 1] == names[..i] + [names[i]];
    var x, t := names[i], Reclamped(t0, Prefix(names, i), min, max);
    var a := Reclamped(t0, Prefix(names, i + 1), min, max);
    var b := t[x := t[x].(value := ClampValue(t[x].value, min, max, t[x].minimum, t[x].maximum))];
    assert a.Keys == b.Keys;
    forall n | n in a ensures a[n] == b[n] {
    }
  }

  /** Adding an unchecked thumb under a new name, listed in map order and
      on top of the stacking, keeps the bookkeeping valid. */
  lemma {:induction false} Added(names: seq<string>, thumbs: map<string, Thumb>, stacking: seq<string>,
              selected: Option<string>, defaultThumb: Option<string>, name: string, t: Thumb)
    requires Shaped(names, thumbs, stacking, selected, defaultThumb) && CheckedIsSelected(thumbs, selected)
    requires name !in thumbs && !t.checked
    ensures Shaped(InsertKey(names, name), thumbs[name := t], stacking + [name], selected,
                   if name == DEFAULT then Some(name) else defaultThumb)
    ensures CheckedIsSelected(thumbs[name := t], selected)
  {
    assert name !in stacking;
    DistinctSnoc(stacking, name);
    var ns, ts := InsertKey(names, name), thumbs[name := t];
    assert forall n :: n in ts <==> n in ns;
    assert forall n :: n in stacking + [name] <==> n in ts;
  }

  lemma {:induction false} DistinctSnoc(s: seq<string>, x: string)
    requires Distinct(s) && x !in s
    ensures Distinct(s + [x])
  {
    var r := s + [x];
    forall i, j | 0 <= i < j < |r| ensures r[i] != r[j] {
      if j == |s| {
        assert r[i] == s[i];
      } else {
        assert r[i] == s[i] && r[j] == s[j];
      }
    }
  }

  lemma {:induction false} ReplacedEntry(m: map<string, Thumb>, name: string, t: Thumb)
    ensures (m - {name})[name := t] == m[name := t]
  {
    assert (m - {name})[name := t].Keys == m[name := t].Keys;
  }

  /** MSlider. `names` lists the thumbs in QMap order; `stacking` lists them
      bottom to top; `selected` and `defaultThumb` refer to thumbs by name
      (None for a null pointer). */
  class MSlider {
    var minimum: int32
    var maximum: int32
    var thumbs: map<string, Thumb>
    var names: seq<string>
    var stacking: seq<string>
    var selected: Option<string>
    var defaultThumb: Option<string>
    var stickEnabled: bool
    var stickDistance: int32
    var ranges: seq<Range>

    /** How the fields hang together, apart from the checked states. */
    ghost predicate Structure()
      reads this
    {
      Shaped(names, thumbs, stacking, selected, defaultThumb)
    }

    /** A checked thumb is the selected one, so at most one is checked. */
    ghost predicate Valid()
      reads this
    {
      Shaped(names, thumbs, stacking, selected, defaultThumb) && CheckedIsSelected(thumbs, selected)
    }

    lemma {:induction false} AtMostOneChecked(a: string, b: string)
      requires Valid()
      requires a in thumbs && b in thumbs && thumbs[a].checked && thumbs[b].checked
      ensures a == b
    {
    }

    /** The constructor: range 0..99 (QSlider's default), sticking off with
        distance 20, and one thumb, "default". */
    constructor ()
      ensures Valid()
      ensures thumbs == map[DEFAULT := NewThumb(0)] && defaultThumb == Some(DEFAULT) && selected == None
      ensures minimum == 0 && maximum == 99 && !stickEnabled && stickDistance == 20 && ranges == []
    {
      minimum, maximum := 0, 99;
      thumbs, names, stacking := map[], [], [];
      selected, defaultThumb := None, None;
      stickEnabled, stickDistance := false, 20;
      ranges := [];
      new;
      AddThumb(DEFAULT);
    }

    /** thumbByName: the stored thumb, or None for an unknown name. */
    function ThumbByName(name: string): (t: Option<Thumb>)
      reads this
      ensures t.Some? <==> name in thumbs
      ensures t.Some? ==> t.value == thumbs[name]
    {
      if name in thumbs then Some(thumbs[name]) else None
    }

    /** MSliderThumb::setValue on the thumb `name`: the clamped value is
        stored, and `changed` is whether valueChanged is emitted. */
    method SetThumbValue(name: string, v: int32) returns (changed: bool)
      requires Valid() && name in thumbs
      modifies this`thumbs
      ensures Valid()
      ensures var t := old(thumbs)[name];
        thumbs == old(thumbs)[name := t.(value := ClampValue(v, minimum, maximum, t.minimum, t.maximum))]
      ensures changed <==> thumbs[name].value != old(thumbs)[name].value
    {
      var t := thumbs[name];
      var value := ClampValue(v, minimum, maximum, t.minimum, t.maximum);
      changed := t.value != value;
      thumbs := thumbs[name := t.(value := value)];
      Retouched(names, old(thumbs), thumbs, stacking, selected, defaultThumb);
    }

    /** setMinimum: stores the bound, then re-runs setValue on the value. */
    method SetThumbMinimum(name: string, m: int32) returns (changed: bool)
      requires Valid() && name in thumbs
      modifies this`thumbs
      ensures Valid()
      ensures var t := old(thumbs)[name];
        thumbs == old(thumbs)[name := t.(minimum := m, value := ClampValue(t.value, minimum, maximum, m, t.maximum))]
      ensures changed <==> thumbs[name].value != old(thumbs)[name].value
    {
      var t := thumbs[name].(minimum := m);
      var value := ClampValue(t.value, minimum, maximum, m, t.maximum);
      changed := value != t.value;
      thumbs := thumbs[name := t.(value := value)];
      Retouched(names, old(thumbs), thumbs, stacking, selected, defaultThumb);
    }

    /** setMaximum: stores the bound, then re-runs setValue on the value. */
    method SetThumbMaximum(name: string, m: int32) returns (changed: bool)
      requires Valid() && name in thumbs
      modifies this`thumbs
      ensures Valid()
      ensures var t := old(thumbs)[name];
        thumbs == old(thumbs)[name := t.(maximum := m, value := ClampValue(t.value, minimum, maximum, t.minimum, m))]
      ensures changed <==> thumbs[name].value != old(thumbs)[name].value
    {
      var t := thumbs[name].(maximum := m);
      var value := ClampValue(t.value, minimum, maximum, t.minimum, m);
      changed := value != t.value;
      thumbs := thumbs[name := t.(value := value)];
      Retouched(names, old(thumbs), thumbs, stacking, selected, defaultThumb);
    }

    /** setPointOffset: stores the offset and re-runs setValue on the value
        (to move the thumb; the value is only re-clamped). */
    method SetPointOffset(name: string, offset: int32)
      requires Valid() && name in thumbs
      modifies this`thumbs
      ensures Valid()
      ensures var t := old(thumbs)[name];
        thumbs == old(thumbs)[name := t.(pointOffset := offset, value := ClampValue(t.value, minimum, maximum, t.minimum, t.maximum))]
    {
      var t := thumbs[name].(pointOffset := offset);
      thumbs := thumbs[name := t.(value := ClampValue(t.value, minimum, maximum, t.minimum, t.maximum))];
      Retouched(names, old(thumbs), thumbs, stacking, selected, defaultThumb);
    }

    /** setParentMargin: as setPointOffset, for the margin. */
    method SetParentMargin(name: string, margin: int32)
      requires Valid() && name in thumbs
      modifies this`thumbs
      ensures Valid()
      ensures var t := old(thumbs)[name];
        thumbs == old(thumbs)[name := t.(parentMargin := margin, value := ClampValue(t.value, minimum, maximum, t.minimum, t.maximum))]
    {
      var t := thumbs[name].(parentMargin := margin);
      thumbs := thumbs[name := t.(value := ClampValue(t.value, minimum, maximum, t.minimum, t.maximum))];
      Retouched(names, old(thumbs), thumbs, stacking, selected, defaultThumb);
    }

    /** setIsPositionable. */
    method SetPositionable(name: string, flag: bool)
      requires Valid() && name in thumbs
      modifies this`thumbs
      ensures Valid()
      ensures thumbs == old(thumbs)[name := old(thumbs)[name].(positionable := flag)]
    {
      thumbs := thumbs[name := thumbs[name].(positionable := flag)];
      Retouched(names, old(thumbs), thumbs, stacking, selected, defaultThumb);
    }

    /** setZOrder: stores the z-order and lays the thumbs out again. */
    method SetZOrder(name: string, z: int32)
      requires Valid() && name in thumbs
      modifies this`thumbs, this`stacking
      ensures Valid()
      ensures thumbs == old(thumbs)[name := old(thumbs)[name].(zOrder := z)]
      ensures stacking == RaiseOrder(names, thumbs, LowestZ(names, thumbs), HighestZ(names, thumbs))
    {
      thumbs := thumbs[name := thumbs[name].(zOrder := z)];
      Retouched(names, old(thumbs), thumbs, stacking, selected, defaultThumb);
      UpdateThumbLayout();
    }

    /** setStickDistance, in thousandths of the slider maximum. */
    method SetStickDistance(distance: int32)
      modifies this`stickDistance
      ensures stickDistance == distance
    {
      stickDistance := distance;
    }

    /** setStickEnable. */
    method SetStickEnable(enable: bool)
      modifies this`stickEnabled
      ensures stickEnabled == enable
    {
      stickEnabled := enable;
    }

    /** setRanges; the ranges must not overlap. */
    method SetRanges(list: seq<Range>)
      requires NonOverlapping(list)
      modifies this`ranges
      ensures ranges == list
    {
      ranges := list;
    }

    /** correctStickValue: with sticking on, a thumb other than the default
        one that comes closer to the default thumb than
        maximum * stickDistance / 1000 (C++ division) takes the default
        thumb's value. Without a default thumb nothing sticks, and the
        product and the distance are exact. */
    function CorrectStickValue(name: string, v: int32): (r: int32)
      reads this
      requires Structure() && name in thumbs
      ensures !stickEnabled || Some(name) == defaultThumb || defaultThumb.None? ==> r == v
      ensures r == v || (defaultThumb.Some? && r == thumbs[DEFAULT].value)
      ensures stickEnabled && Some(name) != defaultThumb && defaultThumb.Some? ==>
        var d := thumbs[DEFAULT].value as int - v as int;
        (r == thumbs[DEFAULT].value <==> (if d < 0 then -d else d) < TruncDiv(maximum as int * stickDistance as int, 1000) || v == thumbs[DEFAULT].value)
    {
      if Some(name) == defaultThumb || !stickEnabled || defaultThumb.None? then v
      else
        var defaultValue := thumbs[defaultThumb.value].value;
        var dValue := if defaultValue as int - v as int < 0 then v as int - defaultValue as int else defaultValue as int - v as int;
        var delta := TruncDiv(maximum as int * stickDistance as int, 1000);
        if dValue < delta then defaultValue else v
    }

    /** correctStickValue as written: with sticking on it reads the default
        thumb's value through defaultThumb() without a null check, so a
        slider whose "default" thumb was removed dereferences a null
        pointer; None stands for that. */
    function CorrectStickValueAsWritten(name: string, v: int32): (r: Option<int32>)
      reads this
      requires Structure() && name in thumbs
      ensures r.None? <==> stickEnabled && Some(name) != defaultThumb && defaultThumb.None?
      ensures r.Some? ==> r.value == CorrectStickValue(name, v)
    {
      if Some(name) == defaultThumb || !stickEnabled then Some(v)
      else if defaultThumb.None? then None
      else Some(CorrectStickValue(name, v))
    }

    /** removeThumb("default") followed by setStickEnable(true): dragging
        any remaining thumb then reaches the null dereference, where the
        corrected correctStickValue keeps the value. */
    method StickWithoutDefault(name: string, v: int32) returns (asWritten: Option<int32>, corrected: int32)
      requires Valid() && name in thumbs && name != DEFAULT
      modifies this`thumbs, this`names, this`stacking, this`selected, this`defaultThumb, this`stickEnabled
      ensures asWritten == None
      ensures corrected == v
    {
      RemoveThumb(DEFAULT);
      SetStickEnable(true);
      asWritten := CorrectStickValueAsWritten(name, v);
      corrected := CorrectStickValue(name, v);
    }

    /** positionableThumb: the selected thumb if it is positionable, else
        the default thumb if it is, else none. */
    function PositionableThumb(): (r: Option<string>)
      reads this
      requires Structure()
      ensures r.Some? ==> r.value in thumbs && thumbs[r.value].positionable
      ensures r.Some? ==> r == selected || r == defaultThumb
      ensures selected.Some? && thumbs[selected.value].positionable ==> r == selected
      ensures r.None? ==>
        (selected.None? || !thumbs[selected.value].positionable) && (defaultThumb.None? || !thumbs[DEFAULT].positionable)
    {
      if selected.Some? && thumbs[selected.value].positionable then selected
      else if defaultThumb.Some? && thumbs[defaultThumb.value].positionable then defaultThumb
      else None
    }

    /** thumbToggled: the sender has just become checked (or unchecked);
        every other checked thumb is unchecked, and the selected thumb
        becomes the sender if it is checked, else the default thumb. */
    method ThumbToggled(sender: string, isChecked: bool)
      requires Structure() && sender in thumbs && thumbs[sender].checked == isChecked
      modifies this`thumbs, this`selected
      ensures Valid()
      ensures thumbs.Keys == old(thumbs).Keys && thumbs[sender] == old(thumbs)[sender]
      ensures forall n :: n in thumbs && n != sender ==> thumbs[n] == old(thumbs)[n].(checked := false)
      ensures selected == if isChecked then Some(sender) else defaultThumb
    {
      var m := thumbs;
      var i := 0;
      while i < |names|
        invariant 0 <= i <= |names|
        invariant m.Keys == thumbs.Keys && m[sender] == thumbs[sender]
        invariant forall n :: n in m && n != sender ==> m[n] == thumbs[n] || m[n] == thumbs[n].(checked := false)
        invariant forall k :: 0 <= k < i && names[k] != sender ==> !m[names[k]].checked
      {
        var n := names[i];
        if n != sender && m[n].checked {
          m := m[n := m[n].(checked := false)];
        }
        i := i + 1;
      }
      forall n | n in m && n != sender ensures !m[n].checked {
        var k :| 0 <= k < |names| && names[k] == n;
      }
      thumbs := m;
      selected := if isChecked then Some(sender) else defaultThumb;
    }

    /** QAbstractButton::setChecked on a thumb: when the state changes, the
        thumb emits toggled, which runs thumbToggled. */
    method SetChecked(name: string, flag: bool)
      requires Valid() && name in thumbs
      modifies this`thumbs, this`selected
      ensures Valid()
      ensures old(thumbs)[name].checked == flag ==> thumbs == old(thumbs) && selected == old(selected)
      ensures old(thumbs)[name].checked != flag ==>
        thumbs.Keys == old(thumbs).Keys && thumbs[name] == old(thumbs)[name].(checked := flag)
        && (forall n :: n in thumbs && n != name ==> thumbs[n] == old(thumbs)[n].(checked := false))
        && selected == if flag then Some(name) else defaultThumb
    {
      if thumbs[name].checked == flag {
        return;
      }
      thumbs := thumbs[name := thumbs[name].(checked := flag)];
      ThumbToggled(name, flag);
    }

    /** removeThumb: the references to the removed thumb are cleared first;
        a removed selected thumb hands the selection to the default thumb
        (or to nothing when it was the default one). An unknown name finds
        a null thumb, so a null selection then also moves to the default
        thumb. */
    method RemoveThumb(name: string)
      requires Valid()
      modifies this`thumbs, this`names, this`stacking, this`selected, this`defaultThumb
      ensures Valid()
      ensures thumbs == old(thumbs) - {name}
      ensures defaultThumb == (if name == DEFAULT then None else old(defaultThumb))
      ensures selected ==
        if old(selected) == Some(name) then (if name == DEFAULT then None else old(defaultThumb))
        else if old(selected).None? && name !in old(thumbs) then old(defaultThumb)
        else old(selected)
      ensures stacking == Without(old(stacking), [name])
    {
      var thumb: Option<string> := if name in thumbs then Some(name) else None;
      if selected == thumb {
        selected := defaultThumb;
      }
      if defaultThumb == thumb {
        if selected == defaultThumb {
          selected := None;
        }
        defaultThumb := None;
      }
      if selected == thumb {
        selected := None;
      }
      thumbs := thumbs - {name};
      names := RemoveKey(names, name);
      stacking := Without(stacking, [name]);
      assert Distinct(stacking) by {
        WithoutDistinct(old(stacking), [name]);
      }
    }

    /** addThumb: removes any thumb of that name, then adds a fresh one on
        top of the stacking; the name "default" makes it the default
        thumb. */
    method AddThumb(name: string)
      requires Valid()
      modifies this`thumbs, this`names, this`stacking, this`selected, this`defaultThumb
      ensures Valid()
      ensures thumbs == old(thumbs)[name := NewThumb(minimum)]
      ensures defaultThumb == (if name == DEFAULT then Some(DEFAULT) else old(defaultThumb))
      ensures selected ==
        if old(selected) == Some(name) then (if name == DEFAULT then None else old(defaultThumb))
        else if old(selected).None? && name !in old(thumbs) then old(defaultThumb)
        else old(selected)
      ensures stacking == Without(old(stacking), [name]) + [name]
    {
      RemoveThumb(name);
      Added(names, thumbs, stacking, selected, defaultThumb, name, NewThumb(minimum));
      ReplacedEntry(old(thumbs), name, NewThumb(minimum));
      thumbs, names, stacking := thumbs[name := NewThumb(minimum)], InsertKey(names, name), stacking + [name];
      if name == DEFAULT {
        defaultThumb := Some(name);
      }
    }

    /** updateThumbLayout: finds the lowest and highest z-order (counting
        0), then for each z-order in turn raises the thumbs having it, in
        map order. */
    method UpdateThumbLayout()
      requires Structure()
      modifies this`stacking
      ensures Structure()
      ensures stacking == RaiseOrder(names, thumbs, LowestZ(names, thumbs), HighestZ(names, thumbs))
    {
      assert Within(stacking, names);
      AscendingDistinct(names);
      stacking := RaiseByZ(names, thumbs, stacking);
      RaiseOrderDistinct(names, thumbs, LowestZ(names, thumbs), HighestZ(names, thumbs));
    }

    /** updateThumbsValues: every thumb re-runs setValue on its value, with
        its signals blocked. */
    method UpdateThumbsValues()
      requires Valid()
      modifies this`thumbs
      ensures Valid() && thumbs.Keys == old(thumbs).Keys
      ensures forall n :: n in thumbs ==> var t := old(thumbs)[n];
        thumbs[n] == t.(value := ClampValue(t.value, minimum, maximum, t.minimum, t.maximum))
    {
      ghost var t0 := thumbs;
      AscendingDistinct(names);
      var i := 0;
      while i < |names|
        invariant 0 <= i <= |names|
        invariant Valid() && thumbs == Reclamped(t0, Prefix(names, i), minimum, maximum)
      {
        ReclampStep(t0, names, i, minimum, maximum);
        var _ := SetThumbValue(names[i], thumbs[names[i]].value);
        i := i + 1;
      }
      PrefixAll(names);
    }

    /** QAbstractSlider::setRange (the maximum is raised to the minimum when
        below it); a change of range makes every thumb re-clamp. */
    method SetRange(min: int32, max: int32)
      requires Valid()
      modifies this`minimum, this`maximum, this`thumbs
      ensures Valid() && minimum == min && maximum == (if max < min then min else max)
      ensures thumbs.Keys == old(thumbs).Keys
      ensures minimum != old(minimum) || maximum != old(maximum) ==>
        forall n :: n in thumbs ==> var t := old(thumbs)[n];
          thumbs[n] == t.(value := ClampValue(t.value, minimum, maximum, t.minimum, t.maximum))
      ensures minimum == old(minimum) && maximum == old(maximum) ==> thumbs == old(thumbs)
    {
      var oldMin, oldMax := minimum, maximum;
      minimum := min;
      maximum := if max < min then min else max;
      if oldMin != minimum || oldMax != maximum {
        UpdateThumbsValues();
      }
    }
  }

  lemma {:induction false} WithoutDistinct(s: seq<string>, r: seq<string>)
    requires Distinct(s)
    ensures Distinct(Without(s, r))
    decreases |s|
  {
    if s != [] {
      WithoutDistinct(s[1..], r);
      var rest := Without(s[1..], r);
      assert s[0] !in s[1..];
      assert s[0] !in rest;
    }
  }
}
