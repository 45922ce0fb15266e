# A verified model of the core of the Movavi Qt widget library

This project models, in Dafny, the logic at the heart of the library's custom
Qt widgets and layout helpers, and proves what the code and its
documentation promise about it:

- **MMagnet**: a magnet that snaps a moving position to attached points.
  Each point has four attraction zones, and the one used depends on the
  side of the point and the direction of the move.
- **MUndoStack**: an undo stack with nested transactions. A committed
  transaction becomes one composite command; a rolled-back one is undone.
- **MarginsToStr** and **AbstractLayoutController**: the style-sheet text
  forms of a layout's margins, spacings and per-index values such as
  `"[0] 5, [1] 7"`.
- **MSlider** and **MSliderThumb**: a slider with any number of named
  thumbs. It covers value clamping, the single checked thumb, the default
  and selected thumbs, sticking to the default thumb, and z-order stacking.
- **MSliderButton**: a volume button that shows one of several buttons by
  value, and mutes and unmutes.
- **MSliderMagneticPoint**: an event filter that pulls a dragged slider
  onto a magnetic value.
- **MTimeEdit**: a time editor whose arrow steps never wrap past midnight,
  and whose display format is the one that loses least precision.
- **LayoutHelpers** and **MGridLayout**: the row items of the grid builder
  (widgets, spacers, and HSPAN / VSPAN / SKIP cell modifiers), `addRow`,
  `addStretch`, `autoFill` and `getItemPosition`.
- **WidgetGroup**: showing, hiding, enabling and disabling a list of
  widgets at once.
- **MLabel** and **MLineEdit**: widgets that keep an "original" text and
  wrap it in the Unicode LEFT-TO-RIGHT EMBEDDING and POP DIRECTIONAL
  FORMATTING marks (section 2.1 and 2.3 of Unicode UAX #9).
- **CodeEditor**, the runtime style-sheet editor's text pane: toggling a
  `/* */` comment around the selection, indenting or unindenting the
  selected lines, and the width of the line-number margin.

Each source file is one Dafny module:

| Module | File |
|---|---|
| QtString | `qt_string.dfy` |
| MarginsText | `margins.dfy` |
| LayoutControl | `layout_controller.dfy` |
| UndoStack | `undo_stack.dfy` |
| Magnet | `magnet.dfy` |
| Slider | `slider.dfy` |
| SliderButton | `slider_button.dfy` |
| MagneticPoint | `magnetic_point.dfy` |
| TimeEdit | `time_edit.dfy` |
| LayoutHelpers | `layout_helpers.dfy` |
| GridLayout | `grid_layout.dfy` |
| WidgetGroups | `widget_group.dfy` |
| BidiText | `bidi_text.dfy` |
| StylesheetEditor | `code_editor.dfy` |

QtString holds the parts of QString the parsers depend on: QChar::isSpace,
splitting with and without empty parts, trimming, the base-10 QString::toInt,
and the decimal text of QString::number and QString::arg.

**Form of the model.**

- Objects whose methods update fields are Dafny classes, with `modifies`
  clauses on their methods:
  - MMagnet and Magnetism;
  - MUndoStack;
  - the layout controller;
  - MSlider;
  - MSliderButton;
  - the magnetic point filter;
  - MTimeEdit;
  - MGridLayout;
  - WidgetGroup and its widgets;
  - MLabel, MLineEdit and CodeEditor.
- Loops of the source are `while` loops with invariants, proved against a
  specification function, except the five named at the end of this list.
  Examples:
  - `MMagnet::moveTo` is specified by `Snap`;
  - the undo loops of a composite command by `UndoEffects`;
  - `squashIntValues` and `applyIntValues` by `Squashed` and `EntriesCalls`;
  - the two loops of `updateThumbLayout` by `LowestZ`, `HighestZ` and
    `RaiseOrder`;
  - the `addRow` and `autoFill` loops by `PlaceFrom` and `Cells`;
  - the block loop of `IndentSelectedLines` by `Reindent`.
- Five loops are modelled by their result:
  - the button-creating loop of `setVolumeLevelsNumber` becomes the button
    count, because the buttons themselves are not modelled;
  - the delete loops of `removeUndoCommands` and `removeRedoCommands`
    become the empty list, because freeing memory is not modelled;
  - the `indexOf` lambda of `getItemPosition` becomes the recursive
    function `IndexOfItem`;
  - the two-element loop of `positionableThumb` becomes the function
    `PositionableThumb`, which tries the selected and then the default
    thumb.
- A QMap is iterated in key order, so each class keeps its keys as a sorted
  sequence next to the map. Point identities are ordered by number, and
  thumb names by QString's `operator<`.
- Where the source calls into Qt code that cannot be seen here, that code is
  a function parameter:
  - point positions;
  - font-metric elision;
  - QTime text formatting;
  - the effects of application undo commands;
  - slider pixel conversions.

## Model

| member | source | states |
|---|---|---|
| Magnet.Magnetism.Uniform | Src/Lib/Widget/MMagnet.h:88 | every one of the four zones is `distance` wide |
| Magnet.Magnetism.constructor | Src/Lib/Widget/MMagnet.h:91-94 | the four zones hold the four given widths |
| Magnet.Magnetism.SetLeftMove | Src/Lib/Widget/MMagnet.h:112-116 | the left move-in and move-out zones change; the right zones keep their widths |
| Magnet.Magnetism.SetLeftMoveBoth | Src/Lib/Widget/MMagnet.h:111 | both left zones get the one distance; the right zones are unchanged |
| Magnet.Magnetism.SetRightMove | Src/Lib/Widget/MMagnet.h:119-123 | the right zones change; the left zones are unchanged |
| Magnet.Magnetism.SetRightMoveBoth | Src/Lib/Widget/MMagnet.h:118 | both right zones get the one distance; the left zones are unchanged |
| Magnet.Magnetism.SetMoveIn | Src/Lib/Widget/MMagnet.h:126-130 | the two move-in zones change; the move-out zones are unchanged |
| Magnet.Magnetism.SetMoveInBoth | Src/Lib/Widget/MMagnet.h:125 | both move-in zones get the one distance |
| Magnet.Magnetism.SetMoveOut | Src/Lib/Widget/MMagnet.h:133-137 | the two move-out zones change; the move-in zones are unchanged |
| Magnet.Magnetism.SetMoveOutBoth | Src/Lib/Widget/MMagnet.h:132 | both move-out zones get the one distance |
| Magnet.Magnetism.SetDistance | Src/Lib/Widget/MMagnet.h:139 | all four zones get the one distance |
| Magnet.Magnetism.SetDistances | Src/Lib/Widget/MMagnet.h:140-144 | the four zones get the four widths, in constructor order |
| Magnet.FixedPoint.constructor | Src/Lib/Widget/MMagnet.h:29-32 | the point reports the position it was built with |
| Magnet.Insert | Src/Lib/Widget/MMagnet.cpp:25-28 | the key order after attaching stays strictly increasing and holds exactly the old keys and the new one |
| Magnet.Remove | Src/Lib/Widget/MMagnet.cpp:30-33 | the key order after detaching stays strictly increasing and holds exactly the old keys but the removed one |
| Magnet.MMagnet.constructor | Src/Lib/Widget/MMagnet.cpp:20-23 | no points are attached, and the previous position is the initial one |
| Magnet.MMagnet.AttachPoint | Src/Lib/Widget/MMagnet.cpp:25-28 | the point's zones are set or overwritten; the other points and the position are unchanged |
| Magnet.MMagnet.DetachPoint | Src/Lib/Widget/MMagnet.cpp:30-33 | only that point is removed; an unknown point changes nothing |
| Magnet.MMagnet.MoveTo | Src/Lib/Widget/MMagnet.cpp:35-76 | the result is the position of the first point in map order whose zone holds the new position, or else the new position; it becomes the previous position |
| Magnet.SnapIsPointOrSelf | Src/Lib/Widget/MMagnet.cpp:38-76 | moveTo returns the requested position or the position of one of the attached points |
| Magnet.SnapFirstWins | Src/Lib/Widget/MMagnet.cpp:38-72 | the first attracting point in map order wins; with none attracting, the position is kept |
| Magnet.SnapWithoutPoints | Src/Lib/Widget/MMagnet.cpp:35-76 | with no attached points, moveTo is the identity |
| Magnet.Snap | Src/Lib/Widget/MMagnet.cpp:35-76 | moving to the previous position stays there: every zone read is 0 wide, so only a point exactly there attracts |
| Magnet.ZoneByDirection | Src/Lib/Widget/MMagnet.cpp:44-64 | which of the four zones applies, by the direction of the move and the side of the point |
| Magnet.NeitherAttracts | Src/Lib/Widget/MMagnet.cpp:38-76 | with two points, neither of which attracts, the position is kept |
| Magnet.OnlyFirstAttracts | Src/Lib/Widget/MMagnet.cpp:38-76 | with two points, exactly one of which attracts, that point's position is returned whatever the map order |
| Magnet.InsertSecond | Src/Lib/Widget/MMagnet.cpp:25-28 | attaching a second point lists the two in one order or the other |
| Magnet.DocumentedMoves | Src/Lib/Widget/MMagnet.h:59-70 | on the documented two points, the moves to 15, 25, 35, 55, 75 and 105 report 15, 30, 30, 55, 100 and 105 |
| Magnet.DocumentedScenario | Src/Lib/Widget/MMagnet.h:59-70 | the documented example, built with fixed points and attachPoint, gives the documented results |
| UndoStack.UndoMirrorsRedo | Src/Lib/Widget/MUndoStack.cpp:20-29 | undoing a command makes the calls of redoing it, reversed and each turned into an undo |
| UndoStack.UndoAllMirrorsRedoAll | Src/Lib/Widget/MUndoStack.cpp:20-29 | the same for a list of commands: the newest is undone first and the oldest redone first |
| UndoStack.WithCurrent | Src/Lib/Widget/MUndoStack.cpp:160-172 | replacing the current stack's lists makes them the current lists |
| UndoStack.PushOnlyCurrent | Src/Lib/Widget/MUndoStack.cpp:204-208 | push puts the command on top of the current undo list and empties its redo list; every other stack is unchanged |
| UndoStack.UndoThenRedo | Src/Lib/Widget/MUndoStack.cpp:174-192 | undo then redo restores every list, and calls the command's undo and then its redo |
| UndoStack.RedoThenUndo | Src/Lib/Widget/MUndoStack.cpp:174-192 | redo then undo restores every list |
| UndoStack.CommitFolds | Src/Lib/Widget/MUndoStack.cpp:88-106 | committing a non-empty transaction pushes one composite of its undo commands, oldest first, onto the enclosing stack; committing an empty one pushes nothing |
| UndoStack.RollbackIsUndoOfCommit | Src/Lib/Widget/MUndoStack.cpp:108-119 | a rollback makes exactly the calls that committing and then undoing would, drops the transaction, and leaves the enclosing stack as commit-then-undo leaves its undo list |
| UndoStack.NoTransaction | Src/Lib/Widget/MUndoStack.cpp:88-119 | commit and rollback with no open transaction change nothing and call nothing |
| UndoStack.MUndoStack.constructor | Src/Lib/Widget/MUndoStack.cpp:41-43 | empty lists and no transactions |
| UndoStack.MUndoStack.SetCurrent | Src/Lib/Widget/MUndoStack.cpp:167-172 | only the current stack's lists are replaced |
| UndoStack.MUndoStack.PerformUndo | Src/Lib/Widget/MUndoStack.cpp:20-24 | a composite undoes its children from the last to the first |
| UndoStack.MUndoStack.PerformRedo | Src/Lib/Widget/MUndoStack.cpp:25-29 | a composite redoes its children from the first to the last |
| UndoStack.MUndoStack.CanUndoNow | Src/Lib/Widget/MUndoStack.cpp:68-71 | true exactly when the current stack's undo list is not empty |
| UndoStack.MUndoStack.CanRedoNow | Src/Lib/Widget/MUndoStack.cpp:73-76 | true exactly when the current stack's redo list is not empty |
| UndoStack.MUndoStack.Push | Src/Lib/Widget/MUndoStack.cpp:78-81 | the state becomes PushOn, and nothing is called |
| UndoStack.MUndoStack.Undo | Src/Lib/Widget/MUndoStack.cpp:50-57 | the top undo command moves to the redo list and is undone; with nothing to undo, nothing happens |
| UndoStack.MUndoStack.Redo | Src/Lib/Widget/MUndoStack.cpp:59-66 | the top redo command moves to the undo list and is redone; with nothing to redo, nothing happens |
| UndoStack.MUndoStack.StartTransaction | Src/Lib/Widget/MUndoStack.cpp:83-86 | a new, empty innermost stack becomes current |
| UndoStack.MUndoStack.CommitTransaction | Src/Lib/Widget/MUndoStack.cpp:88-106 | the state becomes CommitOn: the loop copies the transaction's undo commands in order |
| UndoStack.MUndoStack.RollbackTransaction | Src/Lib/Widget/MUndoStack.cpp:108-119 | the loop undoes the transaction while it can, then drops it |
| UndoStack.MUndoStack.Clear | Src/Lib/Widget/MUndoStack.cpp:121-125 | the root's lists are emptied; open transactions are kept |
| MarginsText.TokenValues | Src/Lib/Widget/MarginsToStr.cpp:18-20 | each token reads as QString::toInt reads it, 0 on failure |
| MarginsText.StrToMargins | Src/Lib/Widget/MarginsToStr.cpp:14-32 | strToMargins is the CSS 2.1 margin shorthand (section 8.3) on one to four values, and zero margins otherwise |
| MarginsText.OneValue | Src/Lib/Widget/MarginsToStr.cpp:25 | one value gives all four sides |
| MarginsText.TwoValues | Src/Lib/Widget/MarginsToStr.cpp:26 | "a b": top and bottom a, left and right b |
| MarginsText.ThreeValues | Src/Lib/Widget/MarginsToStr.cpp:27 | "a b c": top a, left and right b, bottom c |
| MarginsText.WrongCount | Src/Lib/Widget/MarginsToStr.cpp:22-31 | no value, or more than four, reads as zero margins |
| MarginsText.MarginsToStr | Src/Lib/Widget/MarginsToStr.cpp:59-62 | marginsToStr writes four decimal words: top, right, bottom, left |
| MarginsText.RoundTrip | Src/Lib/Widget/MarginsToStr.cpp:59-62 | strToMargins(marginsToStr(m)) == m for all int margins |
| MarginsText.DecimalValues | Src/Lib/Widget/MarginsToStr.cpp:18-20 | the decimal texts of four values read back as those values |
| QtString.ToIntDecimal | Src/Lib/Widget/MarginsToStr.cpp:59-62 | printing an int with arg and reading it back with toInt gives the same int |
| QtString.WordsOfFour | Src/Lib/Widget/MarginsToStr.cpp:16-17 | simplified and split at spaces, four space-free words joined by spaces give back those four words |
| QtString.WordsOfTwo | Src/Lib/Widget/AbstractLayoutController.cpp:190-191 | the same for two words |
| QtString.IndexOf | Src/Lib/Widget/AbstractLayoutController.cpp:41-42 | the first index at or after `from` that holds the character, or -1 when there is none |
| QtString.BoundInRange | Src/Lib/Widget/MSliderButton.cpp:100 | qBound keeps a value already in range and otherwise gives the nearer bound |
| QtString.StrLessIrreflexive | Src/Lib/Widget/MSlider.h:202 | the QString order that the thumb map is keyed by is irreflexive |
| QtString.StrLessTransitive | Src/Lib/Widget/MSlider.h:202 | and transitive |
| QtString.StrLessTotal | Src/Lib/Widget/MSlider.h:202 | and total on distinct strings |
| QtString.InsertKey | Src/Lib/Widget/MSlider.cpp:547 | the map's keys after an insertion stay ascending and hold exactly the old keys and the new one |
| QtString.RemoveKey | Src/Lib/Widget/MSlider.cpp:589 | the map's keys after a removal stay ascending and hold exactly the old keys but the removed one |
| LayoutControl.SquashIntValues | Src/Lib/Widget/AbstractLayoutController.cpp:25-34 | the loop writes "[i] v" for every index, joined by ", " |
| LayoutControl.Squashed | Src/Lib/Widget/AbstractLayoutController.cpp:25-34 | the text is empty exactly when there are no values, and otherwise starts with the entry "[0] v" of the first value |
| LayoutControl.AllIndices | Src/Lib/Widget/AbstractLayoutController.cpp:59-63 | "*" applies the value at every index below the layout count, in order |
| LayoutControl.ApplyParam | Src/Lib/Widget/AbstractLayoutController.cpp:56-71 | one token of the bracket: "*" gives every index, an integer gives that index, anything else gives nothing |
| LayoutControl.ParamCalls | Src/Lib/Widget/AbstractLayoutController.cpp:56-71 | every call carries the entry's value; "*" calls the indices 0, 1, ... in order; any other token makes one call exactly when it reads as an integer, at that integer |
| LayoutControl.ApplyEntry | Src/Lib/Widget/AbstractLayoutController.cpp:41-71 | one comma-separated entry gives nothing without a proper "[...]" or with a bad value, and otherwise its tokens' calls |
| LayoutControl.EntryCallsCarryValue | Src/Lib/Widget/AbstractLayoutController.cpp:41-71 | an entry without "[" makes no call; an entry that makes calls has "[" before "]" and a value that reads as an integer, and every call carries that value |
| LayoutControl.ApplyParams | Src/Lib/Widget/AbstractLayoutController.cpp:56-71 | the loop over the tokens of a bracket concatenates their calls in order |
| LayoutControl.ApplyIntValues | Src/Lib/Widget/AbstractLayoutController.cpp:36-73 | the calls made are those of each non-empty comma-separated entry, in order |
| LayoutControl.SquashRoundTrip | Src/Lib/Widget/AbstractLayoutController.cpp:25-73 | applying the text squashIntValues wrote sets each value at its own index, in index order, whatever the layout count |
| LayoutControl.PieceCalls | Src/Lib/Widget/AbstractLayoutController.cpp:41-71 | one entry "[i] v" applies exactly v at index i |
| LayoutControl.SplitSquashed | Src/Lib/Widget/AbstractLayoutController.cpp:38 | splitting the squashed text at commas gives back its entries |
| LayoutControl.StarCalls | Src/Lib/Widget/AbstractLayoutController.cpp:59-63 | "[*] v" applies v at every index below the layout count |
| LayoutControl.NoBracketNoCalls | Src/Lib/Widget/AbstractLayoutController.cpp:41-45 | an entry missing "[" or "]" applies nothing |
| LayoutControl.BadValueNoCalls | Src/Lib/Widget/AbstractLayoutController.cpp:49-54 | an entry whose value is not an integer applies nothing |
| LayoutControl.OffAxisSpacing | Src/Lib/Widget/AbstractLayoutController.cpp:201-265 | a vertical box reads -1 as its horizontal spacing and ignores setting it, and a horizontal box does the same for the vertical spacing |
| LayoutControl.HSpacingReadsBack | Src/Lib/Widget/AbstractLayoutController.cpp:201-232 | setting the horizontal spacing, where it exists, reads back and leaves the vertical spacing alone |
| LayoutControl.VSpacingReadsBack | Src/Lib/Widget/AbstractLayoutController.cpp:234-265 | the same for the vertical spacing |
| LayoutControl.SpacingRoundTrip | Src/Lib/Widget/AbstractLayoutController.cpp:171-199 | the "h v" text of a grid or form layout sets the same spacings back |
| LayoutControl.SpacingWrongCount | Src/Lib/Widget/AbstractLayoutController.cpp:190-198 | a text of neither one nor two values changes nothing |
| LayoutControl.SetSpacing | Src/Lib/Widget/AbstractLayoutController.cpp:192-193 | QLayout::setSpacing keeps the kind of layout and the box direction, and the spacing reads back on every axis the layout has |
| LayoutControl.HSpacing | Src/Lib/Widget/AbstractLayoutController.cpp:201-216 | writing back the horizontal spacing read from a layout changes nothing |
| LayoutControl.VSpacing | Src/Lib/Widget/AbstractLayoutController.cpp:234-249 | writing back the vertical spacing read from a layout changes nothing |
| LayoutControl.SpacingText | Src/Lib/Widget/AbstractLayoutController.cpp:171-183 | a box writes a number that toInt reads back as its spacing, any other layout "-1", and a grid or form two words, the horizontal then the vertical spacing |
| LayoutControl.ApplySpacingText | Src/Lib/Widget/AbstractLayoutController.cpp:185-199 | setLayoutSpacing keeps the kind of layout and the box direction, and a text of neither one nor two words changes nothing |
| LayoutControl.LayoutController.constructor | Src/Lib/Widget/AbstractLayoutController.cpp:85-91 | the controller holds the layout it is given, or none |
| LayoutControl.LayoutController.LayoutMargin | Src/Lib/Widget/AbstractLayoutController.cpp:85-91 | "-1" without a layout; otherwise a text that strToMargins reads back as the layout's margins |
| LayoutControl.LayoutController.SetLayoutMargin | Src/Lib/Widget/AbstractLayoutController.cpp:93-97 | the margins become strToMargins of the text; without a layout nothing changes |
| LayoutControl.LayoutController.LayoutMarginLeft | Src/Lib/Widget/AbstractLayoutController.cpp:99-105 | the left margin, or -1 without a layout |
| LayoutControl.LayoutController.LayoutMarginRight | Src/Lib/Widget/AbstractLayoutController.cpp:117-123 | the right margin, or -1 |
| LayoutControl.LayoutController.LayoutMarginTop | Src/Lib/Widget/AbstractLayoutController.cpp:135-141 | the top margin, or -1 |
| LayoutControl.LayoutController.LayoutMarginBottom | Src/Lib/Widget/AbstractLayoutController.cpp:153-159 | the bottom margin, or -1 |
| LayoutControl.LayoutController.SetLayoutMarginLeft | Src/Lib/Widget/AbstractLayoutController.cpp:107-115 | only the left margin changes |
| LayoutControl.LayoutController.SetLayoutMarginRight | Src/Lib/Widget/AbstractLayoutController.cpp:125-133 | only the right margin changes |
| LayoutControl.LayoutController.SetLayoutMarginTop | Src/Lib/Widget/AbstractLayoutController.cpp:143-151 | only the top margin changes |
| LayoutControl.LayoutController.SetLayoutMarginBottom | Src/Lib/Widget/AbstractLayoutController.cpp:161-169 | only the bottom margin changes |
| LayoutControl.LayoutController.LayoutSpacing | Src/Lib/Widget/AbstractLayoutController.cpp:171-183 | "-1" without a layout or for a layout that is neither a box, a grid nor a form; for a box, a text that toInt reads back as its spacing; for a grid or form, the two words of its horizontal and vertical spacing |
| LayoutControl.LayoutController.SetLayoutSpacing | Src/Lib/Widget/AbstractLayoutController.cpp:185-199 | one value sets the spacing, two set the horizontal then the vertical spacing, and anything else changes nothing |
| LayoutControl.LayoutController.LayoutHSpacing | Src/Lib/Widget/AbstractLayoutController.cpp:201-216 | the horizontal spacing of a grid or form; a box's spacing when it is horizontal and -1 when it is vertical; -1 for any other layout or without one |
| LayoutControl.LayoutController.SetLayoutHSpacing | Src/Lib/Widget/AbstractLayoutController.cpp:218-232 | sets the horizontal spacing where the layout has one |
| LayoutControl.LayoutController.LayoutVSpacing | Src/Lib/Widget/AbstractLayoutController.cpp:234-249 | the vertical spacing of a grid or form; a box's spacing when it is vertical and -1 when it is horizontal; -1 for any other layout or without one |
| LayoutControl.LayoutController.SetLayoutVSpacing | Src/Lib/Widget/AbstractLayoutController.cpp:251-265 | sets the vertical spacing where the layout has one |
| Slider.ThumbBoundsWin | Src/Lib/Widget/MSlider.cpp:52-61 | setValue's result always lies within the thumb's own bounds |
| Slider.ClampValue | Src/Lib/Widget/MSlider.cpp:52-61 | setValue gives the value itself or one of the four bounds, and keeps a value that lies in both ranges |
| Slider.ClampIntoBoth | Src/Lib/Widget/MSlider.cpp:52-61 | when the slider and thumb ranges overlap, the result lies in both, and a value already in both is kept |
| Slider.ClampIdempotent | Src/Lib/Widget/MSlider.cpp:52-61 | clamping a clamped value changes nothing |
| Slider.Without | Src/Lib/Widget/MSlider.cpp:587-589 | the stacking without the given names keeps exactly the other names |
| Slider.RaiseStep | Src/Lib/Widget/MSlider.cpp:396-398 | raising a thumb not raised before puts it on top of the ones already raised |
| Slider.AtZ | Src/Lib/Widget/MSlider.cpp:396-398 | the thumbs with a given z-order, in map order |
| Slider.RaiseOrder | Src/Lib/Widget/MSlider.cpp:395-398 | the order the nested loops raise thumbs in holds exactly the thumbs whose z-order is in range |
| Slider.LowestZ | Src/Lib/Widget/MSlider.cpp:388-393 | at most 0 and at most every thumb's z-order |
| Slider.HighestZ | Src/Lib/Widget/MSlider.cpp:388-393 | at least 0 and at least every thumb's z-order |
| Slider.RaiseOrderSorted | Src/Lib/Widget/MSlider.cpp:386-399 | after updateThumbLayout the stacking is sorted by z-order, bottom to top |
| Slider.RaiseOrderDistinct | Src/Lib/Widget/MSlider.cpp:386-399 | every thumb is raised exactly once |
| Slider.InnerStep | Src/Lib/Widget/MSlider.cpp:396-398 | one pass of the inner loop raises the thumb only when its z-order is the current one |
| Slider.ZRange | Src/Lib/Widget/MSlider.cpp:388-393 | the first loop finds the lowest and the highest z-order, counting 0 |
| Slider.AllRaised | Src/Lib/Widget/MSlider.cpp:395-398 | once the whole range is processed, the stacking is the raise order |
| Slider.RaiseLevel | Src/Lib/Widget/MSlider.cpp:396-398 | the inner loop raises, in map order, every thumb of the current z-order |
| Slider.RaiseByZ | Src/Lib/Widget/MSlider.cpp:386-399 | the two loops of updateThumbLayout produce the raise order |
| Slider.NextZ32 | Src/Lib/Widget/MSlider.cpp:395 | `++curZ` on an `int`: one more below INT_MAX, INT_MIN after it |
| Slider.LoopNeverExitsAtMax | Src/Lib/Widget/MSlider.cpp:395 | with the highest z-order at INT_MAX, the `int` counter never leaves the loop, however many increments are allowed |
| Slider.LoopExitsBelowMax | Src/Lib/Widget/MSlider.cpp:395 | with the highest z-order below INT_MAX, the `int` counter leaves the loop after highest - lowest + 1 increments |
| Slider.ExtremesInRange | Src/Lib/Widget/MSlider.cpp:388-393 | the lowest and highest z-order found are `int` values |
| Slider.UpdateThumbLayoutHangs | Src/Lib/Widget/MSlider.cpp:386-399 | once some thumb has z-order INT_MAX, the highest z-order is INT_MAX and updateThumbLayout's second loop never ends |
| Slider.AscendingDistinct | Src/Lib/Widget/MSlider.h:202 | the keys of the thumb map, in order, have no repeats |
| Slider.Retouched | Src/Lib/Widget/MSlider.h:23-24 | changing thumbs in place, without touching their checked states, keeps the bookkeeping consistent |
| Slider.Reclamped | Src/Lib/Widget/MSlider.cpp:464-472 | the thumbs already visited are re-clamped and the others are unchanged |
| Slider.ReclampStep | Src/Lib/Widget/MSlider.cpp:466-471 | visiting one more thumb re-clamps exactly that thumb |
| Slider.Added | Src/Lib/Widget/MSlider.cpp:539-568 | adding an unchecked thumb under a new name keeps the bookkeeping consistent and keeps the checked thumb the selected one |
| Slider.WithoutDistinct | Src/Lib/Widget/MSlider.cpp:587-589 | removing names from a stacking without repeats leaves one without repeats |
| Slider.MSlider.AtMostOneChecked | Src/Lib/Widget/MSlider.h:23-24 | at most one thumb of a slider is checked |
| Slider.MSlider.constructor | Src/Lib/Widget/MSlider.cpp:225-257 | one "default" thumb at the minimum, which is the default thumb; nothing selected; range 0..99; sticking off with distance 20 |
| Slider.MSlider.ThumbByName | Src/Lib/Widget/MSlider.h:202 | the stored thumb, or none for an unknown name |
| Slider.MSlider.SetThumbValue | Src/Lib/Widget/MSlider.cpp:52-68 | the value is clamped into the slider range and then the thumb's bounds; changed is reported exactly when the value changes |
| Slider.MSlider.SetThumbMinimum | Src/Lib/Widget/MSlider.cpp:48 | the bound is stored and the value is re-clamped |
| Slider.MSlider.SetThumbMaximum | Src/Lib/Widget/MSlider.cpp:50 | the bound is stored and the value is re-clamped |
| Slider.MSlider.SetPointOffset | Src/Lib/Widget/MSlider.h:60 | the offset is stored and the value is re-clamped |
| Slider.MSlider.SetParentMargin | Src/Lib/Widget/MSlider.h:61 | the margin is stored and the value is re-clamped |
| Slider.MSlider.SetPositionable | Src/Lib/Widget/MSlider.h:59 | only that flag of that thumb changes |
| Slider.MSlider.SetZOrder | Src/Lib/Widget/MSlider.h:62 | the z-order is stored and the stacking becomes the raise order |
| Slider.MSlider.SetStickDistance | Src/Lib/Widget/MSlider.h:182 | the distance is stored |
| Slider.MSlider.SetStickEnable | Src/Lib/Widget/MSlider.h:183 | the flag is stored |
| Slider.MSlider.SetRanges | Src/Lib/Widget/MSlider.h:194 | the non-overlapping ranges are stored |
| Slider.MSlider.CorrectStickValue | Src/Lib/Widget/MSlider.cpp:300-309 | a non-default thumb closer than maximum times distance / 1000 to the default thumb takes the default thumb's value; anything else keeps its value, and so does every thumb when sticking is off or there is no default thumb |
| Slider.MSlider.CorrectStickValueAsWritten | Src/Lib/Widget/MSlider.cpp:300-309 | the code fails (a null dereference) exactly when sticking is on, the thumb is not the default one and there is no default thumb; otherwise it agrees with CorrectStickValue |
| Slider.MSlider.StickWithoutDefault | Src/Lib/Widget/MSlider.cpp:300-309 | after removeThumb("default") and setStickEnable(true), another thumb's drag reaches the null dereference, while the corrected function keeps the value |
| Slider.MSlider.PositionableThumb | Src/Lib/Widget/MSlider.cpp:527-537 | the selected thumb if it is positionable, else the default thumb if it is, else none |
| Slider.MSlider.ThumbToggled | Src/Lib/Widget/MSlider.cpp:311-329 | every other thumb is unchecked, and the selected thumb becomes the sender if it was checked and the default thumb otherwise |
| Slider.MSlider.SetChecked | Src/Lib/Widget/MSlider.cpp:311-329 | a change of checked state runs thumbToggled; no change does nothing |
| Slider.MSlider.RemoveThumb | Src/Lib/Widget/MSlider.cpp:570-590 | the thumb goes; a selected thumb falls back to the default thumb, or to none when the default thumb is the one removed |
| Slider.MSlider.AddThumb | Src/Lib/Widget/MSlider.cpp:539-568 | any thumb of that name is removed, then a fresh one is added on top of the stacking; "default" becomes the default thumb |
| Slider.MSlider.UpdateThumbLayout | Src/Lib/Widget/MSlider.cpp:386-399 | the stacking becomes the raise order |
| Slider.MSlider.UpdateThumbsValues | Src/Lib/Widget/MSlider.cpp:464-472 | every thumb's value is re-clamped and nothing else changes |
| Slider.MSlider.SetRange | Src/Lib/Widget/MSlider.cpp:456-462 | a range change re-clamps every thumb; an unchanged range changes nothing |
| SliderButton.ButtonIndexInRange | Src/Lib/Widget/MSliderButton.cpp:106-109 | the index shown names one of the buttons |
| SliderButton.ButtonIndex | Src/Lib/Widget/MSliderButton.cpp:106-109 | the minimum shows the first button, and no value shows a button past the last one |
| SliderButton.ButtonIndexEnds | Src/Lib/Widget/MSliderButton.cpp:106-109 | the minimum shows the first button and the maximum the last |
| SliderButton.ButtonIndexPastFirst | Src/Lib/Widget/MSliderButton.cpp:109 | with two or more buttons, any value above the minimum shows a button past the first |
| SliderButton.ButtonIndexMonotone | Src/Lib/Widget/MSliderButton.cpp:109 | a larger value never shows an earlier button |
| SliderButton.MSliderButton.constructor | Src/Lib/Widget/MSliderButton.cpp:11-43 | slider at 0 in 0..100, nothing saved, unmuted, no button stack |
| SliderButton.MSliderButton.SetVolumeLevelsNumber | Src/Lib/Widget/MSliderButton.cpp:51-80 | a stack of that many buttons (none for a negative count), showing the last |
| SliderButton.MSliderButton.SetValue | Src/Lib/Widget/MSliderButton.cpp:91-112 | without a stack nothing happens; otherwise the value is bounded to 0..100, the button for it is shown, and the value is emitted |
| SliderButton.MSliderButton.Toggle | Src/Lib/Widget/MSliderButton.cpp:130-144 | switching off saves the value and sets 0; switching on restores the saved value |
| SliderButton.MSliderButton.ToggleState | Src/Lib/Widget/MSliderButton.cpp:125-128 | flips the state, with the effect of toggle(state): switching off saves the value and shows 0, switching on restores the saved value and keeps it, and the button shown matches the new value |
| SliderButton.MuteRoundTrip | Src/Lib/Widget/MSliderButton.cpp:125-144 | muting and then unmuting restores the value and the button shown |
| MagneticPoint.React | Src/Lib/Widget/MSliderMagneticPoint.cpp:36-73 | other events pass through; a repeated coordinate is swallowed; the slider snaps exactly on an armed move toward the point inside its zone; moving away re-arms only outside the zone |
| MagneticPoint.States | Src/Lib/Widget/MSliderMagneticPoint.cpp:36-73 | the filter's states over a run of events, each from the one before |
| MagneticPoint.ArmedOnlyAfterLeaving | Src/Lib/Widget/MSliderMagneticPoint.cpp:59-62 | a filter that starts unarmed is armed only after some event moved away from the point outside its zone |
| MagneticPoint.SnapsOnlyAfterLeaving | Src/Lib/Widget/MSliderMagneticPoint.cpp:55-69 | starting unarmed, a snap happens only after the cursor has left the zone |
| MagneticPoint.SnapKeepsArmed | Src/Lib/Widget/MSliderMagneticPoint.cpp:59-60 | after a snap, another move toward the point inside the zone snaps again |
| MagneticPoint.RepeatSwallowed | Src/Lib/Widget/MSliderMagneticPoint.cpp:51-53 | a repeated coordinate is consumed and changes no state |
| MagneticPoint.MSliderMagneticPoint.constructor | Src/Lib/Widget/MSliderMagneticPoint.cpp:7-15 | unarmed, with the previous position at the magnetic value's pixel position |
| MagneticPoint.MSliderMagneticPoint.EventFilter | Src/Lib/Widget/MSliderMagneticPoint.cpp:36-73 | the new state and the slider position are React's |
| TimeEdit.StepCost | Src/Lib/Widget/MTimeEdit.cpp:16-24 | the milliseconds of one step in each section, and 0 in any other section |
| TimeEdit.AddMSecs | Src/Lib/Widget/MTimeEdit.cpp:25 | QTime::addMSecs: the time so many milliseconds later, modulo a day |
| TimeEdit.SteppedInRange | Src/Lib/Widget/MTimeEdit.cpp:27-39 | a step never leaves the minimum-maximum range |
| TimeEdit.StepTarget | Src/Lib/Widget/MTimeEdit.cpp:25-31 | a step down never gives a later time, a step up never an earlier one, no step keeps the time, and a shift that stays within the day is exact |
| TimeEdit.Stepped | Src/Lib/Widget/MTimeEdit.cpp:33-39 | a target inside the range is kept, and otherwise the result is the minimum or the maximum |
| TimeEdit.SteppedMonotone | Src/Lib/Widget/MTimeEdit.cpp:27-31 | stepping down never gives a later time and stepping up never an earlier one: no wrap past midnight |
| TimeEdit.SteppedExact | Src/Lib/Widget/MTimeEdit.cpp:25-39 | a step that stays within the day and the range moves by exactly steps times the cost |
| TimeEdit.VisibleError | Src/Lib/Widget/MTimeEdit.cpp:164-170 | the error of showing a time in a format is under a day, and 0 when the format reads the time back exactly |
| TimeEdit.SelectFormat | Src/Lib/Widget/MTimeEdit.cpp:154-176 | the chosen format has the least error, and is the first among equals |
| TimeEdit.MTimeEdit.constructor | Src/Lib/Widget/MTimeEdit.cpp:5-12 | QTimeEdit's defaults: 00:00, the whole day, no format list |
| TimeEdit.MTimeEdit.UpdateStyle | Src/Lib/Widget/MTimeEdit.cpp:144-186 | with a non-empty list, the format with the least error for the match time (the maximum while focused) is shown; with an empty list the format is kept |
| TimeEdit.MTimeEdit.SetTime | Src/Lib/Widget/MTimeEdit.cpp:197-201 | the time is bounded to the range and the format is reselected |
| TimeEdit.MTimeEdit.StepBy | Src/Lib/Widget/MTimeEdit.cpp:14-40 | the time becomes Stepped; stepping down never increases it and stepping up never decreases it |
| TimeEdit.MTimeEdit.SetDisplayFormatList | Src/Lib/Widget/MTimeEdit.cpp:132-137 | the list is stored and the format is chosen from it |
| TimeEdit.MTimeEdit.SetFocus | Src/Lib/Widget/MTimeEdit.cpp:208-220 | the focus flag is set and the format is reselected for the maximum time while focused |
| TimeEdit.MTimeEdit.SetMSecStep | Src/Lib/Widget/MTimeEdit.cpp:139-142 | the step is stored |
| LayoutHelpers.ToSizePolicy | Src/Lib/Widget/LayoutHelpers.cpp:36-48 | horizontal Expanding exactly for STRETCH, EE and EF; vertical Expanding exactly for STRETCH, EE and FE; SPACER_INVALID gives the value-initialised pair |
| LayoutHelpers.ToSizePolicyInjective | Src/Lib/Widget/LayoutHelpers.cpp:41-44 | the four SPACER_xy kinds give four different pairs |
| LayoutHelpers.BoxWidget | Src/Lib/Widget/LayoutHelpers.cpp:7-11 | a widget item with its alignment and stretch and no spacer |
| LayoutHelpers.BoxWidgetDefault | Src/Lib/Widget/LayoutHelpers.cpp:12-14 | the same with the default alignment |
| LayoutHelpers.BoxSpacer | Src/Lib/Widget/LayoutHelpers.cpp:15-20 | a STRETCH spacer with no widget |
| LayoutHelpers.GridWidget | Src/Lib/Widget/LayoutHelpers.cpp:22-25 | a widget cell with no modifier and no spacer |
| LayoutHelpers.GridModifier | Src/Lib/Widget/LayoutHelpers.cpp:26-28 | a cell modifier with nothing else |
| LayoutHelpers.GridSpacer | Src/Lib/Widget/LayoutHelpers.cpp:29-34 | a spacer other than STRETCH, with its alignment |
| GridLayout.Append | Src/Lib/Widget/MGridLayout.cpp:66 | the item is appended and the counts grow to cover it |
| GridLayout.Add | Src/Lib/Widget/MGridLayout.cpp:34 | a new item with the next identity is appended |
| GridLayout.TakeAt | Src/Lib/Widget/MGridLayout.cpp:65 | the item at the index leaves the list, and the others keep their order |
| GridLayout.SetRowStretch | Src/Lib/Widget/MGridLayout.cpp:14 | the stretch is set, and the row exists afterwards |
| GridLayout.ItemAtPosition | Src/Lib/Widget/MGridLayout.cpp:58 | the first item that covers the cell, or none when no item covers it |
| GridLayout.IndexOfItem | Src/Lib/Widget/MGridLayout.cpp:153-160 | the first index holding the item, or none when it is absent |
| GridLayout.IndexOfWidget | Src/Lib/Widget/MGridLayout.cpp:173 | the first index holding the widget, or none |
| GridLayout.PositionAt | Src/Lib/Widget/MGridLayout.cpp:137-144 | invalid for a negative or too large index; otherwise the item's cell rectangle |
| GridLayout.PositionOfItem | Src/Lib/Widget/MGridLayout.cpp:146-167 | invalid for null or for an item the layout does not hold |
| GridLayout.PositionOfWidget | Src/Lib/Widget/MGridLayout.cpp:169-174 | invalid for null or for a widget the layout does not hold |
| GridLayout.PositionOfHeldItem | Src/Lib/Widget/MGridLayout.cpp:146-167 | an item the layout holds is found, at its own cell rectangle, which is valid |
| GridLayout.InsertionRow | Src/Lib/Widget/MGridLayout.cpp:71-75 | 0 for a layout without items, else the row count |
| GridLayout.InsertionCol | Src/Lib/Widget/MGridLayout.cpp:77-81 | 0 for a layout without items, else the column count |
| GridLayout.ColSpan | Src/Lib/Widget/MGridLayout.cpp:24-29 | the item and the run of HSPAN items right after it, and no further |
| GridLayout.CalculateHSpan | Src/Lib/Widget/MGridLayout.cpp:24-29 | the loop computes ColSpan |
| GridLayout.ColSpanIsRun | Src/Lib/Widget/MGridLayout.cpp:24-29 | ColSpan is the only length whose run of HSPAN items ends there |
| GridLayout.ApplyVSpan | Src/Lib/Widget/MGridLayout.cpp:56-69 | with no item above, nothing changes and 0 is returned; otherwise the item above is re-added one row taller at the end of the list, and the columns it covers past this one are returned |
| GridLayout.ApplyVSpanTo | Src/Lib/Widget/MGridLayout.cpp:56-69 | applyVSpan, with the item above found through getItemPosition, is ApplyVSpan and keeps the grid well formed |
| GridLayout.TakeAtKeepsWellFormed | Src/Lib/Widget/MGridLayout.cpp:65 | taking an item out keeps the grid well formed |
| GridLayout.AppendKeepsWellFormed | Src/Lib/Widget/MGridLayout.cpp:66 | re-adding an item that fits keeps the grid well formed |
| GridLayout.ApplyVSpanKeepsWellFormed | Src/Lib/Widget/MGridLayout.cpp:56-69 | stretching the cell above keeps the grid well formed |
| GridLayout.AddKeepsWellFormed | Src/Lib/Widget/MGridLayout.cpp:34-39 | adding a fresh item at a non-negative cell keeps the grid well formed |
| GridLayout.StepKeepsWellFormed | Src/Lib/Widget/MGridLayout.cpp:30-51 | each pass of the addRow loop keeps the grid well formed and never moves the column back |
| GridLayout.Step | Src/Lib/Widget/MGridLayout.cpp:30-51 | one pass adds a cell exactly when the item holds a widget or spacer, leaves the row stretches alone, and moves on by the item's span unless it is VSPAN |
| GridLayout.PlaceFrom | Src/Lib/Widget/MGridLayout.cpp:22-52 | the loop leaves the row stretches alone and adds at most one cell per remaining item |
| GridLayout.AddRowSpec | Src/Lib/Widget/MGridLayout.cpp:17-54 | addRow sets the stretch of the insertion row, which then exists, and adds at most one cell per item |
| GridLayout.StepNoVSpan | Src/Lib/Widget/MGridLayout.cpp:32-50 | a pass over an item other than VSPAN adds that item's cell, if any, and advances by its span |
| GridLayout.PlaceWithoutVSpan | Src/Lib/Widget/MGridLayout.cpp:22-52 | without VSPAN, a row keeps every earlier item, and each item it adds is a widget or spacer of the row, in its own column, one row high and its span wide |
| GridLayout.PlaceWithoutVSpanComplete | Src/Lib/Widget/MGridLayout.cpp:22-52 | without VSPAN, every widget or spacer that starts a group gets a cell in its own column |
| GridLayout.PlacedIndex | Src/Lib/Widget/MGridLayout.cpp:22-52 | names the list index of that cell |
| GridLayout.KeptAt | Src/Lib/Widget/MGridLayout.cpp:22-52 | without VSPAN, the rest of a row leaves each earlier item where it was |
| GridLayout.StepOut | Src/Lib/Widget/MGridLayout.cpp:30-51 | one pass over an item other than VSPAN appends exactly that item's cell, at its own column |
| GridLayout.Widgets | Src/Lib/Widget/MGridLayout.cpp:111-113 | the widgets among the parent's children, in order |
| GridLayout.Cells | Src/Lib/Widget/MGridLayout.cpp:109-124 | the k-th widget goes to row k div colCount, column k mod colCount, one cell large |
| GridLayout.FillStep | Src/Lib/Widget/MGridLayout.cpp:115-122 | adding the next widget at the current cell extends the cells by that widget and keeps the grid well formed |
| GridLayout.PlaceItem | Src/Lib/Widget/MGridLayout.cpp:30-51 | one pass of the addRow loop computes Step and keeps the grid well formed |
| GridLayout.PlaceRow | Src/Lib/Widget/MGridLayout.cpp:20-52 | the addRow loop computes PlaceFrom from the first item and column 0 |
| GridLayout.FillCells | Src/Lib/Widget/MGridLayout.cpp:109-124 | the autoFill loop appends exactly the Cells of the parent's widgets |
| GridLayout.FillChild | Src/Lib/Widget/MGridLayout.cpp:111-124 | one child handled keeps the loop invariant |
| GridLayout.FillOne | Src/Lib/Widget/MGridLayout.cpp:113-122 | one widget child goes to the next row when the current one is full, and is added at the current cell |
| GridLayout.MGridLayout.constructor | Src/Lib/Widget/MGridLayout.h:33 | an empty grid of one row and one column |
| GridLayout.MGridLayout.AddItem | Src/Lib/Widget/MGridLayout.cpp:94-97 | addItem, as addSpacer uses it: the grid becomes Add, with the new item at the given cell and spans |
| GridLayout.MGridLayout.AddRowOfWidgets | Src/Lib/Widget/MGridLayout.cpp:8-15 | widget i goes to column i of the insertion row with the i-th new identity, the row's stretch is set, the row count covers the row and the column count covers the widgets |
| GridLayout.MGridLayout.AddRow | Src/Lib/Widget/MGridLayout.cpp:17-54 | the grid becomes AddRowSpec: the row placed at the insertion row and its stretch set |
| GridLayout.MGridLayout.AddStretch | Src/Lib/Widget/MGridLayout.cpp:83-92 | both flags give an EE spacer after the last row and column; horizontal alone gives an EF spacer in row 0; vertical alone gives an FE spacer in column 0; neither gives nothing |
| GridLayout.MGridLayout.AutoFill | Src/Lib/Widget/MGridLayout.cpp:99-125 | without a parent or with fewer than one column nothing changes; otherwise the widget children fill the grid row by row, each with the next identity, the stretches are kept, and the row and column counts grow to cover the filled rows and the first row's columns |
| GridLayout.MGridLayout.ItemPosition | Src/Lib/Widget/MGridLayout.cpp:137-144 | valid exactly for an index in range whose item has a valid cell |
| WidgetGroups.RemoveOne | Src/Lib/Widget/WidgetGroup.cpp:18-21 | removeOne takes out one occurrence and leaves the list alone when the widget is absent |
| WidgetGroups.RemoveOneAt | Src/Lib/Widget/WidgetGroup.cpp:18-21 | the occurrence removed is the first, and the rest keeps its order |
| WidgetGroups.AddThenRemove | Src/Lib/Widget/WidgetGroup.cpp:10-21 | adding a widget that was not in the group and removing it gives the list back |
| WidgetGroups.Widget.constructor | Src/Lib/Widget/WidgetGroup.cpp:28-38 | a widget with the two flags the group sets |
| WidgetGroups.WidgetGroup.constructor | Src/Lib/Widget/WidgetGroup.cpp:5-8 | the group holds the given list |
| WidgetGroups.WidgetGroup.AddWidget | Src/Lib/Widget/WidgetGroup.cpp:10-13 | the widget is appended |
| WidgetGroups.WidgetGroup.AddWidgets | Src/Lib/Widget/WidgetGroup.cpp:14-17 | the list is appended in order |
| WidgetGroups.WidgetGroup.RemoveWidget | Src/Lib/Widget/WidgetGroup.cpp:18-21 | the first occurrence goes |
| WidgetGroups.WidgetGroup.Widgets | Src/Lib/Widget/WidgetGroup.cpp:23-26 | the list as it is |
| WidgetGroups.WidgetGroup.SetVisible | Src/Lib/Widget/WidgetGroup.cpp:28-32 | every member gets the flag; enabled flags are left alone |
| WidgetGroups.WidgetGroup.SetEnabled | Src/Lib/Widget/WidgetGroup.cpp:34-38 | every member gets the flag; visibility is left alone |
| WidgetGroups.WidgetGroup.Hide | Src/Lib/Widget/WidgetGroup.cpp:40 | every member becomes invisible |
| WidgetGroups.WidgetGroup.Show | Src/Lib/Widget/WidgetGroup.cpp:41 | as written, every member becomes enabled and visibility is unchanged |
| WidgetGroups.WidgetGroup.ShowVisible | Src/Lib/Widget/WidgetGroup.cpp:41 | as intended, every member becomes visible |
| WidgetGroups.WidgetGroup.Enable | Src/Lib/Widget/WidgetGroup.cpp:42 | every member becomes enabled |
| WidgetGroups.WidgetGroup.Disable | Src/Lib/Widget/WidgetGroup.cpp:43 | every member becomes disabled |
| WidgetGroups.HideThenShow | Src/Lib/Widget/WidgetGroup.cpp:40-41 | hide() then show() as written leaves a member hidden |
| WidgetGroups.HideThenShowVisible | Src/Lib/Widget/WidgetGroup.cpp:40-41 | hide() then the intended show() makes every member visible again |
| BidiText.Wrap | Src/Lib/Widget/MLabel.cpp:30-34 | the text with LRE in front and PDF behind |
| BidiText.Strip | Src/Lib/Widget/MLabel.cpp:46 | no LRE or PDF is left, a text without them is kept as it is, and the text never grows |
| BidiText.StripKeepsOthers | Src/Lib/Widget/MLabel.cpp:46 | every character other than LRE and PDF stays, and nothing else is left |
| BidiText.StripConcat | Src/Lib/Widget/MLabel.cpp:46 | stripping distributes over concatenation |
| BidiText.StripWrap | Src/Lib/Widget/MLabel.cpp:30-46 | stripping a wrapped text strips the text itself |
| BidiText.Unwrap | Src/Lib/Widget/MLabel.cpp:42-49 | the stored text changes only with the fix on and a leading LRE, and then has no marks left |
| BidiText.UnwrapWrap | Src/Lib/Widget/MLabel.cpp:23-49 | a text without marks, wrapped, reads back as itself |
| BidiText.UnwrapIdempotent | Src/Lib/Widget/MLabel.cpp:42-49 | reading back is idempotent |
| BidiText.UnwrapWrapTwice | Src/Lib/Widget/MLineEdit.cpp:35-58 | a text wrapped twice still reads back as the original, though it is stored differently |
| BidiText.MLabel.constructor | Src/Lib/Widget/MLabel.cpp:13-19 | shows "MLabel", eliding, clickable, with the fix on |
| BidiText.MLabel.UpdateViewText | Src/Lib/Widget/MLabel.cpp:105-123 | without eliding, the stored text and no tooltip; with eliding, the elided text, with the stored text as tooltip when they differ |
| BidiText.MLabel.SetOriginalText | Src/Lib/Widget/MLabel.cpp:23-38 | no change when the text reads back the same; otherwise the text is stored, wrapped when the fix is on, and emitted |
| BidiText.MLabel.OriginalText | Src/Lib/Widget/MLabel.cpp:42-49 | without the fix, or for a text without marks, the stored text; with the fix and a leading LRE, a text free of marks |
| BidiText.MLabel.SetEliding | Src/Lib/Widget/MLabel.cpp:53-60 | a change of the flag refreshes the view |
| BidiText.MLabel.SetClickable | Src/Lib/Widget/MLabel.cpp:64-70 | only the flag |
| BidiText.MLabel.SetDirectionFix | Src/Lib/Widget/MLabel.cpp:74-82 | as written: the flag switches, and the stored text is rewritten only when it reads back differently under the new flag |
| BidiText.MLabel.SetDirectionFixWrapped | Src/Lib/Widget/MLabel.cpp:74-82 | as intended: switching the fix on wraps the text, and the text read back is kept |
| BidiText.UnwrapWrap2 | Src/Lib/Widget/MLabel.cpp:32-33 | the two appends form Wrap, which reads back |
| BidiText.EnableDirectionFix | Src/Lib/Widget/MLabel.cpp:74-82 | switching the fix on for a text without marks leaves it unwrapped and emits nothing |
| BidiText.EnableDirectionFixWrapped | Src/Lib/Widget/MLabel.cpp:74-82 | the intended switch wraps it |
| BidiText.MLineEdit.constructor | Src/Lib/Widget/MLineEdit.cpp:11-14 | empty, eliding, without focus |
| BidiText.MLineEdit.IsEliding | Src/Lib/Widget/MLineEdit.cpp:30-33 | the eliding flag, as setEliding stored it |
| BidiText.MLineEdit.OriginalText | Src/Lib/Widget/MLineEdit.cpp:51-58 | a text without marks reads as stored; a stored text with a leading LRE reads back free of marks |
| BidiText.MLineEdit.SetEliding | Src/Lib/Widget/MLineEdit.cpp:23-28 | only the flag |
| BidiText.MLineEdit.UpdateViewText | Src/Lib/Widget/MLineEdit.cpp:91-108 | elided only while unfocused and eliding; a tooltip only when the view differs; the cursor goes to 0 |
| BidiText.MLineEdit.SetOriginalText | Src/Lib/Widget/MLineEdit.cpp:35-47 | no change when the text reads back the same; otherwise it is always wrapped, stored and emitted |
| BidiText.MLineEdit.FocusIn | Src/Lib/Widget/MLineEdit.cpp:70-75 | the full stored text is shown |
| BidiText.MLineEdit.FocusOut | Src/Lib/Widget/MLineEdit.cpp:79-87 | as written: the shown text, marks included, is passed to setOriginalText |
| BidiText.MLineEdit.FocusOutUnwrapped | Src/Lib/Widget/MLineEdit.cpp:79-87 | as intended: the shown text is read back first |
| BidiText.FocusCycle | Src/Lib/Widget/MLineEdit.cpp:70-87 | focus in and out without editing, as written, wraps the text a second time and emits a change |
| BidiText.FocusCycleUnwrapped | Src/Lib/Widget/MLineEdit.cpp:70-87 | the same cycle with the intended focus-out changes nothing and emits nothing |
| StylesheetEditor.JoinLines | Src/Lib/Widget/MRuntimeStylesheetEditor.cpp:277 | the blocks of a text joined by newlines give the text back |
| StylesheetEditor.LinesJoin | Src/Lib/Widget/MRuntimeStylesheetEditor.cpp:277 | splitting the text of newline-free blocks gives those blocks back |
| StylesheetEditor.Lines | Src/Lib/Widget/MRuntimeStylesheetEditor.cpp:277 | at least one block, none holding a newline, joined back to the text |
| StylesheetEditor.Locate | Src/Lib/Widget/MRuntimeStylesheetEditor.cpp:277 | the block that holds a position |
| StylesheetEditor.LocateUnique | Src/Lib/Widget/MRuntimeStylesheetEditor.cpp:286 | it is the only block whose span holds the position |
| StylesheetEditor.DigitCountBounds | Src/Lib/Widget/MRuntimeStylesheetEditor.cpp:162-164 | the digit count is the k with 10^(k-1) <= n < 10^k |
| StylesheetEditor.InsertStepsComment | Src/Lib/Widget/MRuntimeStylesheetEditor.cpp:243-253 | the inserting branch puts the selection inside a comment and selects the comment |
| StylesheetEditor.SetPosition | Src/Lib/Widget/MRuntimeStylesheetEditor.cpp:221-226 | QTextCursor::setPosition keeps the cursor inside the document: a position inside it moves the cursor there, keeping the anchor or collapsing the selection onto it as asked, and one outside it moves nothing |
| StylesheetEditor.InsertSteps | Src/Lib/Widget/MRuntimeStylesheetEditor.cpp:243-253 | the inserting branch leaves the cursor inside the new text |
| StylesheetEditor.StripSteps | Src/Lib/Widget/MRuntimeStylesheetEditor.cpp:230-242 | the removing branch leaves the cursor inside the new text, whatever the markers' overlap |
| StylesheetEditor.StripStepsUncomment | Src/Lib/Widget/MRuntimeStylesheetEditor.cpp:230-242 | with the markers at least four characters apart, the removing branch takes them off and selects what was inside |
| StylesheetEditor.CommentRoundTrip | Src/Lib/Widget/MRuntimeStylesheetEditor.cpp:221-253 | commenting and then uncommenting the new selection gives the text back |
| StylesheetEditor.CommentedSelection | Src/Lib/Widget/MRuntimeStylesheetEditor.cpp:221-253 | the selection that commenting leaves lies in the new text, starts and ends at the comment markers, and uncommenting it gives the original text |
| StylesheetEditor.UncommentRoundTrip | Src/Lib/Widget/MRuntimeStylesheetEditor.cpp:221-253 | uncommenting and then commenting gives the text back |
| StylesheetEditor.OverlapDeletesOutside | Src/Lib/Widget/MRuntimeStylesheetEditor.cpp:230-242 | on "x/*/" with the selection 1..4, the overlapping markers are taken as a comment and the whole text is deleted |
| StylesheetEditor.OverlapOneCharacter | Src/Lib/Widget/MRuntimeStylesheetEditor.cpp:230-242 | on the text `*/*` with the selection 1..2, both marker reads match and the removal deletes the star after the selection |
| StylesheetEditor.IndentLine | Src/Lib/Widget/MRuntimeStylesheetEditor.cpp:299-311 | a block stays free of newlines, and loses at most one character |
| StylesheetEditor.IndentLineEffect | Src/Lib/Widget/MRuntimeStylesheetEditor.cpp:299-311 | increasing adds a tab exactly to the blocks that are not blank; decreasing removes a leading tab exactly when there is one |
| StylesheetEditor.UnindentAfterIndent | Src/Lib/Widget/MRuntimeStylesheetEditor.cpp:299-311 | decreasing undoes increasing, except on a blank block that starts with a tab |
| StylesheetEditor.IndentAfterUnindent | Src/Lib/Widget/MRuntimeStylesheetEditor.cpp:299-311 | increasing undoes decreasing on a block that is not blank |
| StylesheetEditor.Reindent | Src/Lib/Widget/MRuntimeStylesheetEditor.cpp:296-314 | the blocks in range are indented and the others are unchanged |
| StylesheetEditor.ReindentRoundTrip | Src/Lib/Widget/MRuntimeStylesheetEditor.cpp:296-314 | decreasing the blocks just increased gives them back |
| StylesheetEditor.AdjustSelection | Src/Lib/Widget/MRuntimeStylesheetEditor.cpp:271-287 | the adjusted start lies inside its block, and the adjusted end inside or at the end of its block |
| StylesheetEditor.AdjustSelectionBlocks | Src/Lib/Widget/MRuntimeStylesheetEditor.cpp:271-290 | a non-empty adjusted selection reaches exactly the blocks that overlap the selection |
| StylesheetEditor.IndentBlocks | Src/Lib/Widget/MRuntimeStylesheetEditor.cpp:296-314 | the loop computes Reindent over the selected blocks |
| StylesheetEditor.SelectBlocks | Src/Lib/Widget/MRuntimeStylesheetEditor.cpp:317-321 | the final selection runs from the start of the first block to the end of the last |
| StylesheetEditor.ReadsMarkers | Src/Lib/Widget/MRuntimeStylesheetEditor.cpp:221-227 | the two reads of selectedText see the markers exactly when they are there |
| StylesheetEditor.ToggleComment | Src/Lib/Widget/MRuntimeStylesheetEditor.cpp:207-258 | without a selection nothing changes; otherwise a selection without markers is commented and one with markers is uncommented, with the selection adjusted |
| StylesheetEditor.OutsideKept | Src/Lib/Widget/MRuntimeStylesheetEditor.cpp:230-253 | commenting and uncommenting keep the text before and after the selection |
| StylesheetEditor.ToggleCommentChecked | Src/Lib/Widget/MRuntimeStylesheetEditor.cpp:207-258 | the intended toggle: markers count only when they do not overlap, so nothing outside the selection is touched |
| StylesheetEditor.IndentSelection | Src/Lib/Widget/MRuntimeStylesheetEditor.cpp:260-325 | without a selection or with an empty adjusted one nothing changes; otherwise the blocks are reindented and then selected |
| StylesheetEditor.IndentedStart | Src/Lib/Widget/MRuntimeStylesheetEditor.cpp:317-318 | the start of the first block does not move when the blocks are indented |
| StylesheetEditor.IndentRange | Src/Lib/Widget/MRuntimeStylesheetEditor.cpp:294-321 | the selected blocks are reindented and the new selection covers them |
| StylesheetEditor.CodeEditor.constructor | Src/Lib/Widget/MRuntimeStylesheetEditor.cpp:151-158 | an empty document with the cursor at its start |
| StylesheetEditor.CodeEditor.LineNumbersAreaWidth | Src/Lib/Widget/MRuntimeStylesheetEditor.cpp:160-166 | twice the margin of 3 plus one 'M' width per decimal digit of the block count (at least 1) |
| StylesheetEditor.CodeEditor.ToggleCommentSelection | Src/Lib/Widget/MRuntimeStylesheetEditor.cpp:207-258 | the editor's text and cursor become ToggleComment's |
| StylesheetEditor.CodeEditor.IndentSelectedLines | Src/Lib/Widget/MRuntimeStylesheetEditor.cpp:260-325 | the editor's text and cursor become IndentSelection's |
| StylesheetEditor.CodeEditor.ToggleCommentSelectionChecked | Src/Lib/Widget/MRuntimeStylesheetEditor.cpp:207-258 | the intended toggle applied to the editor |
| StylesheetEditor.ToggleOn | Src/Lib/Widget/MRuntimeStylesheetEditor.cpp:243-253 | a selection that is not a comment is commented and the selection grows by 4 |
| StylesheetEditor.ToggleOff | Src/Lib/Widget/MRuntimeStylesheetEditor.cpp:230-242 | a comment with room for both markers is uncommented and the selection shrinks by 4 |
| StylesheetEditor.ToggleTwice | Src/Lib/Widget/MRuntimeStylesheetEditor.cpp:207-258 | toggling a selection that is not a comment twice restores the text and the selection |
| StylesheetEditor.UntoggleTwice | Src/Lib/Widget/MRuntimeStylesheetEditor.cpp:207-258 | toggling a comment of more than the two markers twice restores it, when what is left inside is not itself a comment |

## Left out

- Painting, geometry, styles, mouse, wheel and keyboard handling, and the
  parts of the widgets that only forward to Qt. This covers
  MSlider::paintEvent, updateBackground, pointToValue and moveThumbTo;
  MSliderButton::showSlider and eventFilter; MTimeEdit::keyPressEvent and
  wheelEvent; and the line-number painting, ShowSearchDialog and
  SetSaveCallback of the runtime editor. They are floating-point or
  pixel-level work with no logic of their own to prove.
- Widget signals are modelled as returned values (`Option` for an emitted
  value) or as an appended log. Qt's event loop and its connections are not
  modelled.
- QTime formatting and parsing, font-metric elision, the slider's pixel
  conversions, point positions and the undo/redo bodies of application
  commands are function parameters. The model states what the code does
  with their results, not what they compute.
- The per-row and per-column wrappers of the layout controller
  (layoutColMinWidth, setLayoutColMinWidth, layoutRowMinHeight,
  setLayoutRowMinHeight, layoutStretch, setLayoutStretch, layoutColStretch,
  setLayoutColStretch, layoutRowStretch, setLayoutRowStretch) are not
  separate members. Each one is squashIntValues or applyIntValues with a
  QLayout getter or setter, and both of those are modelled.
- layoutWidgetAlign, setLayoutWidgetAlign, layoutAlign, setLayoutAlign and
  the size constraint are not modelled. They depend on QMetaEnum
  key-to-value conversion, class names and inheritance, which cannot be
  seen here.
- Grid item identities are numbers, and the widget objects that grid cells
  hold are not modelled. The asserts in autoFill (an empty layout, a widget
  not yet in the layout) are debug checks and are not preconditions.
  addRow's null widget is a row item without a widget, which adds nothing.
- The grid loops of addRow and autoFill work on a `Grid` value inside
  module methods (PlaceRow, FillCells), and MGridLayout's methods assign
  the result. Qt's layout object is not updated in place.
- The MSlider thumbs are values in a map keyed by name. A pointer to a
  thumb is its name, and raising a widget reorders a `stacking` sequence.
  The thumb flags that only select input handling (selectable, draggable,
  movable by wheel or keyboard) are left out. The loops of updateThumbLayout
  and updateThumbsValues are module or class methods over those values.
- QTextDocument is plain text split at '\n' into blocks. Undo grouping
  (beginEditBlock / endEditBlock) is not modelled. The class methods
  ToggleCommentSelection and IndentSelectedLines delegate to the module
  methods ToggleComment and IndentSelection, which compute on the text
  and the cursor.
- MLabel's mousePressEvent (the clicked signal), setElideMode and
  resizeEvent are not modelled, nor is user editing of an MLineEdit's text;
  the text is whatever the widget holds at focus-out.
- MTimeEdit's cursor-position bookkeeping and the "shrinkWidth" width
  fitting in updateStyle are left out (font metrics). So are
  setMaximumTime and setMinimumTime, which only forward to QTimeEdit.
- Strings are sequences of code points, not UTF-16 code units. The LRE and
  PDF marks are single units in both, so the model is exact for them.
- QtString.ToInt does not model QString::toInt's tolerance of white space
  around the number. No result depends on this: every caller trims or
  simplifies its text, or splits it at spaces, before converting. That
  covers the value and each bracket token of an entry, the margin texts
  and the spacing texts.
- Slider.MSlider.UpdateThumbLayout: the z-order loop counter is unbounded,
  so a thumb at z-order INT_MAX is raised in its turn. The code's `int`
  counter never gets past INT_MAX, so its loop does not end then (see
  Findings).
- Slider.MSlider.SetZOrder: lays the thumbs out with the corrected loop of
  UpdateThumbLayout, so a z-order of INT_MAX ends the layout instead of
  hanging it.
- Slider.RaiseByZ: counts z-orders with an unbounded integer, so it
  terminates for every z-order, INT_MAX included.
- Slider.MSlider.CorrectStickValue: `maximum() * m_stickDistance` and the
  distance `abs(defaultValue - value)` are exact, so their 32-bit overflow
  is not modelled. A missing default thumb keeps the value instead of
  dereferencing a null pointer (see Findings;
  CorrectStickValueAsWritten models the code).
- GridLayout.MGridLayout.AddRowOfWidgets: a widget already in the layout
  gets a second item. Qt moves such a widget (QLayout::addChildWidget
  takes it out of its old place first). A null widget in the list is not
  expressible either: QGridLayout::addWidget skips it, but its column is
  still used.
- GridLayout.MGridLayout.AddRow: a widget of the row that is already in
  the layout gets a second item instead of being moved.
- GridLayout.MGridLayout.AutoFill: a child widget that is already in the
  layout gets a second item instead of being moved. The code asserts that
  this does not happen.
- SliderButton.MSliderButton.SetValue: the index arithmetic
  `(value - min) * maxButtonIndex` is exact here; the 32-bit overflow the
  code would have beyond about 21 million buttons is not modelled.
- Magnet.MMagnet.MoveTo: the distance `abs(point - newPosition)` is exact;
  its 32-bit overflow for positions more than 2^31 apart is not modelled.
- MagneticPoint.React: `direction * (magneticPos - curPos)` is exact; its
  32-bit overflow for pixel positions beyond 46340 is not modelled.
- TimeEdit.MTimeEdit.StepBy: `steps * stepCost` is exact; the code's
  32-bit overflow for huge step counts is not modelled, and a negative
  millisecond step is taken as given.
- StylesheetEditor.ReindentRoundTrip excludes blank blocks that start with
  a tab. Increasing leaves such a block alone and decreasing then removes
  its tab, so the round trip does not hold for them.
- The MMagnet.h documentation says a point lies "left" when its position is
  below the previous magnet position. The code, and the documented example,
  use the left zones for a point above it. The model follows the code.
- Floating point, file and network I/O, and the Win32 parts of
  MSliderButton are not part of this model.

## Findings

| source | as written | input that shows it | evidently intended | confidence | as-written member | corrected member |
|---|---|---|---|---|---|---|
| Src/Lib/Widget/WidgetGroup.cpp:41 | `show()` calls `setEnabled(true)` | a group whose widgets were hidden with `hide()` stays hidden after `show()` | `show()` calls `setVisible(true)`, pairing with `hide()` | high, not executed | WidgetGroups.HideThenShow | WidgetGroups.HideThenShowVisible |
| Src/Lib/Widget/MLineEdit.cpp:79-87 | focus-out passes `text()`, which holds the LRE/PDF marks, to `setOriginalText` | stored text `LRE s PDF`: a focus in and out without editing stores `LRE LRE s PDF PDF` and emits `originalTextChanged` | the shown text is read back as `originalText()` does before comparing and storing | high, not executed | BidiText.FocusCycle | BidiText.FocusCycleUnwrapped |
| Src/Lib/Widget/MLabel.cpp:74-82 | `setDirectionFix(true)` calls `setOriginalText` with the text it already holds, whose guard returns at once | a label without the fix holding "abc": after `setDirectionFix(true)` the stored text is still "abc", without the marks | the text is stored again, wrapped in the marks | high, not executed | BidiText.EnableDirectionFix | BidiText.EnableDirectionFixWrapped |
| Src/Lib/Widget/MRuntimeStylesheetEditor.cpp:221-242 | the two marker reads may overlap when the selection is shorter than four characters | text "x/*/", selection 1..4: both reads match, and the removal deletes the whole text, including the "x" outside the selection | markers count only when the selection is at least four characters long | medium, not executed | StylesheetEditor.OverlapDeletesOutside | StylesheetEditor.ToggleCommentChecked |
| Src/Lib/Widget/MSlider.cpp:395 | the z-order loop counter `curZ` is an `int` compared with `<= maxZ` | a thumb given `setZOrder(INT_MAX)`: no `int` exceeds INT_MAX, so updateThumbLayout never returns | every z-order from the lowest to the highest is visited once | high, not executed | Slider.UpdateThumbLayoutHangs | Slider.RaiseByZ |
| Src/Lib/Widget/MSlider.cpp:302-307 | correctStickValue reads `defaultThumb()->value()` without a null check | `removeThumb("default")`, `setStickEnable(true)`, then dragging any other thumb dereferences a null pointer | without a default thumb nothing sticks and the value is kept | high, not executed | Slider.MSlider.StickWithoutDefault | Slider.MSlider.CorrectStickValue |
