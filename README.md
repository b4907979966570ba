# swing-test, modelled in Dafny

swing-test is a small Kotlin library for testing Swing user interfaces. It
finds components in a container's tree, simulates user interactions by
calling a component's listeners directly, prints a component tree for
error messages, and compares a component's rendering with a stored
snapshot image. This project models the core of that library and proves
what it promises:

- **Finders** (`ComponentFinders.kt`, in three revisions). `findAll` walks a
  container's descendants in pre-order and collects every instance of a
  class into a mutable list. `findChild` (newest revision) and `find` (the
  two older ones) narrow that list with optional filters. The result is
  null for no survivor and the survivor for one; more than one throws
  `MultipleComponentsException`. `getChild` turns null into
  `NoSuchComponentException`, and `findWindow` applies the same policy to
  the top-level windows.
- **Child interactions** (`ChildInteractions.kt`). `clickChild` resolves
  one button with `getChild` and clicks it. `clickOk`, `clickCancel`,
  `clickYes` and `clickNo` find the button by its caption, ignoring case.
- **Event helpers** (`ComponentInteractions.kt`, newest and oldest). These
  are the listener loops of `doClick`, `doubleClick`, `doHover`,
  `doHoverAway` and `doMouseMove`, the focus helpers, the key-binding
  lookup of `processKeyPress`, `check`/`uncheck` and `typeText`.
- **Tree dump** (`Debugging.kt`). `generateComponentTree` prints one line
  per component, with its prefix, BorderLayout constraint and one-line
  description. The module `DebugExample` rebuilds the frame of the
  test `SwingDebugTest` and proves its dump is exactly the text the test
  expects. The panes' summaries are given as that text prints them.
- **Snapshots** (`SwingSnapshots.kt`, newest and oldest). This covers the
  row-major point list, pixelwise `isEqual`, the snapshot size fallback,
  the operating-system restriction and the missing / overwrite / mismatch
  decision of `shouldMatchImage`.

Layout: `util.dfy` holds nullable values, results, string helpers and list
filtering. `widgets.dfy` holds the component tree. `walk.dfy` holds
`findAll`/`addComponents`. `finders.dfy` and `old_finders.dfy` hold the
newest and the two older finders. `interactions.dfy` holds the event
helpers and `child_interactions.dfy` the clicks. `debugging.dfy` holds the
tree dump. `snapshots.dfy` and `old_snapshots.dfy` hold the newest and the
oldest snapshot code.

How the model represents the program:

- A component is a `Widgets.Node` value. It holds its class, `name`, `text`,
  `toolTipText` (each `None` for null), whether it is a `Container`, its
  BorderLayout constraint and its children.
- `clazz.isInstance` is a given subtype relation (`Hierarchy`).
- Reflection is modelled by the class's table of public getters.
  `getMethod` fails when the getter is not in the table.
- Interaction state lives in a `Widget` class whose methods update its
  fields. Every listener call is appended to an `EventLog`.
- The snapshot files are a `SnapshotStore` class holding a map from path to
  image.
- The two older finder revisions share one model. A `Revision` parameter
  selects their one difference, the wording of the non-String error.

Where the documentation and the code disagree, the model follows the code:

- The doc comments say the text filter keeps components whose text
  "contains" the string. The code compares for equality
  (`src/main/kotlin/com/github/alyssaburlton/swingtest/ComponentFinders.kt`
  line 146). The newest revision compares the string form `"$result"`, so a
  null text is found by the text `"null"`.
- The newest `findChild` applies the text filter first, then the name
  filter, then the predicate.
- Both exceptions of the newest finders append the component tree to their
  message. Some tests expect the message without it.
- The oldest `shouldMatchImage` skips with "Wrong OS for screenshot tests:
  <os>", with no "(wanted ..., found ...)".
- The oldest `shouldMatchImage` paints at the component's current size.
  `BufferedImage` rejects a size that is not positive, which the model
  reports as the verdict `InvalidImageSize`.

`AbstractButton.doClick()`, which `clickChild`, `check` and `uncheck` call,
is Swing's own member function, not the library's `Component.doClick`
extension. It is modelled as `Widget.Press`: a disabled button ignores the
click; otherwise a toggle button flips its selection and then each action
listener is called once, the most recently added first.

`processKeyPress` calls `actionMap.keys()`, which Swing returns as null for
an action map with no bindings of its own. The `contains` call then throws
a NullPointerException. The model treats an empty action map as one that
never had a binding, and returns that exception as an error result.

## Model

| member | source | states |
|---|---|---|
| Util.OrNullConflatesNull | src/main/kotlin/com/github/alyssaburlton/swingtest/ComponentFinders.kt:129 | the template `"$result"` tells two optional texts apart except that a null text and the text "null" print alike |
| Util.Spaces | src/main/kotlin/com/github/alyssaburlton/swingtest/Debugging.kt:24 | `" ".repeat(n)` is exactly n spaces |
| Util.NatToStringRoundTrip | src/main/kotlin/com/github/alyssaburlton/swingtest/ComponentFinders.kt:129 | the decimal count printed in a message parses back to the count |
| Util.NumberBeforeSpace | src/main/kotlin/com/github/alyssaburlton/swingtest/ComponentFinders.kt:32 | "<n> <rest>" determines both n and rest, so a count-bearing message names one count |
| Util.Lower | src/main/kotlin/com/github/alyssaburlton/swingtest/SwingSnapshots.kt:91-93 | lower-casing keeps the length and lower-cases each letter in place |
| Util.LowerIdempotent | src/main/kotlin/com/github/alyssaburlton/swingtest/SwingSnapshots.kt:91-95 | lower-casing an already lower-cased value changes nothing |
| Util.EqualsIgnoreCaseIsLowerEquality | src/main/kotlin/com/github/alyssaburlton/swingtest/ChildInteractions.kt:13 | `equals(ignoreCase = true)` holds for two strings exactly when their lower-cased forms are equal |
| Util.Filter | src/main/kotlin/com/github/alyssaburlton/swingtest/ComponentFinders.kt:123 | `filter` never grows the list, keeps only elements satisfying the predicate, and keeps every one that does |
| Util.FilterIsSubsequence | src/main/kotlin/com/github/alyssaburlton/swingtest/ComponentFinders.kt:123-124 | a filter keeps a subsequence of its input, in the original order |
| Util.FilterFilter | src/main/kotlin/com/github/alyssaburlton/swingtest/ComponentFinders.kt:122-124 | filtering by p then by q is filtering once by p and q |
| Util.FilterChain | src/main/kotlin/com/github/alyssaburlton/swingtest/ComponentFinders.kt:120-124 | four successive filters equal one filter by their conjunction |
| Util.FilterKeepsAll | src/main/kotlin/com/github/alyssaburlton/swingtest/ComponentFinders.kt:123 | a predicate every element satisfies (an unset filter) removes nothing |
| Util.FilterSingle | src/main/kotlin/com/github/alyssaburlton/swingtest/ComponentFinders.kt:133 | a satisfying element makes the result non-empty, and is the sole survivor when one survives |
| Widgets.NotOwnDescendant | src/main/kotlin/com/github/alyssaburlton/swingtest/ComponentFinders.kt:57 | a container is never among the descendants the walk starts from |
| Walk.CollectAppend | src/main/kotlin/com/github/alyssaburlton/swingtest/ComponentFinders.kt:63 | siblings are walked one after another: the walk of a + b is the walk of a, then of b |
| Walk.CollectAt | src/main/kotlin/ComponentFinders.kt:16-27 | pre-order at every position: the walk of earlier siblings, then the component if it matches, then the walk of its children whether it matched or not, then the later siblings |
| Walk.CollectIsFilteredFlatten | src/main/kotlin/com/github/alexburlton/swingtest/ComponentFinders.kt:19-37 | the walk yields exactly the descendants that are instances of the class, in pre-order |
| Walk.ComponentList.Add | src/main/kotlin/com/github/alyssaburlton/swingtest/ComponentFinders.kt:65 | `ret.add` appends one element at the end |
| Walk.AddComponents | src/main/kotlin/com/github/alyssaburlton/swingtest/ComponentFinders.kt:62-73 | the loop with recursion appends exactly the pre-order walk of the components to `ret`; the three revisions have the same code |
| Walk.FindAll | src/main/kotlin/ComponentFinders.kt:6-13 | `findAll` returns the pre-order list of descendant instances of the class, and never the container itself |
| Debugging.NameSuffix | src/main/kotlin/com/github/alyssaburlton/swingtest/Debugging.kt:70-74 | a named component's description is the unnamed description followed by ` [name: n]`; an unnamed one has no suffix |
| Debugging.ButtonTooltip | src/main/kotlin/com/github/alyssaburlton/swingtest/Debugging.kt:41-43 | an unnamed button reads `Class - "text"`, followed by the tooltip part only when the tooltip is non-empty |
| Debugging.ExpandedChild | src/main/kotlin/com/github/alyssaburlton/swingtest/Debugging.kt:27 | the recursive call for a container child produces that child's line and then the lines below it |
| Debugging.GenerateComponentTree | src/main/kotlin/com/github/alyssaburlton/swingtest/Debugging.kt:18-34 | the accumulator loop appends the component's line, then every child's line and subtree in order, to the tree so far |
| Debugging.RootFirst | src/main/kotlin/com/github/alyssaburlton/swingtest/Debugging.kt:16-22 | the dump starts with the root's description (no prefix, constraint or indentation), then a newline, then the children's lines |
| Debugging.JoinAt | src/main/kotlin/com/github/alyssaburlton/swingtest/Debugging.kt:22 | every line of the dump is followed by a newline |
| Debugging.ChildrenInOrder | src/main/kotlin/com/github/alyssaburlton/swingtest/Debugging.kt:23-31 | children are listed in stored order, each child's subtree right after its own line |
| Debugging.ConstraintRendering | src/main/kotlin/com/github/alyssaburlton/swingtest/Debugging.kt:25-29 | without a constraint a child line reads `\|- desc`; with constraint C a recursed container reads `\|- [C] desc` and any other child `\|- [C]  desc` |
| Debugging.BoringIsLeaf | src/main/kotlin/com/github/alyssaburlton/swingtest/Debugging.kt:26-29 | a scroll bar, table or combo box gets one line and none of its children are listed |
| Debugging.IndentByDepth | src/main/kotlin/com/github/alyssaburlton/swingtest/Debugging.kt:24-29 | a component d levels below the dumped component's children is indented by the prefix length plus 2d spaces before `\|-` |
| Debugging.NestedByDepth | src/main/kotlin/com/github/alyssaburlton/swingtest/Debugging.kt:27 | the lines below a recursed child are its children's lines one level (two spaces) deeper |
| DebugExample.ExampleFrameDump | src/test/kotlin/com/github/alyssaburlton/swingtest/SwingDebugTest.kt:24-76 | the dump of the test's frame (button bar, filter row and scrolled table inside the root, layered and content panes) is exactly the sixteen lines the test expects |
| Finders.CountedMessageInjective | src/main/kotlin/com/github/alyssaburlton/swingtest/ComponentFinders.kt:129 | two equal "Found N ..." messages name the same count and the same rest |
| Finders.WithTreeInjective | src/main/kotlin/com/github/alyssaburlton/swingtest/ComponentFinders.kt:75-78 | the exception message is the given text followed by the container's tree, so the text can be recovered |
| Finders.FilterByText | src/main/kotlin/com/github/alyssaburlton/swingtest/ComponentFinders.kt:136-148 | a null match returns the list unchanged; otherwise a class without `getText` throws NoSuchMethodException, even with no candidates; otherwise the result is an in-order subsequence holding every candidate whose printed text equals the match, and only those |
| Finders.NullTextMatchesNull | src/main/kotlin/com/github/alyssaburlton/swingtest/ComponentFinders.kt:146 | a component with a null text is found by the text "null" |
| Finders.SurvivorsAreMatches | src/main/kotlin/com/github/alyssaburlton/swingtest/ComponentFinders.kt:120-124 | the text, name and predicate filters together keep exactly the descendants matching every given criterion, in pre-order |
| Finders.UnsetFiltersKeepAll | src/main/kotlin/com/github/alyssaburlton/swingtest/ComponentFinders.kt:122-124 | with no name, text or predicate the survivors are all of `findAll`'s result |
| Finders.SurvivorsNarrow | src/main/kotlin/com/github/alyssaburlton/swingtest/ComponentFinders.kt:122-124 | the survivors are an in-order subsequence of `findAll`'s result |
| Finders.ChildOutcome | src/main/kotlin/com/github/alyssaburlton/swingtest/ComponentFinders.kt:114-134 | a text for a class without `getText` throws NoSuchMethodException; otherwise 0 matches give null, 1 gives that match, more give MultipleComponentsException with the count, class, name, text and tree |
| Finders.ChildOutcomeMeaning | src/main/kotlin/com/github/alyssaburlton/swingtest/ComponentFinders.kt:126-133 | null means no descendant matches; a found component is a matching descendant other than the container, and the only matching one |
| Finders.ManyMessageNamesCount | src/main/kotlin/com/github/alyssaburlton/swingtest/ComponentFinders.kt:126-131 | the multiple-match message determines the number of matches |
| Finders.FilterCandidates | src/main/kotlin/com/github/alyssaburlton/swingtest/ComponentFinders.kt:120-124 | the reassignments of `filtered` compute the survivors of the three filters, or the text filter's exception |
| Finders.FindChild | src/main/kotlin/com/github/alyssaburlton/swingtest/ComponentFinders.kt:114-134 | `findChild` returns or throws exactly what `ChildOutcome` describes |
| Finders.RequiredOutcome | src/main/kotlin/com/github/alyssaburlton/swingtest/ComponentFinders.kt:186-192 | text on a class without `getText` raises NoSuchMethodException; otherwise, over the matching descendants in pre-order: none raises NoSuchComponentException "Found 0 ..." with the tree, exactly one is returned, several raise MultipleComponentsException with their count and the tree |
| Finders.GetChild | src/main/kotlin/com/github/alyssaburlton/swingtest/ComponentFinders.kt:186-192 | `getChild` returns or throws exactly what `RequiredOutcome` describes |
| Finders.FindWindow | src/main/kotlin/com/github/alyssaburlton/swingtest/ComponentFinders.kt:25-37 | null if and only if no window is an instance satisfying the predicate; MultipleWindowsException, with the count and trees, if and only if more than one entry of the window list qualifies (equal entries count separately); otherwise the one qualifying window |
| Finders.FindWindowDefault | src/main/kotlin/com/github/alyssaburlton/swingtest/ComponentFinders.kt:25 | with the default predicate, null exactly when no window is an instance of the class |
| OldFinders.KeepEqualMeaning | src/main/kotlin/com/github/alexburlton/swingtest/ComponentFinders.kt:99-106 | the filter throws if and only if some candidate's value is null (not a String); otherwise it keeps exactly the candidates equal to the match, in order |
| OldFinders.FilterByField | src/main/kotlin/ComponentFinders.kt:57-70 | a null match is the identity; a missing getter throws; otherwise a non-String value throws the non-String error and the rest keep exactly the equal values |
| OldFinders.FilterByFieldNarrows | src/main/kotlin/com/github/alexburlton/swingtest/ComponentFinders.kt:96-106 | a filter that does not throw keeps an in-order subsequence |
| OldFinders.FindOutcome | src/main/kotlin/ComponentFinders.kt:44-54 | a filter's exception propagates; otherwise, over the descendants matching class, text, tooltip and predicate: none gives null, exactly one gives it, several give MultipleComponentsException with the count, text and tooltip |
| OldFinders.Find | src/main/kotlin/com/github/alexburlton/swingtest/ComponentFinders.kt:72-88 | `find` returns or throws exactly what `FindOutcome` describes |
| OldFinders.SurvivorsAreMatches | src/main/kotlin/com/github/alexburlton/swingtest/ComponentFinders.kt:77-81 | when no filter throws, the survivors are exactly the descendants matching every given criterion, in pre-order |
| OldFinders.FindOutcomeMeaning | src/main/kotlin/com/github/alexburlton/swingtest/ComponentFinders.kt:83-87 | null means no descendant matches; a found component is a matching descendant other than the container, and the only one |
| OldFinders.UnsetFiltersKeepAll | src/main/kotlin/ComponentFinders.kt:46-48 | with no text, tooltip or predicate nothing is filtered and nothing throws |
| OldFinders.TooltipSeesOnlyTextSurvivors | src/main/kotlin/com/github/alexburlton/swingtest/ComponentFinders.kt:79-80 | the tooltip filter examines only the text filter's survivors: a null tooltip on a component the text filter dropped cannot make it throw |
| Interactions.CallsLength | src/main/kotlin/com/github/alyssaburlton/swingtest/ComponentInteractions.kt:23-26 | a dispatch makes (number of listeners) × (callbacks per listener) calls |
| Interactions.CallsAt | src/main/kotlin/com/github/alyssaburlton/swingtest/ComponentInteractions.kt:23-26 | call i·k + j is callback j on listener i: listeners in registration order, each finished before the next starts |
| Interactions.CallsOnly | src/main/kotlin/com/github/alyssaburlton/swingtest/ComponentInteractions.kt:39-54 | a dispatch calls only the registered listeners, only the named callbacks, only with the one event |
| Interactions.Notify | src/main/kotlin/com/github/alyssaburlton/swingtest/ComponentInteractions.kt:23 | the `forEach` loop appends exactly the dispatch sequence to the log |
| Interactions.Widget.DoClick | src/main/kotlin/com/github/alyssaburlton/swingtest/ComponentInteractions.kt:21-27 | mouseClicked then mouseReleased on each mouse listener, with a click count of 1 at the given point |
| Interactions.Widget.DoubleClick | src/main/kotlin/com/github/alyssaburlton/swingtest/ComponentInteractions.kt:30-36 | the same calls as a click, with a click count of 2 |
| Interactions.Widget.DoHover | src/main/kotlin/com/github/alyssaburlton/swingtest/ComponentInteractions.kt:39-42 | only mouseEntered, on each mouse listener |
| Interactions.Widget.DoHoverAway | src/main/kotlin/com/github/alyssaburlton/swingtest/ComponentInteractions.kt:45-48 | only mouseExited, on each mouse listener |
| Interactions.Widget.DoMouseMove | src/main/kotlin/com/github/alyssaburlton/swingtest/ComponentInteractions.kt:51-54 | only mouseMoved, on each motion listener, at the component's own position |
| Interactions.Widget.ProcessKeyPress | src/main/kotlin/com/github/alyssaburlton/swingtest/ComponentInteractions.kt:57-65 | an empty action map yields the NullPointerException as an error result and changes nothing; otherwise the bound action is performed exactly once when the key's action name is in the action map, and nothing happens when it is not |
| Interactions.Widget.DoLoseFocus | src/main/kotlin/com/github/alyssaburlton/swingtest/ComponentInteractions.kt:68-70 | focusLost on each focus listener with a FOCUS_LOST event from this component |
| Interactions.Widget.DoGainFocus | src/main/kotlin/com/github/alyssaburlton/swingtest/ComponentInteractions.kt:73-75 | focusGained on each focus listener with a FOCUS_GAINED event from this component |
| Interactions.Widget.Press | src/main/kotlin/com/github/alyssaburlton/swingtest/ChildInteractions.kt:60 | an enabled button flips a toggle button's selection and calls each action listener once, the latest first; a disabled one changes nothing |
| Interactions.Widget.Check | src/main/kotlin/com/github/alyssaburlton/swingtest/ComponentInteractions.kt:78-82 | an unchecked enabled box becomes checked with one click's events; a checked box changes nothing and fires nothing |
| Interactions.Widget.Uncheck | src/main/kotlin/com/github/alyssaburlton/swingtest/ComponentInteractions.kt:85-89 | the mirror image of `check` |
| Interactions.Widget.CheckTwice | src/main/kotlin/com/github/alyssaburlton/swingtest/ComponentInteractions.kt:78-82 | `check` is idempotent: two calls have the effect of one |
| Interactions.Widget.UncheckTwice | src/main/kotlin/com/github/alyssaburlton/swingtest/ComponentInteractions.kt:85-89 | `uncheck` is idempotent: two calls have the effect of one |
| Interactions.Widget.TypeText | src/main/kotlin/com/github/alyssaburlton/swingtest/ComponentInteractions.kt:92-94 | the text becomes exactly the new text |
| Interactions.ClickOrder | src/main/kotlin/ComponentInteractions.kt:7-22 | in the oldest revision too, listener i gets mouseClicked as call 2i and mouseReleased as call 2i+1 |
| Interactions.SingleCallbackOrder | src/main/kotlin/ComponentInteractions.kt:24-57 | a single-callback helper (hover, mouse move, focus) calls each listener once, in registration order |
| ChildInteractions.TargetUnder | src/main/kotlin/com/github/alyssaburlton/swingtest/ChildInteractions.kt:60 | the button `getChild` resolves is below the container |
| ChildInteractions.ClickChild | src/main/kotlin/com/github/alyssaburlton/swingtest/ChildInteractions.kt:53-61 | a failed resolution returns `getChild`'s error and clicks nothing; otherwise the resolved button, and no other button below the container, is clicked |
| ChildInteractions.PressUnder | src/main/kotlin/com/github/alyssaburlton/swingtest/ChildInteractions.kt:60 | clicking one widget below the container leaves every other widget's selection unchanged |
| ChildInteractions.TargetIsButton | src/main/kotlin/com/github/alyssaburlton/swingtest/ChildInteractions.kt:53-60 | the clicked component is an AbstractButton that matches every criterion |
| ChildInteractions.ClickReachesOnlyTarget | src/main/kotlin/com/github/alyssaburlton/swingtest/ChildInteractions.kt:60 | every logged call of the click goes to one of the target's action listeners, with an event from the target |
| ChildInteractions.CommonButtonMeaning | src/main/kotlin/com/github/alyssaburlton/swingtest/ChildInteractions.kt:11-14 | the resolved button's caption equals the word ignoring case, and it is the only such button |
| ChildInteractions.ClickCommonButton | src/main/kotlin/com/github/alyssaburlton/swingtest/ChildInteractions.kt:11-14 | with the caption predicate alone: a failed resolution returns its error and clicks nothing; otherwise the one button below the container whose caption equals the word ignoring case is pressed (its action listeners called, a toggle flipped) and no other button changes |
| ChildInteractions.ClickOk | src/main/kotlin/com/github/alyssaburlton/swingtest/ChildInteractions.kt:6 | the same contract for "ok": the error, or the one "ok" button pressed and nothing else changed |
| ChildInteractions.ClickCancel | src/main/kotlin/com/github/alyssaburlton/swingtest/ChildInteractions.kt:7 | the same contract for "cancel" |
| ChildInteractions.ClickYes | src/main/kotlin/com/github/alyssaburlton/swingtest/ChildInteractions.kt:8 | the same contract for "yes" |
| ChildInteractions.ClickNo | src/main/kotlin/com/github/alyssaburlton/swingtest/ChildInteractions.kt:9 | the same contract for "no" |
| ChildInteractions.CaptionIgnoresCase | src/main/kotlin/com/github/alyssaburlton/swingtest/ChildInteractions.kt:13 | "OK" and "Ok" match "ok", "nO" matches "no", and "Okay" does not match "ok" |
| Snapshots.Row | src/main/kotlin/com/github/alyssaburlton/swingtest/SwingSnapshots.kt:110 | one row holds Point(x, y) for every x from 0 below the width, in order |
| Snapshots.PointListInBounds | src/main/kotlin/com/github/alyssaburlton/swingtest/SwingSnapshots.kt:106-111 | every listed point lies inside the width × height rectangle |
| Snapshots.PointListLength | src/main/kotlin/SwingSnapshots.kt:54-59 | the list has width × height points |
| Snapshots.PointListAt | src/main/kotlin/com/github/alyssaburlton/swingtest/SwingSnapshots.kt:106-111 | row-major order: Point(x, y) is entry y·width + x |
| Snapshots.PointListExample | src/main/kotlin/com/github/alyssaburlton/swingtest/SwingSnapshots.kt:106-111 | the list for a 3 × 2 image, written out |
| Snapshots.IsEqual | src/main/kotlin/com/github/alyssaburlton/swingtest/SwingSnapshots.kt:101-104 | `isEqual` holds if and only if the sizes agree and every pixel agrees, that is, if and only if the two images are equal |
| Snapshots.AllPixelsMatchMeaning | src/main/kotlin/com/github/alyssaburlton/swingtest/SwingSnapshots.kt:103 | `all` over the points holds if and only if every listed pixel agrees |
| Snapshots.PixelsMatchIsEquality | src/main/kotlin/com/github/alyssaburlton/swingtest/SwingSnapshots.kt:102-103 | for two images of one size, `all` over the point list holds exactly when every pixel agrees, which is exactly when the images are equal |
| Snapshots.WidthForSnapshot | src/main/kotlin/com/github/alyssaburlton/swingtest/SwingSnapshots.kt:44-48 | the width if positive, else the preferred width if positive, else 200; always positive |
| Snapshots.HeightForSnapshot | src/main/kotlin/com/github/alyssaburlton/swingtest/SwingSnapshots.kt:50-54 | the same rule for the height |
| Snapshots.SnapshotImageWellFormed | src/main/kotlin/com/github/alyssaburlton/swingtest/SwingSnapshots.kt:34-42 | the image is painted at the snapshot size, which a `BufferedImage` always accepts |
| Snapshots.NoFilterNeverSkips | src/main/kotlin/com/github/alyssaburlton/swingtest/SwingSnapshots.kt:91-94 | an unset or empty OS setting never skips |
| Snapshots.OwnOsNeverSkips | src/main/kotlin/com/github/alyssaburlton/swingtest/SwingSnapshots.kt:91-95 | configuring the running OS's own name, in any case, never skips |
| Snapshots.WrongOsMeaning | src/main/kotlin/com/github/alyssaburlton/swingtest/SwingSnapshots.kt:94-98 | a non-empty setting skips exactly when it is not part of the lower-cased `os.name` |
| Snapshots.PathsDistinct | src/main/kotlin/com/github/alyssaburlton/swingtest/SwingSnapshots.kt:65-82 | the reference, `.failed.png` and `.comparison.png` files are three different files |
| Snapshots.SnapshotStore.Read | src/main/kotlin/com/github/alyssaburlton/swingtest/SwingSnapshots.kt:75 | reading an existing file gives its image |
| Snapshots.SnapshotStore.Write | src/main/kotlin/com/github/alyssaburlton/swingtest/SwingSnapshots.kt:73 | writing creates or replaces that one file |
| Snapshots.ShouldMatchImage | src/main/kotlin/com/github/alyssaburlton/swingtest/SwingSnapshots.kt:56-88 | the verdict and the files afterwards are those `Outcome` gives for the image painted at the snapshot size |
| Snapshots.CheckReference | src/main/kotlin/com/github/alyssaburlton/swingtest/SwingSnapshots.kt:59-87 | the existence check, then the update or the comparison, with the writes `AgainstReference` gives |
| Snapshots.SkipWritesNothing | src/main/kotlin/com/github/alyssaburlton/swingtest/SwingSnapshots.kt:57 | a test skipped for the OS writes nothing |
| Snapshots.MissingReferenceFails | src/main/kotlin/com/github/alyssaburlton/swingtest/SwingSnapshots.kt:66-68 | a missing reference outside update mode fails with the not-found message before anything is written |
| Snapshots.OverwriteStores | src/main/kotlin/com/github/alyssaburlton/swingtest/SwingSnapshots.kt:72-73 | update mode stores the rendering as the reference and passes, whatever the comparator would say |
| Snapshots.MismatchKeepsReference | src/main/kotlin/com/github/alyssaburlton/swingtest/SwingSnapshots.kt:78-86 | a mismatch fails, adds exactly `.failed.png` (the rendering) and `.comparison.png` (the diff), and leaves the reference and every other file as they were |
| Snapshots.MatchWritesNothing | src/main/kotlin/com/github/alyssaburlton/swingtest/SwingSnapshots.kt:76-78 | a match passes and writes nothing |
| Snapshots.RecordThenCheck | src/main/kotlin/com/github/alyssaburlton/swingtest/SwingSnapshots.kt:72-78 | recording in update mode and then checking the same rendering passes without writing, if the comparator finds an image equal to itself |
| OldSnapshots.ShouldMatchImage | src/main/kotlin/SwingSnapshots.kt:13-47 | the verdict and the files afterwards are those the oldest revision's `Outcome` gives, and every stored image stays well formed |
| OldSnapshots.CheckReference | src/main/kotlin/SwingSnapshots.kt:29-46 | the existence check, then the update or the `isEqual` comparison, with the writes `AgainstReference` gives |
| OldSnapshots.MissingReferenceFails | src/main/kotlin/SwingSnapshots.kt:29-32 | a missing reference outside update mode fails and stores nothing |
| OldSnapshots.OverwriteStores | src/main/kotlin/SwingSnapshots.kt:36-37 | update mode replaces the reference with the rendering |
| OldSnapshots.CompareOutcome | src/main/kotlin/SwingSnapshots.kt:39-45 | an identical reference passes and writes nothing; any other fails, writes only `.failed.png` and keeps the reference |
| OldSnapshots.UnsizedComponentIsRejected | src/main/kotlin/SwingSnapshots.kt:22 | a component without a positive size cannot be captured in the oldest revision |
| OldSnapshots.RecordThenCheck | src/main/kotlin/SwingSnapshots.kt:36-45 | recording and then checking the same rendering passes and writes nothing more |

## Left out

- Threads: `maybeAsync`, `flushEdt`, `invokeLater`/`invokeAndWait` and the waiting helpers are left out. Only the effect of each helper's body is modelled.
- Exceptions across threads: an error the model returns is the exception the body throws. In the newest revision, a synchronous helper runs its body through `invokeAndWait` (`ComponentInteractions.kt:11-18`, `ChildInteractions.kt:59-60`), so the caller receives it wrapped in an InvocationTargetException. In async mode it is thrown on the event thread and does not reach the caller. The oldest `ComponentInteractions.kt` runs the body directly and throws it bare.
- SwingTestCleanupExtension.kt, EventFactory.kt and ComponentAssertions.kt are not part of this model. There is no logic in them beyond constructors and one-line assertions.
- Events are abstract records: kind, source, id, position and click count. Timestamps and modifiers are left out.
- The Swing class hierarchy and reflection are given as data: a subtype relation and a getter table per class. `getText`/`getToolTipText` of a component are its `text`/`toolTipText` fields. A getter that returns a non-String object other than null is not modelled.
- `Widget.Press` does not model the press animation (`doClick` holds the button pressed for a moment), item or change listeners, or button groups.
- The description bodies of frames, dialogs, combo boxes, scroll bars, tables and other containers (`Debugging.kt` lines 46-67) are one abstract `summary` string per component. Only the button, label, tooltip and name rules are modelled.
- A component's children and BorderLayout constraints are a value snapshot taken when the finder or the dump runs.
- Painting (`paint`, `toBufferedImage`, `Icon.shouldMatch`) is a renderer parameter, assumed to produce a well-formed image of the requested size.
- The `ImageComparison` library is a comparator parameter.
- System properties, environment variables, `os.name` and the calling class found on the stack are plain inputs.
- The file system is a map from path to image. Directories (`file.mkdirs()`) are not modelled. `ImageIO.read` failing or returning null is not modelled. `${file.path}` in the oldest messages is the path string as built.
- Case handling (`lowercase()`, `equals(ignoreCase = true)`) is modelled for ASCII letters only.
- Interactions.Widget.ProcessKeyPress: the input map is the key–to–action lookup with its parents already merged. The action map is the component's own map only. A binding only a parent action map holds is therefore not reached, as in the source.
