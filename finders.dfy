/** The finders of the current revision (package
    com.github.alyssaburlton.swingtest): `findChild` narrows the result of
    `findAll` by text, then name, then a caller predicate, and resolves the
    survivors as none, one, or an error; `getChild` requires one; and
    `findWindow` applies the same policy to the top-level windows. */
module Finders {
  import opened Util
  import opened Widgets
  import Walk
  import Debugging

  /** The exceptions the finders throw, with their messages. */
  datatype FinderError =
    | MultipleComponents(message: string)
    | NoSuchComponent(message: string)
    | NoSuchMethod(message: string)
    | MultipleWindows(message: string)

  // ---------------------------------------------------------------------------
  // Messages

  /** "Found <count> <rest>", the shape of every count-bearing message. */
  function CountedMessage(count: nat, rest: string): string
  {
    "Found " + NatToString(count) + " " + rest
  }

  /** The count at the head of a message can be read back: two messages
      that are equal name the same count and the same rest. */
  lemma CountedMessageInjective(a: nat, b: nat, x: string, y: string)
    requires CountedMessage(a, x) == CountedMessage(b, y)
    ensures a == b && x == y
  {
    var u, v := NatToString(a) + " " + x, NatToString(b) + " " + y;
    assert CountedMessage(a, x) == "Found " + u;
    assert CountedMessage(b, y) == "Found " + v;
    assert u == CountedMessage(a, x)[6..] == CountedMessage(b, y)[6..] == v;
    NumberBeforeSpace(a, b, x, y);
  }

  /** The message `MultipleComponentsException` and `NoSuchComponentException`
      build from the text they are given: it, then the component tree of the
      container searched. */
  function WithTree(h: Hierarchy, container: Node, message: string): string
  {
    message + ". \n\nComponent tree:\n\n" + Debugging.ComponentTree(h, container)
  }

  /** The container's tree always follows the given text, so the text can
      be recovered from the final message. */
  lemma WithTreeInjective(h: Hierarchy, container: Node, m1: string, m2: string)
    requires WithTree(h, container, m1) == WithTree(h, container, m2)
    ensures m1 == m2
  {
    var tree := Debugging.ComponentTree(h, container);
    var tail := ". \n\nComponent tree:\n\n" + tree;
    AppendAssociative(m1, ". \n\nComponent tree:\n\n", tree);
    AppendAssociative(m2, ". \n\nComponent tree:\n\n", tree);
    AppendCancelRight(m1, m2, tail);
  }

  /** `findChild`'s text for more than one survivor. */
  function ManyMessage(count: nat, cls: Class, name: Option<string>, text: Option<string>): string
  {
    CountedMessage(count, cls.simpleName + "s, expected 1 or 0. name [" + OrNull(name) + "], Text [" + OrNull(text) + "]")
  }

  /** `getChild`'s text for no match. */
  function NoneMessage(cls: Class, name: Option<string>, text: Option<string>): string
  {
    CountedMessage(0, cls.simpleName + "s. Text [" + OrNull(text) + "], name [" + OrNull(name) + "]")
  }

  /** The message of `Class.getMethod("getText")` failing on `cls`. */
  function MissingGetText(cls: Class): string
  {
    cls.fullName + ".getText()"
  }

  // ---------------------------------------------------------------------------
  // Filters

  /** The text filter keeps a component iff the string form of its text
      (`"$result"`, which prints null as "null") equals the match. */
  predicate TextOk(text: Option<string>, n: Node)
  {
    text.None? || OrNull(n.text) == text.value
  }

  predicate NameOk(name: Option<string>, n: Node)
  {
    name.None? || n.name == name
  }

  predicate FnOk(filterFn: Option<Node -> bool>, n: Node)
  {
    filterFn.None? || filterFn.value(n)
  }

  /** Everything `findChild` asks of a component. */
  predicate Matches(h: Hierarchy, cls: Class, name: Option<string>, text: Option<string>,
                    filterFn: Option<Node -> bool>, n: Node)
  {
    IsA(h, n, cls.id) && TextOk(text, n) && NameOk(name, n) && FnOk(filterFn, n)
  }

  /** `filterByText(clazz, components, match)`: a null match returns the list
      as it is; otherwise the requested class must have `getText`, even when
      there is nothing to filter, and the survivors are the components whose
      text prints as the match, in order. */
  function FilterByText(cls: Class, comps: seq<Node>, wanted: Option<string>): (r: Result<seq<Node>, FinderError>)
    ensures wanted.None? ==> r == Success(comps)
    ensures wanted.Some? && "getText" !in cls.getters ==> r == Failure(NoSuchMethod(MissingGetText(cls)))
    ensures wanted.Some? && "getText" in cls.getters ==>
      && r.Success?
      && IsSubsequence(r.value, comps)
      && (forall i :: 0 <= i < |r.value| ==> OrNull(r.value[i].text) == wanted.value)
      && (forall i :: 0 <= i < |comps| && OrNull(comps[i].text) == wanted.value ==> comps[i] in r.value)
  {
    if wanted.None? then
      Success(comps)
    else if "getText" !in cls.getters then
      Failure(NoSuchMethod(MissingGetText(cls)))
    else
      var keep := (n: Node) => OrNull(n.text) == wanted.value;
      FilterIsSubsequence(comps, keep);
      Success(Filter(comps, keep))
  }

  /** A component with no text is found by the text "null". */
  lemma NullTextMatchesNull(cls: Class, comps: seq<Node>, i: nat)
    requires "getText" in cls.getters && i < |comps| && comps[i].text.None?
    ensures FilterByText(cls, comps, Some("null")).Success?
    ensures comps[i] in FilterByText(cls, comps, Some("null")).value
  {
  }

  /** The components that survive every filter of `findChild`, in the order
      the code applies them. */
  function Survivors(h: Hierarchy, root: Node, cls: Class, name: Option<string>, text: Option<string>,
                     filterFn: Option<Node -> bool>): Result<seq<Node>, FinderError>
  {
    var all := Filter(Flatten(root.children), (n: Node) => IsA(h, n, cls.id));
    match FilterByText(cls, all, text)
    case Failure(e) => Failure(e)
    case Success(byText) =>
      var byName := Filter(byText, (n: Node) => NameOk(name, n));
      Success(if filterFn.Some? then Filter(byName, filterFn.value) else byName)
  }

  /** The text filter fails exactly when a text is given for a class
      without `getText`. */
  predicate TextUnsupported(cls: Class, text: Option<string>)
  {
    text.Some? && "getText" !in cls.getters
  }

  /** The chain of filters is one filter by the conjunction: the survivors
      are exactly the descendants matching every given criterion, in
      pre-order. Unset filters impose nothing. */
  lemma {:induction false} SurvivorsAreMatches(h: Hierarchy, root: Node, cls: Class, name: Option<string>,
                                               text: Option<string>, filterFn: Option<Node -> bool>)
    requires !TextUnsupported(cls, text)
    ensures Survivors(h, root, cls, name, text, filterFn)
      == Success(Filter(Flatten(root.children), (n: Node) => Matches(h, cls, name, text, filterFn, n)))
  {
    var flat := Flatten(root.children);
    var p1 := (n: Node) => IsA(h, n, cls.id);
    var pt := (n: Node) => TextOk(text, n);
    var pn := (n: Node) => NameOk(name, n);
    var pf := (n: Node) => FnOk(filterFn, n);
    var all := Filter(flat, p1);
    var byText := FilterByText(cls, all, text).value;
    assert byText == Filter(all, pt) by {
      if text.None? {
        FilterKeepsAll(all, pt);
      } else {
        FilterCongruent(all, pt, (n: Node) => OrNull(n.text) == text.value);
      }
    }
    var byName := Filter(byText, pn);
    var last := if filterFn.Some? then Filter(byName, filterFn.value) else byName;
    assert last == Filter(byName, pf) by {
      if filterFn.None? {
        FilterKeepsAll(byName, pf);
      } else {
        FilterCongruent(byName, pf, filterFn.value);
      }
    }
    FilterChain(flat, p1, pt, pn, pf, (n: Node) => Matches(h, cls, name, text, filterFn, n));
  }

  /** With no name, no text and no predicate, `findChild` sees all of
      `findAll`'s result. */
  lemma UnsetFiltersKeepAll(h: Hierarchy, root: Node, cls: Class)
    ensures Survivors(h, root, cls, None, None, None) == Success(Filter(Flatten(root.children), (n: Node) => IsA(h, n, cls.id)))
  {
    var all := Filter(Flatten(root.children), (n: Node) => IsA(h, n, cls.id));
    FilterKeepsAll(all, (n: Node) => NameOk(None, n));
  }

  /** Each filter only narrows: the survivors are a subsequence of
      `findAll`'s result. */
  lemma SurvivorsNarrow(h: Hierarchy, root: Node, cls: Class, name: Option<string>,
                        text: Option<string>, filterFn: Option<Node -> bool>)
    requires !TextUnsupported(cls, text)
    ensures Survivors(h, root, cls, name, text, filterFn).Success?
    ensures IsSubsequence(Survivors(h, root, cls, name, text, filterFn).value,
                          Filter(Flatten(root.children), (n: Node) => IsA(h, n, cls.id)))
  {
    var flat := Flatten(root.children);
    var p1 := (n: Node) => IsA(h, n, cls.id);
    var m := (n: Node) => Matches(h, cls, name, text, filterFn, n);
    SurvivorsAreMatches(h, root, cls, name, text, filterFn);
    FilterFilter(flat, p1, m, m);
    FilterIsSubsequence(Filter(flat, p1), m);
  }

  // ---------------------------------------------------------------------------
  // findChild

  /** The outcome of `findChild`: a missing `getText` when a text is given;
      otherwise null for no match, the match for exactly one, and
      `MultipleComponentsException` naming the count for more. */
  function ChildOutcome(h: Hierarchy, root: Node, cls: Class, name: Option<string>, text: Option<string>,
                        filterFn: Option<Node -> bool>): (r: Result<Option<Node>, FinderError>)
    ensures TextUnsupported(cls, text) ==> r == Failure(NoSuchMethod(MissingGetText(cls)))
    ensures !TextUnsupported(cls, text) ==>
      var s := Filter(Flatten(root.children), (n: Node) => Matches(h, cls, name, text, filterFn, n));
      && (|s| == 0 ==> r == Success(None))
      && (|s| == 1 ==> r == Success(Some(s[0])))
      && (|s| > 1 ==> r == Failure(MultipleComponents(WithTree(h, root, ManyMessage(|s|, cls, name, text)))))
  {
    if TextUnsupported(cls, text) then
      Failure(NoSuchMethod(MissingGetText(cls)))
    else
      SurvivorsAreMatches(h, root, cls, name, text, filterFn);
      var s := Survivors(h, root, cls, name, text, filterFn).value;
      if |s| > 1 then Failure(MultipleComponents(WithTree(h, root, ManyMessage(|s|, cls, name, text))))
      else if |s| == 0 then Success(None)
      else Success(Some(s[0]))
  }

  /** What a found component is: a descendant matching every criterion,
      and the only one. Null means no descendant matches. */
  lemma ChildOutcomeMeaning(h: Hierarchy, root: Node, cls: Class, name: Option<string>, text: Option<string>,
                            filterFn: Option<Node -> bool>)
    ensures var r := ChildOutcome(h, root, cls, name, text, filterFn);
      var flat := Flatten(root.children);
      && (r == Success(None) ==>
            forall i :: 0 <= i < |flat| ==> !Matches(h, cls, name, text, filterFn, flat[i]))
      && (r.Success? && r.value.Some? ==>
            && r.value.value in flat && r.value.value != root
            && Matches(h, cls, name, text, filterFn, r.value.value)
            && forall i :: 0 <= i < |flat| && Matches(h, cls, name, text, filterFn, flat[i]) ==> flat[i] == r.value.value)
  {
    var r := ChildOutcome(h, root, cls, name, text, filterFn);
    var flat := Flatten(root.children);
    var m := (n: Node) => Matches(h, cls, name, text, filterFn, n);
    NotOwnDescendant(root);
    forall i | 0 <= i < |flat| && Matches(h, cls, name, text, filterFn, flat[i])
      ensures r != Success(None)
      ensures r.Success? && r.value.Some? ==> flat[i] == r.value.value
    {
      FilterSingle(flat, m, i);
    }
  }

  /** Several matches are reported with their number, and the number can be
      read back from the message. */
  lemma ManyMessageNamesCount(a: nat, b: nat, cls: Class, name: Option<string>, text: Option<string>)
    requires ManyMessage(a, cls, name, text) == ManyMessage(b, cls, name, text)
    ensures a == b
  {
    var rest := cls.simpleName + "s, expected 1 or 0. name [" + OrNull(name) + "], Text [" + OrNull(text) + "]";
    CountedMessageInjective(a, b, rest, rest);
  }

  /** `findChild(clazz, name, text, filterFn)`. */
  method FindChild(h: Hierarchy, root: Node, cls: Class, name: Option<string>, text: Option<string>,
                   filterFn: Option<Node -> bool>) returns (r: Result<Option<Node>, FinderError>)
    ensures r == ChildOutcome(h, root, cls, name, text, filterFn)
  {
    var survivors := FilterCandidates(h, root, cls, name, text, filterFn);
    if survivors.Failure? {
      return Failure(survivors.error);
    }
    var filtered := survivors.value;
    if |filtered| > 1 {
      return Failure(MultipleComponents(WithTree(h, root, ManyMessage(|filtered|, cls, name, text))));
    }
    r := Success(if |filtered| == 0 then None else Some(filtered[0]));
  }

  /** The filtering half of `findChild`: every instance of the class below
      the container, then the text, name and predicate filters in turn. */
  method FilterCandidates(h: Hierarchy, root: Node, cls: Class, name: Option<string>, text: Option<string>,
                          filterFn: Option<Node -> bool>) returns (r: Result<seq<Node>, FinderError>)
    ensures r == Survivors(h, root, cls, name, text, filterFn)
  {
    var allComponents := Walk.FindAll(h, root, cls.id);
    var byText := FilterByText(cls, allComponents, text);
    if byText.Failure? {
      return Failure(byText.error);
    }
    var filtered := byText.value;
    filtered := Filter(filtered, (n: Node) => NameOk(name, n));
    if filterFn.Some? {
      filtered := Filter(filtered, filterFn.value);
    }
    r := Success(filtered);
  }

  // ---------------------------------------------------------------------------
  // getChild

  /** The outcome of `getChild`: the outcome of `findChild`, with null
      turned into `NoSuchComponentException` ("Found 0 ..."). It succeeds
      exactly when one descendant matches every criterion, and returns
      that one. */
  function RequiredOutcome(h: Hierarchy, root: Node, cls: Class, name: Option<string>, text: Option<string>,
                           filterFn: Option<Node -> bool>): (r: Result<Node, FinderError>)
    ensures TextUnsupported(cls, text) ==> r == Failure(NoSuchMethod(MissingGetText(cls)))
    ensures !TextUnsupported(cls, text) ==>
      var s := Filter(Flatten(root.children), (n: Node) => Matches(h, cls, name, text, filterFn, n));
      && (|s| == 0 ==> r == Failure(NoSuchComponent(WithTree(h, root, NoneMessage(cls, name, text)))))
      && (|s| == 1 ==> r == Success(s[0]))
      && (|s| > 1 ==> r == Failure(MultipleComponents(WithTree(h, root, ManyMessage(|s|, cls, name, text)))))
  {
    match ChildOutcome(h, root, cls, name, text, filterFn)
    case Failure(e) => Failure(e)
    case Success(found) =>
      if found.Some? then Success(found.value)
      else Failure(NoSuchComponent(WithTree(h, root, NoneMessage(cls, name, text))))
  }

  /** `getChild(clazz, name, text, filterFn)`. */
  method GetChild(h: Hierarchy, root: Node, cls: Class, name: Option<string>, text: Option<string>,
                  filterFn: Option<Node -> bool>) returns (r: Result<Node, FinderError>)
    ensures r == RequiredOutcome(h, root, cls, name, text, filterFn)
  {
    var found := FindChild(h, root, cls, name, text, filterFn);
    if found.Failure? {
      return Failure(found.error);
    }
    if found.value.None? {
      return Failure(NoSuchComponent(WithTree(h, root, NoneMessage(cls, name, text))));
    }
    r := Success(found.value.value);
  }

  // ---------------------------------------------------------------------------
  // findWindow

  /** The message of `MultipleWindowsException`: the count, then the tree of
      every matching window, separated by "------\n". */
  function WindowsMessage(h: Hierarchy, cls: Class, windows: seq<Node>): string
  {
    CountedMessage(|windows|, cls.simpleName + "s, expected 1 or 0:\n\n"
      + JoinWith(seq(|windows|, i requires 0 <= i < |windows| => Debugging.ComponentTree(h, windows[i])), "------\n"))
  }

  predicate WindowOk(h: Hierarchy, cls: Class, pred: Node -> bool, w: Node)
  {
    IsA(h, w, cls.id) && pred(w)
  }

  /** `findWindow(clazz, predicate)` over the open top-level windows
      `windows` (`Window.getWindows()`): a window is returned only if it is
      the only one that is an instance of the class and satisfies the
      predicate; null means none does; several raise
      `MultipleWindowsException` naming their number. "Several" counts
      positions in the list, so two entries that are equal as values still
      raise. */
  function FindWindow(h: Hierarchy, windows: seq<Node>, cls: Class, pred: Node -> bool): (r: Result<Option<Node>, FinderError>)
    ensures r == Success(None) <==> forall i :: 0 <= i < |windows| ==> !WindowOk(h, cls, pred, windows[i])
    ensures r.Success? && r.value.Some? ==>
      && r.value.value in windows && WindowOk(h, cls, pred, r.value.value)
      && forall i :: 0 <= i < |windows| && WindowOk(h, cls, pred, windows[i]) ==> windows[i] == r.value.value
    ensures var s := Filter(windows, (w: Node) => WindowOk(h, cls, pred, w));
      && (r.Failure? <==> |s| > 1)
      && (r.Failure? ==> r == Failure(MultipleWindows(WindowsMessage(h, cls, s))))
      && (r.Success? && r.value.Some? <==> |s| == 1)
      && (r.Success? && r.value.Some? ==> r.value.value == s[0])
  {
    var filtered := Filter(windows, (w: Node) => WindowOk(h, cls, pred, w));
    if |filtered| > 1 then
      Failure(MultipleWindows(WindowsMessage(h, cls, filtered)))
    else if |filtered| == 0 then
      Success(None)
    else
      Success(Some(filtered[0]))
  }

  /** The default predicate `{ true }` only asks for the class. */
  lemma FindWindowDefault(h: Hierarchy, windows: seq<Node>, cls: Class)
    ensures FindWindow(h, windows, cls, (w: Node) => true) == Success(None)
      <==> forall i :: 0 <= i < |windows| ==> !IsA(h, windows[i], cls.id)
  {
    var trueFn := (w: Node) => true;
    assert forall i :: 0 <= i < |windows| ==> (WindowOk(h, cls, trueFn, windows[i]) <==> IsA(h, windows[i], cls.id));
  }
}
