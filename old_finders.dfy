/** `find` of the two earlier revisions of ComponentFinders.kt: the one in
    package com.github.alexburlton.swingtest and the original one in the
    default package. Both narrow `findAll`'s result by Text, then
    ToolTipText, then a caller predicate, through `filterByField`, whose
    getter must return a String for every candidate it examines. They
    differ only in how the non-String error names the class. */
module OldFinders {
  import opened Util
  import opened Widgets
  import Walk

  /** Which revision's messages to use. */
  datatype Revision = AlexburltonPackage | DefaultPackage

  /** The two fields `find` filters on. */
  datatype Field = Text | ToolTipText

  function FieldName(f: Field): string
  {
    match f
    case Text => "Text"
    case ToolTipText => "ToolTipText"
  }

  function Getter(f: Field): string
  {
    "get" + FieldName(f)
  }

  /** What the getter returns for a component (`None` for null). */
  function FieldValue(n: Node, f: Field): Option<string>
  {
    match f
    case Text => n.text
    case ToolTipText => n.toolTipText
  }

  datatype FindError =
    | MultipleComponents(message: string)
    | NoSuchMethod(message: string)

  /** `Class.getMethod` failing: the class's name, the method, "()". */
  function MissingGetterMessage(cls: Class, f: Field): string
  {
    cls.fullName + "." + Getter(f) + "()"
  }

  /** The message thrown when a getter returns something other than a
      String. The package revision names the class by its simple name; the
      default-package revision prints the class object, which reads
      "class <full name>". */
  function NonStringMessage(rev: Revision, cls: Class, f: Field): string
    requires Getter(f) in cls.getters
  {
    var owner := if rev == AlexburltonPackage then cls.simpleName else "class " + cls.fullName;
    owner + ".get" + FieldName(f) + " exists, but has non-String return type: " + cls.getters[Getter(f)]
  }

  /** The `filter` inside `filterByField`: visits the components in order,
      throws `err` at the first one whose value is not a String, and
      otherwise keeps those equal to `wanted`. */
  function KeepEqual(comps: seq<Node>, f: Field, wanted: string, err: FindError): Result<seq<Node>, FindError>
  {
    if comps == [] then
      Success([])
    else if FieldValue(comps[0], f).None? then
      Failure(err)
    else
      match KeepEqual(comps[1..], f, wanted, err)
      case Failure(e) => Failure(e)
      case Success(rest) => Success((if FieldValue(comps[0], f) == Some(wanted) then [comps[0]] else []) + rest)
  }

  predicate HasValue(f: Field, n: Node)
  {
    FieldValue(n, f).Some?
  }

  predicate Equals(f: Field, wanted: string, n: Node)
  {
    FieldValue(n, f) == Some(wanted)
  }

  /** The filter throws exactly when some candidate's value is null;
      otherwise it keeps exactly the candidates whose value is `wanted`, in
      order. */
  lemma {:induction false} KeepEqualMeaning(comps: seq<Node>, f: Field, wanted: string, err: FindError)
    ensures KeepEqual(comps, f, wanted, err).Failure? <==> exists i :: 0 <= i < |comps| && !HasValue(f, comps[i])
    ensures KeepEqual(comps, f, wanted, err).Failure? ==> KeepEqual(comps, f, wanted, err) == Failure(err)
    ensures KeepEqual(comps, f, wanted, err).Success? ==>
      KeepEqual(comps, f, wanted, err).value == Filter(comps, (n: Node) => Equals(f, wanted, n))
  {
    if comps != [] {
      KeepEqualMeaning(comps[1..], f, wanted, err);
      if !HasValue(f, comps[0]) {
        assert !HasValue(f, comps[0 + 0]);
      } else if exists i :: 0 <= i < |comps[1..]| && !HasValue(f, comps[1..][i]) {
        var i :| 0 <= i < |comps[1..]| && !HasValue(f, comps[1..][i]);
        assert !HasValue(f, comps[i + 1]);
      } else {
        forall i | 0 <= i < |comps|
          ensures HasValue(f, comps[i])
        {
          if i > 0 {
            assert comps[i] == comps[1..][i - 1];
          }
        }
      }
    }
  }

  /** `filterByField(clazz, components, fieldName, match)`: a null match
      returns the list unchanged; otherwise the getter must exist on the
      requested class, and the eager filter runs. */
  function FilterByField(rev: Revision, cls: Class, comps: seq<Node>, f: Field, wanted: Option<string>)
    : (r: Result<seq<Node>, FindError>)
    ensures wanted.None? ==> r == Success(comps)
    ensures wanted.Some? && Getter(f) !in cls.getters ==> r == Failure(NoSuchMethod(MissingGetterMessage(cls, f)))
    ensures wanted.Some? && Getter(f) in cls.getters ==>
      && (r.Failure? <==> exists i :: 0 <= i < |comps| && !HasValue(f, comps[i]))
      && (r.Failure? ==> r == Failure(NoSuchMethod(NonStringMessage(rev, cls, f))))
      && (r.Success? ==> r.value == Filter(comps, (n: Node) => Equals(f, wanted.value, n)))
  {
    if wanted.None? then
      Success(comps)
    else if Getter(f) !in cls.getters then
      Failure(NoSuchMethod(MissingGetterMessage(cls, f)))
    else
      var err := NoSuchMethod(NonStringMessage(rev, cls, f));
      KeepEqualMeaning(comps, f, wanted.value, err);
      KeepEqual(comps, f, wanted.value, err)
  }

  /** A filter that does not throw keeps an in-order subsequence. */
  lemma FilterByFieldNarrows(rev: Revision, cls: Class, comps: seq<Node>, f: Field, wanted: Option<string>)
    requires FilterByField(rev, cls, comps, f, wanted).Success?
    ensures IsSubsequence(FilterByField(rev, cls, comps, f, wanted).value, comps)
  {
    if wanted.None? {
      FilterKeepsAll(comps, (n: Node) => true);
      FilterIsSubsequence(comps, (n: Node) => true);
    } else {
      FilterIsSubsequence(comps, (n: Node) => Equals(f, wanted.value, n));
    }
  }

  /** `find`'s text for more than one survivor (no component tree). */
  function ManyMessage(count: nat, cls: Class, text: Option<string>, toolTipText: Option<string>): string
  {
    "Found " + NatToString(count) + " " + cls.simpleName + "s, expected 1 or 0. Text [" + OrNull(text)
      + "], ToolTipText [" + OrNull(toolTipText) + "]"
  }

  /** The survivors of the three filters, in the order the code applies
      them. */
  function Survivors(rev: Revision, h: Hierarchy, root: Node, cls: Class, text: Option<string>,
                     toolTipText: Option<string>, filterFn: Option<Node -> bool>): Result<seq<Node>, FindError>
  {
    var all := Filter(Flatten(root.children), (n: Node) => IsA(h, n, cls.id));
    match FilterByField(rev, cls, all, Text, text)
    case Failure(e) => Failure(e)
    case Success(byText) =>
      match FilterByField(rev, cls, byText, ToolTipText, toolTipText)
      case Failure(e) => Failure(e)
      case Success(byTip) => Success(if filterFn.Some? then Filter(byTip, filterFn.value) else byTip)
  }

  /** The outcome of `find`: a filter's exception propagates; otherwise,
      counting the descendants that match every criterion, null for none,
      the match for one, `MultipleComponentsException` with the count for
      more. */
  function FindOutcome(rev: Revision, h: Hierarchy, root: Node, cls: Class, text: Option<string>,
                       toolTipText: Option<string>, filterFn: Option<Node -> bool>): (r: Result<Option<Node>, FindError>)
    ensures Survivors(rev, h, root, cls, text, toolTipText, filterFn).Failure? ==>
      r == Failure(Survivors(rev, h, root, cls, text, toolTipText, filterFn).error)
    ensures Survivors(rev, h, root, cls, text, toolTipText, filterFn).Success? ==>
      var s := Filter(Flatten(root.children), (n: Node) => Matches(h, cls, text, toolTipText, filterFn, n));
      && (|s| == 0 ==> r == Success(None))
      && (|s| == 1 ==> r == Success(Some(s[0])))
      && (|s| > 1 ==> r == Failure(MultipleComponents(ManyMessage(|s|, cls, text, toolTipText))))
  {
    match Survivors(rev, h, root, cls, text, toolTipText, filterFn)
    case Failure(e) => Failure(e)
    case Success(s) =>
      SurvivorsAreMatches(rev, h, root, cls, text, toolTipText, filterFn);
      if |s| > 1 then Failure(MultipleComponents(ManyMessage(|s|, cls, text, toolTipText)))
      else if |s| == 0 then Success(None)
      else Success(Some(s[0]))
  }

  /** `find(clazz, text, toolTipText, filterFn)`. */
  method Find(rev: Revision, h: Hierarchy, root: Node, cls: Class, text: Option<string>,
              toolTipText: Option<string>, filterFn: Option<Node -> bool>) returns (r: Result<Option<Node>, FindError>)
    ensures r == FindOutcome(rev, h, root, cls, text, toolTipText, filterFn)
  {
    var allComponents := Walk.FindAll(h, root, cls.id);
    var byText := FilterByField(rev, cls, allComponents, Text, text);
    if byText.Failure? {
      return Failure(byText.error);
    }
    var filtered := byText.value;
    var byTip := FilterByField(rev, cls, filtered, ToolTipText, toolTipText);
    if byTip.Failure? {
      return Failure(byTip.error);
    }
    filtered := byTip.value;
    if filterFn.Some? {
      filtered := Filter(filtered, filterFn.value);
    }
    if |filtered| > 1 {
      return Failure(MultipleComponents(ManyMessage(|filtered|, cls, text, toolTipText)));
    }
    r := Success(if |filtered| == 0 then None else Some(filtered[0]));
  }

  /** Everything `find` asks of a component. */
  predicate Matches(h: Hierarchy, cls: Class, text: Option<string>, toolTipText: Option<string>,
                    filterFn: Option<Node -> bool>, n: Node)
  {
    && IsA(h, n, cls.id)
    && (text.None? || Equals(Text, text.value, n))
    && (toolTipText.None? || Equals(ToolTipText, toolTipText.value, n))
    && (filterFn.None? || filterFn.value(n))
  }

  /** When no filter throws, the survivors are exactly the descendants
      matching every given criterion, in pre-order. */
  lemma SurvivorsAreMatches(rev: Revision, h: Hierarchy, root: Node, cls: Class, text: Option<string>,
                            toolTipText: Option<string>, filterFn: Option<Node -> bool>)
    requires Survivors(rev, h, root, cls, text, toolTipText, filterFn).Success?
    ensures Survivors(rev, h, root, cls, text, toolTipText, filterFn).value
      == Filter(Flatten(root.children), (n: Node) => Matches(h, cls, text, toolTipText, filterFn, n))
  {
    var flat := Flatten(root.children);
    var p1 := (n: Node) => IsA(h, n, cls.id);
    var pt := (n: Node) => text.None? || Equals(Text, text.value, n);
    var pp := (n: Node) => toolTipText.None? || Equals(ToolTipText, toolTipText.value, n);
    var pf := (n: Node) => filterFn.None? || filterFn.value(n);
    var all := Filter(flat, p1);
    var byText := FilterByField(rev, cls, all, Text, text).value;
    assert byText == Filter(all, pt) by {
      if text.None? {
        FilterKeepsAll(all, pt);
      } else {
        FilterCongruent(all, pt, (n: Node) => Equals(Text, text.value, n));
      }
    }
    var byTip := FilterByField(rev, cls, byText, ToolTipText, toolTipText).value;
    assert byTip == Filter(byText, pp) by {
      if toolTipText.None? {
        FilterKeepsAll(byText, pp);
      } else {
        FilterCongruent(byText, pp, (n: Node) => Equals(ToolTipText, toolTipText.value, n));
      }
    }
    var last := if filterFn.Some? then Filter(byTip, filterFn.value) else byTip;
    assert last == Filter(byTip, pf) by {
      if filterFn.None? {
        FilterKeepsAll(byTip, pf);
      } else {
        FilterCongruent(byTip, pf, filterFn.value);
      }
    }
    FilterChain(flat, p1, pt, pp, pf, (n: Node) => Matches(h, cls, text, toolTipText, filterFn, n));
  }

  /** What `find` returns when no filter throws: a descendant matching every
      criterion and the only one, or null when no descendant matches. */
  lemma FindOutcomeMeaning(rev: Revision, h: Hierarchy, root: Node, cls: Class, text: Option<string>,
                           toolTipText: Option<string>, filterFn: Option<Node -> bool>)
    ensures var r := FindOutcome(rev, h, root, cls, text, toolTipText, filterFn);
      var flat := Flatten(root.children);
      && (r == Success(None) ==>
            forall i :: 0 <= i < |flat| ==> !Matches(h, cls, text, toolTipText, filterFn, flat[i]))
      && (r.Success? && r.value.Some? ==>
            && r.value.value in flat && r.value.value != root
            && Matches(h, cls, text, toolTipText, filterFn, r.value.value)
            && forall i :: 0 <= i < |flat| && Matches(h, cls, text, toolTipText, filterFn, flat[i]) ==> flat[i] == r.value.value)
  {
    var r := FindOutcome(rev, h, root, cls, text, toolTipText, filterFn);
    var flat := Flatten(root.children);
    var m := (n: Node) => Matches(h, cls, text, toolTipText, filterFn, n);
    NotOwnDescendant(root);
    if r.Success? {
      SurvivorsAreMatches(rev, h, root, cls, text, toolTipText, filterFn);
      forall i | 0 <= i < |flat| && Matches(h, cls, text, toolTipText, filterFn, flat[i])
        ensures r != Success(None)
        ensures r.value.Some? ==> flat[i] == r.value.value
      {
        FilterSingle(flat, m, i);
      }
    }
  }

  /** With no text, no tooltip and no predicate nothing is filtered and
      nothing can throw. */
  lemma UnsetFiltersKeepAll(rev: Revision, h: Hierarchy, root: Node, cls: Class)
    ensures Survivors(rev, h, root, cls, None, None, None)
      == Success(Filter(Flatten(root.children), (n: Node) => IsA(h, n, cls.id)))
  {
  }

  /** The filters run in a fixed order, and the tooltip filter only
      examines the survivors of the text filter: a component dropped by the
      text filter cannot make the tooltip filter throw, however null its
      tooltip. */
  lemma TooltipSeesOnlyTextSurvivors(rev: Revision, cls: Class, comps: seq<Node>, text: string, toolTipText: string)
    requires Getter(Text) in cls.getters && Getter(ToolTipText) in cls.getters
    requires forall i :: 0 <= i < |comps| ==> HasValue(Text, comps[i])
    requires forall i :: 0 <= i < |comps| && Equals(Text, text, comps[i]) ==> HasValue(ToolTipText, comps[i])
    ensures FilterByField(rev, cls, comps, Text, Some(text)).Success?
    ensures FilterByField(rev, cls, FilterByField(rev, cls, comps, Text, Some(text)).value, ToolTipText, Some(toolTipText)).Success?
  {
    var byText := FilterByField(rev, cls, comps, Text, Some(text));
    forall i | 0 <= i < |byText.value|
      ensures HasValue(ToolTipText, byText.value[i])
    {
      var x := byText.value[i];
      assert x in comps && Equals(Text, text, x);
      var j :| 0 <= j < |comps| && comps[j] == x;
    }
  }
}
