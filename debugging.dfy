/** The component-tree dump of Debugging.kt, which every finder error message
    carries: one line per component, the root first, each child line
    indented under its parent and introduced by "|-". */
module Debugging {
  import opened Util
  import opened Widgets

  // ---------------------------------------------------------------------------
  // One-line descriptions

  /** `describeClass()`: the simple class name, or the full name when the
      simple name is empty (anonymous and some nested classes). */
  function DescribeClass(cls: Class): string
  {
    if cls.simpleName != "" then cls.simpleName else cls.fullName
  }

  /** `String.ifNotEmpty(transformer)`. */
  function IfNotEmpty(s: string, transformer: string -> string): string
  {
    if |s| > 0 then transformer(s) else s
  }

  /** The tooltip part of a button's description. */
  function TooltipInfo(toolTipText: Option<string>): string
  {
    IfNotEmpty(OrEmpty(toolTipText), tip => " (ToolTip: \"" + tip + "\")")
  }

  /** The `when (this)` part of `oneLineDescription()`. Buttons and labels
      show their class and quoted text (a null text prints as "null");
      every other kind of component has its own summary. */
  function Body(h: Hierarchy, n: Node): string
  {
    if IsA(h, n, ABSTRACT_BUTTON) then
      DescribeClass(n.cls) + " - \"" + OrNull(n.text) + "\"" + TooltipInfo(n.toolTipText)
    else if IsA(h, n, JLABEL) then
      DescribeClass(n.cls) + " - \"" + OrNull(n.text) + "\""
    else
      n.summary
  }

  /** `oneLineDescription()`: the body, then " [name: n]" exactly when the
      component has a name. */
  function Describe(h: Hierarchy, n: Node): string
  {
    var desc := Body(h, n);
    if n.name.Some? then desc + " [name: " + n.name.value + "]" else desc
  }

  /** A button's tooltip is shown only when it is neither null nor empty. */
  lemma ButtonTooltip(h: Hierarchy, n: Node)
    requires IsA(h, n, ABSTRACT_BUTTON) && n.name.None?
    ensures OrEmpty(n.toolTipText) == "" ==>
      Describe(h, n) == DescribeClass(n.cls) + " - \"" + OrNull(n.text) + "\""
    ensures OrEmpty(n.toolTipText) != "" ==>
      Describe(h, n) == DescribeClass(n.cls) + " - \"" + OrNull(n.text) + "\" (ToolTip: \"" + n.toolTipText.value + "\")"
  {
  }

  /** A name changes the line only by the suffix " [name: n]". */
  lemma NameSuffix(h: Hierarchy, n: Node)
    ensures n.name.None? ==> Describe(h, n) == Body(h, n)
    ensures n.name.Some? ==> Describe(h, n) == Describe(h, n.(name := None)) + " [name: " + n.name.value + "]"
  {
  }

  // ---------------------------------------------------------------------------
  // The tree

  /** `isBoringContainer()`: components whose children are never listed. */
  predicate IsBoring(h: Hierarchy, n: Node)
  {
    IsA(h, n, JSCROLLBAR) || IsA(h, n, JTABLE) || IsA(h, n, JCOMBOBOX)
  }

  /** A child the dump recurses into. */
  predicate Expands(h: Hierarchy, n: Node)
  {
    n.isContainer && !IsBoring(h, n)
  }

  /** `childConstraint`: " [C] " for a BorderLayout constraint C, else "". */
  function ConstraintText(n: Node): string
  {
    if n.constraint.Some? then " [" + n.constraint.value + "] " else ""
  }

  /** The line a child gets under a parent whose prefix is `pad` long
      (`pad` is that many spaces). A child the dump recurses into has
      `childConstraint.ifEmpty { " " }` as its constraint text; any other
      child has its constraint text followed by a space. */
  function ChildLine(h: Hierarchy, n: Node, pad: string): string
  {
    if Expands(h, n) then
      pad + "|-" + (if ConstraintText(n) == "" then " " else ConstraintText(n)) + Describe(h, n)
    else
      pad + "|-" + ConstraintText(n) + " " + Describe(h, n)
  }

  /** The lines the children `cs` contribute, without their trailing
      newlines: each child's line, then the lines of its own children, two
      columns further in, when the dump recurses into it. */
  function ChildLines(h: Hierarchy, cs: seq<Node>, pad: string): seq<string>
    decreases cs, 1
  {
    if cs == [] then
      []
    else
      [ChildLine(h, cs[0], pad)] + Nested(h, cs[0], pad) + ChildLines(h, cs[1..], pad)
  }

  /** The lines below one child. */
  function Nested(h: Hierarchy, n: Node, pad: string): seq<string>
    decreases n, 0
  {
    if Expands(h, n) then ChildLines(h, n.children, Spaces(|pad| + 2)) else []
  }

  /** The lines `generateComponentTree(prefix, constraintDesc, ...)` adds
      for the component `n`. */
  function TreeLines(h: Hierarchy, n: Node, prefix: string, constraintDesc: string): seq<string>
  {
    [prefix + constraintDesc + Describe(h, n)] + ChildLines(h, n.children, Spaces(|prefix|))
  }

  /** Each line followed by a newline. */
  function Join(lines: seq<string>): string
  {
    if lines == [] then "" else lines[0] + "\n" + Join(lines[1..])
  }

  /** `container.generateComponentTree()`. */
  function ComponentTree(h: Hierarchy, n: Node): string
  {
    Join(TreeLines(h, n, "", ""))
  }

  lemma {:induction false} JoinAppend(a: seq<string>, b: seq<string>)
    ensures Join(a + b) == Join(a) + Join(b)
  {
    if a == [] {
      assert a + b == b;
    } else {
      assert (a + b)[0] == a[0];
      assert (a + b)[1..] == a[1..] + b;
      JoinAppend(a[1..], b);
    }
  }

  lemma {:induction false} ChildLinesAppend(h: Hierarchy, a: seq<Node>, b: seq<Node>, pad: string)
    ensures ChildLines(h, a + b, pad) == ChildLines(h, a, pad) + ChildLines(h, b, pad)
    decreases a
  {
    if a == [] {
      assert a + b == b;
    } else {
      assert (a + b)[0] == a[0];
      assert (a + b)[1..] == a[1..] + b;
      ChildLinesAppend(h, a[1..], b, pad);
    }
  }

  lemma ChildLinesCons(h: Hierarchy, cs: seq<Node>, pad: string)
    requires cs != []
    ensures ChildLines(h, cs, pad) == [ChildLine(h, cs[0], pad)] + Nested(h, cs[0], pad) + ChildLines(h, cs[1..], pad)
  {
  }

  /** One more iteration of `children.forEach`. */
  lemma ChildLinesStep(h: Hierarchy, cs: seq<Node>, pad: string, i: nat)
    requires i < |cs|
    ensures ChildLines(h, cs[..i + 1], pad) == ChildLines(h, cs[..i], pad) + [ChildLine(h, cs[i], pad)] + Nested(h, cs[i], pad)
  {
    var prefix, last := cs[..i], [cs[i]];
    assert cs[..i + 1] == prefix + last;
    ChildLinesAppend(h, prefix, last, pad);
    ChildLinesCons(h, last, pad);
    assert last[1..] == [];
    assert ChildLines(h, last, pad) == [ChildLine(h, cs[i], pad)] + Nested(h, cs[i], pad);
    AppendAssociative(ChildLines(h, prefix, pad), [ChildLine(h, cs[i], pad)], Nested(h, cs[i], pad));
  }

  /** The recursive call for a child the dump recurses into produces exactly
      that child's line and the lines below it. */
  lemma ExpandedChild(h: Hierarchy, n: Node, pad: string)
    requires Expands(h, n)
    ensures TreeLines(h, n, pad + "|-", if ConstraintText(n) == "" then " " else ConstraintText(n))
      == [ChildLine(h, n, pad)] + Nested(h, n, pad)
  {
    assert |pad + "|-"| == |pad| + 2;
  }

  /** `generateComponentTree(prefix, constraintDesc, treeSoFar)`: appends the
      component's line, then handles the children in order, recursing into
      containers that are not boring and writing one line for every other
      child. */
  method GenerateComponentTree(h: Hierarchy, n: Node, prefix: string, constraintDesc: string, treeSoFar: string)
    returns (newTree: string)
    ensures newTree == treeSoFar + Join(TreeLines(h, n, prefix, constraintDesc))
    decreases n
  {
    newTree := treeSoFar;
    var children := n.children;
    var own := prefix + constraintDesc + Describe(h, n);
    newTree := newTree + (own + "\n");
    var newPrefix := Spaces(|prefix|);
    assert [own] + ChildLines(h, children[..0], newPrefix) == [own];
    JoinOne(own);
    for i := 0 to |children|
      invariant newTree == treeSoFar + Join([own] + ChildLines(h, children[..i], newPrefix))
    {
      var child := children[i];
      var childConstraint := ConstraintText(child);
      ghost var before := newTree;
      TreeStep(h, own, children, newPrefix, i);
      if child.isContainer && !IsBoring(h, child) {
        newTree := GenerateComponentTree(h, child, newPrefix + "|-",
          if childConstraint == "" then " " else childConstraint, newTree);
        ExpandedChild(h, child, newPrefix);
      } else {
        newTree := newTree + (newPrefix + "|-" + childConstraint + " " + Describe(h, child) + "\n");
      }
      assert newTree == before + Join([ChildLine(h, child, newPrefix)] + Nested(h, child, newPrefix));
      AppendAssociative(treeSoFar, Join([own] + ChildLines(h, children[..i], newPrefix)),
        Join([ChildLine(h, child, newPrefix)] + Nested(h, child, newPrefix)));
    }
    assert children[..|children|] == children;
  }

  lemma JoinOne(line: string)
    ensures Join([line]) == line + "\n"
  {
    assert [line][1..] == [];
  }

  /** What one iteration of the loop over the children appends. */
  lemma TreeStep(h: Hierarchy, own: string, cs: seq<Node>, pad: string, i: nat)
    requires i < |cs|
    ensures Join([own] + ChildLines(h, cs[..i + 1], pad))
      == Join([own] + ChildLines(h, cs[..i], pad)) + Join([ChildLine(h, cs[i], pad)] + Nested(h, cs[i], pad))
    ensures !Expands(h, cs[i]) ==> Join([ChildLine(h, cs[i], pad)] + Nested(h, cs[i], pad)) == ChildLine(h, cs[i], pad) + "\n"
  {
    ChildLinesStep(h, cs, pad, i);
    var front := [own] + ChildLines(h, cs[..i], pad);
    var next := [ChildLine(h, cs[i], pad)] + Nested(h, cs[i], pad);
    assert [own] + ChildLines(h, cs[..i + 1], pad) == front + next;
    JoinAppend(front, next);
    if !Expands(h, cs[i]) {
      assert next == [ChildLine(h, cs[i], pad)];
      assert next[1..] == [];
    }
  }

  // ---------------------------------------------------------------------------
  // What the dump looks like

  /** The root's line comes first, with no prefix and no constraint, and
      ends in a newline; then come the lines of its children. */
  lemma RootFirst(h: Hierarchy, n: Node)
    ensures ComponentTree(h, n) == Describe(h, n) + "\n" + Join(ChildLines(h, n.children, ""))
  {
    assert Spaces(0) == "";
    assert "" + "" + Describe(h, n) == Describe(h, n);
    assert [Describe(h, n)] + ChildLines(h, n.children, "") == TreeLines(h, n, "", "");
  }

  /** Every line is followed by a newline: line `k` of the listing sits
      between the earlier lines and the later ones. */
  lemma {:induction false} JoinAt(lines: seq<string>, k: nat)
    requires k < |lines|
    ensures Join(lines) == Join(lines[..k]) + lines[k] + "\n" + Join(lines[k + 1..])
  {
    assert lines == lines[..k] + lines[k..];
    JoinAppend(lines[..k], lines[k..]);
    assert lines[k..][0] == lines[k];
    assert lines[k..][1..] == lines[k + 1..];
  }

  /** Children are listed in stored order, and each child's subtree is a
      contiguous block right after the child's own line. */
  lemma ChildrenInOrder(h: Hierarchy, cs: seq<Node>, pad: string, i: nat)
    requires i < |cs|
    ensures ChildLines(h, cs, pad) ==
      ChildLines(h, cs[..i], pad) + [ChildLine(h, cs[i], pad)] + Nested(h, cs[i], pad) + ChildLines(h, cs[i + 1..], pad)
  {
    assert cs == cs[..i + 1] + cs[i + 1..];
    ChildLinesAppend(h, cs[..i + 1], cs[i + 1..], pad);
    ChildLinesStep(h, cs, pad, i);
  }

  /** The constraint rules: without a constraint every child line reads
      "|- desc"; with constraint C a container the dump recurses into reads
      "|- [C] desc", while any other child gets one more space. */
  lemma ConstraintRendering(h: Hierarchy, n: Node, pad: string)
    ensures n.constraint.None? ==> ChildLine(h, n, pad) == pad + "|- " + Describe(h, n)
    ensures n.constraint.Some? && Expands(h, n) ==>
      ChildLine(h, n, pad) == pad + "|- [" + n.constraint.value + "] " + Describe(h, n)
    ensures n.constraint.Some? && !Expands(h, n) ==>
      ChildLine(h, n, pad) == pad + "|- [" + n.constraint.value + "]  " + Describe(h, n)
  {
    var d := Describe(h, n);
    if n.constraint.None? {
      assert ConstraintText(n) == "";
      assert pad + "|-" + "" == pad + "|-";
      AppendAssociative(pad, "|-", " ");
    } else {
      var c := n.constraint.value;
      var text := " [" + c + "] ";
      assert ConstraintText(n) == text;
      assert |text| > 0;
      AppendAssociative(pad, "|-", text);
      AppendAssociative(pad, "|-", text + " ");
      assert "|-" + text == "|- [" + c + "] ";
      assert "|-" + (text + " ") == "|- [" + c + "]  ";
    }
  }

  /** The children of a scroll bar, table or combo box never appear. */
  lemma BoringIsLeaf(h: Hierarchy, n: Node, pad: string)
    requires IsBoring(h, n)
    ensures ChildLines(h, [n], pad) == [pad + "|-" + ConstraintText(n) + " " + Describe(h, n)]
  {
    ChildLinesCons(h, [n], pad);
    assert [n][1..] == [];
  }

  /** A listed component and its depth below the children of the node
      being dumped. */
  datatype Entry = Entry(node: Node, depth: nat)

  /** Reference listing: the components the dump shows, in order, with
      their depths. */
  function Outline(h: Hierarchy, cs: seq<Node>, depth: nat): seq<Entry>
    decreases cs
  {
    if cs == [] then
      []
    else
      [Entry(cs[0], depth)]
        + (if Expands(h, cs[0]) then Outline(h, cs[0].children, depth + 1) else [])
        + Outline(h, cs[1..], depth)
  }

  /** The line of each entry, for children of a component whose prefix is
      `k` long. */
  function Render(h: Hierarchy, entries: seq<Entry>, k: nat): (r: seq<string>)
    ensures |r| == |entries|
  {
    if entries == [] then [] else [ChildLine(h, entries[0].node, Spaces(k + 2 * entries[0].depth))] + Render(h, entries[1..], k)
  }

  lemma {:induction false} RenderAppend(h: Hierarchy, a: seq<Entry>, b: seq<Entry>, k: nat)
    ensures Render(h, a + b, k) == Render(h, a, k) + Render(h, b, k)
  {
    if a == [] {
      assert a + b == b;
    } else {
      assert (a + b)[0] == a[0];
      assert (a + b)[1..] == a[1..] + b;
      RenderAppend(h, a[1..], b, k);
    }
  }

  /** The indentation discipline: a component `d` levels below the children
      of the dumped node has `k + 2d` spaces before its "|-", where `k` is
      the length of the dumped node's prefix; so each level adds two. */
  lemma {:induction false} IndentByDepth(h: Hierarchy, cs: seq<Node>, k: nat, depth: nat)
    ensures ChildLines(h, cs, Spaces(k + 2 * depth)) == Render(h, Outline(h, cs, depth), k)
    decreases cs, 1
  {
    if cs != [] {
      var pad := Spaces(k + 2 * depth);
      var head := cs[0];
      var own := [Entry(head, depth)];
      var inner := if Expands(h, head) then Outline(h, head.children, depth + 1) else [];
      var rest := Outline(h, cs[1..], depth);
      IndentByDepth(h, cs[1..], k, depth);
      NestedByDepth(h, head, k, depth);
      OutlineCons(h, cs, depth);
      RenderThree(h, own, inner, rest, k);
      assert Render(h, own, k) == [ChildLine(h, head, pad)];
      ChildLinesCons(h, cs, pad);
    }
  }

  /** The lines below one child are the outline of its children, one level
      deeper. */
  lemma {:induction false} NestedByDepth(h: Hierarchy, n: Node, k: nat, depth: nat)
    ensures Nested(h, n, Spaces(k + 2 * depth))
         == Render(h, if Expands(h, n) then Outline(h, n.children, depth + 1) else [], k)
    decreases n, 0
  {
    if Expands(h, n) {
      IndentByDepth(h, n.children, k, depth + 1);
      assert |Spaces(k + 2 * depth)| + 2 == k + 2 * (depth + 1);
    }
  }

  lemma OutlineCons(h: Hierarchy, cs: seq<Node>, depth: nat)
    requires cs != []
    ensures Outline(h, cs, depth)
         == [Entry(cs[0], depth)]
            + (if Expands(h, cs[0]) then Outline(h, cs[0].children, depth + 1) else [])
            + Outline(h, cs[1..], depth)
  {
  }

  lemma RenderThree(h: Hierarchy, a: seq<Entry>, b: seq<Entry>, c: seq<Entry>, k: nat)
    ensures Render(h, a + b + c, k) == Render(h, a, k) + Render(h, b, k) + Render(h, c, k)
  {
    RenderAppend(h, a + b, c, k);
    RenderAppend(h, a, b, k);
  }
}
