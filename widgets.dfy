/** The component tree the finders search: each node is a value snapshot of
    one AWT component, holding the properties the finders and the tree dump
    read, plus a reference to the live widget that interactions act on. */
module Widgets {
  import opened Util
  import Interactions

  /** Identity of a Java class or interface. */
  type TypeId = nat

  /** A Java class as the library sees it through reflection: its identity,
      `simpleName`, `name`, and its public zero-argument getters, each mapped
      to the printed form of its return type (`getter.returnType`, for
      example "class java.lang.String"). */
  datatype Class = Class(id: TypeId, simpleName: string, fullName: string, getters: map<string, string>)

  /** The subtype relation: each runtime class to the set of its proper
      supertypes (superclasses and implemented interfaces). */
  type Hierarchy = map<TypeId, set<TypeId>>

  /** `clazz.isInstance(comp)` for a component whose runtime class is `t`. */
  predicate IsInstance(h: Hierarchy, t: TypeId, c: TypeId)
  {
    t == c || (t in h && c in h[t])
  }

  /** Swing types the library tests for by name. */
  const ABSTRACT_BUTTON: TypeId := 1
  const JLABEL: TypeId := 2
  const JSCROLLBAR: TypeId := 3
  const JTABLE: TypeId := 4
  const JCOMBOBOX: TypeId := 5

  /** One component. `text` and `toolTipText` are what `getText()` and
      `getToolTipText()` return (`None` for null). `isContainer` says whether
      the component is an AWT `Container`; every Swing `JComponent` is one.
      `constraint` is the BorderLayout constraint the parent's layout holds
      for this component, if the parent uses a BorderLayout. `summary` is the
      type-specific part of the one-line description of components that are
      neither buttons nor labels. */
  datatype Node = Node(
    cls: Class,
    name: Option<string>,
    text: Option<string>,
    toolTipText: Option<string>,
    isContainer: bool,
    constraint: Option<string>,
    summary: string,
    widget: Interactions.Widget,
    children: seq<Node>)

  predicate IsA(h: Hierarchy, n: Node, c: TypeId)
  {
    IsInstance(h, n.cls.id, c)
  }

  /** Every component below the given ones, in the order the finders visit
      them: a component, then (if it is a container) everything below it,
      then its next sibling. */
  function Flatten(comps: seq<Node>): seq<Node>
    decreases comps
  {
    if comps == [] then []
    else [comps[0]] + (if comps[0].isContainer then Flatten(comps[0].children) else []) + Flatten(comps[1..])
  }

  /** Number of components in the given forest. */
  function TotalSize(comps: seq<Node>): nat
    decreases comps
  {
    if comps == [] then 0 else 1 + TotalSize(comps[0].children) + TotalSize(comps[1..])
  }

  lemma {:induction false} FlattenAppend(a: seq<Node>, b: seq<Node>)
    ensures Flatten(a + b) == Flatten(a) + Flatten(b)
    decreases a
  {
    if a == [] {
      assert a + b == b;
    } else {
      assert (a + b)[0] == a[0];
      assert (a + b)[1..] == a[1..] + b;
      FlattenAppend(a[1..], b);
    }
  }

  /** Every visited component is strictly smaller than the forest (one more
      than the size of its own children). */
  lemma {:induction false} FlattenSmaller(comps: seq<Node>, x: Node)
    requires x in Flatten(comps)
    ensures 1 + TotalSize(x.children) <= TotalSize(comps)
    decreases comps
  {
    var head := comps[0];
    if x == head {
    } else if head.isContainer && x in Flatten(head.children) {
      FlattenSmaller(head.children, x);
    } else {
      assert x in Flatten(comps[1..]);
      FlattenSmaller(comps[1..], x);
    }
  }

  /** A component is never among its own descendants. */
  lemma NotOwnDescendant(root: Node)
    ensures root !in Flatten(root.children)
  {
    if root in Flatten(root.children) {
      FlattenSmaller(root.children, root);
      assert false;
    }
  }
}
