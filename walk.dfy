/** `findAll` and its recursive helper `addComponents`, which read the same
    in all three revisions of ComponentFinders.kt: a pre-order walk that
    appends every component that is an instance of the requested class to a
    mutable list, and recurses into every container whether or not the
    container itself matched. */
module Walk {
  import opened Util
  import opened Widgets

  /** What `addComponents(ret, components, c)` appends to `ret`. */
  function Collect(h: Hierarchy, comps: seq<Node>, c: TypeId): seq<Node>
    decreases comps, 1
  {
    if comps == [] then
      []
    else
      Own(h, comps[0], c) + Below(h, comps[0], c) + Collect(h, comps[1..], c)
  }

  /** What the recursion into a component contributes: the walk of its
      children if it is a container, nothing otherwise. */
  function Below(h: Hierarchy, n: Node, c: TypeId): seq<Node>
    decreases n, 0
  {
    if n.isContainer then Collect(h, n.children, c) else []
  }

  /** A component's own contribution: itself, if it is an instance of `c`. */
  function Own(h: Hierarchy, n: Node, c: TypeId): seq<Node>
  {
    if IsA(h, n, c) then [n] else []
  }

  /** Siblings are handled one after another: the walk of `a + b` is the walk
      of `a` followed by the walk of `b`. */
  lemma {:induction false} CollectAppend(h: Hierarchy, a: seq<Node>, b: seq<Node>, c: TypeId)
    ensures Collect(h, a + b, c) == Collect(h, a, c) + Collect(h, b, c)
    decreases a
  {
    if a == [] {
      assert a + b == b;
    } else {
      assert (a + b)[0] == a[0];
      assert (a + b)[1..] == a[1..] + b;
      CollectAppend(h, a[1..], b, c);
    }
  }

  lemma CollectCons(h: Hierarchy, comps: seq<Node>, c: TypeId)
    requires comps != []
    ensures Collect(h, comps, c) == Own(h, comps[0], c) + Below(h, comps[0], c) + Collect(h, comps[1..], c)
  {
  }

  /** Pre-order at one position: whatever the component at index `i`
      contributes (itself if it matches, then the walk of its children if it
      is a container, matched or not) sits between the walks of its earlier
      and later siblings. */
  lemma CollectAt(h: Hierarchy, comps: seq<Node>, c: TypeId, i: nat)
    requires i < |comps|
    ensures Collect(h, comps, c) ==
      Collect(h, comps[..i], c)
      + Own(h, comps[i], c)
      + Below(h, comps[i], c)
      + Collect(h, comps[i + 1..], c)
  {
    var prefix, suffix := comps[..i], comps[i..];
    assert comps == prefix + suffix;
    CollectAppend(h, prefix, suffix, c);
    assert suffix[0] == comps[i] && suffix[1..] == comps[i + 1..];
    CollectCons(h, suffix, c);
    var own, below, rest := Own(h, comps[i], c), Below(h, comps[i], c), Collect(h, comps[i + 1..], c);
    assert Collect(h, comps, c) == Collect(h, prefix, c) + (own + below + rest);
    AppendAssociative(Collect(h, prefix, c), own + below, rest);
    AppendAssociative(Collect(h, prefix, c), own, below);
  }

  /** The walk is a filter of the pre-order listing of every component: it
      yields exactly the descendants that are instances of `c`, in visiting
      order. */
  lemma {:induction false} CollectIsFilteredFlatten(h: Hierarchy, comps: seq<Node>, c: TypeId)
    ensures Collect(h, comps, c) == Filter(Flatten(comps), (n: Node) => IsA(h, n, c))
    decreases comps
  {
    var p := (n: Node) => IsA(h, n, c);
    if comps != [] {
      var head, rest := comps[0], comps[1..];
      var below := if head.isContainer then Flatten(head.children) else [];
      assert Filter(below, p) == Below(h, head, c) by {
        if head.isContainer {
          CollectIsFilteredFlatten(h, head.children, c);
        }
      }
      assert Filter(Flatten(rest), p) == Collect(h, rest, c) by {
        CollectIsFilteredFlatten(h, rest, c);
      }
      assert Filter([head], p) == Own(h, head, c) by {
        assert [head][1..] == [];
      }
      assert Flatten(comps) == [head] + below + Flatten(rest);
      FilterAppend([head] + below, Flatten(rest), p);
      FilterAppend([head], below, p);
    }
  }

  /** One more iteration of the loop in `addComponents`. */
  lemma CollectStep(h: Hierarchy, comps: seq<Node>, c: TypeId, i: nat)
    requires i < |comps|
    ensures Collect(h, comps[..i + 1], c) == Collect(h, comps[..i], c) + Own(h, comps[i], c) + Below(h, comps[i], c)
  {
    var prefix, last := comps[..i], [comps[i]];
    assert comps[..i + 1] == prefix + last;
    CollectAppend(h, prefix, last, c);
    CollectCons(h, last, c);
    assert last[1..] == [];
    assert Collect(h, last, c) == Own(h, comps[i], c) + Below(h, comps[i], c);
    AppendAssociative(Collect(h, prefix, c), Own(h, comps[i], c), Below(h, comps[i], c));
  }

  /** The mutable result list `ret`. */
  class ComponentList {
    var items: seq<Node>

    constructor ()
      ensures items == []
    {
      items := [];
    }

    method Add(n: Node)
      modifies this
      ensures items == old(items) + [n]
    {
      items := items + [n];
    }
  }

  /** `addComponents(ret, components, desiredClazz)`. */
  method AddComponents(ret: ComponentList, components: seq<Node>, h: Hierarchy, c: TypeId)
    modifies ret
    ensures ret.items == old(ret.items) + Collect(h, components, c)
    decreases components
  {
    for i := 0 to |components|
      invariant ret.items == old(ret.items) + Collect(h, components[..i], c)
    {
      var comp := components[i];
      ghost var done := Collect(h, components[..i], c);
      if IsA(h, comp, c) {
        ret.Add(comp);
      }
      ghost var own := ret.items;
      assert own == old(ret.items) + done + Own(h, comp, c);
      if comp.isContainer {
        AddComponents(ret, comp.children, h, c);
      }
      assert ret.items == own + Below(h, comp, c);
      CollectStep(h, components, c, i);
      AppendAssociative(old(ret.items), done, Own(h, comp, c));
      AppendAssociative(old(ret.items), done + Own(h, comp, c), Below(h, comp, c));
    }
    assert components[..|components|] == components;
  }

  /** `container.findAll(clazz)`: the walk starts from the container's
      children, so the container itself is never in the result. */
  method FindAll(h: Hierarchy, root: Node, c: TypeId) returns (r: seq<Node>)
    ensures r == Filter(Flatten(root.children), (n: Node) => IsA(h, n, c))
    ensures root !in r
  {
    var ret := new ComponentList();
    AddComponents(ret, root.children, h, c);
    r := ret.items;
    CollectIsFilteredFlatten(h, root.children, c);
    NotOwnDescendant(root);
  }
}
