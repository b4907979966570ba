/** A worked component-tree dump: the frame of SwingDebugTest, with a button
    bar, a filter row and a scrolled table, and the text its dump must be. */
module DebugExample {
  import opened Util
  import opened Widgets
  import opened Debugging
  import Interactions

  function SwingClass(id: TypeId, simpleName: string): Class
  {
    Class(id, simpleName, "javax.swing." + simpleName, map[])
  }

  /** A container whose line is a fixed summary. */
  function Panel(id: TypeId, simpleName: string, name: Option<string>, constraint: Option<string>, summary: string,
                 w: Interactions.Widget, children: seq<Node>): Node
  {
    Node(SwingClass(id, simpleName), name, None, None, true, constraint, summary, w, children)
  }

  /** A button or label showing `text`, with no tooltip and no name. */
  function Captioned(id: TypeId, simpleName: string, text: string, w: Interactions.Widget): Node
  {
    Node(SwingClass(id, simpleName), None, Some(text), None, true, None, "", w, [])
  }

  /** The runtime classes of the example: JButton (10), JLabel (11),
      JComboBox (12), JTable (13) and JScrollPane.ScrollBar (14) under the
      types the dump tests for; the arrow button (16) is a button too; the
      panes (20 and up) are none of them. */
  const ExampleHierarchy: Hierarchy :=
    map[10 := {ABSTRACT_BUTTON}, 11 := {JLABEL}, 12 := {JCOMBOBOX}, 13 := {JTABLE}, 14 := {JSCROLLBAR},
        16 := {ABSTRACT_BUTTON}]

  /** The button bar, at the South of the content pane. */
  function ButtonBar(w: Interactions.Widget): Node
  {
    Panel(22, "JPanel", None, Some("South"), "JPanel - FlowLayout", w,
          [Captioned(10, "JButton", "Ok", w), Captioned(10, "JButton", "Cancel", w)])
  }

  /** The combo box keeps its arrow button as a child, which the dump does
      not list. */
  function Combo(w: Interactions.Widget): Node
  {
    Panel(12, "JComboBox", None, None, "JComboBox<String> - 2 items (Selected: One)", w,
          [Captioned(16, "BasicArrowButton", "", w)])
  }

  /** The filter row, at the North of the content pane. */
  function FilterRow(w: Interactions.Widget): Node
  {
    Panel(22, "JPanel", None, Some("North"), "JPanel - FlowLayout", w, [Captioned(11, "JLabel", "Filter:", w), Combo(w)])
  }

  function Viewport(w: Interactions.Widget): Node
  {
    Panel(25, "JViewport", None, None, "JViewport - ViewportLayout", w,
          [Panel(13, "JTable", None, None, "JTable - [Index, Name, Value] - 2 rows", w, [])])
  }

  /** The scrolled table, at the Center of the content pane. */
  function TablePane(w: Interactions.Widget): Node
  {
    Panel(24, "JScrollPane", None, Some("Center"), "JScrollPane - UIResource", w,
          [Viewport(w),
           Panel(14, "ScrollBar", None, None, "ScrollBar - VERTICAL", w, []),
           Panel(14, "ScrollBar", None, None, "ScrollBar - HORIZONTAL", w, [])])
  }

  /** The content pane, with a BorderLayout. */
  function ContentPane(w: Interactions.Widget): Node
  {
    Panel(22, "JPanel", None, None, "JPanel - BorderLayout", w, [ButtonBar(w), FilterRow(w), TablePane(w)])
  }

  function LayeredPane(w: Interactions.Widget): Node
  {
    Panel(23, "JLayeredPane", Some("null.layeredPane"), None, "JLayeredPane - null", w, [ContentPane(w)])
  }

  /** The frame's root pane, holding the glass pane and the layered pane. */
  function RootPane(w: Interactions.Widget): Node
  {
    Panel(21, "JRootPane", None, Some("Center"), "JRootPane - RootLayout", w,
          [Panel(22, "JPanel", Some("null.glassPane"), None, "JPanel - FlowLayout", w, []), LayeredPane(w)])
  }

  /** The frame of SwingDebugTest. */
  function ExampleFrame(w: Interactions.Widget): Node
  {
    Panel(20, "JFrame", Some("MyFrame"), None, "JFrame - \"A Window\" - BorderLayout", w, [RootPane(w)])
  }

  /** The text SwingDebugTest expects from that frame, line by line (the
      dump is these lines, each followed by a newline). Each line is its
      indentation, then "|- " and the BorderLayout constraint, then the
      component's description; the lines are grouped pane by pane, each
      pane's line followed by those of its descendants. */
  function ExpectedDump(): seq<string>
  {
    ["JFrame - \"A Window\" - BorderLayout" + " [name: MyFrame]"] + RootPaneRows()
  }

  function RootPaneRows(): seq<string>
  {
    ["|- [Center] " + "JRootPane - RootLayout"]
    + [Spaces(2) + "|- " + "JPanel - FlowLayout" + " [name: null.glassPane]"]
    + LayeredRows()
  }

  function LayeredRows(): seq<string>
  {
    [Spaces(2) + "|- " + "JLayeredPane - null" + " [name: null.layeredPane]"] + ContentRows()
  }

  function ContentRows(): seq<string>
  {
    [Spaces(4) + "|- " + "JPanel - BorderLayout"] + ButtonBarRows() + FilterRowRows() + TablePaneRows()
  }

  function ButtonBarRows(): seq<string>
  {
    [Spaces(6) + "|- [South] " + "JPanel - FlowLayout"]
    + [Spaces(8) + "|- " + "JButton - \"Ok\""]
    + [Spaces(8) + "|- " + "JButton - \"Cancel\""]
  }

  function FilterRowRows(): seq<string>
  {
    [Spaces(6) + "|- [North] " + "JPanel - FlowLayout"]
    + [Spaces(8) + "|- " + "JLabel - \"Filter:\""]
    + [Spaces(8) + "|- " + "JComboBox<String> - 2 items (Selected: One)"]
  }

  function TablePaneRows(): seq<string>
  {
    [Spaces(6) + "|- [Center] " + "JScrollPane - UIResource"] + ViewportRows()
    + [Spaces(8) + "|- " + "ScrollBar - VERTICAL"]
    + [Spaces(8) + "|- " + "ScrollBar - HORIZONTAL"]
  }

  function ViewportRows(): seq<string>
  {
    [Spaces(8) + "|- " + "JViewport - ViewportLayout"]
    + [Spaces(10) + "|- " + "JTable - [Index, Name, Value] - 2 rows"]
  }

  /** The dump of that frame is the text SwingDebugTest expects. */
  lemma ExampleFrameDump(w: Interactions.Widget)
    ensures ComponentTree(ExampleHierarchy, ExampleFrame(w)) == Join(ExpectedDump())
  {
    var h := ExampleHierarchy;
    assert Describe(h, ExampleFrame(w)) == "JFrame - \"A Window\" - BorderLayout" + " [name: MyFrame]" by {
      NamedDescribe(h, ExampleFrame(w), "JFrame - \"A Window\" - BorderLayout", "MyFrame");
      assert " [name: " + "MyFrame" + "]" == " [name: MyFrame]";
    }
    RootPaneDump(w);
    ChildLinesOne(h, ExampleFrame(w).children, "");
    assert Spaces(|""|) == "";
    assert "" + "" + Describe(h, ExampleFrame(w)) == Describe(h, ExampleFrame(w));
    assert TreeLines(h, ExampleFrame(w), "", "") == ExpectedDump();
  }

  /** A child's line followed by the lines below it. */
  function Block(h: Hierarchy, n: Node, pad: string): seq<string>
  {
    [ChildLine(h, n, pad)] + Nested(h, n, pad)
  }

  /** Describing a pane that is neither a button nor a label with a name. */
  lemma NamedDescribe(h: Hierarchy, n: Node, summary: string, name: string)
    requires !IsA(h, n, ABSTRACT_BUTTON) && !IsA(h, n, JLABEL)
    requires n.summary == summary && n.name == Some(name)
    ensures Describe(h, n) == summary + (" [name: " + name + "]")
  {
    AppendAssociative(summary, " [name: ", name);
    AppendAssociative(summary, " [name: " + name, "]");
  }

  /** The line of a child the dump recurses into, without a constraint. */
  lemma PlainLine(h: Hierarchy, n: Node, pad: string, desc: string)
    requires Expands(h, n) && n.constraint.None? && Describe(h, n) == desc
    ensures ChildLine(h, n, pad) == pad + "|- " + desc
  {
    AppendAssociative(pad, "|-", " ");
    assert "|-" + " " == "|- ";
  }

  /** The line of a child the dump recurses into, with a constraint. */
  lemma ConstrainedLine(h: Hierarchy, n: Node, pad: string, c: string, desc: string)
    requires Expands(h, n) && n.constraint == Some(c) && Describe(h, n) == desc
    ensures ChildLine(h, n, pad) == pad + ("|-" + (" [" + c + "] ")) + desc
  {
    AppendAssociative(pad, "|-", " [" + c + "] ");
  }

  /** A component the dump does not recurse into is one line. */
  lemma LeafBlock(h: Hierarchy, n: Node, pad: string, desc: string)
    requires !Expands(h, n) && n.constraint.None? && Describe(h, n) == desc
    ensures Block(h, n, pad) == [pad + "|- " + desc]
  {
    assert pad + "|-" + "" == pad + "|-";
    AppendAssociative(pad, "|-", " ");
    assert "|-" + " " == "|- ";
    assert Nested(h, n, pad) == [];
  }

  /** So is a container without children. */
  lemma EmptyBlock(h: Hierarchy, n: Node, pad: string, desc: string)
    requires Expands(h, n) && n.constraint.None? && n.children == [] && Describe(h, n) == desc
    ensures Block(h, n, pad) == [pad + "|- " + desc]
  {
    PlainLine(h, n, pad, desc);
    assert Nested(h, n, pad) == [];
  }

  /** The children of `[a]`. */
  lemma ChildLinesOne(h: Hierarchy, cs: seq<Node>, pad: string)
    requires |cs| == 1
    ensures ChildLines(h, cs, pad) == Block(h, cs[0], pad)
  {
    ChildLinesCons(h, cs, pad);
    assert cs[1..] == [];
  }

  /** The children of `[a, b]`. */
  lemma ChildLinesTwo(h: Hierarchy, cs: seq<Node>, pad: string)
    requires |cs| == 2
    ensures ChildLines(h, cs, pad) == Block(h, cs[0], pad) + Block(h, cs[1], pad)
  {
    ChildLinesCons(h, cs, pad);
    ChildLinesOne(h, cs[1..], pad);
  }

  /** The children of `[a, b, c]`. */
  lemma ChildLinesThree(h: Hierarchy, cs: seq<Node>, pad: string)
    requires |cs| == 3
    ensures ChildLines(h, cs, pad) == Block(h, cs[0], pad) + Block(h, cs[1], pad) + Block(h, cs[2], pad)
  {
    ChildLinesCons(h, cs, pad);
    ChildLinesTwo(h, cs[1..], pad);
    AppendAssociative(Block(h, cs[0], pad), Block(h, cs[1], pad), Block(h, cs[2], pad));
  }

  /** Each pane's block is its group of expected lines. */
  lemma ButtonBarDump(w: Interactions.Widget)
    ensures Block(ExampleHierarchy, ButtonBar(w), Spaces(6)) == ButtonBarRows()
  {
    var h, cs := ExampleHierarchy, ButtonBar(w).children;
    assert "|-" + (" [" + "South" + "] ") == "|- [South] ";
    ConstrainedLine(h, ButtonBar(w), Spaces(6), "South", "JPanel - FlowLayout");
    assert Spaces(|Spaces(6)| + 2) == Spaces(8);
    EmptyBlock(h, cs[0], Spaces(8), "JButton - \"Ok\"");
    EmptyBlock(h, cs[1], Spaces(8), "JButton - \"Cancel\"");
    ChildLinesTwo(h, cs, Spaces(8));
    AppendAssociative([ChildLine(h, ButtonBar(w), Spaces(6))], Block(h, cs[0], Spaces(8)), Block(h, cs[1], Spaces(8)));
  }

  lemma FilterRowDump(w: Interactions.Widget)
    ensures Block(ExampleHierarchy, FilterRow(w), Spaces(6)) == FilterRowRows()
  {
    var h := ExampleHierarchy;
    assert "|-" + (" [" + "North" + "] ") == "|- [North] ";
    ConstrainedLine(h, FilterRow(w), Spaces(6), "North", "JPanel - FlowLayout");
    assert Spaces(|Spaces(6)| + 2) == Spaces(8);
    FilterRowChildren(w);
  }

  lemma FilterRowChildren(w: Interactions.Widget)
    ensures ChildLines(ExampleHierarchy, FilterRow(w).children, Spaces(8))
      == [Spaces(8) + "|- " + "JLabel - \"Filter:\""] + [Spaces(8) + "|- " + "JComboBox<String> - 2 items (Selected: One)"]
  {
    var h, cs := ExampleHierarchy, FilterRow(w).children;
    EmptyBlock(h, cs[0], Spaces(8), "JLabel - \"Filter:\"");
    LeafBlock(h, cs[1], Spaces(8), "JComboBox<String> - 2 items (Selected: One)");
    ChildLinesTwo(h, cs, Spaces(8));
  }

  lemma ViewportDump(w: Interactions.Widget)
    ensures Block(ExampleHierarchy, Viewport(w), Spaces(8)) == ViewportRows()
  {
    var h, cs := ExampleHierarchy, Viewport(w).children;
    PlainLine(h, Viewport(w), Spaces(8), "JViewport - ViewportLayout");
    assert Spaces(|Spaces(8)| + 2) == Spaces(10);
    LeafBlock(h, cs[0], Spaces(10), "JTable - [Index, Name, Value] - 2 rows");
    ChildLinesOne(h, cs, Spaces(10));
  }

  lemma TablePaneDump(w: Interactions.Widget)
    ensures Block(ExampleHierarchy, TablePane(w), Spaces(6)) == TablePaneRows()
  {
    var h, cs := ExampleHierarchy, TablePane(w).children;
    assert "|-" + (" [" + "Center" + "] ") == "|- [Center] ";
    ConstrainedLine(h, TablePane(w), Spaces(6), "Center", "JScrollPane - UIResource");
    assert Spaces(|Spaces(6)| + 2) == Spaces(8);
    ViewportDump(w);
    LeafBlock(h, cs[1], Spaces(8), "ScrollBar - VERTICAL");
    LeafBlock(h, cs[2], Spaces(8), "ScrollBar - HORIZONTAL");
    ChildLinesThree(h, cs, Spaces(8));
    var top := [ChildLine(h, TablePane(w), Spaces(6))];
    AppendAssociative(top, Block(h, cs[0], Spaces(8)) + Block(h, cs[1], Spaces(8)), Block(h, cs[2], Spaces(8)));
    AppendAssociative(top, Block(h, cs[0], Spaces(8)), Block(h, cs[1], Spaces(8)));
  }

  lemma ContentDump(w: Interactions.Widget)
    ensures Block(ExampleHierarchy, ContentPane(w), Spaces(4)) == ContentRows()
  {
    var h, cs := ExampleHierarchy, ContentPane(w).children;
    PlainLine(h, ContentPane(w), Spaces(4), "JPanel - BorderLayout");
    assert Spaces(|Spaces(4)| + 2) == Spaces(6);
    ButtonBarDump(w);
    FilterRowDump(w);
    TablePaneDump(w);
    ChildLinesThree(h, cs, Spaces(6));
    var top := [ChildLine(h, ContentPane(w), Spaces(4))];
    AppendAssociative(top, Block(h, cs[0], Spaces(6)) + Block(h, cs[1], Spaces(6)), Block(h, cs[2], Spaces(6)));
    AppendAssociative(top, Block(h, cs[0], Spaces(6)), Block(h, cs[1], Spaces(6)));
  }

  lemma LayeredDump(w: Interactions.Widget)
    ensures Block(ExampleHierarchy, LayeredPane(w), Spaces(2)) == LayeredRows()
  {
    var h := ExampleHierarchy;
    NamedDescribe(h, LayeredPane(w), "JLayeredPane - null", "null.layeredPane");
    PlainLine(h, LayeredPane(w), Spaces(2), "JLayeredPane - null" + (" [name: " + "null.layeredPane" + "]"));
    assert " [name: " + "null.layeredPane" + "]" == " [name: null.layeredPane]";
    AppendAssociative(Spaces(2) + "|- ", "JLayeredPane - null", " [name: null.layeredPane]");
    assert Spaces(|Spaces(2)| + 2) == Spaces(4);
    ContentDump(w);
    ChildLinesOne(h, LayeredPane(w).children, Spaces(4));
  }

  lemma RootPaneDump(w: Interactions.Widget)
    ensures Block(ExampleHierarchy, RootPane(w), "") == RootPaneRows()
  {
    var h, cs := ExampleHierarchy, RootPane(w).children;
    assert "" + ("|-" + (" [" + "Center" + "] ")) == "|- [Center] ";
    ConstrainedLine(h, RootPane(w), "", "Center", "JRootPane - RootLayout");
    assert Spaces(|""| + 2) == Spaces(2);
    GlassPaneBlock(w);
    LayeredDump(w);
    ChildLinesTwo(h, cs, Spaces(2));
    AppendAssociative([ChildLine(h, RootPane(w), "")], Block(h, cs[0], Spaces(2)), LayeredRows());
  }

  lemma GlassPaneBlock(w: Interactions.Widget)
    ensures Block(ExampleHierarchy, RootPane(w).children[0], Spaces(2))
      == [Spaces(2) + "|- " + "JPanel - FlowLayout" + " [name: null.glassPane]"]
  {
    var h, glass := ExampleHierarchy, RootPane(w).children[0];
    NamedDescribe(h, glass, "JPanel - FlowLayout", "null.glassPane");
    assert " [name: " + "null.glassPane" + "]" == " [name: null.glassPane]";
    EmptyBlock(h, glass, Spaces(2), "JPanel - FlowLayout" + (" [name: " + "null.glassPane" + "]"));
    AppendAssociative(Spaces(2) + "|- ", "JPanel - FlowLayout", " [name: null.glassPane]");
  }
}
