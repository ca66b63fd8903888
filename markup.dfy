/**
 * The parsed node description as the parsers see it through Jerry: a tree of elements
 * and text, selected with descendant selectors (`$("a b c")`), read with `text()`,
 * `html()` and `attr()`, and changed with `addClass`.
 */
module Markup {
  import opened Wrappers

  datatype Attribute = Attribute(name: string, value: string)

  datatype XNode =
    | Element(tag: string, attributes: seq<Attribute>, children: seq<XNode>)
    | Text(content: string)

  /** The value of the first attribute called `name`, or null. */
  function AttributeValue(attributes: seq<Attribute>, name: string): (r: Option<string>)
    ensures r.None? <==> forall i :: 0 <= i < |attributes| ==> attributes[i].name != name
    ensures r.Some? ==> exists i :: 0 <= i < |attributes| && attributes[i] == Attribute(name, r.value)
  {
    if attributes == [] then None
    else if attributes[0].name == name then Some(attributes[0].value)
    else
      var rest := AttributeValue(attributes[1..], name);
      assert rest.Some? ==> exists i :: 1 <= i < |attributes| && attributes[i] == Attribute(name, rest.value);
      rest
  }

  /** Whether `n` is an element with tag `tag`. */
  predicate IsTagged(n: XNode, tag: string) {
    n.Element? && n.tag == tag
  }

  /** The elements strictly inside `n` tagged `tag`, in document order. */
  function Descendants(n: XNode, tag: string): (r: seq<XNode>)
    ensures forall i :: 0 <= i < |r| ==> IsTagged(r[i], tag)
    ensures n.Element? ==> forall c :: c in n.children && IsTagged(c, tag) ==> c in r
    decreases n, 1
  {
    if n.Text? then [] else DescendantsIn(n.children, tag)
  }

  /** The elements tagged `tag` among `nodes` and inside them, in document order. */
  function DescendantsIn(nodes: seq<XNode>, tag: string): (r: seq<XNode>)
    ensures forall i :: 0 <= i < |r| ==> IsTagged(r[i], tag)
    ensures forall c :: c in nodes && IsTagged(c, tag) ==> c in r
    decreases nodes, 0
  {
    if nodes == [] then []
    else
      var first := nodes[0];
      (if IsTagged(first, tag) then [first] else []) + Descendants(first, tag) + DescendantsIn(nodes[1..], tag)
  }

  /** `context.$(tag)`: the descendants tagged `tag` of every context element, in order. */
  function Find(context: seq<XNode>, tag: string): (r: seq<XNode>)
    ensures forall i :: 0 <= i < |r| ==> IsTagged(r[i], tag)
    ensures context == [] ==> r == []
  {
    if context == [] then [] else Descendants(context[0], tag) + Find(context[1..], tag)
  }

  /** `context.$("t1 t2 ... tk")`: the descendant selector, one tag after the other. */
  function Select(context: seq<XNode>, path: seq<string>): (r: seq<XNode>)
    requires path != []
    ensures forall i :: 0 <= i < |r| ==> IsTagged(r[i], path[|path| - 1])
    decreases |path|
  {
    if |path| == 1 then Find(context, path[0]) else Select(Find(context, path[0]), path[1..])
  }

  /** `d` lies strictly inside `n`: it is one of its children or lies inside one. */
  predicate IsDescendant(d: XNode, n: XNode)
    decreases n, 1
  {
    n.Element? && InOrUnder(d, n.children)
  }

  /** `d` is one of `nodes` or lies inside one. */
  predicate InOrUnder(d: XNode, nodes: seq<XNode>)
    decreases nodes, 0
  {
    nodes != [] && (nodes[0] == d || IsDescendant(d, nodes[0]) || InOrUnder(d, nodes[1..]))
  }

  /** `Descendants` finds exactly the elements with the tag strictly inside `n`, at any depth. */
  lemma {:induction false} DescendantsExact(n: XNode, tag: string, d: XNode)
    ensures d in Descendants(n, tag) <==> IsTagged(d, tag) && IsDescendant(d, n)
    decreases n, 1
  {
    if n.Element? {
      DescendantsInExact(n.children, tag, d);
    }
  }

  /** `DescendantsIn` finds exactly the elements with the tag among `nodes` and inside them. */
  lemma {:induction false} DescendantsInExact(nodes: seq<XNode>, tag: string, d: XNode)
    ensures d in DescendantsIn(nodes, tag) <==> IsTagged(d, tag) && InOrUnder(d, nodes)
    decreases nodes, 0
  {
    if nodes != [] {
      DescendantsExact(nodes[0], tag, d);
      DescendantsInExact(nodes[1..], tag, d);
    }
  }

  /** `context.$(tag)` finds exactly the elements with the tag inside some context element. */
  lemma {:induction false} FindExact(context: seq<XNode>, tag: string, d: XNode)
    ensures d in Find(context, tag) <==>
            IsTagged(d, tag) && exists i :: 0 <= i < |context| && IsDescendant(d, context[i])
  {
    if context != [] {
      DescendantsExact(context[0], tag, d);
      FindExact(context[1..], tag, d);
      if exists i :: 0 <= i < |context| && IsDescendant(d, context[i]) {
        var i :| 0 <= i < |context| && IsDescendant(d, context[i]);
        if i > 0 {
          assert context[1..][i - 1] == context[i];
        }
      }
      if exists i :: 0 <= i < |context[1..]| && IsDescendant(d, context[1..][i]) {
        var i :| 0 <= i < |context[1..]| && IsDescendant(d, context[1..][i]);
        assert context[i + 1] == context[1..][i];
      }
    }
  }

  /**
   * `context.$("t1 ... tk")` finds exactly the elements tagged `tk` inside some element that
   * `context.$("t1 ... t(k-1)")` finds.
   */
  lemma {:induction false} SelectExact(context: seq<XNode>, path: seq<string>, d: XNode)
    requires |path| >= 2
    ensures d in Select(context, path) <==>
            IsTagged(d, path[|path| - 1]) &&
            exists e :: e in Select(context, path[..|path| - 1]) && IsDescendant(d, e)
    decreases |path|
  {
    var outer := Find(context, path[0]);
    var k := |path|;
    if k == 2 {
      FindExact(outer, path[1], d);
      if exists e :: e in outer && IsDescendant(d, e) {
        var e :| e in outer && IsDescendant(d, e);
        var i :| 0 <= i < |outer| && outer[i] == e;
      }
    } else {
      SelectExact(outer, path[1..], d);
      assert path[1..][..k - 2] == path[..k - 1][1..];
    }
  }

  /** The text content of a node: all its text, in document order. */
  function TextContent(n: XNode): string
    decreases n, 1
  {
    if n.Text? then n.content else TextContentIn(n.children)
  }

  function TextContentIn(nodes: seq<XNode>): string
    decreases nodes, 0
  {
    if nodes == [] then [] else TextContent(nodes[0]) + TextContentIn(nodes[1..])
  }

  /** `text()`: the text of all selected nodes run together; empty (never null) for an empty selection. */
  function SelectionText(selection: seq<XNode>): (r: string)
    ensures selection == [] ==> r == []
    ensures |selection| == 1 ==> r == TextContent(selection[0])
  {
    if selection == [] then [] else TextContent(selection[0]) + SelectionText(selection[1..])
  }

  /** The markup of a node, attributes in order, text as it is. */
  function Serialize(n: XNode): string
    decreases n, 1
  {
    match n
    case Text(content) => content
    case Element(tag, attributes, children) =>
      "<" + tag + SerializeAttributes(attributes) + ">" + SerializeAll(children) + "</" + tag + ">"
  }

  function SerializeAll(nodes: seq<XNode>): string
    decreases nodes, 0
  {
    if nodes == [] then [] else Serialize(nodes[0]) + SerializeAll(nodes[1..])
  }

  function SerializeAttributes(attributes: seq<Attribute>): string {
    if attributes == [] then []
    else " " + attributes[0].name + "=\"" + attributes[0].value + "\"" + SerializeAttributes(attributes[1..])
  }

  /** The markup inside a node, without the node's own tags. */
  function InnerHtml(n: XNode): string {
    if n.Text? then [] else SerializeAll(n.children)
  }

  /** `html()`: the inner markup of the first selected node, null for an empty selection. */
  function SelectionHtml(selection: seq<XNode>): (r: Option<string>)
    ensures r.None? <==> selection == []
    ensures selection != [] ==> r.value == InnerHtml(selection[0])
  {
    if selection == [] then None else Some(InnerHtml(selection[0]))
  }

  /** `attr(name)`: the attribute of the first selected node; null without one. */
  function SelectionAttr(selection: seq<XNode>, name: string): (r: Option<string>)
    ensures selection == [] ==> r.None?
    ensures selection != [] && selection[0].Element? ==> r == AttributeValue(selection[0].attributes, name)
  {
    if selection == [] || selection[0].Text? then None else AttributeValue(selection[0].attributes, name)
  }

  /** One past the last position of the token that starts `s`: the first blank, or the end. */
  function TokenEnd(s: string): (k: nat)
    ensures k <= |s|
    ensures forall i :: 0 <= i < k ==> s[i] != ' '
    ensures k < |s| ==> s[k] == ' '
  {
    if s == [] || s[0] == ' ' then 0 else 1 + TokenEnd(s[1..])
  }

  /** A class token: non-empty and without blanks. */
  predicate IsToken(t: string) {
    t != [] && forall i :: 0 <= i < |t| ==> t[i] != ' '
  }

  /** The blank-separated tokens of a class attribute, empty ones skipped. */
  function Tokens(s: string): (r: seq<string>)
    ensures forall i :: 0 <= i < |r| ==> IsToken(r[i])
    decreases |s|
  {
    if s == [] then []
    else if s[0] == ' ' then Tokens(s[1..])
    else
      var k := TokenEnd(s);
      [s[..k]] + Tokens(s[k..])
  }

  /** The tokens joined by single blanks. */
  function Join(ts: seq<string>): string {
    if ts == [] then []
    else if |ts| == 1 then ts[0]
    else ts[0] + " " + Join(ts[1..])
  }

  lemma {:induction false} TokensOfJoin(ts: seq<string>)
    requires forall i :: 0 <= i < |ts| ==> IsToken(ts[i])
    ensures Tokens(Join(ts)) == ts
  {
    if ts != [] {
      var s := Join(ts);
      var t := ts[0];
      assert s[..|t|] == t;
      assert TokenEnd(s) == |t| by { TokenEndOfPrefix(t, s[|t|..]); assert s == t + s[|t|..]; }
      if |ts| > 1 {
        TokensOfJoin(ts[1..]);
        assert s[|t|..] == " " + Join(ts[1..]);
        assert Tokens(s[|t|..]) == Tokens(Join(ts[1..]));
      } else {
        assert s[|t|..] == [];
      }
    }
  }

  lemma {:induction false} TokenEndOfPrefix(t: string, rest: string)
    requires IsToken(t) && (rest == [] || rest[0] == ' ')
    ensures TokenEnd(t + rest) == |t|
    decreases |t|
  {
    if |t| > 1 {
      assert (t + rest)[1..] == t[1..] + rest;
      TokenEndOfPrefix(t[1..], rest);
    } else {
      assert (t + rest)[1..] == rest;
    }
  }

  /** No token occurs twice. */
  predicate Distinct(ts: seq<string>) {
    forall i, j :: 0 <= i < j < |ts| ==> ts[i] != ts[j]
  }

  /** `LinkedHashSet.add` over tokens. */
  function AddToken(ts: seq<string>, t: string): (r: seq<string>)
    ensures forall x :: x in r <==> x in ts || x == t
    ensures ts <= r
    ensures Distinct(ts) ==> Distinct(r)
  {
    if t in ts then ts else ts + [t]
  }

  /** A duplicate-free token sequence: the order in which a `LinkedHashSet` holds them. */
  function Dedup(ts: seq<string>): (r: seq<string>)
    ensures forall x :: x in r <==> x in ts
    ensures Distinct(r)
    decreases |ts|
  {
    if ts == [] then [] else
      var init := Dedup(ts[..|ts| - 1]);
      assert forall x :: x in ts <==> x in ts[..|ts| - 1] || x == ts[|ts| - 1];
      AddToken(init, ts[|ts| - 1])
  }

  lemma {:induction false} DedupKeepsDistinct(ts: seq<string>)
    requires Distinct(ts)
    ensures Dedup(ts) == ts
    decreases |ts|
  {
    if ts != [] {
      var init := ts[..|ts| - 1];
      var last := ts[|ts| - 1];
      DedupKeepsDistinct(init);
      assert last !in init by {
        forall i | 0 <= i < |init| ensures init[i] != last {
          assert init[i] == ts[i];
        }
      }
      assert init + [last] == ts;
    }
  }

  /** Adds each of `classes` in turn, as `addClass` adds them to the class set. */
  function AddClasses(ts: seq<string>, classes: seq<string>): (r: seq<string>)
    ensures forall x :: x in r <==> x in ts || x in classes
    ensures ts <= r
    ensures Distinct(ts) ==> Distinct(r)
    decreases |classes|
  {
    if classes == [] then ts else AddClasses(AddToken(ts, classes[0]), classes[1..])
  }

  /** Adding classes that are all present already leaves the class set as it is. */
  lemma {:induction false} AddingPresentClasses(ts: seq<string>, classes: seq<string>)
    requires forall c :: c in classes ==> c in ts
    ensures AddClasses(ts, classes) == ts
    decreases |classes|
  {
    if classes != [] {
      assert classes[0] in ts;
      AddingPresentClasses(ts, classes[1..]);
    }
  }

  /** The classes of an element, as the class set `addClass` starts from. */
  function ClassTokens(attributes: seq<Attribute>): seq<string> {
    Dedup(Tokens(AttributeValue(attributes, "class").GetOr([])))
  }

  /** `setAttribute(name, value)`: overwrite the first attribute called `name`, or append it. */
  function SetAttribute(attributes: seq<Attribute>, name: string, value: string): (r: seq<Attribute>)
    ensures AttributeValue(r, name) == Some(value)
  {
    if attributes == [] then [Attribute(name, value)]
    else if attributes[0].name == name then [Attribute(name, value)] + attributes[1..]
    else [attributes[0]] + SetAttribute(attributes[1..], name, value)
  }

  /**
   * `addClass(classes...)` on one element: the missing classes are appended to its class
   * set and the attribute is rewritten, blank-separated; when none is missing the
   * attributes stay as they are.
   */
  function AddClassAttribute(attributes: seq<Attribute>, classes: seq<string>): (r: seq<Attribute>)
    ensures (forall c :: c in classes ==> c in ClassTokens(attributes)) ==> r == attributes
  {
    var before := ClassTokens(attributes);
    var after := AddClasses(before, classes);
    assert (forall c :: c in classes ==> c in before) ==> after == before by {
      if forall c :: c in classes ==> c in before {
        AddingPresentClasses(before, classes);
      }
    }
    if |after| == |before| then attributes else SetAttribute(attributes, "class", Join(after))
  }

  /** After `addClass`, the element's classes are its former ones plus the added ones. */
  lemma AddClassAttributeEffect(attributes: seq<Attribute>, classes: seq<string>)
    requires forall i :: 0 <= i < |classes| ==> IsToken(classes[i])
    ensures forall x :: x in ClassTokens(AddClassAttribute(attributes, classes)) <==>
                        x in ClassTokens(attributes) || x in classes
  {
    var before := ClassTokens(attributes);
    var after := AddClasses(before, classes);
    if |after| == |before| {
      assert after == before;
    } else {
      var tokens := Tokens(AttributeValue(attributes, "class").GetOr([]));
      forall i | 0 <= i < |after| ensures IsToken(after[i]) {
        assert after[i] in tokens || after[i] in classes;
      }
      TokensOfJoin(after);
      DedupKeepsDistinct(after);
    }
  }

  /** The classes `transformIntro` gives every table of the introduction. */
  const TableClasses: seq<string> := ["table", "table-striped", "table-bordered"]

  /** `intro.$("table").addClass(...)` as a rewrite of the tree: every table below `n` gains the classes. */
  function ClassifyTables(n: XNode): (r: XNode)
    ensures r.Text? <==> n.Text?
    ensures n.Element? ==> r.tag == n.tag && |r.children| == |n.children|
    decreases n, 1
  {
    match n
    case Text(_) => n
    case Element(tag, attributes, children) =>
      Element(tag, if tag == "table" then AddClassAttribute(attributes, TableClasses) else attributes, ClassifyTablesIn(children))
  }

  function ClassifyTablesIn(nodes: seq<XNode>): (r: seq<XNode>)
    ensures |r| == |nodes|
    ensures forall i :: 0 <= i < |nodes| ==> r[i] == ClassifyTables(nodes[i])
    decreases nodes, 0
  {
    if nodes == [] then [] else [ClassifyTables(nodes[0])] + ClassifyTablesIn(nodes[1..])
  }

  /** A table that carries the three classes. */
  predicate IsClassifiedTable(n: XNode) {
    IsTagged(n, "table") ==> forall c :: c in TableClasses ==> c in ClassTokens(n.attributes)
  }

  /** After the rewrite, the node itself and every table inside it carry the three classes. */
  lemma {:induction false} TablesClassified(n: XNode)
    ensures IsClassifiedTable(ClassifyTables(n))
    ensures forall e :: e in Descendants(ClassifyTables(n), "table") ==> IsClassifiedTable(e)
    decreases n, 1
  {
    if n.Element? {
      if n.tag == "table" {
        AddClassAttributeEffect(n.attributes, TableClasses);
      }
      TablesClassifiedIn(n.children);
    }
  }

  lemma {:induction false} TablesClassifiedIn(nodes: seq<XNode>)
    ensures forall e :: e in DescendantsIn(ClassifyTablesIn(nodes), "table") ==> IsClassifiedTable(e)
    decreases nodes, 0
  {
    if nodes != [] {
      var r := ClassifyTablesIn(nodes);
      var head := if IsTagged(r[0], "table") then [r[0]] else [];
      assert r[1..] == ClassifyTablesIn(nodes[1..]);
      assert DescendantsIn(r, "table") == head + Descendants(r[0], "table") + DescendantsIn(r[1..], "table");
      TablesClassified(nodes[0]);
      TablesClassifiedIn(nodes[1..]);
    }
  }

  /**
   * A table without a class attribute gets exactly one attribute, `class` holding the
   * three classes joined by blanks, and its classes are then exactly those three.
   */
  lemma PlainTableMarkup(children: seq<XNode>)
    ensures ClassifyTables(Element("table", [], children)).attributes == [Attribute("class", Join(TableClasses))]
    ensures ClassTokens(ClassifyTables(Element("table", [], children)).attributes) == TableClasses
  {
    PlainTableAttributes();
    PlainTableTokens();
  }

  /** The class attribute written for a plain table reads back as the three classes. */
  lemma PlainTableTokens()
    ensures ClassTokens([Attribute("class", Join(TableClasses))]) == TableClasses
  {
    var attrs := [Attribute("class", Join(TableClasses))];
    assert AttributeValue(attrs, "class") == Some(Join(TableClasses));
    TableClassesAreTokens();
    TokensOfJoin(TableClasses);
    DedupKeepsDistinct(TableClasses);
  }

  /** A table with no attributes gains exactly one: the three classes, blank-separated. */
  lemma PlainTableAttributes()
    ensures AddClassAttribute([], TableClasses) == [Attribute("class", Join(TableClasses))]
  {
    assert ClassTokens([]) == [] by {
      assert AttributeValue([], "class") == None;
    }
    assert AddClasses([], TableClasses) == TableClasses;
  }

  lemma TableClassesAreTokens()
    ensures forall i :: 0 <= i < |TableClasses| ==> IsToken(TableClasses[i])
  {
    forall i | 0 <= i < 5 ensures "table"[i] != ' ' {
      assert "table"[i] in "table";
    }
    forall i | 0 <= i < 13 ensures "table-striped"[i] != ' ' {
      assert "table-striped"[i] in "table-striped";
    }
    forall i | 0 <= i < 14 ensures "table-bordered"[i] != ' ' {
      assert "table-bordered"[i] in "table-bordered";
    }
  }
}
