/**
 * The category documentation of CategoryDoc.java: a builder that collects child
 * categories and nodes in lazily created lists, the immutable `CategoryDoc` it builds,
 * and the recursive collection of every contributing plugin. The document type of a
 * node is a type parameter `N`; where a node's plugin is needed it is read through
 * `nodePlugin`.
 */
module CategoryDocs {
  import opened Wrappers
  import opened JavaLists

  datatype CategoryDoc<N> = CategoryDoc(
    id: Option<string>,
    name: Option<string>,
    description: Option<string>,
    contributingPlugin: Option<string>,
    iconBase64: Option<string>,
    children: CategoryList<N>,
    nodes: Option<seq<N>>)

  /** A child-category list that may be null (declared apart so that children rank below their parent). */
  datatype CategoryList<N> = NullList | List(elems: seq<CategoryDoc<N>>)

  /** Everything a `CategoryDocBuilder` holds; the lists are held by reference. */
  datatype CategoryDocBuilderFields<N> = CategoryDocBuilderFields(
    identifier: Option<string>,
    name: Option<string>,
    description: Option<string>,
    contributingPlugin: Option<string>,
    iconBase64: Option<string>,
    children: JavaList?<CategoryDoc<N>>,
    nodes: JavaList?<N>)

  class CategoryDocBuilder<N> {
    var identifier: Option<string>
    var name: Option<string>
    var description: Option<string>
    var contributingPlugin: Option<string>
    var iconBase64: Option<string>
    var children: JavaList?<CategoryDoc<N>>
    var nodes: JavaList?<N>

    function Fields(): CategoryDocBuilderFields<N>
      reads this
    {
      CategoryDocBuilderFields(identifier, name, description, contributingPlugin, iconBase64, children, nodes)
    }

    /** The builder's two lists are distinct objects (each is created by the builder itself). */
    ghost predicate Valid()
      reads this
    {
      children != null && nodes != null ==> children as object != nodes as object
    }

    /** `new CategoryDocBuilder()`: every field null. */
    constructor ()
      ensures Fields() == CategoryDocBuilderFields(None, None, None, None, None, null, null)
      ensures Valid()
    {
      identifier, name, description, contributingPlugin, iconBase64 := None, None, None, None, None;
      children, nodes := null, null;
    }

    method SetIdentifier(identifier: Option<string>) returns (self: CategoryDocBuilder<N>)
      modifies this
      ensures self == this && Fields() == old(Fields()).(identifier := identifier)
    {
      this.identifier := identifier;
      self := this;
    }

    method SetName(name: Option<string>) returns (self: CategoryDocBuilder<N>)
      modifies this
      ensures self == this && Fields() == old(Fields()).(name := name)
    {
      this.name := name;
      self := this;
    }

    method SetDescription(description: Option<string>) returns (self: CategoryDocBuilder<N>)
      modifies this
      ensures self == this && Fields() == old(Fields()).(description := description)
    {
      this.description := description;
      self := this;
    }

    method SetContributingPlugin(contributingPlugin: Option<string>) returns (self: CategoryDocBuilder<N>)
      modifies this
      ensures self == this && Fields() == old(Fields()).(contributingPlugin := contributingPlugin)
    {
      this.contributingPlugin := contributingPlugin;
      self := this;
    }

    method SetIconBase64(iconBase64: Option<string>) returns (self: CategoryDocBuilder<N>)
      modifies this
      ensures self == this && Fields() == old(Fields()).(iconBase64 := iconBase64)
    {
      this.iconBase64 := iconBase64;
      self := this;
    }

    /** `addChild`: creates the child list on first use and appends; the node list is untouched. */
    method AddChild(child: CategoryDoc<N>) returns (self: CategoryDocBuilder<N>)
      requires Valid()
      modifies this, children
      ensures self == this && Valid()
      ensures children != null && (old(children) == null ==> fresh(children))
      ensures old(children) != null ==> children == old(children)
      ensures children.elems == (if old(children) == null then [] else old(children.elems)) + [child]
      ensures Fields() == old(Fields()).(children := children)
      ensures nodes != null ==> nodes.elems == old(nodes.elems)
    {
      if children == null {
        children := new JavaList();
      }
      children.Add(child);
      self := this;
    }

    /** `addNode`: creates the node list on first use and appends; the child list is untouched. */
    method AddNode(node: N) returns (self: CategoryDocBuilder<N>)
      requires Valid()
      modifies this, nodes
      ensures self == this && Valid()
      ensures nodes != null && (old(nodes) == null ==> fresh(nodes))
      ensures old(nodes) != null ==> nodes == old(nodes)
      ensures nodes.elems == (if old(nodes) == null then [] else old(nodes.elems)) + [node]
      ensures Fields() == old(Fields()).(nodes := nodes)
      ensures children != null ==> children.elems == old(children.elems)
    {
      if nodes == null {
        nodes := new JavaList();
      }
      nodes.Add(node);
      self := this;
    }

    /** `build()`: `identifier` becomes `id`; both lists are copied, null staying null. */
    function Build(): (d: CategoryDoc<N>)
      reads this, children, nodes
      ensures d.id == identifier && d.name == name && d.description == description
      ensures d.contributingPlugin == contributingPlugin && d.iconBase64 == iconBase64
      ensures d.children.NullList? <==> children == null
      ensures children != null ==> d.children.elems == children.elems
      ensures d.nodes.None? <==> nodes == null
      ensures nodes != null ==> d.nodes.value == nodes.elems
    {
      CategoryDoc(identifier, name, description, contributingPlugin, iconBase64,
                  if children == null then NullList else List(children.elems), CopyOrNull(nodes))
    }
  }

  predicate NoDuplicates(s: seq<Option<string>>) {
    forall i, j :: 0 <= i < j < |s| ==> s[i] != s[j]
  }

  /** `LinkedHashSet.add`: appends `x` unless it is already present. */
  function LinkedAdd(s: seq<Option<string>>, x: Option<string>): (r: seq<Option<string>>)
    ensures NoDuplicates(s) ==> NoDuplicates(r)
    ensures s <= r && x in r
    ensures forall y :: y in r <==> y in s || y == x
  {
    if x in s then s else s + [x]
  }

  /** `LinkedHashSet.addAll`: adds the elements of `xs` in their order. */
  function LinkedAddAll(s: seq<Option<string>>, xs: seq<Option<string>>): (r: seq<Option<string>>)
    ensures NoDuplicates(s) ==> NoDuplicates(r)
    ensures s <= r
    ensures forall y :: y in r <==> y in s || y in xs
    decreases |xs|
  {
    if xs == [] then s else LinkedAddAll(LinkedAdd(s, xs[0]), xs[1..])
  }

  /**
   * Whether plugin `p` contributes to category `c`: it is the category's own plugin, or
   * contributes to one of its child categories, or is the plugin of one of its nodes.
   */
  ghost predicate Contributes<N>(c: CategoryDoc<N>, p: Option<string>, nodePlugin: N -> Option<string>)
    decreases c
  {
    p == c.contributingPlugin ||
    (c.children.List? && exists i :: 0 <= i < |c.children.elems| && Contributes(c.children.elems[i], p, nodePlugin)) ||
    (c.nodes.Some? && exists k :: 0 <= k < |c.nodes.value| && nodePlugin(c.nodes.value[k]) == p)
  }

  /**
   * `getAllContributingPlugins`: an insertion-ordered set holding the category's own plugin
   * first, then the plugins of each child category (recursively, in child order), then the
   * plugins of its own nodes. It holds exactly the contributing plugins, each once.
   */
  function AllContributingPlugins<N>(c: CategoryDoc<N>, nodePlugin: N -> Option<string>): (r: seq<Option<string>>)
    ensures NoDuplicates(r)
    ensures |r| >= 1 && r[0] == c.contributingPlugin
    ensures forall p :: p in r <==> Contributes(c, p, nodePlugin)
    decreases c, 1
  {
    var own := [c.contributingPlugin];
    var withChildren := if c.children.List? then ChildrenPlugins(c, own, 0, nodePlugin) else own;
    if c.nodes.Some? then NodePlugins(withChildren, c.nodes.value, nodePlugin) else withChildren
  }

  /** `children.forEach(child -> result.addAll(child.getAllContributingPlugins()))` from child `i` on. */
  function ChildrenPlugins<N>(c: CategoryDoc<N>, acc: seq<Option<string>>, i: nat, nodePlugin: N -> Option<string>)
    : (r: seq<Option<string>>)
    requires c.children.List? && i <= |c.children.elems|
    ensures NoDuplicates(acc) ==> NoDuplicates(r)
    ensures acc <= r
    ensures forall p :: p in r <==>
              (p in acc || exists j :: i <= j < |c.children.elems| && Contributes(c.children.elems[j], p, nodePlugin))
    decreases c, 0, |c.children.elems| - i
  {
    if i == |c.children.elems| then acc
    else
      var child := c.children.elems[i];
      ChildrenPlugins(c, LinkedAddAll(acc, AllContributingPlugins(child, nodePlugin)), i + 1, nodePlugin)
  }

  /** `nodes.forEach(node -> result.add(node.contributingPlugin))`. */
  function NodePlugins<N>(acc: seq<Option<string>>, ns: seq<N>, nodePlugin: N -> Option<string>): (r: seq<Option<string>>)
    ensures NoDuplicates(acc) ==> NoDuplicates(r)
    ensures acc <= r
    ensures forall p :: p in r <==> p in acc || exists k :: 0 <= k < |ns| && nodePlugin(ns[k]) == p
    decreases |ns|
  {
    if ns == [] then acc else NodePlugins(LinkedAdd(acc, nodePlugin(ns[0])), ns[1..], nodePlugin)
  }
}
