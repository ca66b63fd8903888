/**
 * RepositoryManager reading the repository: placing each contributed node into the category
 * its path names (or into "/uncategorized" when the category is unknown or locked against
 * its vendor), recording the IDs declared deprecated, pruning empty categories, and doing
 * all of it lazily, once the root is first asked for. The extension registry and KNIME's
 * factories are not part of this model: what they contribute is given as a `Registry`.
 */
module RepositoryManagement {
  import opened Wrappers
  import opened JavaStrings
  import opened RepositoryTree
  import opened RepositoryModel
  import opened JavaLists
  import opened CategoryDeclarations

  /** What `findContainer` answers: for each category path it resolves, the way from the root to that container. */
  type Lookup = map<string, seq<nat>>

  /** `t` is a container and every path the lookup resolves leads to a container in it. */
  predicate Resolves(t: RepoObject, lookup: Lookup) {
    IsContainer(t) && forall path :: path in lookup ==> ContainerAt(t, lookup[path])
  }

  /** Adding a child keeps every lookup valid. */
  lemma AddKeepsResolving(t: RepoObject, at: seq<nat>, x: RepoObject, lookup: Lookup)
    requires ContainerAt(t, at) && Resolves(t, lookup)
    ensures Resolves(AddChildAt(t, at, x), lookup)
  {
    forall path | path in lookup
      ensures ContainerAt(AddChildAt(t, at, x), lookup[path])
    {
      AddKeepsContainers(t, at, x, lookup[path]);
    }
  }

  /**
   * A `node` extension element: the template `createNode` makes of it (nothing when that
   * throws), the template's category path, the declaring plug-in and the `deprecated` attribute.
   */
  datatype NodeElement = NodeElement(created: Option<RepoObject>, categoryPath: string, namespace: string,
                                     deprecated: Option<string>)

  /** A template some other extension contributes, with the category path it asks for. */
  datatype Contribution = Contribution(template: RepoObject, categoryPath: string)

  /** A `nodeset` extension element: the templates `createNodeSet` makes (nothing when that throws) and its `deprecated` attribute. */
  datatype NodeSetElement = NodeSetElement(created: Option<seq<Contribution>>, deprecated: Option<string>)

  /**
   * What `createCategory` makes of a declaration: a new category without children, and the
   * path of the container it is to be added to.
   */
  datatype MadeCategory = MadeCategory(category: RepoObject, parentPath: string)

  /**
   * What the extension registry contributes: the category declarations, what
   * `createCategory` makes of each (a declaration it throws on is missing), what
   * `findContainer` answers once the categories are there, and the node, node-set and
   * metanode elements (a metanode that `createMetaNode` cannot make is nothing).
   */
  datatype Registry = Registry(declarations: seq<CategoryElement>, categories: map<CategoryElement, MadeCategory>,
                               lookup: Lookup, nodes: seq<NodeElement>,
                               nodeSets: seq<NodeSetElement>, metanodes: seq<Option<Contribution>>)

  /** `isDeprecated(elem)`: the attribute equals "true", ignoring case. */
  predicate DeclaredDeprecated(attribute: Option<string>) {
    attribute.Some? && EqualsIgnoreCase("true", attribute.value)
  }

  /** Where the vendor part of a plug-in ID ends: its second '.', or 0 when it has fewer than two. */
  function SecondDotIndex(pluginId: string): (k: nat)
    ensures k > 0 ==> k < |pluginId| && pluginId[k] == '.' &&
                      exists i :: 0 <= i < k && pluginId[i] == '.' && forall j :: 0 <= j < k && j != i ==> pluginId[j] != '.'
    ensures k == 0 ==> forall i, j :: 0 <= i < j < |pluginId| && pluginId[i] == '.' ==> pluginId[j] != '.'
  {
    var second := IndexOf(pluginId, '.', IndexOf(pluginId, '.', 0) + 1);
    if second == -1 then 0 else second
  }

  /**
   * Whether a node from plug-in `nodePluginId` may go into `container`: it is not locked, or
   * it comes from the same plug-in, or from KNIME itself, or from the same vendor (the first
   * two parts of the plug-in IDs agree). A container without a plug-in counts as plug-in "".
   */
  predicate Admits(container: RepoObject, nodePluginId: string)
    requires IsContainer(container)
  {
    var categoryPluginId := container.contributingPlugin.GetOr("");
    !container.locked || nodePluginId == categoryPluginId || StartsWith(nodePluginId, "org.knime.") ||
    StartsWith(nodePluginId, "com.knime.") || RegionMatches(nodePluginId, categoryPluginId, SecondDotIndex(nodePluginId))
  }

  /** The container `readNodes` falls back to: "/uncategorized", or the root when there is none. */
  function UncategorizedAt(lookup: Lookup): seq<nat> {
    if "/uncategorized" in lookup then lookup["/uncategorized"] else []
  }

  /** Where `readNodes` puts a node: its category when that exists and admits it, otherwise the fallback. */
  function NodeTarget(t: RepoObject, lookup: Lookup, e: NodeElement): (at: seq<nat>)
    requires Resolves(t, lookup)
    ensures ContainerAt(t, at)
  {
    if e.categoryPath in lookup && Admits(At(t, lookup[e.categoryPath]), e.namespace) then lookup[e.categoryPath]
    else UncategorizedAt(lookup)
  }

  /** The tree after `readNodes` has placed `elems` in order. */
  function PlaceNodes(t: RepoObject, lookup: Lookup, elems: seq<NodeElement>): (r: RepoObject)
    requires Resolves(t, lookup)
    ensures Resolves(r, lookup) && Shell(r) == Shell(t)
    decreases |elems|
  {
    if elems == [] then t else PlaceNode(PlaceNodes(t, lookup, elems[..|elems| - 1]), lookup, elems[|elems| - 1])
  }

  /** One node element of `readNodes`: its template, when it could be created, goes where `NodeTarget` says. */
  function PlaceNode(t: RepoObject, lookup: Lookup, e: NodeElement): (r: RepoObject)
    requires Resolves(t, lookup)
    ensures Resolves(r, lookup) && Shell(r) == Shell(t)
  {
    if e.created.None? then t
    else
      AddKeepsResolving(t, NodeTarget(t, lookup, e), e.created.value, lookup);
      AddChildAt(t, NodeTarget(t, lookup, e), e.created.value)
  }

  /** The IDs `readNodes` records as deprecated. */
  function DeprecatedNodeIds(elems: seq<NodeElement>): set<string> {
    if elems == [] then {}
    else
      var e := elems[|elems| - 1];
      DeprecatedNodeIds(elems[..|elems| - 1]) +
      (if e.created.Some? && DeclaredDeprecated(e.deprecated) then {e.created.value.id} else {})
  }

  /** The templates `readNodes` creates, in order. */
  function CreatedNodes(elems: seq<NodeElement>): seq<RepoObject> {
    if elems == [] then []
    else
      var e := elems[|elems| - 1];
      CreatedNodes(elems[..|elems| - 1]) + (if e.created.Some? then [e.created.value] else [])
  }

  /** Where a node set's template or a metanode goes: the container its path names, or the root. */
  function FoundOrRoot(lookup: Lookup, path: string): seq<nat> {
    if path in lookup then lookup[path] else []
  }

  /** The tree after the contributions have been placed in order. */
  function PlaceAll(t: RepoObject, lookup: Lookup, cs: seq<Contribution>): (r: RepoObject)
    requires Resolves(t, lookup)
    ensures Resolves(r, lookup) && Shell(r) == Shell(t)
    decreases |cs|
  {
    if cs == [] then t else PlaceOne(PlaceAll(t, lookup, cs[..|cs| - 1]), lookup, cs[|cs| - 1])
  }

  /** One contribution goes to the container its path names, or to the root. */
  function PlaceOne(t: RepoObject, lookup: Lookup, c: Contribution): (r: RepoObject)
    requires Resolves(t, lookup)
    ensures Resolves(r, lookup) && Shell(r) == Shell(t)
  {
    AddKeepsResolving(t, FoundOrRoot(lookup, c.categoryPath), c.template, lookup);
    AddChildAt(t, FoundOrRoot(lookup, c.categoryPath), c.template)
  }

  lemma PlaceAllStep(t: RepoObject, lookup: Lookup, cs: seq<Contribution>, c: Contribution)
    requires Resolves(t, lookup)
    ensures PlaceAll(t, lookup, cs + [c]) == PlaceOne(PlaceAll(t, lookup, cs), lookup, c)
  {
    assert (cs + [c])[..|cs|] == cs;
  }

  /** The templates of all node sets that could be created, in order. */
  function NodeSetContributions(sets: seq<NodeSetElement>): seq<Contribution> {
    if sets == [] then []
    else NodeSetContributions(sets[..|sets| - 1]) + sets[|sets| - 1].created.GetOr([])
  }

  /** The IDs `readNodeSets` records as deprecated: every template of a node set declared deprecated. */
  function DeprecatedNodeSetIds(sets: seq<NodeSetElement>): set<string> {
    if sets == [] then {}
    else
      var s := sets[|sets| - 1];
      DeprecatedNodeSetIds(sets[..|sets| - 1]) +
      (if DeclaredDeprecated(s.deprecated) then TemplateIds(s.created.GetOr([])) else {})
  }

  /** The metanodes that could be created, in order. */
  function CreatedMetanodes(ms: seq<Option<Contribution>>): seq<Contribution> {
    if ms == [] then []
    else CreatedMetanodes(ms[..|ms| - 1]) + (if ms[|ms| - 1].Some? then [ms[|ms| - 1].value] else [])
  }

  function Templates(cs: seq<Contribution>): seq<RepoObject> {
    if cs == [] then [] else Templates(cs[..|cs| - 1]) + [cs[|cs| - 1].template]
  }

  function TemplateIds(cs: seq<Contribution>): set<string> {
    if cs == [] then {} else TemplateIds(cs[..|cs| - 1]) + {cs[|cs| - 1].template.id}
  }

  /** The manager's state: the repository root and the deprecated IDs. */
  datatype ManagerState = ManagerState(root: RepoObject, deprecatedNodes: set<string>)

  /** The declarations `readCategories` hands to `createCategory`: without later duplicates, sorted by depth. */
  function CategoryOrder(declarations: seq<CategoryElement>): seq<CategoryElement> {
    SortedByDepth(Dedup(declarations))
  }

  /**
   * `createCategory` on one declaration: its category is added to the container its parent
   * path finds. When the declaration cannot be made, or its parent is not there (yet), the
   * exception is logged and the tree stays as it is.
   */
  function CreateCategory(t: RepoObject, lookup: Lookup, made: map<CategoryElement, MadeCategory>,
                          e: CategoryElement): (r: RepoObject)
    requires IsContainer(t)
    ensures IsContainer(r) && Shell(r) == Shell(t)
  {
    if e in made && made[e].parentPath in lookup && ContainerAt(t, lookup[made[e].parentPath]) then
      AddChildAt(t, lookup[made[e].parentPath], made[e].category)
    else t
  }

  /** The tree after `createCategory` has run on `elems` in order. */
  function CreateCategories(t: RepoObject, lookup: Lookup, made: map<CategoryElement, MadeCategory>,
                            elems: seq<CategoryElement>): (r: RepoObject)
    requires IsContainer(t)
    ensures IsContainer(r) && Shell(r) == Shell(t)
    decreases |elems|
  {
    if elems == [] then t
    else CreateCategory(CreateCategories(t, lookup, made, elems[..|elems| - 1]), lookup, made, elems[|elems| - 1])
  }

  /** The root `readCategories` leaves. */
  function Categorized(root: RepoObject, registry: Registry): (r: RepoObject)
    requires IsContainer(root)
    ensures IsContainer(r) && Shell(r) == Shell(root)
  {
    CreateCategories(root, registry.lookup, registry.categories, CategoryOrder(registry.declarations))
  }

  /** Every category `createCategory` makes is new: a category without children. */
  predicate MadeEmpty(made: map<CategoryElement, MadeCategory>) {
    forall e :: e in made ==> made[e].category.Category? && made[e].category.children == []
  }

  /**
   * The registry fits the root: the duplicate search throws nothing on its declarations,
   * the categories it makes are new, and its lookup resolves once they are in the root.
   */
  predicate Consistent(root: RepoObject, registry: Registry) {
    IsContainer(root) && NullSafe(registry.declarations) && MadeEmpty(registry.categories) &&
    Resolves(Categorized(Shell(root), registry), registry.lookup)
  }

  /**
   * What `createCategory` is handed: each path and level-id once, as first declared, in
   * the order of their depth, so that a parent category comes before the declarations
   * below it.
   */
  lemma CategoryOrderSpec(declarations: seq<CategoryElement>)
    ensures OrderedByDepth(CategoryOrder(declarations))
    ensures multiset(CategoryOrder(declarations)) == multiset(Dedup(declarations))
    ensures forall e :: e in CategoryOrder(declarations) ==>
                          Key(e) in Keys(declarations) && FirstWith(declarations, Key(e)) == e
    ensures Keys(CategoryOrder(declarations)) == Keys(declarations)
  {
    var order := CategoryOrder(declarations);
    var dedup := Dedup(declarations);
    SortedByDepthSpec(dedup);
    DedupFirsts(declarations);
    DedupKeepsOnePerKey(declarations);
    forall e | e in order ensures e in dedup {
      assert e in multiset(order);
    }
    forall k | k in Keys(order) ensures k in Keys(dedup) {
      var i :| 0 <= i < |order| && Key(order[i]) == k;
      assert order[i] in multiset(dedup);
      var j :| 0 <= j < |dedup| && dedup[j] == order[i];
    }
    forall k | k in Keys(dedup) ensures k in Keys(order) {
      var i :| 0 <= i < |dedup| && Key(dedup[i]) == k;
      assert dedup[i] in multiset(order);
      var j :| 0 <= j < |order| && order[j] == dedup[i];
    }
  }

  /** Creating new categories adds no template. */
  lemma {:induction false} CreateCategoriesLeaves(t: RepoObject, lookup: Lookup, made: map<CategoryElement, MadeCategory>,
                                                  elems: seq<CategoryElement>)
    requires IsContainer(t) && MadeEmpty(made)
    ensures multiset(Leaves(CreateCategories(t, lookup, made, elems))) == multiset(Leaves(t))
    decreases |elems|
  {
    if elems != [] {
      var prior := CreateCategories(t, lookup, made, elems[..|elems| - 1]);
      CreateCategoriesLeaves(t, lookup, made, elems[..|elems| - 1]);
      var e := elems[|elems| - 1];
      if e in made && made[e].parentPath in lookup && ContainerAt(prior, lookup[made[e].parentPath]) {
        AddChildLeaves(prior, lookup[made[e].parentPath], made[e].category);
        assert Leaves(made[e].category) == [];
      }
    }
  }

  lemma CreateCategoriesStep(t: RepoObject, lookup: Lookup, made: map<CategoryElement, MadeCategory>,
                             elems: seq<CategoryElement>, k: nat)
    requires IsContainer(t) && k < |elems|
    ensures CreateCategories(t, lookup, made, elems[..k + 1]) ==
            CreateCategory(CreateCategories(t, lookup, made, elems[..k]), lookup, made, elems[k])
  {
    assert elems[..k + 1][..k] == elems[..k];
  }

  /** `readRepository` from an empty root: categories, nodes, node sets, metanodes, then pruning. */
  function ReadResult(s: ManagerState, registry: Registry): (r: ManagerState)
    requires Consistent(s.root, registry) && ChildrenOf(s.root) == []
    ensures IsContainer(r.root) && Shell(r.root) == Shell(s.root)
  {
    var lookup := registry.lookup;
    var afterNodes := PlaceNodes(Categorized(s.root, registry), lookup, registry.nodes);
    var afterSets := PlaceAll(afterNodes, lookup, NodeSetContributions(registry.nodeSets));
    var afterMetanodes := PlaceAll(afterSets, lookup, CreatedMetanodes(registry.metanodes));
    ManagerState(Pruned(afterMetanodes),
                 s.deprecatedNodes + DeprecatedNodeIds(registry.nodes) + DeprecatedNodeSetIds(registry.nodeSets))
  }

  /** What `getRoot` and `isDeprecated` leave: the repository is read only while the root has no children. */
  function Loaded(s: ManagerState, registry: Registry): (r: ManagerState)
    requires Consistent(s.root, registry)
    ensures IsContainer(r.root) && Shell(r.root) == Shell(s.root)
  {
    if ChildrenOf(s.root) != [] then s else ReadResult(s, registry)
  }

  /** A container without children is its own shell. */
  lemma ChildlessIsShell(o: RepoObject)
    requires IsContainer(o) && ChildrenOf(o) == []
    ensures Shell(o) == o
  {
  }

  /** The read keeps the root consistent with the registry. */
  lemma ReadKeepsConsistent(s: ManagerState, registry: Registry)
    requires Consistent(s.root, registry) && ChildrenOf(s.root) == []
    ensures Consistent(ReadResult(s, registry).root, registry)
  {
  }

  /** A node plug-in ID with fewer than two dots has no vendor part, so any container admits the node. */
  lemma FewDotsAdmitted(container: RepoObject, nodePluginId: string)
    requires IsContainer(container)
    requires forall i, j :: 0 <= i < j < |nodePluginId| ==> !(nodePluginId[i] == '.' && nodePluginId[j] == '.')
    ensures SecondDotIndex(nodePluginId) == 0
    ensures Admits(container, nodePluginId)
  {
    var first := IndexOf(nodePluginId, '.', 0);
    var second := IndexOf(nodePluginId, '.', first + 1);
    if second != -1 {
      assert false;
    }
  }

  /** In an ID of the form vendor.product.rest, the vendor part ends at the second dot. */
  lemma VendorPart(vendor: string, product: string, rest: string)
    requires '.' !in vendor && '.' !in product
    ensures var id := vendor + "." + product + "." + rest;
            SecondDotIndex(id) == |vendor + "." + product| && id[..SecondDotIndex(id)] == vendor + "." + product
  {
    var id := vendor + "." + product + "." + rest;
    var k := |vendor + "." + product|;
    assert id[..k] == vendor + "." + product;
    assert id[|vendor|] == '.';
    assert id[k] == '.';
    forall i | 0 <= i < |vendor| ensures id[i] != '.' {
      assert id[i] == vendor[i];
    }
    forall i | |vendor| < i < k ensures id[i] != '.' {
      assert id[i] == product[i - |vendor| - 1];
    }
    assert IndexOf(id, '.', 0) == |vendor|;
  }

  /**
   * The placement rule for a locked container and a node plug-in ID with a vendor part:
   * the node is admitted exactly when it comes from the container's own plug-in, from
   * KNIME, or from a plug-in ID that starts with the same vendor and product.
   */
  lemma LockedAdmitsIff(container: RepoObject, vendor: string, product: string, rest: string)
    requires IsContainer(container) && container.locked
    requires '.' !in vendor && '.' !in product
    ensures var id := vendor + "." + product + "." + rest;
            var categoryPluginId := container.contributingPlugin.GetOr("");
            Admits(container, id) <==>
              id == categoryPluginId || StartsWith(id, "org.knime.") || StartsWith(id, "com.knime.") ||
              StartsWith(categoryPluginId, vendor + "." + product)
  {
    VendorPart(vendor, product, rest);
  }

  /** Whether an ID is recorded as deprecated depends only on the elements, not on where their nodes went. */
  lemma {:induction false} DeprecatedNodeIdsIff(elems: seq<NodeElement>, id: string)
    ensures id in DeprecatedNodeIds(elems) <==>
            exists i :: 0 <= i < |elems| && elems[i].created.Some? && elems[i].created.value.id == id &&
                        DeclaredDeprecated(elems[i].deprecated)
  {
    if elems != [] {
      var init := elems[..|elems| - 1];
      DeprecatedNodeIdsIff(init, id);
      if exists i :: 0 <= i < |init| && init[i].created.Some? && init[i].created.value.id == id &&
                     DeclaredDeprecated(init[i].deprecated) {
        var i :| 0 <= i < |init| && init[i].created.Some? && init[i].created.value.id == id &&
                 DeclaredDeprecated(init[i].deprecated);
        assert elems[i] == init[i];
      }
      if exists i :: 0 <= i < |elems| && elems[i].created.Some? && elems[i].created.value.id == id &&
                     DeclaredDeprecated(elems[i].deprecated) {
        var i :| 0 <= i < |elems| && elems[i].created.Some? && elems[i].created.value.id == id &&
                 DeclaredDeprecated(elems[i].deprecated);
        if i < |init| {
          assert init[i] == elems[i];
        }
      }
    }
  }

  /** Every template `readNodes` creates ends up in the tree exactly once, and nothing else is added. */
  lemma {:induction false} PlaceNodesLeaves(t: RepoObject, lookup: Lookup, elems: seq<NodeElement>)
    requires Resolves(t, lookup)
    ensures multiset(Leaves(PlaceNodes(t, lookup, elems))) == multiset(Leaves(t)) + multiset(LeavesAll(CreatedNodes(elems)))
    decreases |elems|
  {
    if elems != [] {
      var k := |elems| - 1;
      var init, e := elems[..k], elems[k];
      assert elems[..k + 1] == elems;
      PlaceNodesStep(t, lookup, elems, k);
      PlaceNodesLeaves(t, lookup, init);
      PlaceNodeLeaves(PlaceNodes(t, lookup, init), lookup, e);
      LeavesAllConcat(CreatedNodes(init), if e.created.Some? then [e.created.value] else []);
    }
  }

  /** One more node element: it is placed after the earlier ones, and its template and ID join theirs. */
  lemma PlaceNodesStep(t: RepoObject, lookup: Lookup, elems: seq<NodeElement>, k: nat)
    requires Resolves(t, lookup) && k < |elems|
    ensures PlaceNodes(t, lookup, elems[..k + 1]) == PlaceNode(PlaceNodes(t, lookup, elems[..k]), lookup, elems[k])
    ensures CreatedNodes(elems[..k + 1]) ==
            CreatedNodes(elems[..k]) + (if elems[k].created.Some? then [elems[k].created.value] else [])
    ensures DeprecatedNodeIds(elems[..k + 1]) == DeprecatedNodeIds(elems[..k]) +
              (if elems[k].created.Some? && DeclaredDeprecated(elems[k].deprecated) then {elems[k].created.value.id} else {})
  {
    assert elems[..k + 1][..k] == elems[..k];
  }

  lemma PlaceNodeLeaves(t: RepoObject, lookup: Lookup, e: NodeElement)
    requires Resolves(t, lookup)
    ensures multiset(Leaves(PlaceNode(t, lookup, e))) ==
            multiset(Leaves(t)) + multiset(LeavesAll(if e.created.Some? then [e.created.value] else []))
  {
    if e.created.Some? {
      AddChildLeaves(t, NodeTarget(t, lookup, e), e.created.value);
      LeavesAllSingle(e.created.value);
    }
  }

  /** Placing contributions adds exactly their templates. */
  lemma {:induction false} PlaceAllLeaves(t: RepoObject, lookup: Lookup, cs: seq<Contribution>)
    requires Resolves(t, lookup)
    ensures multiset(Leaves(PlaceAll(t, lookup, cs))) == multiset(Leaves(t)) + multiset(LeavesAll(Templates(cs)))
    decreases |cs|
  {
    if cs != [] {
      var init := cs[..|cs| - 1];
      var c := cs[|cs| - 1];
      PlaceAllLeaves(t, lookup, init);
      PlaceOneLeaves(PlaceAll(t, lookup, init), lookup, c);
      LeavesAllConcat(Templates(init), [c.template]);
    }
  }

  lemma PlaceOneLeaves(t: RepoObject, lookup: Lookup, c: Contribution)
    requires Resolves(t, lookup)
    ensures multiset(Leaves(PlaceOne(t, lookup, c))) == multiset(Leaves(t)) + multiset(LeavesAll([c.template]))
  {
    AddChildLeaves(t, FoundOrRoot(lookup, c.categoryPath), c.template);
    LeavesAllSingle(c.template);
  }

  /**
   * Reading the repository keeps every template that was contributed, and only those: the
   * categories bring none, and the pruning removes containers, never templates.
   */
  lemma ReadKeepsEveryTemplate(s: ManagerState, registry: Registry)
    requires Consistent(s.root, registry) && ChildrenOf(s.root) == []
    ensures multiset(Leaves(ReadResult(s, registry).root)) ==
            multiset(LeavesAll(CreatedNodes(registry.nodes))) +
            multiset(LeavesAll(Templates(NodeSetContributions(registry.nodeSets)))) +
            multiset(LeavesAll(Templates(CreatedMetanodes(registry.metanodes))))
  {
    var lookup := registry.lookup;
    var start := Categorized(s.root, registry);
    var afterNodes := PlaceNodes(start, lookup, registry.nodes);
    var afterSets := PlaceAll(afterNodes, lookup, NodeSetContributions(registry.nodeSets));
    var afterMetanodes := PlaceAll(afterSets, lookup, CreatedMetanodes(registry.metanodes));
    CreateCategoriesLeaves(s.root, lookup, registry.categories, CategoryOrder(registry.declarations));
    assert Leaves(s.root) == [];
    PlaceNodesLeaves(start, lookup, registry.nodes);
    PlaceAllLeaves(afterNodes, lookup, NodeSetContributions(registry.nodeSets));
    PlaceAllLeaves(afterSets, lookup, CreatedMetanodes(registry.metanodes));
    PrunedKeepsLeaves(afterMetanodes);
  }

  /** After a read, no category below the root is left without children. */
  lemma ReadLeavesNoEmptyCategory(s: ManagerState, registry: Registry)
    requires Consistent(s.root, registry) && ChildrenOf(s.root) == []
    ensures NoEmptyBelow(ReadResult(s, registry).root)
  {
    var lookup := registry.lookup;
    var afterNodes := PlaceNodes(Categorized(s.root, registry), lookup, registry.nodes);
    var afterSets := PlaceAll(afterNodes, lookup, NodeSetContributions(registry.nodeSets));
    PrunedHasNoEmpty(PlaceAll(afterSets, lookup, CreatedMetanodes(registry.metanodes)));
  }

  /**
   * Asking twice is asking once: after the first `getRoot` or `isDeprecated`, the next
   * leaves the root and the deprecated IDs as they are. When the read left the root empty
   * it reads again, from the same registry, and comes to the same state.
   */
  lemma LoadedIdempotent(s: ManagerState, registry: Registry)
    requires Consistent(s.root, registry)
    ensures Consistent(Loaded(s, registry).root, registry)
    ensures Loaded(Loaded(s, registry), registry) == Loaded(s, registry)
  {
    if ChildrenOf(s.root) == [] {
      var r := ReadResult(s, registry);
      ReadKeepsConsistent(s, registry);
      if ChildrenOf(r.root) == [] {
        ChildlessIsShell(r.root);
        ChildlessIsShell(s.root);
        assert r.root == s.root;
      }
    }
  }

  /**
   * The repository manager: the root it builds and the IDs declared deprecated. `registry`
   * is what the extension registry would contribute when the repository is read.
   */
  class RepositoryManager {
    var root: RepoObject
    var deprecatedNodes: set<string>
    const registry: Registry

    function State(): ManagerState
      reads this
    {
      ManagerState(root, deprecatedNodes)
    }

    predicate Valid()
      reads this
    {
      Consistent(root, registry)
    }

    /** The manager before anything is read: an empty root and no deprecated IDs. */
    constructor (root: RepoObject, registry: Registry)
      requires root.Root? && ChildrenOf(root) == [] && Consistent(root, registry)
      ensures Valid() && State() == ManagerState(root, {}) && this.registry == registry
    {
      this.root := root;
      this.deprecatedNodes := {};
      this.registry := registry;
    }

    /** `getRoot()`: reads the repository while the root has no children, then returns the root. */
    method GetRoot() returns (r: RepoObject)
      requires Valid()
      modifies this
      ensures Valid() && State() == Loaded(old(State()), registry) && r == root
    {
      if ChildrenOf(root) == [] {
        ReadRepository();
      }
      r := root;
    }

    /** `isDeprecated(id)`: reads the repository while the root has no children, then asks the deprecated IDs. */
    method IsDeprecated(id: string) returns (b: bool)
      requires Valid()
      modifies this
      ensures Valid() && State() == Loaded(old(State()), registry) && b == (id in deprecatedNodes)
    {
      if ChildrenOf(root) == [] {
        ReadRepository();
      }
      b := id in deprecatedNodes;
    }

    /** `readRepository()`: categories, nodes, node sets and metanodes in that order, then pruning. */
    method ReadRepository()
      requires Valid() && ChildrenOf(root) == []
      modifies this
      ensures Valid() && State() == ReadResult(old(State()), registry)
    {
      ghost var s := State();
      ReadCategories();
      ReadNodes();
      ReadNodeSets();
      ReadMetanodes();
      root := RemoveEmptyCategories(root);
      ReadKeepsConsistent(s, registry);
    }

    /**
     * `readCategories()`: the declarations lose their later duplicates, are sorted by the
     * depth of their paths, and are handed to `createCategory` in that order.
     */
    method ReadCategories()
      requires Valid() && ChildrenOf(root) == []
      modifies this
      ensures root == Categorized(old(root), registry) && deprecatedNodes == old(deprecatedNodes)
    {
      var allElements := new JavaList<CategoryElement>.Copy(registry.declarations);
      var _ := RemoveDuplicatesFromCategories(allElements);
      // Collections.sort, which is stable
      allElements.elems := SortedByDepth(allElements.elems);
      ReadCategoryElements(allElements.elems);
    }

    /** The loop of `readCategories` that hands each declaration to `createCategory`. */
    method ReadCategoryElements(elems: seq<CategoryElement>)
      requires IsContainer(root)
      modifies this
      ensures root == CreateCategories(old(root), registry.lookup, registry.categories, elems)
      ensures deprecatedNodes == old(deprecatedNodes)
    {
      ghost var start := root;
      for k := 0 to |elems|
        invariant root == CreateCategories(start, registry.lookup, registry.categories, elems[..k])
        invariant deprecatedNodes == old(deprecatedNodes)
      {
        CreateCategoriesStep(start, registry.lookup, registry.categories, elems, k);
        var e := elems[k];
        if e in registry.categories {
          var made := registry.categories[e];
          if made.parentPath in registry.lookup && ContainerAt(root, registry.lookup[made.parentPath]) {
            root := AddChildAt(root, registry.lookup[made.parentPath], made.category);
          }
        }
      }
      assert elems[..|elems|] == elems;
    }

    /** `readNodes()`: every node element in order, placed as `NodeTarget` says. */
    method ReadNodes()
      requires Resolves(root, registry.lookup)
      modifies this
      ensures root == PlaceNodes(old(root), registry.lookup, registry.nodes)
      ensures deprecatedNodes == old(deprecatedNodes) + DeprecatedNodeIds(registry.nodes)
    {
      ghost var start := root;
      var uncategorized := if "/uncategorized" in registry.lookup then registry.lookup["/uncategorized"] else [];
      var elems := registry.nodes;
      for k := 0 to |elems|
        invariant root == PlaceNodes(start, registry.lookup, elems[..k])
        invariant deprecatedNodes == old(deprecatedNodes) + DeprecatedNodeIds(elems[..k])
      {
        PlaceNodesStep(start, registry.lookup, elems, k);
        ReadNode(elems[k], uncategorized);
      }
      assert elems[..|elems|] == elems;
    }

    /** One node element of `readNodes`: skipped when its template cannot be created. */
    method ReadNode(elem: NodeElement, uncategorized: seq<nat>)
      requires Resolves(root, registry.lookup) && uncategorized == UncategorizedAt(registry.lookup)
      modifies this
      ensures root == if elem.created.None? then old(root)
                      else AddChildAt(old(root), NodeTarget(old(root), registry.lookup, elem), elem.created.value)
      ensures deprecatedNodes == old(deprecatedNodes) +
                (if elem.created.Some? && DeclaredDeprecated(elem.deprecated) then {elem.created.value.id} else {})
    {
      if elem.created.None? {
        return;
      }
      var node := elem.created.value;
      if elem.categoryPath !in registry.lookup {
        root := AddChildAt(root, uncategorized, node);
      } else {
        var at := registry.lookup[elem.categoryPath];
        var parentContainer := At(root, at);
        var nodePluginId := elem.namespace;
        var categoryPluginId := parentContainer.contributingPlugin.GetOr("");
        var secondDotIndex := IndexOf(nodePluginId, '.', IndexOf(nodePluginId, '.', 0) + 1);
        if secondDotIndex == -1 {
          secondDotIndex := 0;
        }
        assert secondDotIndex == SecondDotIndex(nodePluginId);
        if !parentContainer.locked || nodePluginId == categoryPluginId || StartsWith(nodePluginId, "org.knime.") ||
           StartsWith(nodePluginId, "com.knime.") || RegionMatches(nodePluginId, categoryPluginId, secondDotIndex) {
          assert NodeTarget(root, registry.lookup, elem) == at;
          root := AddChildAt(root, at, node);
        } else {
          assert NodeTarget(root, registry.lookup, elem) == uncategorized;
          root := AddChildAt(root, uncategorized, node);
        }
      }
      if DeclaredDeprecated(elem.deprecated) {
        deprecatedNodes := deprecatedNodes + {node.id};
      }
    }

    /** `readNodeSets()`: every template of every node set that could be created, in order. */
    method ReadNodeSets()
      requires Resolves(root, registry.lookup)
      modifies this
      ensures root == PlaceAll(old(root), registry.lookup, NodeSetContributions(registry.nodeSets))
      ensures deprecatedNodes == old(deprecatedNodes) + DeprecatedNodeSetIds(registry.nodeSets)
    {
      ghost var start := root;
      var sets := registry.nodeSets;
      for k := 0 to |sets|
        invariant root == PlaceAll(start, registry.lookup, NodeSetContributions(sets[..k]))
        invariant deprecatedNodes == old(deprecatedNodes) + DeprecatedNodeSetIds(sets[..k])
        invariant Resolves(root, registry.lookup)
      {
        NodeSetsStep(start, registry.lookup, sets, k);
        var element := sets[k];
        if element.created.Some? {
          ReadNodeSet(element.created.value, element.deprecated);
        }
      }
      assert sets[..|sets|] == sets;
    }

    /** The templates of one node set: each goes to its category, or to the root when the path is unknown. */
    method ReadNodeSet(nodes: seq<Contribution>, deprecated: Option<string>)
      requires Resolves(root, registry.lookup)
      modifies this
      ensures root == PlaceAll(old(root), registry.lookup, nodes)
      ensures deprecatedNodes == old(deprecatedNodes) +
                (if DeclaredDeprecated(deprecated) then TemplateIds(nodes) else {})
    {
      ghost var start := root;
      for i := 0 to |nodes|
        invariant root == PlaceAll(start, registry.lookup, nodes[..i])
        invariant deprecatedNodes == old(deprecatedNodes) +
                    (if DeclaredDeprecated(deprecated) then TemplateIds(nodes[..i]) else {})
      {
        var node := nodes[i];
        assert nodes[..i + 1] == nodes[..i] + [node];
        assert TemplateIds(nodes[..i + 1]) == TemplateIds(nodes[..i]) + {node.template.id};
        PlaceAllStep(start, registry.lookup, nodes[..i], node);
        var parentContainer := if node.categoryPath in registry.lookup then registry.lookup[node.categoryPath] else [];
        root := AddChildAt(root, parentContainer, node.template);
        if DeclaredDeprecated(deprecated) {
          deprecatedNodes := deprecatedNodes + {node.template.id};
        }
      }
      assert nodes[..|nodes|] == nodes;
    }

    /** `readMetanodes()`: each metanode that could be created goes to its category, or to the root. */
    method ReadMetanodes()
      requires Resolves(root, registry.lookup)
      modifies this
      ensures root == PlaceAll(old(root), registry.lookup, CreatedMetanodes(registry.metanodes))
      ensures deprecatedNodes == old(deprecatedNodes)
    {
      ghost var start := root;
      var metanodes := registry.metanodes;
      for k := 0 to |metanodes|
        invariant root == PlaceAll(start, registry.lookup, CreatedMetanodes(metanodes[..k]))
        invariant deprecatedNodes == old(deprecatedNodes)
      {
        MetanodesStep(start, registry.lookup, metanodes, k);
        if metanodes[k].Some? {
          var metaNode := metanodes[k].value;
          var parentContainer := if metaNode.categoryPath in registry.lookup then registry.lookup[metaNode.categoryPath] else [];
          root := AddChildAt(root, parentContainer, metaNode.template);
        }
      }
      assert metanodes[..|metanodes|] == metanodes;
    }
  }

  /** One more node set: its templates are placed after the earlier ones and its IDs join theirs. */
  lemma NodeSetsStep(t: RepoObject, lookup: Lookup, sets: seq<NodeSetElement>, k: nat)
    requires Resolves(t, lookup) && k < |sets|
    ensures PlaceAll(t, lookup, NodeSetContributions(sets[..k + 1])) ==
            if sets[k].created.Some? then PlaceAll(PlaceAll(t, lookup, NodeSetContributions(sets[..k])), lookup, sets[k].created.value)
            else PlaceAll(t, lookup, NodeSetContributions(sets[..k]))
    ensures DeprecatedNodeSetIds(sets[..k + 1]) == DeprecatedNodeSetIds(sets[..k]) +
              (if sets[k].created.Some? && DeclaredDeprecated(sets[k].deprecated) then TemplateIds(sets[k].created.value) else {})
  {
    var prior := NodeSetContributions(sets[..k]);
    assert sets[..k + 1][..k] == sets[..k];
    if sets[k].created.Some? {
      assert NodeSetContributions(sets[..k + 1]) == prior + sets[k].created.value;
      PlaceAllConcat(t, lookup, prior, sets[k].created.value);
    } else {
      assert NodeSetContributions(sets[..k + 1]) == prior + [];
      assert prior + [] == prior;
    }
  }

  /** One more metanode element: the metanode, when it could be created, is placed after the earlier ones. */
  lemma MetanodesStep(t: RepoObject, lookup: Lookup, ms: seq<Option<Contribution>>, k: nat)
    requires Resolves(t, lookup) && k < |ms|
    ensures PlaceAll(t, lookup, CreatedMetanodes(ms[..k + 1])) ==
            if ms[k].Some? then PlaceOne(PlaceAll(t, lookup, CreatedMetanodes(ms[..k])), lookup, ms[k].value)
            else PlaceAll(t, lookup, CreatedMetanodes(ms[..k]))
  {
    var prior := CreatedMetanodes(ms[..k]);
    assert ms[..k + 1][..k] == ms[..k];
    if ms[k].Some? {
      assert CreatedMetanodes(ms[..k + 1]) == prior + [ms[k].value];
      PlaceAllStep(t, lookup, prior, ms[k].value);
    } else {
      assert CreatedMetanodes(ms[..k + 1]) == prior;
    }
  }

  /** Placing `a` and then `b` is placing `a + b`. */
  lemma {:induction false} PlaceAllConcat(t: RepoObject, lookup: Lookup, a: seq<Contribution>, b: seq<Contribution>)
    requires Resolves(t, lookup)
    ensures PlaceAll(t, lookup, a + b) == PlaceAll(PlaceAll(t, lookup, a), lookup, b)
    decreases |b|
  {
    if b == [] {
      assert a + b == a;
    } else {
      var init, last := b[..|b| - 1], b[|b| - 1];
      assert b == init + [last];
      assert a + b == (a + init) + [last];
      PlaceAllConcat(t, lookup, a, init);
      PlaceAllStep(t, lookup, a + init, last);
      PlaceAllStep(PlaceAll(t, lookup, a), lookup, init, last);
    }
  }
}
