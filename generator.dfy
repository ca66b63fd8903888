/**
 * JsonNodeDocuGenerator's walk over the node repository, in both revisions. The container
 * branch and the child loop are the same code in both; the leaf branch differs in the
 * order of its two filters, in where the plugin and the deprecation flag come from, and
 * in whether the description's own deprecation flag survives. Each method is proved
 * against `RepositoryTree.Generated`, whose properties are proved there.
 */
module Generator {
  import opened Wrappers
  import opened JavaStrings
  import opened CategoryDocs
  import opened RepositoryTree

  class JsonNodeDocuGenerator {
    /** Which revision of the generator this is: the earlier application plug-in or the current one. */
    const legacy: bool
    var pluginIds: set<string>
    var catPath: string
    var includeDeprecated: bool
    /** The node IDs the repository manager reports as deprecated (asked by the earlier revision only). */
    const deprecatedIds: set<string>

    /** The settings the walk runs with. */
    function Settings(): Revision
      reads this
    {
      if legacy then Legacy(pluginIds, catPath, includeDeprecated, deprecatedIds)
      else Current(pluginIds, catPath, includeDeprecated)
    }

    /** The generator as the command line configures it, before `generate()` normalises the path. */
    constructor (legacy: bool, pluginIds: set<string>, catPath: string, includeDeprecated: bool,
                 deprecatedIds: set<string>)
      ensures this.legacy == legacy && this.pluginIds == pluginIds && this.catPath == catPath
      ensures this.includeDeprecated == includeDeprecated && this.deprecatedIds == deprecatedIds
    {
      this.legacy := legacy;
      this.pluginIds := pluginIds;
      this.catPath := catPath;
      this.includeDeprecated := includeDeprecated;
      this.deprecatedIds := deprecatedIds;
    }

    /**
     * `generate()`: normalises the category path, starts the root document with the root's
     * ID, name and plugin, walks the whole repository into it and builds it.
     */
    method GenerateDocumentation(root: RepoObject) returns (doc: CategoryDoc<NodeEntry>)
      requires root.Root?
      modifies this
      ensures catPath == NormalizeCatPath(old(catPath))
      ensures pluginIds == old(pluginIds) && includeDeprecated == old(includeDeprecated)
      ensures doc == Generated(Settings(), false, root, [],
                               CategoryDoc(Some(root.id), root.name, None, root.contributingPlugin, None, NullList, None)).doc
    {
      var rootCategoryDoc := new CategoryDocBuilder<NodeEntry>();
      var _ := rootCategoryDoc.SetIdentifier(Some(root.id));
      var _ := rootCategoryDoc.SetName(root.name);
      var _ := rootCategoryDoc.SetContributingPlugin(root.contributingPlugin);
      if StartsWith(catPath, "/") {
        catPath := catPath[1..];
      }
      catPath := ReplaceChar(catPath, '/', '.');
      var _ := Generate(root, [], rootCategoryDoc);
      doc := rootCategoryDoc.Build();
    }

    /**
     * `generate(directory, current, parent, parentCategory)`: `ancestors` are the containers
     * around `current`, innermost first; the result says whether `current` reported success.
     */
    method Generate(current: RepoObject, ancestors: seq<Ancestor>, parentCategory: CategoryDocBuilder<NodeEntry>)
      returns (added: bool)
      requires current.NodeTemplate? ==> ancestors != []
      requires parentCategory.Valid()
      modifies parentCategory, parentCategory.children, parentCategory.nodes
      ensures parentCategory.Valid()
      ensures parentCategory.children == old(parentCategory.children) || fresh(parentCategory.children)
      ensures parentCategory.nodes == old(parentCategory.nodes) || fresh(parentCategory.nodes)
      ensures Outcome(added, parentCategory.Build()) == Generated(Settings(), false, current, ancestors, old(parentCategory.Build()))
      decreases current, 2
    {
      match current
      case NodeTemplate(_, _, _, _, _, _) =>
        if legacy {
          added := GenerateLegacyNode(current, ancestors, parentCategory);
        } else {
          added := GenerateNode(current, ancestors, parentCategory);
        }
      case Category(_, _, _, _, _, _, _) =>
        added := GenerateCategory(current, ancestors, parentCategory);
      case Root(_, _, _, _, children) =>
        added := GenerateChildren(children, Enter(current, ancestors), parentCategory);
      case MetaNode(_) =>
        added := false;
    }

    /** The category branch: a fresh builder for the category, attached to the parent when a child reported success. */
    method GenerateCategory(category: RepoObject, ancestors: seq<Ancestor>, parentCategory: CategoryDocBuilder<NodeEntry>)
      returns (hasChildren: bool)
      requires category.Category?
      requires parentCategory.Valid()
      modifies parentCategory, parentCategory.children
      ensures parentCategory.Valid() && parentCategory.nodes == old(parentCategory.nodes)
      ensures parentCategory.children == old(parentCategory.children) || fresh(parentCategory.children)
      ensures Outcome(hasChildren, parentCategory.Build()) == Generated(Settings(), false, category, ancestors, old(parentCategory.Build()))
      decreases category, 1
    {
      ghost var into := parentCategory.Build();
      GeneratedCategory(Settings(), category, ancestors, into);
      var newCategory := CategoryBuilder(category);
      hasChildren := GenerateChildren(category.children, Enter(category, ancestors), newCategory);
      var newDoc := newCategory.Build();
      if hasChildren {
        var _ := parentCategory.AddChild(newDoc);
        assert parentCategory.Build() == AddChildTo(into, newDoc);
      }
    }

    /** The builder the category branch starts from: the category's own fields, no lists yet. */
    static method CategoryBuilder(category: RepoObject) returns (builder: CategoryDocBuilder<NodeEntry>)
      requires category.Category?
      ensures fresh(builder) && builder.Valid()
      ensures builder.children == null && builder.nodes == null
      ensures builder.Build() == NewCategory(category)
    {
      builder := new CategoryDocBuilder<NodeEntry>();
      var _ := builder.SetIdentifier(Some(category.id));
      var _ := builder.SetName(category.name);
      var _ := builder.SetDescription(category.description);
      var _ := builder.SetContributingPlugin(category.contributingPlugin);
      var _ := builder.SetIconBase64(category.iconBase64);
    }

    /** The loop over a container's children, OR-ing what each reports without short-circuit. */
    method GenerateChildren(objs: seq<RepoObject>, chain: seq<Ancestor>, builder: CategoryDocBuilder<NodeEntry>)
      returns (hasChildren: bool)
      requires chain != []
      requires builder.Valid()
      modifies builder, builder.children, builder.nodes
      ensures builder.Valid()
      ensures builder.children == old(builder.children) || fresh(builder.children)
      ensures builder.nodes == old(builder.nodes) || fresh(builder.nodes)
      ensures Outcome(hasChildren, builder.Build()) == GeneratedAll(Settings(), false, objs, chain, old(builder.Build()))
      decreases objs, 0
    {
      hasChildren := false;
      for i := 0 to |objs|
        invariant builder.Valid()
        invariant builder.children == old(builder.children) || fresh(builder.children)
        invariant builder.nodes == old(builder.nodes) || fresh(builder.nodes)
        invariant Outcome(hasChildren, builder.Build()) == GeneratedAll(Settings(), false, objs[..i], chain, old(builder.Build()))
      {
        var childAdded := Generate(objs[i], chain, builder);
        assert objs[..i + 1][..i] == objs[..i];
        hasChildren := hasChildren || childAdded;
      }
      assert objs[..|objs|] == objs;
    }

    /**
     * The leaf branch of the earlier revision: the plugin filter on the node's own plugin,
     * then the category filter; the repository manager decides deprecation, and that
     * flag replaces whatever the description said.
     */
    method GenerateLegacyNode(node: RepoObject, ancestors: seq<Ancestor>, parentCategory: CategoryDocBuilder<NodeEntry>)
      returns (added: bool)
      requires legacy && node.NodeTemplate? && ancestors != []
      requires parentCategory.Valid()
      modifies parentCategory, parentCategory.nodes
      ensures parentCategory.Valid() && parentCategory.children == old(parentCategory.children)
      ensures parentCategory.nodes == old(parentCategory.nodes) || fresh(parentCategory.nodes)
      ensures Outcome(added, parentCategory.Build()) == Generated(Settings(), false, node, ancestors, old(parentCategory.Build()))
    {
      GeneratedLeaf(Settings(), node, ancestors, parentCategory.Build());
      var plugin := node.contributingPlugin;
      if pluginIds != {} && !(plugin.Some? && plugin.value in pluginIds) {
        return false;
      }
      if |catPath| > 0 {
        var catIdentifier := GetCategoryIdentifier(ancestors);
        if !StartsWith(catIdentifier, catPath) {
          return false;
        }
      }
      var deprecated := node.id in deprecatedIds;
      var entry := NodeEntry(node.id, plugin, StringOrNull(node.afterId), deprecated);
      if !deprecated || includeDeprecated {
        var _ := parentCategory.AddNode(entry);
      }
      added := true;
    }

    /**
     * The leaf branch of the current revision: the category filter first, then the plugin
     * filter on the factory's bundle (falling back to the node's plugin); the template
     * decides deprecation, which only ever sets the description's flag, never clears it.
     */
    method GenerateNode(node: RepoObject, ancestors: seq<Ancestor>, parentCategory: CategoryDocBuilder<NodeEntry>)
      returns (added: bool)
      requires !legacy && node.NodeTemplate? && ancestors != []
      requires parentCategory.Valid()
      modifies parentCategory, parentCategory.nodes
      ensures parentCategory.Valid() && parentCategory.children == old(parentCategory.children)
      ensures parentCategory.nodes == old(parentCategory.nodes) || fresh(parentCategory.nodes)
      ensures Outcome(added, parentCategory.Build()) == Generated(Settings(), false, node, ancestors, old(parentCategory.Build()))
    {
      GeneratedLeaf(Settings(), node, ancestors, parentCategory.Build());
      if |catPath| > 0 {
        var catIdentifier := GetCategoryIdentifier(ancestors);
        if !StartsWith(catIdentifier, catPath) {
          return false;
        }
      }
      var plugin := if node.bundleName.Some? then node.bundleName else node.contributingPlugin;
      if pluginIds != {} && !(plugin.Some? && plugin.value in pluginIds) {
        return false;
      }
      var entryDeprecated := node.describedDeprecated;
      var deprecated := node.deprecated;
      if deprecated {
        entryDeprecated := true;
      }
      var entry := NodeEntry(node.id, plugin, StringOrNull(node.afterId), entryDeprecated);
      assert Leaf(Settings(), node, ancestors) == Kept(entry, !deprecated || includeDeprecated);
      if !deprecated || includeDeprecated {
        var _ := parentCategory.AddNode(entry);
      }
      added := true;
    }
  }
}
