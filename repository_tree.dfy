/**
 * The node repository as the two revisions of the recursive `generate` walk it, and what
 * that walk produces. A repository object is a node template, a category, the root or
 * something else (a metanode); categories and the root hold their children in order.
 * `generate` turns the tree into category documents: each node that passes the filters
 * becomes an entry of the category document it sits in, and a category document is
 * attached to its parent's only when one of its children reported success.
 *
 * The node document a revision builds is reduced to the fields `generate` itself sets; what
 * the description parser, the icon encoder and the reflective port probing contribute is not
 * part of this model. In particular a leaf here is always skipped or kept: a description
 * whose port or view index the parser cannot read throws out of `generate` in both
 * revisions and ends the whole run, and that abort is not modelled.
 */
module RepositoryTree {
  import opened Wrappers
  import opened JavaStrings
  import opened CategoryDocs

  /**
   * A repository object. `bundleName` is what `getBundleName` finds for a node's factory,
   * `deprecated` is `NodeTemplate.isDeprecated()`, and `describedDeprecated` is the flag the
   * description parser already put on the node's builder; `iconBase64` is a category's icon,
   * already encoded. A container's `locked` flag is what `isLocked()` answers: nodes from
   * another vendor may not be placed in a locked container.
   */
  datatype RepoObject =
    | NodeTemplate(id: string, contributingPlugin: Option<string>, bundleName: Option<string>,
                   afterId: Option<string>, deprecated: bool, describedDeprecated: bool)
    | Category(id: string, name: Option<string>, description: Option<string>, contributingPlugin: Option<string>,
               iconBase64: Option<string>, locked: bool, children: seq<RepoObject>)
    | Root(id: string, name: Option<string>, contributingPlugin: Option<string>, locked: bool, children: seq<RepoObject>)
    | MetaNode(id: string)

  /** A container on the way up from an object: its ID and whether it is the root. */
  datatype Ancestor = Ancestor(id: string, isRoot: bool)

  /** The containers around a child of `container` whose own containers are `ancestors` (innermost first). */
  function Enter(container: RepoObject, ancestors: seq<Ancestor>): (r: seq<Ancestor>)
    requires container.Category? || container.Root?
    ensures r != [] && r[1..] == ancestors
  {
    [Ancestor(container.id, container.Root?)] + ancestors
  }

  /** The fields of a node document that `generate` sets itself. */
  datatype NodeEntry = NodeEntry(id: string, contributingPlugin: Option<string>, afterId: Option<string>,
                                 deprecated: bool)

  /**
   * The command-line settings of a run, per revision. `catPath` is the normalised category
   * path; the earlier revision also asks the repository which node IDs are deprecated.
   */
  datatype Revision =
    | Legacy(pluginIds: set<string>, catPath: string, includeDeprecated: bool, deprecatedIds: set<string>)
    | Current(pluginIds: set<string>, catPath: string, includeDeprecated: bool)

  /** `stringOrNull`: null and the empty string become null, anything else stays. */
  function StringOrNull(s: Option<string>): (r: Option<string>)
    ensures r.None? <==> s.None? || s.value == []
    ensures r.Some? ==> r == s
  {
    if s.None? || s.value == [] then None else s
  }

  /** Normalising the result again changes nothing. */
  lemma StringOrNullIdempotent(s: Option<string>)
    ensures StringOrNull(StringOrNull(s)) == StringOrNull(s)
  {
  }

  /** The ids joined by dots, first to last. */
  function DotJoin(ids: seq<string>): string
    requires ids != []
  {
    if |ids| == 1 then ids[0] else ids[0] + "." + DotJoin(ids[1..])
  }

  /** The ids joined by slashes, first to last, as a category path writes them. */
  function SlashJoin(ids: seq<string>): string
    requires ids != []
  {
    if |ids| == 1 then ids[0] else ids[0] + "/" + SlashJoin(ids[1..])
  }

  /** The IDs of `chain` (innermost first), outermost first. */
  function OutwardIds(chain: seq<Ancestor>): (r: seq<string>)
    ensures |r| == |chain|
    ensures forall i :: 0 <= i < |chain| ==> r[i] == chain[|chain| - 1 - i].id
  {
    if chain == [] then [] else [chain[|chain| - 1].id] + OutwardIds(chain[..|chain| - 1])
  }

  /** How many of the containers from `from` on precede the first root. */
  function LeadingNonRoots(chain: seq<Ancestor>, from: nat): (k: nat)
    requires from <= |chain|
    ensures from <= k <= |chain|
    ensures forall i :: from <= i < k ==> !chain[i].isRoot
    ensures k < |chain| ==> chain[k].isRoot
    decreases |chain| - from
  {
    if from == |chain| || chain[from].isRoot then from else LeadingNonRoots(chain, from + 1)
  }

  /**
   * What `getCategoryIdentifier(cat)` returns for a container whose chain (itself, then the
   * containers around it) is `chain`: the IDs of the container and of every enclosing
   * container below the root, outermost first, joined by dots.
   */
  function CategoryIdentifier(chain: seq<Ancestor>): (r: string)
    requires chain != []
    ensures |chain| == 1 || chain[1].isRoot ==> r == chain[0].id
  {
    DotJoin(OutwardIds(chain[..LeadingNonRoots(chain, 1)]))
  }

  /** `getCategoryIdentifier`: prepends parent IDs while the parent exists and is not the root. */
  method GetCategoryIdentifier(chain: seq<Ancestor>) returns (identifier: string)
    requires chain != []
    ensures identifier == CategoryIdentifier(chain)
  {
    identifier := chain[0].id;
    var i := 1;
    assert chain[..1] == [chain[0]];
    while i < |chain| && !chain[i].isRoot
      invariant 1 <= i <= |chain|
      invariant forall j :: 1 <= j < i ==> !chain[j].isRoot
      invariant identifier == DotJoin(OutwardIds(chain[..i]))
    {
      assert chain[..i + 1][..i] == chain[..i];
      identifier := chain[i].id + "." + identifier;
      i := i + 1;
    }
  }

  /** The path filter after `generate()` removed one leading '/' and turned every other '/' into '.'. */
  function NormalizeCatPath(catPath: string): (r: string)
    ensures forall i :: 0 <= i < |r| ==> r[i] != '/'
    ensures |r| == if StartsWith(catPath, "/") then |catPath| - 1 else |catPath|
  {
    var stripped := if StartsWith(catPath, "/") then catPath[1..] else catPath;
    ReplaceChar(stripped, '/', '.')
  }

  /** No ID contains a slash. */
  predicate SlashFree(ids: seq<string>) {
    forall i, k :: 0 <= i < |ids| && 0 <= k < |ids[i]| ==> ids[i][k] != '/'
  }

  /** A category path written with slashes and a leading slash normalises to the dotted identifier. */
  lemma {:induction false} NormalizeSlashPath(ids: seq<string>)
    requires ids != [] && SlashFree(ids)
    ensures NormalizeCatPath("/" + SlashJoin(ids)) == DotJoin(ids)
  {
    var path := "/" + SlashJoin(ids);
    assert StartsWith(path, "/");
    assert path[1..] == SlashJoin(ids);
    SlashesBecomeDots(ids);
  }

  lemma {:induction false} SlashesBecomeDots(ids: seq<string>)
    requires ids != [] && SlashFree(ids)
    ensures ReplaceChar(SlashJoin(ids), '/', '.') == DotJoin(ids)
  {
    var head := ids[0];
    assert ReplaceChar(head, '/', '.') == head by {
      forall k | 0 <= k < |head| ensures head[k] != '/' {
        assert ids[0][k] != '/';
      }
    }
    if |ids| > 1 {
      var rest := ids[1..];
      assert SlashFree(rest) by {
        forall i, k | 0 <= i < |rest| && 0 <= k < |rest[i]| ensures rest[i][k] != '/' {
          assert rest[i] == ids[i + 1];
        }
      }
      SlashesBecomeDots(rest);
      ReplaceCharConcat(head + "/", SlashJoin(rest));
      ReplaceCharConcat(head, "/");
    }
  }

  lemma ReplaceCharConcat(a: string, b: string)
    ensures ReplaceChar(a + b, '/', '.') == ReplaceChar(a, '/', '.') + ReplaceChar(b, '/', '.')
  {
    var lhs := ReplaceChar(a + b, '/', '.');
    var rhs := ReplaceChar(a, '/', '.') + ReplaceChar(b, '/', '.');
    forall i | 0 <= i < |lhs| ensures lhs[i] == rhs[i] {
      if i < |a| {
        assert (a + b)[i] == a[i];
      } else {
        assert (a + b)[i] == b[i - |a|];
      }
    }
  }

  /** The dotted identifier of the outer containers is a prefix of that of the inner ones. */
  lemma {:induction false} DotJoinPrefix(ids: seq<string>, j: nat)
    requires 1 <= j <= |ids|
    ensures StartsWith(DotJoin(ids), DotJoin(ids[..j]))
  {
    if j == |ids| {
      assert ids[..j] == ids;
    } else if j == 1 {
      assert ids[..1] == [ids[0]];
      var s := DotJoin(ids);
      assert s == ids[0] + ("." + DotJoin(ids[1..]));
      assert s[..|ids[0]|] == ids[0];
    } else {
      DotJoinPrefix(ids[1..], j - 1);
      assert ids[1..][..j - 1] == ids[..j][1..];
      PrependKeepsPrefix(ids[0] + ".", DotJoin(ids[1..]), DotJoin(ids[..j][1..]));
    }
  }

  lemma PrependKeepsPrefix(a: string, s: string, prefix: string)
    requires StartsWith(s, prefix)
    ensures StartsWith(a + s, a + prefix)
  {
    assert (a + s)[..|a + prefix|] == a + s[..|prefix|];
  }

  /**
   * A node passes the category filter given as the slash path of any of its enclosing
   * categories, from the outermost down to its own.
   */
  lemma CategoryFilterKeepsSubtree(chain: seq<Ancestor>, j: nat)
    requires chain != []
    requires SlashFree(OutwardIds(chain[..LeadingNonRoots(chain, 1)]))
    requires 1 <= j <= LeadingNonRoots(chain, 1)
    ensures StartsWith(CategoryIdentifier(chain),
                       NormalizeCatPath("/" + SlashJoin(OutwardIds(chain[..LeadingNonRoots(chain, 1)])[..j])))
  {
    var ids := OutwardIds(chain[..LeadingNonRoots(chain, 1)]);
    assert SlashFree(ids[..j]) by {
      forall i, k | 0 <= i < j && 0 <= k < |ids[..j][i]| ensures ids[..j][i][k] != '/' {
        assert ids[..j][i] == ids[i];
      }
    }
    NormalizeSlashPath(ids[..j]);
    DotJoinPrefix(ids, j);
  }

  /** What happens to one node template: skipped, or kept with its entry and whether it is listed. */
  datatype LeafOutcome = Skipped | Kept(entry: NodeEntry, listed: bool)

  /** The plugin the node counts for: the earlier revision asks the repository object, the later one the factory's bundle first. */
  function NodePlugin(rev: Revision, node: RepoObject): Option<string>
    requires node.NodeTemplate?
  {
    if rev.Current? && node.bundleName.Some? then node.bundleName else node.contributingPlugin
  }

  /** The plugin filter: an empty allow-list allows every plugin, a null plugin is never on a list. */
  predicate PluginAllowed(rev: Revision, node: RepoObject)
    requires node.NodeTemplate?
  {
    rev.pluginIds == {} || (NodePlugin(rev, node).Some? && NodePlugin(rev, node).value in rev.pluginIds)
  }

  /** The category filter: an empty path allows everything, otherwise the parent's identifier must start with it. */
  predicate CategoryAllowed(rev: Revision, chain: seq<Ancestor>)
    requires chain != []
  {
    rev.catPath == [] || StartsWith(CategoryIdentifier(chain), rev.catPath)
  }

  /** Whether the run counts the node as deprecated. */
  predicate IsDeprecated(rev: Revision, node: RepoObject)
    requires node.NodeTemplate?
  {
    if rev.Legacy? then node.id in rev.deprecatedIds else node.deprecated
  }

  /**
   * The leaf branch of `generate` for a node below the containers `chain`. A kept node
   * is listed unless it is deprecated and deprecated nodes are not wanted; the later
   * revision never clears a deprecation flag the description already set.
   */
  function Leaf(rev: Revision, node: RepoObject, chain: seq<Ancestor>): (r: LeafOutcome)
    requires node.NodeTemplate? && chain != []
    ensures r.Kept? <==> PluginAllowed(rev, node) && CategoryAllowed(rev, chain)
    ensures r.Kept? ==> (r.listed <==> !IsDeprecated(rev, node) || rev.includeDeprecated)
    ensures r.Kept? ==> r.entry.id == node.id && r.entry.contributingPlugin == NodePlugin(rev, node)
    ensures r.Kept? ==> r.entry.afterId == StringOrNull(node.afterId)
    ensures r.Kept? && rev.Legacy? ==> r.entry.deprecated == IsDeprecated(rev, node)
    ensures r.Kept? && rev.Current? ==> r.entry.deprecated == (node.describedDeprecated || node.deprecated)
  {
    if !PluginAllowed(rev, node) || !CategoryAllowed(rev, chain) then Skipped
    else
      var deprecated := IsDeprecated(rev, node);
      var entryDeprecated := if rev.Current? then node.describedDeprecated || deprecated else deprecated;
      Kept(NodeEntry(node.id, NodePlugin(rev, node), StringOrNull(node.afterId), entryDeprecated),
           !deprecated || rev.includeDeprecated)
  }

  /** The result of `generate` for one object: whether it reported success, and the parent document after it. */
  datatype Outcome = Outcome(added: bool, doc: CategoryDoc<NodeEntry>)

  /** The child categories of a document, none for a null list. */
  function Kids(d: CategoryDoc<NodeEntry>): seq<CategoryDoc<NodeEntry>> {
    if d.children.NullList? then [] else d.children.elems
  }

  /** `addNode` on the builder of `d`, seen through its built document. */
  function AddNodeTo(d: CategoryDoc<NodeEntry>, e: NodeEntry): (r: CategoryDoc<NodeEntry>)
    ensures r.nodes == Some(d.nodes.GetOr([]) + [e]) && r.children == d.children
  {
    d.(nodes := Some(d.nodes.GetOr([]) + [e]))
  }

  /** `addChild` on the builder of `d`, seen through its built document. */
  function AddChildTo(d: CategoryDoc<NodeEntry>, c: CategoryDoc<NodeEntry>): (r: CategoryDoc<NodeEntry>)
    ensures Kids(r) == Kids(d) + [c] && r.nodes == d.nodes
  {
    d.(children := List(Kids(d) + [c]))
  }

  /** The document of a freshly configured category builder: its own fields, no lists yet. */
  function NewCategory(c: RepoObject): (d: CategoryDoc<NodeEntry>)
    requires c.Category?
    ensures Kids(d) == [] && d.nodes.None?
  {
    CategoryDoc(Some(c.id), c.name, c.description, c.contributingPlugin, c.iconBase64, NullList, None)
  }

  /**
   * The recursive `generate(directory, current, parent, parentCategory)` as a function of
   * the parent document `into`. With `strict` a leaf reports success only when it is
   * listed; the source reports success for every kept leaf (`strict` false).
   */
  function Generated(rev: Revision, strict: bool, current: RepoObject, ancestors: seq<Ancestor>,
                     into: CategoryDoc<NodeEntry>): (r: Outcome)
    requires current.NodeTemplate? ==> ancestors != []
    ensures !r.added ==> r.doc == into
    decreases current, 1
  {
    match current
    case NodeTemplate(_, _, _, _, _, _) =>
      var leaf := Leaf(rev, current, ancestors);
      if leaf.Skipped? then Outcome(false, into)
      else Outcome(!strict || leaf.listed, if leaf.listed then AddNodeTo(into, leaf.entry) else into)
    case Category(_, _, _, _, _, _, children) =>
      var inner := GeneratedAll(rev, strict, children, Enter(current, ancestors), NewCategory(current));
      Outcome(inner.added, if inner.added then AddChildTo(into, inner.doc) else into)
    case Root(_, _, _, _, children) =>
      GeneratedAll(rev, strict, children, Enter(current, ancestors), into)
    case MetaNode(_) =>
      Outcome(false, into)
  }

  /** The leaf case of `Generated`, for the non-strict rule. */
  lemma GeneratedLeaf(rev: Revision, node: RepoObject, ancestors: seq<Ancestor>, into: CategoryDoc<NodeEntry>)
    requires node.NodeTemplate? && ancestors != []
    ensures var leaf := Leaf(rev, node, ancestors);
            Generated(rev, false, node, ancestors, into)
            == if leaf.Skipped? then Outcome(false, into)
               else Outcome(true, if leaf.listed then AddNodeTo(into, leaf.entry) else into)
  {
  }

  /** The category case of `Generated`, for the non-strict rule. */
  lemma GeneratedCategory(rev: Revision, category: RepoObject, ancestors: seq<Ancestor>, into: CategoryDoc<NodeEntry>)
    requires category.Category?
    ensures var inner := GeneratedAll(rev, false, category.children, Enter(category, ancestors), NewCategory(category));
            Generated(rev, false, category, ancestors, into)
            == Outcome(inner.added, if inner.added then AddChildTo(into, inner.doc) else into)
  {
  }

  /** The child loop: every child in order, success when any child reported it. */
  function GeneratedAll(rev: Revision, strict: bool, objs: seq<RepoObject>, chain: seq<Ancestor>,
                        into: CategoryDoc<NodeEntry>): (r: Outcome)
    requires chain != []
    ensures !r.added ==> r.doc == into
    decreases objs, 0
  {
    if objs == [] then Outcome(false, into)
    else
      var before := GeneratedAll(rev, strict, objs[..|objs| - 1], chain, into);
      var last := Generated(rev, strict, objs[|objs| - 1], chain, before.doc);
      Outcome(before.added || last.added, last.doc)
  }

  /** Every node entry in the document tree `d`, at any depth. */
  function AllEntries(d: CategoryDoc<NodeEntry>): multiset<NodeEntry>
    decreases d, 1
  {
    multiset(d.nodes.GetOr([])) + (if d.children.NullList? then multiset{} else EntriesIn(d.children.elems))
  }

  function EntriesIn(docs: seq<CategoryDoc<NodeEntry>>): multiset<NodeEntry>
    decreases docs, 0
  {
    if docs == [] then multiset{} else EntriesIn(docs[..|docs| - 1]) + AllEntries(docs[|docs| - 1])
  }

  /**
   * The reference for what the walk lists: the entries of the nodes below `current` that
   * pass both filters and are listed, in repository order.
   */
  function Listed(rev: Revision, current: RepoObject, ancestors: seq<Ancestor>): seq<NodeEntry>
    requires current.NodeTemplate? ==> ancestors != []
    decreases current, 1
  {
    match current
    case NodeTemplate(_, _, _, _, _, _) =>
      var leaf := Leaf(rev, current, ancestors);
      if leaf.Kept? && leaf.listed then [leaf.entry] else []
    case Category(_, _, _, _, _, _, children) => ListedAll(rev, children, Enter(current, ancestors))
    case Root(_, _, _, _, children) => ListedAll(rev, children, Enter(current, ancestors))
    case MetaNode(_) => []
  }

  function ListedAll(rev: Revision, objs: seq<RepoObject>, chain: seq<Ancestor>): seq<NodeEntry>
    requires chain != []
    decreases objs, 0
  {
    if objs == [] then [] else ListedAll(rev, objs[..|objs| - 1], chain) + Listed(rev, objs[|objs| - 1], chain)
  }

  /** Whether an object reports success does not depend on the parent document it writes into. */
  lemma {:induction false} AddedIndependent(rev: Revision, strict: bool, current: RepoObject, ancestors: seq<Ancestor>,
                                            d1: CategoryDoc<NodeEntry>, d2: CategoryDoc<NodeEntry>)
    requires current.NodeTemplate? ==> ancestors != []
    ensures Generated(rev, strict, current, ancestors, d1).added == Generated(rev, strict, current, ancestors, d2).added
    decreases current, 1
  {
    if current.Root? {
      AddedAllIndependent(rev, strict, current.children, Enter(current, ancestors), d1, d2);
    }
  }

  lemma {:induction false} AddedAllIndependent(rev: Revision, strict: bool, objs: seq<RepoObject>, chain: seq<Ancestor>,
                                               d1: CategoryDoc<NodeEntry>, d2: CategoryDoc<NodeEntry>)
    requires chain != []
    ensures GeneratedAll(rev, strict, objs, chain, d1).added == GeneratedAll(rev, strict, objs, chain, d2).added
    decreases objs, 0
  {
    if objs != [] {
      var init := objs[..|objs| - 1];
      AddedAllIndependent(rev, strict, init, chain, d1, d2);
      AddedIndependent(rev, strict, objs[|objs| - 1], chain,
                       GeneratedAll(rev, strict, init, chain, d1).doc, GeneratedAll(rev, strict, init, chain, d2).doc);
    }
  }

  /**
   * The `hasChildren = hasChildren | generate(child, …)` loop: a container reports success
   * exactly when one of its children does.
   */
  lemma {:induction false} ContainerAddedIffSomeChild(rev: Revision, strict: bool, objs: seq<RepoObject>,
                                                      chain: seq<Ancestor>, into: CategoryDoc<NodeEntry>)
    requires chain != []
    ensures GeneratedAll(rev, strict, objs, chain, into).added
            <==> exists i :: 0 <= i < |objs| && Generated(rev, strict, objs[i], chain, into).added
    decreases objs
  {
    if objs != [] {
      var init := objs[..|objs| - 1];
      var last := objs[|objs| - 1];
      ContainerAddedIffSomeChild(rev, strict, init, chain, into);
      AddedIndependent(rev, strict, last, chain, GeneratedAll(rev, strict, init, chain, into).doc, into);
      if GeneratedAll(rev, strict, objs, chain, into).added {
        if GeneratedAll(rev, strict, init, chain, into).added {
          var i :| 0 <= i < |init| && Generated(rev, strict, init[i], chain, into).added;
          assert objs[i] == init[i];
        } else {
          assert Generated(rev, strict, objs[|objs| - 1], chain, into).added;
        }
      } else {
        forall i | 0 <= i < |objs| ensures !Generated(rev, strict, objs[i], chain, into).added {
          if i < |init| {
            assert objs[i] == init[i];
          }
        }
      }
    }
  }

  /** A category document is attached to its parent exactly when one of the category's children reported success. */
  lemma CategoryAttachedIffSomeChild(rev: Revision, strict: bool, current: RepoObject, ancestors: seq<Ancestor>,
                                     into: CategoryDoc<NodeEntry>)
    requires current.Category?
    ensures var r := Generated(rev, strict, current, ancestors, into);
            var chain := Enter(current, ancestors);
            (r.added <==> exists i :: 0 <= i < |current.children| &&
                                      Generated(rev, strict, current.children[i], chain, NewCategory(current)).added) &&
            Kids(r.doc) == (if r.added then Kids(into) + [GeneratedAll(rev, strict, current.children, chain, NewCategory(current)).doc]
                            else Kids(into)) &&
            r.doc.nodes == into.nodes
  {
    ContainerAddedIffSomeChild(rev, strict, current.children, Enter(current, ancestors), NewCategory(current));
  }

  /** An object that does not report success lists nothing. */
  lemma {:induction false} NotAddedListsNothing(rev: Revision, strict: bool, current: RepoObject, ancestors: seq<Ancestor>,
                                                into: CategoryDoc<NodeEntry>)
    requires current.NodeTemplate? ==> ancestors != []
    ensures !Generated(rev, strict, current, ancestors, into).added ==> Listed(rev, current, ancestors) == []
    decreases current, 1
  {
    match current
    case NodeTemplate(_, _, _, _, _, _) =>
    case Category(_, _, _, _, _, _, children) =>
      NotAddedListsNothingAll(rev, strict, children, Enter(current, ancestors), NewCategory(current));
    case Root(_, _, _, _, children) =>
      NotAddedListsNothingAll(rev, strict, children, Enter(current, ancestors), into);
    case MetaNode(_) =>
  }

  lemma {:induction false} NotAddedListsNothingAll(rev: Revision, strict: bool, objs: seq<RepoObject>, chain: seq<Ancestor>,
                                                   into: CategoryDoc<NodeEntry>)
    requires chain != []
    ensures !GeneratedAll(rev, strict, objs, chain, into).added ==> ListedAll(rev, objs, chain) == []
    decreases objs, 0
  {
    if objs != [] {
      var init := objs[..|objs| - 1];
      NotAddedListsNothingAll(rev, strict, init, chain, into);
      NotAddedListsNothing(rev, strict, objs[|objs| - 1], chain, GeneratedAll(rev, strict, init, chain, into).doc);
    }
  }

  /** Under the corrected rule an object that reports success lists at least one entry. */
  lemma {:induction false} StrictAddedListsSomething(rev: Revision, current: RepoObject, ancestors: seq<Ancestor>,
                                                     into: CategoryDoc<NodeEntry>)
    requires current.NodeTemplate? ==> ancestors != []
    ensures Generated(rev, true, current, ancestors, into).added ==> Listed(rev, current, ancestors) != []
    decreases current, 1
  {
    match current
    case NodeTemplate(_, _, _, _, _, _) =>
    case Category(_, _, _, _, _, _, children) =>
      StrictAddedListsSomethingAll(rev, children, Enter(current, ancestors), NewCategory(current));
    case Root(_, _, _, _, children) =>
      StrictAddedListsSomethingAll(rev, children, Enter(current, ancestors), into);
    case MetaNode(_) =>
  }

  lemma {:induction false} StrictAddedListsSomethingAll(rev: Revision, objs: seq<RepoObject>, chain: seq<Ancestor>,
                                                        into: CategoryDoc<NodeEntry>)
    requires chain != []
    ensures GeneratedAll(rev, true, objs, chain, into).added ==> ListedAll(rev, objs, chain) != []
    decreases objs, 0
  {
    if objs != [] {
      var init := objs[..|objs| - 1];
      StrictAddedListsSomethingAll(rev, init, chain, into);
      StrictAddedListsSomething(rev, objs[|objs| - 1], chain, GeneratedAll(rev, true, init, chain, into).doc);
    }
  }

  lemma AddNodeEntries(d: CategoryDoc<NodeEntry>, e: NodeEntry)
    ensures AllEntries(AddNodeTo(d, e)) == AllEntries(d) + multiset{e}
  {
    assert Kids(AddNodeTo(d, e)) == Kids(d);
  }

  lemma AddChildEntries(d: CategoryDoc<NodeEntry>, c: CategoryDoc<NodeEntry>)
    ensures AllEntries(AddChildTo(d, c)) == AllEntries(d) + AllEntries(c)
  {
    var kids := Kids(AddChildTo(d, c));
    assert kids[..|kids| - 1] == Kids(d);
    assert AllEntries(d) == multiset(d.nodes.GetOr([])) + EntriesIn(Kids(d));
  }

  /**
   * No entry is lost and none is invented: the walk adds to the document tree exactly the
   * entries of the nodes that pass both filters and are listed, under either rule.
   */
  lemma {:induction false} EntriesPreserved(rev: Revision, strict: bool, current: RepoObject, ancestors: seq<Ancestor>,
                                            into: CategoryDoc<NodeEntry>)
    requires current.NodeTemplate? ==> ancestors != []
    ensures AllEntries(Generated(rev, strict, current, ancestors, into).doc)
            == AllEntries(into) + multiset(Listed(rev, current, ancestors))
    decreases current, 1
  {
    match current
    case NodeTemplate(_, _, _, _, _, _) =>
      var leaf := Leaf(rev, current, ancestors);
      if leaf.Kept? && leaf.listed {
        AddNodeEntries(into, leaf.entry);
      }
    case Category(_, _, _, _, _, _, children) =>
      CategoryEntriesPreserved(rev, strict, current, ancestors, into);
    case Root(_, _, _, _, children) =>
      EntriesPreservedAll(rev, strict, children, Enter(current, ancestors), into);
    case MetaNode(_) =>
  }

  lemma {:induction false} CategoryEntriesPreserved(rev: Revision, strict: bool, category: RepoObject,
                                                    ancestors: seq<Ancestor>, into: CategoryDoc<NodeEntry>)
    requires category.Category?
    ensures AllEntries(Generated(rev, strict, category, ancestors, into).doc)
            == AllEntries(into) + multiset(Listed(rev, category, ancestors))
    decreases category, 0
  {
    var chain := Enter(category, ancestors);
    var inner := GeneratedAll(rev, strict, category.children, chain, NewCategory(category));
    EntriesPreservedAll(rev, strict, category.children, chain, NewCategory(category));
    if inner.added {
      AddChildEntries(into, inner.doc);
    } else {
      NotAddedListsNothingAll(rev, strict, category.children, chain, NewCategory(category));
    }
  }

  lemma {:induction false} EntriesPreservedAll(rev: Revision, strict: bool, objs: seq<RepoObject>, chain: seq<Ancestor>,
                                               into: CategoryDoc<NodeEntry>)
    requires chain != []
    ensures AllEntries(GeneratedAll(rev, strict, objs, chain, into).doc)
            == AllEntries(into) + multiset(ListedAll(rev, objs, chain))
    decreases objs, 0
  {
    if objs != [] {
      var init := objs[..|objs| - 1];
      EntriesPreservedAll(rev, strict, init, chain, into);
      EntriesPreserved(rev, strict, objs[|objs| - 1], chain, GeneratedAll(rev, strict, init, chain, into).doc);
    }
  }

  /** Every category document in the tree below `d` holds at least one entry somewhere. */
  predicate NoEmptyCategories(d: CategoryDoc<NodeEntry>)
    decreases d
  {
    forall i :: 0 <= i < |Kids(d)| ==> AllEntries(Kids(d)[i]) != multiset{} && NoEmptyCategories(Kids(d)[i])
  }

  /** Under the corrected rule the walk never attaches a category document without entries. */
  lemma {:induction false} StrictAttachesNoEmptyCategory(rev: Revision, current: RepoObject, ancestors: seq<Ancestor>,
                                                         into: CategoryDoc<NodeEntry>)
    requires current.NodeTemplate? ==> ancestors != []
    requires NoEmptyCategories(into)
    ensures NoEmptyCategories(Generated(rev, true, current, ancestors, into).doc)
    decreases current, 1
  {
    match current
    case NodeTemplate(_, _, _, _, _, _) =>
      var leaf := Leaf(rev, current, ancestors);
      if leaf.Kept? && leaf.listed {
        assert Kids(AddNodeTo(into, leaf.entry)) == Kids(into);
      }
    case Category(_, _, _, _, _, _, children) =>
      StrictAttachedCategoryNotEmpty(rev, current, ancestors, into);
    case Root(_, _, _, _, children) =>
      StrictAttachesNoEmptyCategoryAll(rev, children, Enter(current, ancestors), into);
    case MetaNode(_) =>
  }

  lemma {:induction false} StrictAttachedCategoryNotEmpty(rev: Revision, current: RepoObject, ancestors: seq<Ancestor>,
                                                          into: CategoryDoc<NodeEntry>)
    requires current.Category?
    requires NoEmptyCategories(into)
    ensures NoEmptyCategories(Generated(rev, true, current, ancestors, into).doc)
    decreases current, 0
  {
    var chain := Enter(current, ancestors);
    var inner := GeneratedAll(rev, true, current.children, chain, NewCategory(current));
    if inner.added {
      StrictAttachesNoEmptyCategoryAll(rev, current.children, chain, NewCategory(current));
      StrictAddedListsSomethingAll(rev, current.children, chain, NewCategory(current));
      EntriesPreservedAll(rev, true, current.children, chain, NewCategory(current));
      var listed := ListedAll(rev, current.children, chain);
      assert listed[0] in multiset(listed);
      AttachKeepsNoEmptyCategories(into, inner.doc);
    }
  }

  lemma AttachKeepsNoEmptyCategories(into: CategoryDoc<NodeEntry>, child: CategoryDoc<NodeEntry>)
    requires NoEmptyCategories(into) && NoEmptyCategories(child) && AllEntries(child) != multiset{}
    ensures NoEmptyCategories(AddChildTo(into, child))
  {
    var kids := Kids(AddChildTo(into, child));
    assert forall i :: 0 <= i < |Kids(into)| ==> kids[i] == Kids(into)[i];
    assert kids[|kids| - 1] == child;
  }

  lemma {:induction false} StrictAttachesNoEmptyCategoryAll(rev: Revision, objs: seq<RepoObject>, chain: seq<Ancestor>,
                                                            into: CategoryDoc<NodeEntry>)
    requires chain != []
    requires NoEmptyCategories(into)
    ensures NoEmptyCategories(GeneratedAll(rev, true, objs, chain, into).doc)
    decreases objs, 0
  {
    if objs != [] {
      var init := objs[..|objs| - 1];
      StrictAttachesNoEmptyCategoryAll(rev, init, chain, into);
      StrictAttachesNoEmptyCategory(rev, objs[|objs| - 1], chain, GeneratedAll(rev, true, init, chain, into).doc);
    }
  }

  /**
   * The walk as written attaches an empty category: with deprecated nodes excluded, a
   * category whose only node is deprecated still reports success.
   */
  lemma EmptyCategoryAttached()
    ensures var rev := Legacy({}, [], false, {"n"});
            var category := Category("c", None, None, None, None, true, [NodeTemplate("n", None, None, None, false, false)]);
            var root := Root("r", None, None, true, [category]);
            var doc := Generated(rev, false, root, [], CategoryDoc(Some("r"), None, None, None, None, NullList, None)).doc;
            Kids(doc) == [NewCategory(category)] && AllEntries(NewCategory(category)) == multiset{} &&
            !NoEmptyCategories(doc)
  {
    var rev := Legacy({}, [], false, {"n"});
    var node := NodeTemplate("n", None, None, None, false, false);
    var category := Category("c", None, None, None, None, true, [node]);
    var root := Root("r", None, None, true, [category]);
    var into := CategoryDoc(Some("r"), None, None, None, None, NullList, None);
    var leaf := Leaf(rev, node, Enter(category, Enter(root, [])));
    assert leaf == Kept(NodeEntry("n", None, None, true), false);
    assert [node][..0] == [];
    assert GeneratedAll(rev, false, [node], Enter(category, Enter(root, [])), NewCategory(category))
           == Outcome(true, NewCategory(category));
    assert Generated(rev, false, category, Enter(root, []), into) == Outcome(true, AddChildTo(into, NewCategory(category)));
    assert [category][..0] == [];
    assert GeneratedAll(rev, false, [category], Enter(root, []), into) == Outcome(true, AddChildTo(into, NewCategory(category)));
    var doc := Generated(rev, false, root, [], into).doc;
    assert Kids(doc) == [NewCategory(category)];
    assert AllEntries(NewCategory(category)) == multiset{};
    assert AllEntries(Kids(doc)[0]) == multiset{};
  }
}
