/**
 * The seleniumnodes `CategoryDoc`: a mutable category entry whose child categories and
 * nodes live in lists created on the first addition. The node document type is the
 * type parameter `N`.
 */
module SeleniumCategoryDocs {
  import opened Wrappers
  import opened JavaLists

  class CategoryDoc<N> {
    const id: Option<string>
    const name: Option<string>
    var children: JavaList?<CategoryDoc<N>>
    var nodes: JavaList?<N>

    /** The two lists, once they exist, are distinct objects. */
    ghost predicate Valid()
      reads this
    {
      children != null && nodes != null ==> children as object != nodes as object
    }

    /** `new CategoryDoc(repositoryObject)`: its ID and name; both lists null. */
    constructor (id: Option<string>, name: Option<string>)
      ensures this.id == id && this.name == name
      ensures children == null && nodes == null
      ensures Valid()
    {
      this.id := id;
      this.name := name;
      children := null;
      nodes := null;
    }

    /** `addChild`: creates the list on first use and appends, leaving the nodes alone. */
    method AddChild(child: CategoryDoc<N>)
      requires Valid()
      modifies this, children
      ensures Valid()
      ensures children != null && (old(children) == null ==> fresh(children))
      ensures old(children) != null ==> children == old(children)
      ensures children.elems == (if old(children) == null then [] else old(children.elems)) + [child]
      ensures nodes == old(nodes) && (nodes != null ==> nodes.elems == old(nodes.elems))
    {
      if children == null {
        children := new JavaList();
      }
      children.Add(child);
    }

    /** `addNode`: creates the list on first use and appends, leaving the children alone. */
    method AddNode(node: N)
      requires Valid()
      modifies this, nodes
      ensures Valid()
      ensures nodes != null && (old(nodes) == null ==> fresh(nodes))
      ensures old(nodes) != null ==> nodes == old(nodes)
      ensures nodes.elems == (if old(nodes) == null then [] else old(nodes.elems)) + [node]
      ensures children == old(children) && (children != null ==> children.elems == old(children.elems))
    {
      if nodes == null {
        nodes := new JavaList();
      }
      nodes.Add(node);
    }
  }
}
