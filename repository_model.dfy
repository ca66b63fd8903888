/**
 * KNIME's repository tree as RepositoryManager builds it: `addChild` on a container found by
 * `findContainer`, and the post-order pruning of containers left without children. A
 * container found by a lookup is named by the child indices that lead to it from the root.
 */
module RepositoryModel {
  import opened RepositoryTree

  predicate IsContainer(o: RepoObject) {
    o.Category? || o.Root?
  }

  /** `getChildren()`: a container's children in order; a template has none. */
  function ChildrenOf(o: RepoObject): seq<RepoObject> {
    if IsContainer(o) then o.children else []
  }

  /** A container with its children taken away: what it is and what it declares. */
  function Shell(o: RepoObject): RepoObject
    requires IsContainer(o)
  {
    o.(children := [])
  }

  function WithChildren(o: RepoObject, children: seq<RepoObject>): (r: RepoObject)
    requires IsContainer(o)
    ensures IsContainer(r) && ChildrenOf(r) == children && Shell(r) == Shell(o)
  {
    o.(children := children)
  }

  /** `at` leads from `t` through containers to a container. */
  predicate ContainerAt(t: RepoObject, at: seq<nat>)
    decreases at
  {
    IsContainer(t) && (at != [] ==> at[0] < |ChildrenOf(t)| && ContainerAt(ChildrenOf(t)[at[0]], at[1..]))
  }

  /** The container `at` leads to. */
  function At(t: RepoObject, at: seq<nat>): (c: RepoObject)
    requires ContainerAt(t, at)
    ensures IsContainer(c)
    decreases at
  {
    if at == [] then t else At(ChildrenOf(t)[at[0]], at[1..])
  }

  /** `addChild(x)` on the container `at` leads to, giving the new tree. */
  function AddChildAt(t: RepoObject, at: seq<nat>, x: RepoObject): (r: RepoObject)
    requires ContainerAt(t, at)
    ensures IsContainer(r) && Shell(r) == Shell(t)
    decreases at
  {
    var children := ChildrenOf(t);
    if at == [] then WithChildren(t, children + [x])
    else WithChildren(t, children[at[0] := AddChildAt(children[at[0]], at[1..], x)])
  }

  /** Adding a child moves no container: every path to a container still leads to one, with the same shell. */
  lemma {:induction false} AddKeepsContainers(t: RepoObject, at: seq<nat>, x: RepoObject, p: seq<nat>)
    requires ContainerAt(t, at) && ContainerAt(t, p)
    ensures ContainerAt(AddChildAt(t, at, x), p)
    ensures Shell(At(AddChildAt(t, at, x), p)) == Shell(At(t, p))
    decreases p
  {
    var r := AddChildAt(t, at, x);
    if p != [] {
      var children := ChildrenOf(t);
      if at == [] {
        assert ChildrenOf(r)[p[0]] == children[p[0]];
      } else if at[0] == p[0] {
        AddKeepsContainers(children[p[0]], at[1..], x, p[1..]);
      } else {
        assert ChildrenOf(r)[p[0]] == children[p[0]];
      }
    }
  }

  /** `addChild` appends to the container's children and nothing else there changes. */
  lemma {:induction false} AddAppends(t: RepoObject, at: seq<nat>, x: RepoObject)
    requires ContainerAt(t, at)
    ensures ContainerAt(AddChildAt(t, at, x), at)
    ensures ChildrenOf(At(AddChildAt(t, at, x), at)) == ChildrenOf(At(t, at)) + [x]
    decreases at
  {
    if at != [] {
      AddAppends(ChildrenOf(t)[at[0]], at[1..], x);
    }
  }

  /** The templates below an object, from left to right (the object itself when it is one). */
  function Leaves(o: RepoObject): seq<RepoObject>
    decreases o, 1
  {
    match o
    case Category(_, _, _, _, _, _, children) => LeavesAll(children)
    case Root(_, _, _, _, children) => LeavesAll(children)
    case _ => [o]
  }

  function LeavesAll(objs: seq<RepoObject>): seq<RepoObject>
    decreases objs, 0
  {
    if objs == [] then [] else LeavesAll(objs[..|objs| - 1]) + Leaves(objs[|objs| - 1])
  }

  lemma {:induction false} LeavesAllConcat(a: seq<RepoObject>, b: seq<RepoObject>)
    ensures LeavesAll(a + b) == LeavesAll(a) + LeavesAll(b)
    decreases b
  {
    if b == [] {
      assert a + b == a;
    } else {
      var init := b[..|b| - 1];
      LeavesAllConcat(a, init);
      assert (a + b)[..|a + b| - 1] == a + init;
    }
  }

  lemma LeavesAllSingle(x: RepoObject)
    ensures LeavesAll([x]) == Leaves(x)
  {
    assert [x][..0] == [];
  }

  lemma LeavesAllSplit(a: seq<RepoObject>, c: RepoObject, b: seq<RepoObject>)
    ensures LeavesAll(a + [c] + b) == LeavesAll(a) + Leaves(c) + LeavesAll(b)
  {
    LeavesAllConcat(a + [c], b);
    LeavesAllConcat(a, [c]);
    LeavesAllSingle(c);
  }

  /** Replacing one child replaces its templates and leaves the others where they were. */
  lemma LeavesAllUpdate(s: seq<RepoObject>, i: nat, y: RepoObject)
    requires i < |s|
    ensures LeavesAll(s) == LeavesAll(s[..i]) + Leaves(s[i]) + LeavesAll(s[i + 1..])
    ensures LeavesAll(s[i := y]) == LeavesAll(s[..i]) + Leaves(y) + LeavesAll(s[i + 1..])
  {
    assert s == s[..i] + [s[i]] + s[i + 1..];
    assert s[i := y] == s[..i] + [y] + s[i + 1..];
    LeavesAllSplit(s[..i], s[i], s[i + 1..]);
    LeavesAllSplit(s[..i], y, s[i + 1..]);
  }

  /** Adding a child adds exactly its templates, and no others. */
  lemma {:induction false} AddChildLeaves(t: RepoObject, at: seq<nat>, x: RepoObject)
    requires ContainerAt(t, at)
    ensures multiset(Leaves(AddChildAt(t, at, x))) == multiset(Leaves(t)) + multiset(Leaves(x))
    decreases at
  {
    var children := ChildrenOf(t);
    var r := AddChildAt(t, at, x);
    assert Leaves(t) == LeavesAll(children);
    assert Leaves(r) == LeavesAll(ChildrenOf(r));
    if at == [] {
      LeavesAllConcat(children, [x]);
      LeavesAllSingle(x);
    } else {
      var i := at[0];
      var y := AddChildAt(children[i], at[1..], x);
      AddChildLeaves(children[i], at[1..], x);
      LeavesAllUpdate(children, i, y);
    }
  }

  /**
   * What `removeEmptyCategories(treeNode)` leaves of a container: every child container is
   * pruned first and then dropped when that leaves it without children; templates stay.
   */
  function Pruned(o: RepoObject): (r: RepoObject)
    requires IsContainer(o)
    ensures IsContainer(r) && Shell(r) == Shell(o)
    decreases o, 1
  {
    match o
    case Category(_, _, _, _, _, _, children) => WithChildren(o, PrunedAll(children))
    case Root(_, _, _, _, children) => WithChildren(o, PrunedAll(children))
  }

  function PrunedAll(objs: seq<RepoObject>): seq<RepoObject>
    decreases objs, 0
  {
    if objs == [] then []
    else
      var init := PrunedAll(objs[..|objs| - 1]);
      var last := objs[|objs| - 1];
      if !IsContainer(last) then init + [last]
      else if ChildrenOf(Pruned(last)) == [] then init
      else init + [Pruned(last)]
  }

  /**
   * `removeEmptyCategories`: recurses into each child container, then removes it from its
   * parent when it has no children left. The argument itself is never removed.
   */
  method RemoveEmptyCategories(treeNode: RepoObject) returns (pruned: RepoObject)
    requires IsContainer(treeNode)
    ensures pruned == Pruned(treeNode)
    decreases treeNode
  {
    var objects := treeNode.children;
    var children := [];
    for k := 0 to |objects|
      invariant children == PrunedAll(objects[..k])
    {
      var obj := objects[k];
      assert objects[..k + 1][..k] == objects[..k];
      if IsContainer(obj) {
        var cat := RemoveEmptyCategories(obj);
        if ChildrenOf(cat) != [] {
          children := children + [cat];
        }
      } else {
        children := children + [obj];
      }
    }
    assert objects[..|objects|] == objects;
    pruned := WithChildren(treeNode, children);
  }

  /** No container below `o` is without children. */
  predicate NoEmptyBelow(o: RepoObject)
    decreases o, 1
  {
    match o
    case Category(_, _, _, _, _, _, children) => NoEmptyAmong(children)
    case Root(_, _, _, _, children) => NoEmptyAmong(children)
    case _ => true
  }

  predicate NoEmptyAmong(objs: seq<RepoObject>)
    decreases objs, 0
  {
    objs != [] ==>
      var last := objs[|objs| - 1];
      NoEmptyAmong(objs[..|objs| - 1]) && (IsContainer(last) ==> ChildrenOf(last) != [] && NoEmptyBelow(last))
  }

  /** Pruning keeps every template, in the same order. */
  lemma {:induction false} PrunedKeepsLeaves(o: RepoObject)
    requires IsContainer(o)
    ensures Leaves(Pruned(o)) == Leaves(o)
    decreases o, 1
  {
    PrunedAllKeepsLeaves(o.children);
  }

  lemma {:induction false} PrunedAllKeepsLeaves(objs: seq<RepoObject>)
    ensures LeavesAll(PrunedAll(objs)) == LeavesAll(objs)
    decreases objs, 0
  {
    if objs != [] {
      var init := objs[..|objs| - 1];
      var last := objs[|objs| - 1];
      PrunedAllKeepsLeaves(init);
      if IsContainer(last) {
        PrunedKeepsLeaves(last);
        if ChildrenOf(Pruned(last)) == [] {
          assert Leaves(Pruned(last)) == [];
        } else {
          LeavesAllConcat(PrunedAll(init), [Pruned(last)]);
          LeavesAllSingle(Pruned(last));
        }
      } else {
        LeavesAllConcat(PrunedAll(init), [last]);
        LeavesAllSingle(last);
      }
    }
  }

  /** After pruning no container below the argument is left without children. */
  lemma {:induction false} PrunedHasNoEmpty(o: RepoObject)
    requires IsContainer(o)
    ensures NoEmptyBelow(Pruned(o))
    decreases o, 1
  {
    PrunedAllHasNoEmpty(o.children);
  }

  lemma {:induction false} PrunedAllHasNoEmpty(objs: seq<RepoObject>)
    ensures NoEmptyAmong(PrunedAll(objs))
    decreases objs, 0
  {
    if objs != [] {
      var init := objs[..|objs| - 1];
      var last := objs[|objs| - 1];
      PrunedAllHasNoEmpty(init);
      var p := PrunedAll(init);
      if IsContainer(last) {
        PrunedHasNoEmpty(last);
        if ChildrenOf(Pruned(last)) != [] {
          assert (p + [Pruned(last)])[..|p|] == p;
        }
      } else {
        assert (p + [last])[..|p|] == p;
      }
    }
  }

  /** A tree without empty containers is left as it is. */
  lemma {:induction false} PrunedFixed(o: RepoObject)
    requires IsContainer(o) && NoEmptyBelow(o)
    ensures Pruned(o) == o
    decreases o, 1
  {
    PrunedAllFixed(o.children);
  }

  lemma {:induction false} PrunedAllFixed(objs: seq<RepoObject>)
    requires NoEmptyAmong(objs)
    ensures PrunedAll(objs) == objs
    decreases objs, 0
  {
    if objs != [] {
      var init := objs[..|objs| - 1];
      var last := objs[|objs| - 1];
      PrunedAllFixed(init);
      if IsContainer(last) {
        PrunedFixed(last);
      }
      assert init + [last] == objs;
    }
  }

  /** Pruning twice prunes nothing more. */
  lemma PrunedIdempotent(o: RepoObject)
    requires IsContainer(o)
    ensures Pruned(Pruned(o)) == Pruned(o)
  {
    PrunedHasNoEmpty(o);
    PrunedFixed(Pruned(o));
  }

  /** In a pruned tree, a container has children exactly when it has templates below it. */
  lemma {:induction false} NoEmptyChildrenIffLeaves(o: RepoObject)
    requires IsContainer(o) && NoEmptyBelow(o)
    ensures ChildrenOf(o) == [] <==> Leaves(o) == []
  {
    NoEmptyAmongLeaves(o.children);
  }

  lemma {:induction false} NoEmptyAmongLeaves(objs: seq<RepoObject>)
    requires NoEmptyAmong(objs)
    ensures objs == [] <==> LeavesAll(objs) == []
    decreases objs
  {
    if objs != [] {
      var last := objs[|objs| - 1];
      if IsContainer(last) {
        NoEmptyAmongLeaves(last.children);
        assert Leaves(last) == LeavesAll(last.children);
      }
    }
  }

  /** A container survives pruning exactly when some template lies below it. */
  lemma ContainerSurvivesIffLeaves(o: RepoObject)
    requires IsContainer(o)
    ensures ChildrenOf(Pruned(o)) != [] <==> Leaves(o) != []
  {
    PrunedHasNoEmpty(o);
    PrunedKeepsLeaves(o);
    NoEmptyChildrenIffLeaves(Pruned(o));
  }
}
