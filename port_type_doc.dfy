/**
 * The port-type documentation tree: a mutable builder per `PortObject` class and the
 * immutable `PortTypeDoc` it builds (docs/PortTypeDoc.java).
 */
module PortTypeDocs {
  import opened Wrappers

  /** A built port-type entry; `children` is null when no child was ever added. */
  datatype PortTypeDoc = PortTypeDoc(
    name: Option<string>,
    objectClass: string,
    specClass: Option<string>,
    color: Option<string>,
    hidden: bool,
    registered: bool,
    children: Option<set<PortTypeDoc>>,
    contributingPlugin: Option<string>)

  /** What one builder holds at a moment, its children named by their `objectClass`. */
  datatype BuilderState = BuilderState(
    objectClass: string,
    name: Option<string>,
    specClass: Option<string>,
    color: Option<string>,
    hidden: bool,
    registered: bool,
    children: Option<seq<string>>,
    contributingPlugin: Option<string>)

  predicate NoDuplicates<T(==)>(s: seq<T>) {
    forall i, j :: 0 <= i < j < |s| ==> s[i] != s[j]
  }

  /** `LinkedHashSet.add` with builder equality: append unless an equal element is present. */
  function AddToLinkedSet(s: seq<string>, x: string): (r: seq<string>)
    ensures x in s ==> r == s
    ensures x !in s ==> r == s + [x]
  {
    if x in s then s else s + [x]
  }

  /** A builder's contents after `addChild(child)` for a child of class `child`. */
  function WithChild(b: BuilderState, child: string): (r: BuilderState)
    ensures r.children.Some? && child in r.children.value
    ensures r == b.(children := r.children)
    ensures b.children.Some? ==> b.children.value <= r.children.value
  {
    b.(children := Some(AddToLinkedSet(b.children.GetOr([]), child)))
  }

  /** The classes in a builder's child set (none while the set is null). */
  function ChildNames(b: BuilderState): set<string> {
    if b.children.Some? then set c | c in b.children.value else {}
  }

  /** The child set, once created, is non-empty and never holds two equal builders. */
  predicate ChildrenValid(b: BuilderState) {
    b.children.Some? ==> b.children.value != [] && NoDuplicates(b.children.value)
  }

  /** `addChild` adds exactly `child` to the set of children, keeps the set valid and touches nothing else. */
  lemma WithChildEffect(b: BuilderState, child: string)
    ensures ChildNames(WithChild(b, child)) == ChildNames(b) + {child}
    ensures ChildrenValid(b) ==> ChildrenValid(WithChild(b, child))
    ensures WithChild(b, child).(children := None) == b.(children := None)
  {
    var r := WithChild(b, child);
    var before := b.children.GetOr([]);
    assert forall c :: c in r.children.value <==> c in before || c == child;
  }

  /** Builder for one port type; identity (equals/hashCode) is its `objectClass` alone. */
  class PortTypeDocBuilder {
    const objectClass: string
    var name: Option<string>
    var specClass: Option<string>
    var color: Option<string>
    var hidden: bool
    var registered: bool
    /**
     * The insertion-ordered child set, created on the first `AddChild`. Builders are equal
     * exactly when their `objectClass` is, so each child is held by its `objectClass`; the
     * builder it stands for is the one registered for that class.
     */
    var children: Option<seq<string>>
    var contributingPlugin: Option<string>

    function State(): BuilderState
      reads this
    {
      BuilderState(objectClass, name, specClass, color, hidden, registered, children, contributingPlugin)
    }

    /** The child set never holds two equal builders, and exists only once something was added. */
    ghost predicate Valid()
      reads this
    {
      ChildrenValid(State())
    }

    /** `builderForObjectClass(objectClass)`: every other field is unset. */
    constructor (objectClass: string)
      ensures State() == BuilderState(objectClass, None, None, None, false, false, None, None)
      ensures Valid()
    {
      this.objectClass := objectClass;
      name := None;
      specClass := None;
      color := None;
      hidden := false;
      registered := false;
      children := None;
      contributingPlugin := None;
    }

    method SetName(name: Option<string>) returns (self: PortTypeDocBuilder)
      modifies this
      ensures self == this
      ensures State() == old(State()).(name := name)
      ensures children == old(children)
    {
      this.name := name;
      self := this;
    }

    method SetSpecClass(specClass: Option<string>) returns (self: PortTypeDocBuilder)
      modifies this
      ensures self == this
      ensures State() == old(State()).(specClass := specClass)
      ensures children == old(children)
    {
      this.specClass := specClass;
      self := this;
    }

    method SetColor(color: Option<string>) returns (self: PortTypeDocBuilder)
      modifies this
      ensures self == this
      ensures State() == old(State()).(color := color)
      ensures children == old(children)
    {
      this.color := color;
      self := this;
    }

    method SetHidden(hidden: bool) returns (self: PortTypeDocBuilder)
      modifies this
      ensures self == this
      ensures State() == old(State()).(hidden := hidden)
      ensures children == old(children)
    {
      this.hidden := hidden;
      self := this;
    }

    method SetRegistered(registered: bool) returns (self: PortTypeDocBuilder)
      modifies this
      ensures self == this
      ensures State() == old(State()).(registered := registered)
      ensures children == old(children)
    {
      this.registered := registered;
      self := this;
    }

    method SetContributingPlugin(plugin: Option<string>) returns (self: PortTypeDocBuilder)
      modifies this
      ensures self == this
      ensures State() == old(State()).(contributingPlugin := plugin)
      ensures children == old(children)
    {
      this.contributingPlugin := plugin;
      self := this;
    }

    /** Builder `equals`: the same object, or the same `objectClass`. */
    function Equals(other: PortTypeDocBuilder): (r: bool)
      ensures r <==> objectClass == other.objectClass
    {
      other == this || objectClass == other.objectClass
    }

    /**
     * `addChild`: creates the child set on first use, then adds `child` at the end
     * unless a builder with the same `objectClass` is already there.
     */
    method AddChild(child: PortTypeDocBuilder) returns (self: PortTypeDocBuilder)
      modifies this
      ensures self == this
      ensures old(Valid()) ==> Valid()
      ensures State() == WithChild(old(State()), child.objectClass)
    {
      if children == None {
        children := Some([]);
      }
      children := Some(AddToLinkedSet(children.value, child.objectClass));
      self := this;
    }
  }

  /**
   * A family of builder snapshots keyed by `objectClass`, every child present, and
   * children strictly deeper than their parent (the class hierarchy is acyclic).
   */
  predicate WellFormed(snap: map<string, BuilderState>, depth: map<string, nat>, bound: nat) {
    forall k :: k in snap ==>
      snap[k].objectClass == k && k in depth && depth[k] < bound &&
      (snap[k].children.Some? ==>
         forall c :: c in snap[k].children.value ==> c in snap && c in depth && depth[k] < depth[c])
  }

  /** `build()`: copies every field and builds each child (`buildChildren`). */
  function Build(snap: map<string, BuilderState>, depth: map<string, nat>, bound: nat, cls: string): (d: PortTypeDoc)
    requires WellFormed(snap, depth, bound) && cls in snap
    ensures d.objectClass == cls
    ensures d.name == snap[cls].name && d.specClass == snap[cls].specClass && d.color == snap[cls].color
    ensures d.hidden == snap[cls].hidden && d.registered == snap[cls].registered
    ensures d.contributingPlugin == snap[cls].contributingPlugin
    ensures d.children.None? <==> snap[cls].children.None?
    decreases bound - depth[cls], 2, 0
  {
    var b := snap[cls];
    PortTypeDoc(b.name, cls, b.specClass, b.color, b.hidden, b.registered,
                BuildChildren(snap, depth, bound, cls), b.contributingPlugin)
  }

  /** `buildChildren`: null when the builder has no child set, else the set of built children. */
  function BuildChildren(snap: map<string, BuilderState>, depth: map<string, nat>, bound: nat, cls: string)
    : (r: Option<set<PortTypeDoc>>)
    requires WellFormed(snap, depth, bound) && cls in snap
    ensures r.None? <==> snap[cls].children.None?
    decreases bound - depth[cls], 1, 0
  {
    match snap[cls].children
    case None => None
    case Some(cs) => Some(BuildAll(snap, depth, bound, cls, cs))
  }

  /** The built docs of the children `cs` of `cls`, collected into a set. */
  function BuildAll(snap: map<string, BuilderState>, depth: map<string, nat>, bound: nat, cls: string,
                    cs: seq<string>): (r: set<PortTypeDoc>)
    requires WellFormed(snap, depth, bound) && cls in snap && snap[cls].children.Some?
    requires forall c :: c in cs ==> c in snap[cls].children.value
    ensures forall d :: d in r ==> d.objectClass in cs
    ensures |r| <= |cs|
    decreases bound - depth[cls], 0, |cs|
  {
    if cs == [] then {}
    else BuildAll(snap, depth, bound, cls, cs[..|cs| - 1]) + {Build(snap, depth, bound, cs[|cs| - 1])}
  }

  /**
   * One built doc per builder child: the built children set holds the built doc of each
   * builder child and has exactly as many elements as the builder's child set.
   */
  lemma BuiltChildrenMatchBuilder(snap: map<string, BuilderState>, depth: map<string, nat>, bound: nat, cls: string)
    requires WellFormed(snap, depth, bound) && cls in snap
    requires snap[cls].children.Some? && NoDuplicates(snap[cls].children.value)
    ensures BuildChildren(snap, depth, bound, cls).Some?
    ensures |BuildChildren(snap, depth, bound, cls).value| == |snap[cls].children.value|
    ensures forall c :: c in snap[cls].children.value ==>
              Build(snap, depth, bound, c) in BuildChildren(snap, depth, bound, cls).value
  {
    BuildAllExact(snap, depth, bound, cls, snap[cls].children.value);
  }

  lemma {:induction false} BuildAllExact(snap: map<string, BuilderState>, depth: map<string, nat>, bound: nat,
                                         cls: string, cs: seq<string>)
    requires WellFormed(snap, depth, bound) && cls in snap && snap[cls].children.Some?
    requires forall c :: c in cs ==> c in snap[cls].children.value
    requires NoDuplicates(cs)
    ensures |BuildAll(snap, depth, bound, cls, cs)| == |cs|
    ensures forall c :: c in cs ==> Build(snap, depth, bound, c) in BuildAll(snap, depth, bound, cls, cs)
  {
    if cs != [] {
      var init := cs[..|cs| - 1];
      var last := cs[|cs| - 1];
      BuildAllExact(snap, depth, bound, cls, init);
      var before := BuildAll(snap, depth, bound, cls, init);
      var built := Build(snap, depth, bound, last);
      assert last !in init;
      assert built !in before;
      assert BuildAll(snap, depth, bound, cls, cs) == before + {built};
      assert |before + {built}| == |before| + 1;
      forall c | c in cs ensures Build(snap, depth, bound, c) in before + {built} {
        if c != last {
          assert c in init;
        }
      }
    }
  }
}
