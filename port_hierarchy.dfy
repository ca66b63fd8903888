/**
 * The port-type hierarchy walk of the generator: `getParentPortObjectClasses` over a
 * reflection table, and `processPorts`, which creates one builder per `PortObject`
 * class (ancestors first) and links every class under each of its direct parents.
 */
module PortHierarchy {
  import opened Wrappers
  import opened HexColor
  import opened PortTypeDocs

  const JavaLangObject: string := "java.lang.Object"
  const PortObjectInterface: string := "org.knime.core.node.port.PortObject"

  /** What reflection reports about one class: `getSuperclass()`, `getInterfaces()`, and
      whether `PortObject.class.isAssignableFrom` it. */
  datatype ClassInfo = ClassInfo(superclass: Option<string>, interfaces: seq<string>, isPortObject: bool)

  /** A port type registered through the extension point, as `PortTypeRegistry` lists it. */
  datatype PortType = PortType(name: string, specClass: string, color: Int32, hidden: bool)

  /**
   * The loaded classes. `depth` places every class strictly below its superclass and its
   * interfaces (the JVM forbids cycles); every depth is below `bound`.
   */
  datatype ClassTable = ClassTable(info: map<string, ClassInfo>, depth: map<string, nat>, bound: nat)

  ghost predicate ValidTable(t: ClassTable) {
    (forall c :: c in t.info ==> c in t.depth && t.depth[c] < t.bound) &&
    forall c :: c in t.info ==>
      (t.info[c].superclass.Some? ==>
         t.info[c].superclass.value in t.info && t.depth[t.info[c].superclass.value] < t.depth[c]) &&
      (forall i :: 0 <= i < |t.info[c].interfaces| ==>
         t.info[c].interfaces[i] in t.info && t.depth[t.info[c].interfaces[i]] < t.depth[c])
  }

  /** The superclass counts as a parent when it exists, is not `Object` and is a `PortObject`. */
  predicate SuperIsPortParent(t: ClassTable, c: string)
    requires c in t.info
  {
    var s := t.info[c].superclass;
    s.Some? && s.value != JavaLangObject && s.value in t.info && t.info[s.value].isPortObject
  }

  /** The interfaces of `ifaces` that are `PortObject`s, in declaration order. */
  function PortInterfaces(t: ClassTable, ifaces: seq<string>): (r: seq<string>)
    ensures forall p :: p in r <==> p in ifaces && p in t.info && t.info[p].isPortObject
  {
    if ifaces == [] then []
    else
      var rest := PortInterfaces(t, ifaces[..|ifaces| - 1]);
      var last := ifaces[|ifaces| - 1];
      assert ifaces == ifaces[..|ifaces| - 1] + [last];
      if last in t.info && t.info[last].isPortObject then rest + [last] else rest
  }

  /** The direct `PortObject` parents of `c`: the superclass first, then the interfaces. */
  function ParentsOf(t: ClassTable, c: string): (r: seq<string>)
    requires ValidTable(t) && c in t.info
    ensures forall p :: p in r ==> p in t.info && t.depth[p] < t.depth[c]
  {
    (if SuperIsPortParent(t, c) then [t.info[c].superclass.value] else [])
      + PortInterfaces(t, t.info[c].interfaces)
  }

  /**
   * The parents are exactly the `PortObject` superclass (other than `Object`), listed first,
   * and the `PortObject` interfaces; all of them are `PortObject` classes.
   */
  lemma ParentsOfMembers(t: ClassTable, c: string)
    requires ValidTable(t) && c in t.info
    ensures forall p :: p in ParentsOf(t, c) <==>
              (SuperIsPortParent(t, c) && p == t.info[c].superclass.value) ||
              (p in t.info[c].interfaces && p in t.info && t.info[p].isPortObject)
    ensures forall p :: p in ParentsOf(t, c) ==> t.info[p].isPortObject
    ensures SuperIsPortParent(t, c) ==> ParentsOf(t, c)[0] == t.info[c].superclass.value
  {
  }

  /** `getParentPortObjectClasses`: the superclass check, then a loop over the interfaces. */
  method GetParentPortObjectClasses(t: ClassTable, c: string) returns (result: seq<string>)
    requires ValidTable(t) && c in t.info
    ensures result == ParentsOf(t, c)
  {
    result := [];
    var superClass := t.info[c].superclass;
    if superClass.Some? && superClass.value != JavaLangObject && t.info[superClass.value].isPortObject {
      result := result + [superClass.value];
    }
    assert result == (if SuperIsPortParent(t, c) then [t.info[c].superclass.value] else []);
    var prefix := result;
    var interfaces := t.info[c].interfaces;
    var i := 0;
    while i < |interfaces|
      invariant 0 <= i <= |interfaces|
      invariant result == prefix + PortInterfaces(t, interfaces[..i])
    {
      var iface := interfaces[i];
      assert iface in t.info;
      PortInterfacesStep(t, interfaces, i);
      if t.info[iface].isPortObject {
        AppendRegroup(prefix, PortInterfaces(t, interfaces[..i]), iface);
        result := result + [iface];
      }
      i := i + 1;
    }
    assert interfaces[..i] == interfaces;
  }

  lemma AppendRegroup<T>(a: seq<T>, b: seq<T>, x: T)
    ensures a + b + [x] == a + (b + [x])
  {
  }

  /** One more interface: `PortInterfaces` grows by it exactly when it is a known `PortObject`. */
  lemma PortInterfacesStep(t: ClassTable, ifaces: seq<string>, i: nat)
    requires i < |ifaces|
    ensures PortInterfaces(t, ifaces[..i + 1]) ==
            PortInterfaces(t, ifaces[..i]) + (if ifaces[i] in t.info && t.info[ifaces[i]].isPortObject then [ifaces[i]] else [])
  {
    assert ifaces[..i + 1][..i] == ifaces[..i];
  }

  /** `c` and every class reachable from it through `ParentsOf`. */
  ghost function AncestorsOf(t: ClassTable, c: string): (r: set<string>)
    requires ValidTable(t) && c in t.info
    ensures c in r
    ensures forall x :: x in r ==> x in t.info && t.depth[x] <= t.depth[c]
    decreases t.depth[c], 1, 0
  {
    {c} + AncestorsOfAll(t, ParentsOf(t, c), t.depth[c])
  }

  /** The union of `AncestorsOf` over `cs`. */
  ghost function AncestorsOfAll(t: ClassTable, cs: seq<string>, bound: nat): (r: set<string>)
    requires ValidTable(t)
    requires forall x :: x in cs ==> x in t.info && t.depth[x] < bound
    ensures forall x :: x in cs ==> x in r
    ensures forall x :: x in r ==> x in t.info && t.depth[x] < bound
    decreases bound, 0, |cs|
  {
    if cs == [] then {}
    else AncestorsOfAll(t, cs[..|cs| - 1], bound) + AncestorsOf(t, cs[|cs| - 1])
  }

  /** The classes of `s` whose direct parents include `k`: the children `k` gets from `s`. */
  ghost function ChildrenWithin(t: ClassTable, s: set<string>, k: string): set<string>
    requires ValidTable(t)
    requires forall x :: x in s ==> x in t.info
  {
    set x | x in s && k in ParentsOf(t, x)
  }

  /** The fields `processPorts` gives a new builder for class `k`. */
  function InitialState(registered: map<string, PortType>, k: string): (s: BuilderState)
    ensures s.objectClass == k && s.children.None? && s.contributingPlugin.None?
    ensures s.registered <==> k in registered
    ensures k !in registered ==> s.hidden && s.name.None? && s.specClass.None? && s.color.None?
    ensures k in registered ==> s.name == Some(registered[k].name) && s.hidden == registered[k].hidden
  {
    if k in registered then
      var p := registered[k];
      BuilderState(k, Some(p.name), Some(p.specClass), Some(MakeHexColor(p.color)), p.hidden, true, None, None)
    else
      BuilderState(k, None, None, None, true, false, None, None)
  }

  /** The builders map seen as values: class name to builder contents. */
  type Snapshot = map<string, BuilderState>

  /** Everything a builder holds except its children. */
  function Meta(b: BuilderState): BuilderState {
    b.(children := None)
  }

  /** The classes in the child set of `k`'s builder (none while it is null or absent). */
  function ChildrenOf(m: Snapshot, k: string): set<string> {
    if k in m then ChildNames(m[k]) else {}
  }

  /**
   * What the builders map satisfies for the builder of `k`: it sits under its own class, and
   * its child set, once created, is non-empty, duplicate-free and holds only processed direct
   * subclasses.
   */
  ghost predicate SoundAt(t: ClassTable, m: Snapshot, k: string)
    requires ValidTable(t) && k in m
  {
    k in t.info && m[k].objectClass == k && ChildrenValid(m[k]) &&
    forall x :: x in ChildNames(m[k]) ==> x in m && x in t.info && k in ParentsOf(t, x)
  }

  ghost predicate Sound(t: ClassTable, m: Snapshot)
    requires ValidTable(t)
  {
    forall k :: k in m ==> SoundAt(t, m, k)
  }

  /** `builders.get(parent).addChild(builder)` for each parent in `ps`, in order. */
  function LinkUnder(m: Snapshot, ps: seq<string>, c: string): (r: Snapshot)
    requires forall p :: p in ps ==> p in m
    ensures r.Keys == m.Keys
  {
    if ps == [] then m
    else
      var m' := LinkUnder(m, ps[..|ps| - 1], c);
      var p := ps[|ps| - 1];
      m'[p := WithChild(m'[p], c)]
  }

  /** `processPorts` for one class, on the map's contents: parents first, then the builder, then the links. */
  function ProcessPortSpec(t: ClassTable, registered: map<string, PortType>, m: Snapshot, c: string): (r: Snapshot)
    requires ValidTable(t) && c in t.info
    ensures r.Keys == m.Keys + AncestorsOf(t, c)
    decreases t.depth[c], 1
  {
    var parents := ParentsOf(t, c);
    var m1 := ProcessPortsSpec(t, registered, m, parents, t.depth[c]);
    var m2 := if c in m then m1 else m1[c := InitialState(registered, c)];
    LinkUnder(m2, parents, c)
  }

  /** `processPorts` for a collection, on the map's contents: each class in turn. */
  function ProcessPortsSpec(t: ClassTable, registered: map<string, PortType>, m: Snapshot, cs: seq<string>,
                            bound: nat): (r: Snapshot)
    requires ValidTable(t)
    requires forall x :: x in cs ==> x in t.info && t.depth[x] < bound
    ensures r.Keys == m.Keys + AncestorsOfAll(t, cs, bound)
    decreases bound, 0, |cs|
  {
    if cs == [] then m
    else ProcessPortSpec(t, registered, ProcessPortsSpec(t, registered, m, cs[..|cs| - 1], bound), cs[|cs| - 1])
  }

  /** The ancestry of a class is closed under taking direct parents. */
  lemma {:induction false} AncestorsOfClosed(t: ClassTable, c: string, x: string, k: string)
    requires ValidTable(t) && c in t.info && x in AncestorsOf(t, c) && k in ParentsOf(t, x)
    ensures k in AncestorsOf(t, c)
    decreases t.depth[c], 1, 0
  {
    if x != c {
      AncestorsOfAllClosed(t, ParentsOf(t, c), t.depth[c], x, k);
    }
  }

  lemma {:induction false} AncestorsOfAllClosed(t: ClassTable, cs: seq<string>, bound: nat, x: string, k: string)
    requires ValidTable(t) && forall y :: y in cs ==> y in t.info && t.depth[y] < bound
    requires x in AncestorsOfAll(t, cs, bound) && k in ParentsOf(t, x)
    ensures k in AncestorsOfAll(t, cs, bound)
    decreases bound, 0, |cs|
  {
    if cs != [] {
      var init := cs[..|cs| - 1];
      if x in AncestorsOfAll(t, init, bound) {
        AncestorsOfAllClosed(t, init, bound, x, k);
      } else {
        AncestorsOfClosed(t, cs[|cs| - 1], x, k);
      }
    }
  }

  /** Linking leaves every builder's fields alone and adds `c` to the child set of exactly the listed parents. */
  lemma {:induction false} LinkUnderAt(m: Snapshot, ps: seq<string>, c: string, k: string)
    requires (forall p :: p in ps ==> p in m) && k in m
    ensures Meta(LinkUnder(m, ps, c)[k]) == Meta(m[k])
    ensures ChildNames(LinkUnder(m, ps, c)[k]) == ChildNames(m[k]) + (if k in ps then {c} else {})
    ensures ChildrenValid(m[k]) ==> ChildrenValid(LinkUnder(m, ps, c)[k])
  {
    if ps != [] {
      var init := ps[..|ps| - 1];
      var p := ps[|ps| - 1];
      LinkUnderAt(m, init, c, k);
      if k == p {
        WithChildEffect(LinkUnder(m, init, c)[p], c);
      }
      assert k in ps <==> k in init || k == p;
    }
  }

  lemma ChildrenWithinSplit(t: ClassTable, s: set<string>, c: string, k: string)
    requires ValidTable(t) && c in t.info && forall x :: x in s ==> x in t.info
    ensures ChildrenWithin(t, {c} + s, k) == ChildrenWithin(t, s, k) + (if k in ParentsOf(t, c) then {c} else {})
  {
  }

  lemma ChildrenWithinUnion(t: ClassTable, s1: set<string>, s2: set<string>, k: string)
    requires ValidTable(t) && (forall x :: x in s1 ==> x in t.info) && (forall x :: x in s2 ==> x in t.info)
    ensures ChildrenWithin(t, s1 + s2, k) == ChildrenWithin(t, s1, k) + ChildrenWithin(t, s2, k)
  {
  }

  /**
   * `processPorts` for one class, on the builders' fields: a builder already present keeps
   * them, and a new one gets its initial fields; child sets stay valid.
   */
  lemma {:induction false} ProcessPortMetaAt(t: ClassTable, registered: map<string, PortType>, m: Snapshot, c: string,
                                             k: string)
    requires ValidTable(t) && c in t.info && k in ProcessPortSpec(t, registered, m, c)
    ensures var r := ProcessPortSpec(t, registered, m, c);
      Meta(r[k]) == (if k in m then Meta(m[k]) else InitialState(registered, k)) &&
      ((k in m ==> ChildrenValid(m[k])) ==> ChildrenValid(r[k]))
    decreases t.depth[c], 1
  {
    var parents := ParentsOf(t, c);
    var m1 := ProcessPortsSpec(t, registered, m, parents, t.depth[c]);
    var m2 := if c in m then m1 else m1[c := InitialState(registered, c)];
    if k in m1 {
      ProcessPortsMetaAt(t, registered, m, parents, t.depth[c], k);
    }
    LinkUnderAt(m2, parents, c, k);
  }

  lemma {:induction false} ProcessPortsMetaAt(t: ClassTable, registered: map<string, PortType>, m: Snapshot,
                                              cs: seq<string>, bound: nat, k: string)
    requires ValidTable(t)
    requires forall x :: x in cs ==> x in t.info && t.depth[x] < bound
    requires k in ProcessPortsSpec(t, registered, m, cs, bound)
    ensures var r := ProcessPortsSpec(t, registered, m, cs, bound);
      Meta(r[k]) == (if k in m then Meta(m[k]) else InitialState(registered, k)) &&
      ((k in m ==> ChildrenValid(m[k])) ==> ChildrenValid(r[k]))
    decreases bound, 0, |cs|
  {
    if cs != [] {
      var init := cs[..|cs| - 1];
      var m1 := ProcessPortsSpec(t, registered, m, init, bound);
      if k in m1 {
        ProcessPortsMetaAt(t, registered, m, init, bound, k);
      }
      ProcessPortMetaAt(t, registered, m1, cs[|cs| - 1], k);
    }
  }

  /**
   * `processPorts` for one class, on the child sets: every class of `c`'s ancestry is added
   * as a child of each of its direct parents, and nothing else is.
   */
  lemma {:induction false} ProcessPortChildrenAt(t: ClassTable, registered: map<string, PortType>, m: Snapshot,
                                                 c: string, k: string)
    requires ValidTable(t) && c in t.info && k in ProcessPortSpec(t, registered, m, c)
    ensures ChildNames(ProcessPortSpec(t, registered, m, c)[k]) ==
            ChildrenOf(m, k) + ChildrenWithin(t, AncestorsOf(t, c), k)
    decreases t.depth[c], 1
  {
    ChildrenBeforeLink(t, registered, m, c, k);
    ChildrenAfterLink(t, registered, m, c, k);
    ChildrenWithinAncestors(t, c, k);
  }

  /** Linking adds `c` to the children of `k` exactly when `k` is one of its parents. */
  lemma ChildrenAfterLink(t: ClassTable, registered: map<string, PortType>, m: Snapshot, c: string, k: string)
    requires ValidTable(t) && c in t.info
    requires k in ProcessPortsSpec(t, registered, m, ParentsOf(t, c), t.depth[c]) || k == c
    ensures var m1 := ProcessPortsSpec(t, registered, m, ParentsOf(t, c), t.depth[c]);
            var m2 := if c in m then m1 else m1[c := InitialState(registered, c)];
            k in m2 && ChildNames(ProcessPortSpec(t, registered, m, c)[k]) ==
                       ChildNames(m2[k]) + (if k in ParentsOf(t, c) then {c} else {})
  {
    var parents := ParentsOf(t, c);
    var m1 := ProcessPortsSpec(t, registered, m, parents, t.depth[c]);
    var m2 := if c in m then m1 else m1[c := InitialState(registered, c)];
    LinkUnderAt(m2, parents, c, k);
  }

  /** The subclasses of `k` among the ancestry of `c`: those above `c`, and `c` itself when `k` is its parent. */
  lemma ChildrenWithinAncestors(t: ClassTable, c: string, k: string)
    requires ValidTable(t) && c in t.info
    ensures ChildrenWithin(t, AncestorsOf(t, c), k) ==
            ChildrenWithin(t, AncestorsOfAll(t, ParentsOf(t, c), t.depth[c]), k) + (if k in ParentsOf(t, c) then {c} else {})
  {
    var above := AncestorsOfAll(t, ParentsOf(t, c), t.depth[c]);
    assert AncestorsOf(t, c) == {c} + above;
    ChildrenWithinSplit(t, above, c, k);
  }

  /** Before `c` is linked, the builder of `k` holds the children the parents' walks gave it. */
  lemma {:induction false} ChildrenBeforeLink(t: ClassTable, registered: map<string, PortType>, m: Snapshot,
                                              c: string, k: string)
    requires ValidTable(t) && c in t.info
    requires k in ProcessPortsSpec(t, registered, m, ParentsOf(t, c), t.depth[c]) || k == c
    ensures var m1 := ProcessPortsSpec(t, registered, m, ParentsOf(t, c), t.depth[c]);
            var m2 := if c in m then m1 else m1[c := InitialState(registered, c)];
            k in m2 && ChildNames(m2[k]) == ChildrenOf(m, k) + ChildrenWithin(t, AncestorsOfAll(t, ParentsOf(t, c), t.depth[c]), k)
    decreases t.depth[c], 0, |ParentsOf(t, c)| + 1
  {
    var parents := ParentsOf(t, c);
    var m1 := ProcessPortsSpec(t, registered, m, parents, t.depth[c]);
    if k in m1 {
      ProcessPortsChildrenAt(t, registered, m, parents, t.depth[c], k);
    } else {
      assert ChildrenWithin(t, AncestorsOfAll(t, parents, t.depth[c]), k) == {};
    }
  }

  lemma {:induction false} ProcessPortsChildrenAt(t: ClassTable, registered: map<string, PortType>, m: Snapshot,
                                                  cs: seq<string>, bound: nat, k: string)
    requires ValidTable(t)
    requires forall x :: x in cs ==> x in t.info && t.depth[x] < bound
    requires k in ProcessPortsSpec(t, registered, m, cs, bound)
    ensures ChildNames(ProcessPortsSpec(t, registered, m, cs, bound)[k]) ==
            ChildrenOf(m, k) + ChildrenWithin(t, AncestorsOfAll(t, cs, bound), k)
    decreases bound, 0, |cs|, 0
  {
    if cs == [] {
      assert ChildrenWithin(t, AncestorsOfAll(t, cs, bound), k) == {};
    } else {
      var init := cs[..|cs| - 1];
      var last := cs[|cs| - 1];
      var before := AncestorsOfAll(t, init, bound);
      var m1 := ProcessPortsSpec(t, registered, m, init, bound);
      ProcessPortsChildrenOf(t, registered, m, init, bound, k);
      ProcessPortChildrenAt(t, registered, m1, last, k);
      ChildrenWithinUnion(t, before, AncestorsOf(t, last), k);
      UnionRegroup(ChildrenOf(m, k), ChildrenWithin(t, before, k), ChildrenWithin(t, AncestorsOf(t, last), k));
    }
  }

  /** `ProcessPortsChildrenAt` phrased with `ChildrenOf`, so that it also covers a class still absent. */
  lemma {:induction false} ProcessPortsChildrenOf(t: ClassTable, registered: map<string, PortType>, m: Snapshot,
                                                  cs: seq<string>, bound: nat, k: string)
    requires ValidTable(t)
    requires forall x :: x in cs ==> x in t.info && t.depth[x] < bound
    ensures ChildrenOf(ProcessPortsSpec(t, registered, m, cs, bound), k) ==
            ChildrenOf(m, k) + ChildrenWithin(t, AncestorsOfAll(t, cs, bound), k)
    decreases bound, 0, |cs|, 1
  {
    if k in ProcessPortsSpec(t, registered, m, cs, bound) {
      ProcessPortsChildrenAt(t, registered, m, cs, bound, k);
    } else {
      forall x | x in AncestorsOfAll(t, cs, bound) && k in ParentsOf(t, x)
        ensures false
      {
        AncestorsOfAllClosed(t, cs, bound, x, k);
      }
      assert ChildrenWithin(t, AncestorsOfAll(t, cs, bound), k) == {};
    }
  }

  lemma UnionRegroup<T>(a: set<T>, b: set<T>, c: set<T>)
    ensures a + b + c == a + (b + c)
  {
  }

  /** `processPorts` keeps the builders map sound: one builder per class, no duplicate children, only direct subclasses. */
  lemma ProcessPortsKeepsSound(t: ClassTable, registered: map<string, PortType>, m: Snapshot, cs: seq<string>,
                               bound: nat)
    requires ValidTable(t) && Sound(t, m)
    requires forall x :: x in cs ==> x in t.info && t.depth[x] < bound
    ensures Sound(t, ProcessPortsSpec(t, registered, m, cs, bound))
  {
    var r := ProcessPortsSpec(t, registered, m, cs, bound);
    forall k | k in r
      ensures SoundAt(t, r, k)
    {
      ProcessPortsMetaAt(t, registered, m, cs, bound, k);
      ProcessPortsChildrenAt(t, registered, m, cs, bound, k);
      assert r[k].objectClass == Meta(r[k]).objectClass;
    }
  }

  /** One more class for `ProcessPortsSpec`: the walk of the prefix, then that class's walk. */
  lemma ProcessPortsSpecStep(t: ClassTable, registered: map<string, PortType>, m: Snapshot, cs: seq<string>,
                             i: nat, bound: nat)
    requires ValidTable(t)
    requires forall x :: x in cs ==> x in t.info && t.depth[x] < bound
    requires i < |cs|
    ensures ProcessPortsSpec(t, registered, m, cs[..i + 1], bound) ==
            ProcessPortSpec(t, registered, ProcessPortsSpec(t, registered, m, cs[..i], bound), cs[i])
  {
    assert cs[..i + 1][..i] == cs[..i];
  }

  /**
   * `processPorts` from an empty map: one builder for each class of the ancestry, with the
   * registry's fields or a hidden placeholder, whose children are exactly the processed
   * classes that have it as a direct parent; and the map is sound.
   */
  lemma ProcessPortsFromEmpty(t: ClassTable, registered: map<string, PortType>, cs: seq<string>, bound: nat)
    requires ValidTable(t)
    requires forall x :: x in cs ==> x in t.info && t.depth[x] < bound
    ensures var r := ProcessPortsSpec(t, registered, map[], cs, bound);
      r.Keys == AncestorsOfAll(t, cs, bound) &&
      (forall k :: k in r ==> Meta(r[k]) == InitialState(registered, k)) &&
      (forall k :: k in r ==> ChildNames(r[k]) == ChildrenWithin(t, r.Keys, k)) &&
      Sound(t, r)
  {
    var r := ProcessPortsSpec(t, registered, map[], cs, bound);
    forall k | k in r
      ensures Meta(r[k]) == InitialState(registered, k) && ChildNames(r[k]) == ChildrenWithin(t, r.Keys, k)
    {
      FromEmptyAt(t, registered, cs, bound, k);
    }
    ProcessPortsKeepsSound(t, registered, map[], cs, bound);
  }

  /** One builder of a walk from the empty map: its initial fields, and every processed direct subclass as a child. */
  lemma FromEmptyAt(t: ClassTable, registered: map<string, PortType>, cs: seq<string>, bound: nat, k: string)
    requires ValidTable(t)
    requires forall x :: x in cs ==> x in t.info && t.depth[x] < bound
    requires k in ProcessPortsSpec(t, registered, map[], cs, bound)
    ensures var r := ProcessPortsSpec(t, registered, map[], cs, bound);
      Meta(r[k]) == InitialState(registered, k) && ChildNames(r[k]) == ChildrenWithin(t, r.Keys, k)
  {
    ProcessPortsMetaAt(t, registered, map[], cs, bound, k);
    ProcessPortsChildrenAt(t, registered, map[], cs, bound, k);
  }

  /** Processing the same classes again creates no builder, changes no field and adds no edge. */
  lemma ReprocessingAddsNothing(t: ClassTable, registered: map<string, PortType>, m: Snapshot, cs: seq<string>,
                                bound: nat)
    requires ValidTable(t)
    requires forall x :: x in cs ==> x in t.info && t.depth[x] < bound
    ensures var r1 := ProcessPortsSpec(t, registered, m, cs, bound);
      var r2 := ProcessPortsSpec(t, registered, r1, cs, bound);
      r2.Keys == r1.Keys &&
      forall k :: k in r2 ==> Meta(r2[k]) == Meta(r1[k]) && ChildNames(r2[k]) == ChildNames(r1[k])
  {
    var r1 := ProcessPortsSpec(t, registered, m, cs, bound);
    var r2 := ProcessPortsSpec(t, registered, r1, cs, bound);
    forall k | k in r2
      ensures Meta(r2[k]) == Meta(r1[k]) && ChildNames(r2[k]) == ChildNames(r1[k])
    {
      ProcessPortsMetaAt(t, registered, r1, cs, bound, k);
      ProcessPortsChildrenAt(t, registered, m, cs, bound, k);
      ProcessPortsChildrenAt(t, registered, r1, cs, bound, k);
    }
  }

  /** A sound builders map can be built: its builders and children meet `build`'s precondition. */
  lemma SoundIsWellFormed(t: ClassTable, m: Snapshot)
    requires ValidTable(t) && Sound(t, m)
    ensures WellFormed(m, t.depth, t.bound)
  {
    forall k | k in m
      ensures m[k].children.Some? ==>
                forall c :: c in m[k].children.value ==> c in m && c in t.depth && t.depth[k] < t.depth[c]
    {
      assert SoundAt(t, m, k);
      if m[k].children.Some? {
        forall c | c in m[k].children.value
          ensures c in m && c in t.depth && t.depth[k] < t.depth[c]
        {
          assert c in ChildNames(m[k]);
        }
      }
    }
  }

  /**
   * The port documentation of a run: `processPorts` over the registered classes into an
   * empty map, then the `PortObject` builder built. `None` stands for the missing root
   * builder, which `builders.get(PortObject.class)` returns as null.
   */
  function PortDocumentation(t: ClassTable, registered: map<string, PortType>, classes: seq<string>)
    : (root: Option<PortTypeDoc>)
    requires ValidTable(t) && forall x :: x in classes ==> x in t.info
    ensures root.Some? <==> PortObjectInterface in AncestorsOfAll(t, classes, t.bound)
    ensures root.Some? ==> root.value.objectClass == PortObjectInterface
    ensures root.Some? ==> root.value.registered == (PortObjectInterface in registered)
    ensures root.Some? && PortObjectInterface !in registered ==> root.value.hidden && root.value.name.None?
  {
    var r := ProcessPortsSpec(t, registered, map[], classes, t.bound);
    ProcessPortsFromEmpty(t, registered, classes, t.bound);
    SoundIsWellFormed(t, r);
    if PortObjectInterface in r then
      assert Meta(r[PortObjectInterface]) == InitialState(registered, PortObjectInterface);
      Some(Build(r, t.depth, t.bound, PortObjectInterface))
    else None
  }

  /**
   * The builders map of `processPorts`, from `PortObject` class to the contents of its
   * builder (a builder is identified by its class, so the map determines them all).
   */
  class PortTypeIndex {
    var builders: Snapshot

    /** A fresh, empty map. */
    constructor ()
      ensures builders == map[]
    {
      builders := map[];
    }

    /** The port documentation step of `run`: a fresh builders map, `processPorts` over the registered classes, then the root built. */
    static method DocumentPortTypes(t: ClassTable, registered: map<string, PortType>, classes: seq<string>)
      returns (root: Option<PortTypeDoc>)
      requires ValidTable(t) && forall x :: x in classes ==> x in t.info
      ensures root == PortDocumentation(t, registered, classes)
    {
      var index := new PortTypeIndex();
      index.ProcessPorts(t, registered, classes, t.bound);
      ProcessPortsFromEmpty(t, registered, classes, t.bound);
      SoundIsWellFormed(t, index.builders);
      if PortObjectInterface in index.builders {
        root := Some(Build(index.builders, t.depth, t.bound, PortObjectInterface));
      } else {
        root := None;
      }
    }

    /** `processPorts` over a collection of classes. */
    method ProcessPorts(t: ClassTable, registered: map<string, PortType>, cs: seq<string>, ghost bound: nat)
      requires ValidTable(t)
      requires forall x :: x in cs ==> x in t.info && t.depth[x] < bound
      modifies this
      decreases bound, 0
      ensures builders == ProcessPortsSpec(t, registered, old(builders), cs, bound)
    {
      var i := 0;
      while i < |cs|
        invariant 0 <= i <= |cs|
        invariant builders == ProcessPortsSpec(t, registered, old(builders), cs[..i], bound)
      {
        ProcessPortsSpecStep(t, registered, old(builders), cs, i, bound);
        ProcessPort(t, registered, cs[i]);
        i := i + 1;
      }
      assert cs[..i] == cs;
    }

    /** `processPorts` for one class: parents first, then this class's builder, then the links. */
    method ProcessPort(t: ClassTable, registered: map<string, PortType>, c: string)
      requires ValidTable(t) && c in t.info
      modifies this
      decreases t.depth[c], 1
      ensures builders == ProcessPortSpec(t, registered, old(builders), c)
    {
      var found := c in builders;
      var parents := GetParentPortObjectClasses(t, c);
      ProcessPorts(t, registered, parents, t.depth[c]);
      if !found {
        var builder := NewBuilder(registered, c);
        builders := builders[c := builder.State()];
      }
      LinkUnderParents(parents, c);
    }

    /** The closing loop of `processPorts`: `builders.get(parent).addChild(builder)` for each parent. */
    method LinkUnderParents(parents: seq<string>, c: string)
      requires forall p :: p in parents ==> p in builders
      modifies this
      ensures builders == LinkUnder(old(builders), parents, c)
    {
      var i := 0;
      while i < |parents|
        invariant 0 <= i <= |parents|
        invariant builders.Keys == old(builders).Keys
        invariant builders == LinkUnder(old(builders), parents[..i], c)
      {
        assert parents[..i + 1][..i] == parents[..i];
        builders := builders[parents[i] := WithChild(builders[parents[i]], c)];
        i := i + 1;
      }
      assert parents[..i] == parents;
    }

    /** The builder `processPorts` creates for a class it has not seen: from the registry, or a hidden placeholder. */
    static method NewBuilder(registered: map<string, PortType>, c: string) returns (builder: PortTypeDocBuilder)
      ensures fresh(builder)
      ensures builder.State() == InitialState(registered, c)
      ensures builder.Valid()
    {
      builder := new PortTypeDocBuilder(c);
      var self: PortTypeDocBuilder;
      if c in registered {
        var portType := registered[c];
        self := builder.SetName(Some(portType.name));
        self := builder.SetSpecClass(Some(portType.specClass));
        self := builder.SetColor(Some(MakeHexColor(portType.color)));
        self := builder.SetHidden(portType.hidden);
        self := builder.SetRegistered(true);
      } else {
        self := builder.SetHidden(true);
        self := builder.SetRegistered(false);
      }
    }
  }
}
