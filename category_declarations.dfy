/**
 * RepositoryManager's handling of category declarations before the categories are created:
 * removing the declarations that repeat an earlier path and level-id, and the comparator
 * that orders the survivors by the depth of their path.
 */
module CategoryDeclarations {
  import opened Wrappers
  import opened JavaStrings
  import opened JavaLists

  /** A category declaration: its `path`, `level-id` and `name` attributes and its declaring plug-in. */
  datatype CategoryElement = CategoryElement(path: Option<string>, levelId: Option<string>, name: Option<string>,
                                             plugin: string)

  /** What makes two declarations the same category. */
  datatype CategoryKey = CategoryKey(path: Option<string>, levelId: Option<string>)

  function Key(e: CategoryElement): CategoryKey {
    CategoryKey(e.path, e.levelId)
  }

  function Keys(s: seq<CategoryElement>): set<CategoryKey> {
    set i | 0 <= i < |s| :: Key(s[i])
  }

  predicate DistinctKeys(s: seq<CategoryElement>) {
    forall p, q :: 0 <= p < q < |s| ==> Key(s[p]) != Key(s[q])
  }

  lemma KeysLast(s: seq<CategoryElement>)
    requires s != []
    ensures Keys(s) == Keys(s[..|s| - 1]) + {Key(s[|s| - 1])}
  {
    var init := s[..|s| - 1];
    forall k | k in Keys(s) ensures k in Keys(init) + {Key(s[|s| - 1])} {
      var i :| 0 <= i < |s| && Key(s[i]) == k;
      if i < |s| - 1 {
        assert Key(init[i]) == k;
      }
    }
    forall k | k in Keys(init) ensures k in Keys(s) {
      var i :| 0 <= i < |init| && Key(init[i]) == k;
      assert Key(s[i]) == k;
    }
  }

  /**
   * The declarations that survive duplicate removal: each element whose key does not occur
   * earlier, in their original order.
   */
  function Dedup(s: seq<CategoryElement>): seq<CategoryElement>
  {
    if s == [] then []
    else
      var init := s[..|s| - 1];
      if Key(s[|s| - 1]) in Keys(init) then Dedup(init) else Dedup(init) + [s[|s| - 1]]
  }

  /** The first element of `s` with key `k`. */
  function FirstWith(s: seq<CategoryElement>, k: CategoryKey): CategoryElement
    requires k in Keys(s)
  {
    var init := s[..|s| - 1];
    if k in Keys(init) then FirstWith(init, k) else s[|s| - 1]
  }

  /** The duplicates whose name differs from that of the declaration that survives. */
  function Shadowed(s: seq<CategoryElement>): seq<CategoryElement>
  {
    if s == [] then []
    else
      var init := s[..|s| - 1];
      var last := s[|s| - 1];
      if Key(last) in Keys(init) && FirstWith(init, Key(last)).name != last.name then Shadowed(init) + [last]
      else Shadowed(init)
  }

  /** The survivors of duplicate removal are declarations of the input, no more than it has. */
  lemma {:induction false} DedupDrawsFromInput(s: seq<CategoryElement>)
    ensures |Dedup(s)| <= |s| && forall e :: e in Dedup(s) ==> e in s
  {
    if s != [] {
      var init := s[..|s| - 1];
      DedupDrawsFromInput(init);
      assert forall e :: e in init ==> e in s;
    }
  }

  /** A declaration the warning ignores is a later declaration of a key first declared under another name. */
  lemma {:induction false} ShadowedAreRenamedDuplicates(s: seq<CategoryElement>)
    ensures forall e :: e in Shadowed(s) ==> e in s && Key(e) in Keys(s) && FirstWith(s, Key(e)).name != e.name
  {
    if s != [] {
      var init := s[..|s| - 1];
      ShadowedAreRenamedDuplicates(init);
      forall e | e in Shadowed(init)
        ensures e in s && Key(e) in Keys(s) && FirstWith(s, Key(e)).name != e.name
      {
        assert e in init;
        assert Keys(init) <= Keys(s);
      }
    }
  }

  /** Duplicate removal keeps one declaration per key, and every key keeps one. */
  lemma {:induction false} DedupKeepsOnePerKey(s: seq<CategoryElement>)
    ensures DistinctKeys(Dedup(s))
    ensures Keys(Dedup(s)) == Keys(s)
  {
    if s != [] {
      var init := s[..|s| - 1];
      DedupKeepsOnePerKey(init);
      KeysLast(s);
      if Key(s[|s| - 1]) !in Keys(init) {
        KeysLast(Dedup(init) + [s[|s| - 1]]);
        assert (Dedup(init) + [s[|s| - 1]])[..|Dedup(init)|] == Dedup(init);
      }
    }
  }

  /** A list without duplicates is left as it is, and nothing in it is shadowed. */
  lemma {:induction false} DistinctUnchanged(s: seq<CategoryElement>)
    requires DistinctKeys(s)
    ensures Dedup(s) == s && Shadowed(s) == []
  {
    if s != [] {
      var init := s[..|s| - 1];
      DistinctUnchanged(init);
      assert Key(s[|s| - 1]) !in Keys(init);
      assert init + [s[|s| - 1]] == s;
    }
  }

  lemma {:induction false} FirstWithAt(s: seq<CategoryElement>, i: nat, j: nat)
    requires i < j <= |s|
    requires forall p :: 0 <= p < i ==> Key(s[p]) != Key(s[i])
    ensures Key(s[i]) in Keys(s[..j]) && FirstWith(s[..j], Key(s[i])) == s[i]
  {
    var u := s[..j];
    assert u[..j - 1] == s[..j - 1];
    assert Key(u[i]) in Keys(u);
    if j == i + 1 {
      assert Key(s[i]) !in Keys(s[..i]);
    } else {
      FirstWithAt(s, i, j - 1);
    }
  }

  /** Keys of a concatenation. */
  lemma KeysConcat(a: seq<CategoryElement>, b: seq<CategoryElement>)
    ensures Keys(a + b) == Keys(a) + Keys(b)
  {
    forall k | k in Keys(a + b) ensures k in Keys(a) + Keys(b) {
      var i :| 0 <= i < |a + b| && Key((a + b)[i]) == k;
      if i < |a| {
        assert Key(a[i]) == k;
      } else {
        assert Key(b[i - |a|]) == k;
      }
    }
    forall k | k in Keys(a) ensures k in Keys(a + b) {
      var i :| 0 <= i < |a| && Key(a[i]) == k;
      assert Key((a + b)[i]) == k;
    }
    forall k | k in Keys(b) ensures k in Keys(a + b) {
      var i :| 0 <= i < |b| && Key(b[i]) == k;
      assert Key((a + b)[|a| + i]) == k;
    }
  }

  /** An element whose key occurs earlier adds no key. */
  lemma RemovalKeys(a: seq<CategoryElement>, x: CategoryElement, b: seq<CategoryElement>)
    requires Key(x) in Keys(a)
    ensures Keys(a + b) == Keys(a + [x] + b)
  {
    KeysConcat(a, b);
    KeysConcat(a + [x], b);
    KeysConcat(a, [x]);
    assert Key([x][0]) in Keys([x]);
    forall k | k in Keys([x]) ensures k == Key(x) {
      var i :| 0 <= i < 1 && Key([x][i]) == k;
    }
  }

  /** An element whose key occurs earlier survives nowhere, however the list goes on. */
  lemma {:induction false} RemovalDedup(a: seq<CategoryElement>, x: CategoryElement, b: seq<CategoryElement>)
    requires Key(x) in Keys(a)
    ensures Dedup(a + b) == Dedup(a + [x] + b)
  {
    if b == [] {
      assert a + b == a;
      assert (a + [x] + b)[..|a|] == a;
    } else {
      var init := b[..|b| - 1];
      RemovalDedup(a, x, init);
      RemovalKeys(a, x, init);
      assert (a + b)[..|a + b| - 1] == a + init;
      assert (a + [x] + b)[..|a + [x] + b| - 1] == a + [x] + init;
    }
  }

  /** An element whose key occurs earlier is never the first with its key. */
  lemma {:induction false} RemovalFirstWith(a: seq<CategoryElement>, x: CategoryElement, b: seq<CategoryElement>,
                                            k: CategoryKey)
    requires Key(x) in Keys(a) && k in Keys(a + b)
    ensures k in Keys(a + [x] + b) && FirstWith(a + b, k) == FirstWith(a + [x] + b, k)
  {
    RemovalKeys(a, x, b);
    if b == [] {
      assert a + b == a;
      assert (a + [x] + b)[..|a|] == a;
    } else {
      var init := b[..|b| - 1];
      RemovalKeys(a, x, init);
      assert (a + b)[..|a + b| - 1] == a + init;
      assert (a + [x] + b)[..|a + [x] + b| - 1] == a + [x] + init;
      if k in Keys(a + init) {
        RemovalFirstWith(a, x, init, k);
      }
    }
  }

  /** Removing an element whose key occurs earlier takes it out of the shadowed ones exactly when its name differs. */
  lemma {:induction false} RemovalShadowed(a: seq<CategoryElement>, x: CategoryElement, b: seq<CategoryElement>)
    requires Key(x) in Keys(a)
    ensures multiset(Shadowed(a + [x] + b)) ==
            multiset(Shadowed(a + b)) + (if FirstWith(a, Key(x)).name != x.name then multiset{x} else multiset{})
  {
    if b == [] {
      assert a + b == a;
      assert (a + [x] + b)[..|a|] == a;
      assert a + [x] + b == a + [x];
    } else {
      var init := b[..|b| - 1];
      var y := b[|b| - 1];
      RemovalShadowed(a, x, init);
      RemovalKeys(a, x, init);
      assert (a + b)[..|a + b| - 1] == a + init;
      assert (a + [x] + b)[..|a + [x] + b| - 1] == a + [x] + init;
      if Key(y) in Keys(a + init) {
        RemovalFirstWith(a, x, init, Key(y));
      }
    }
  }

  /** Removing a later duplicate leaves the survivors unchanged and takes it out of the shadowed ones. */
  lemma RemovalKeepsSurvivors(s: seq<CategoryElement>, j: nat)
    requires j < |s| && Key(s[j]) in Keys(s[..j])
    ensures Dedup(s[..j] + s[j + 1..]) == Dedup(s)
    ensures multiset(Shadowed(s)) == multiset(Shadowed(s[..j] + s[j + 1..])) +
              (if FirstWith(s[..j], Key(s[j])).name != s[j].name then multiset{s[j]} else multiset{})
  {
    var a, x, b := s[..j], s[j], s[j + 1..];
    assert s == a + [x] + b;
    RemovalDedup(a, x, b);
    RemovalShadowed(a, x, b);
  }

  /** A removed duplicate whose name differs from the survivor's is reported: which one survived and which was ignored. */
  datatype DuplicateWarning = DuplicateWarning(kept: CategoryElement, ignored: CategoryElement)

  function Ignored(warnings: seq<DuplicateWarning>): seq<CategoryElement> {
    seq(|warnings|, i requires 0 <= i < |warnings| => warnings[i].ignored)
  }

  /**
   * One comparison of the duplicate search finds the attributes it dereferences: the outer
   * path, the outer level-id once the paths agree, and the outer name once the level-ids
   * agree too. The inner declaration's attributes are only ever passed to `equals`.
   */
  predicate CompareSafe(outer: CategoryElement, inner: CategoryElement) {
    outer.path.Some? && (outer.path == inner.path ==> outer.levelId.Some? &&
                                                      (outer.levelId == inner.levelId ==> outer.name.Some?))
  }

  /** No declaration before position `p` has the key of the one at `q`. */
  predicate FreshAt(s: seq<CategoryElement>, p: nat, q: nat)
    requires p <= q < |s|
  {
    forall r :: 0 <= r < p ==> Key(s[r]) != Key(s[q])
  }

  /**
   * From position `i` on, the duplicate search dereferences no missing attribute. The
   * declarations it takes as the outer one are those first with their key, and it compares
   * each with every later declaration still in the list then: those whose key no earlier
   * declaration has (the others were removed before).
   */
  predicate DerefSafeFrom(s: seq<CategoryElement>, i: nat) {
    forall p, q :: i <= p < q < |s| && FreshAt(s, p, p) && FreshAt(s, p, q) ==> CompareSafe(s[p], s[q])
  }

  /** The declarations on which `removeDuplicatesFromCategories` throws no NullPointerException. */
  predicate NullSafe(s: seq<CategoryElement>) {
    DerefSafeFrom(s, 0)
  }

  /** The comparison the inner loop makes at `j` finds its attributes. */
  lemma SafeComparison(s: seq<CategoryElement>, i: nat, j: nat)
    requires i < j < |s| && SeparatedBefore(s, i) && DerefSafeFrom(s, i)
    ensures CompareSafe(s[i], s[j])
  {
    assert FreshAt(s, i, i) && FreshAt(s, i, j);
  }

  /** Removing a later duplicate of the outer declaration keeps the rest of the search safe. */
  lemma RemovalKeepsDerefSafe(s: seq<CategoryElement>, i: nat, j: nat)
    requires i < j < |s| && Key(s[i]) == Key(s[j]) && DerefSafeFrom(s, i)
    ensures DerefSafeFrom(s[..j] + s[j + 1..], i)
  {
    var t := s[..j] + s[j + 1..];
    assert forall x :: 0 <= x < |t| ==> t[x] == if x < j then s[x] else s[x + 1];
    forall p, q | i <= p < q < |t| && FreshAt(t, p, p) && FreshAt(t, p, q)
      ensures CompareSafe(t[p], t[q])
    {
      var pp := if p < j then p else p + 1;
      var qq := if q < j then q else q + 1;
      forall r | 0 <= r < pp
        ensures Key(s[r]) != Key(s[pp]) && Key(s[r]) != Key(s[qq])
      {
        if r < j {
          assert s[r] == t[r];
        } else if r == j {
          assert Key(s[r]) == Key(t[i]);
        } else {
          assert s[r] == t[r - 1];
        }
      }
      assert FreshAt(s, pp, pp) && FreshAt(s, pp, qq);
    }
  }

  /** No declaration before position `i` shares its key with any later one. */
  predicate SeparatedBefore(s: seq<CategoryElement>, i: nat) {
    forall p, q :: 0 <= p < i && p < q < |s| ==> Key(s[p]) != Key(s[q])
  }

  /** No declaration after position `j` shares its key with the one at `i`. */
  predicate SeparatedAfter(s: seq<CategoryElement>, i: nat, j: nat)
    requires i < |s|
  {
    forall q :: j < q < |s| ==> Key(s[i]) != Key(s[q])
  }

  /** Every warning pairs two declarations with one key and two names, and the kept one is among `s[..n]`. */
  predicate Reported(warnings: seq<DuplicateWarning>, s: seq<CategoryElement>, n: nat)
    requires n <= |s|
  {
    forall w :: w in warnings ==> Key(w.kept) == Key(w.ignored) && w.kept.name != w.ignored.name && w.kept in s[..n]
  }

  /** Removing the duplicate at `j` keeps everything the scan has established so far. */
  lemma RemovalKeepsSeparation(s: seq<CategoryElement>, i: nat, j: nat)
    requires i < j < |s| && SeparatedBefore(s, i) && SeparatedAfter(s, i, j)
    ensures var t := s[..j] + s[j + 1..];
            t[..i + 1] == s[..i + 1] && SeparatedBefore(t, i) && SeparatedAfter(t, i, j - 1)
  {
    var t := s[..j] + s[j + 1..];
    assert forall q :: 0 <= q < |t| ==> t[q] == if q < j then s[q] else s[q + 1];
  }

  /**
   * `removeDuplicatesFromCategories`: for each position from the front, removes every later
   * declaration with the same path and level-id, scanning from the back; a removal is
   * reported when the two names differ. The warnings are what the method logs.
   */
  method RemoveDuplicatesFromCategories(allElements: JavaList<CategoryElement>) returns (warnings: seq<DuplicateWarning>)
    requires NullSafe(allElements.elems)
    modifies allElements
    ensures allElements.elems == Dedup(old(allElements.elems))
    ensures multiset(Ignored(warnings)) == multiset(Shadowed(old(allElements.elems)))
    ensures Reported(warnings, allElements.elems, |allElements.elems|)
  {
    ghost var original := allElements.elems;
    warnings := [];
    var i := 0;
    while i < |allElements.elems|
      invariant i <= |allElements.elems|
      invariant DerefSafeFrom(allElements.elems, i) && SeparatedBefore(allElements.elems, i)
      invariant Dedup(allElements.elems) == Dedup(original)
      invariant multiset(Ignored(warnings)) + multiset(Shadowed(allElements.elems)) == multiset(Shadowed(original))
      invariant Reported(warnings, allElements.elems, i)
      decreases |allElements.elems| - i
    {
      warnings := RemoveLaterDuplicates(allElements, i, warnings, original);
      i := i + 1;
    }
    DistinctUnchanged(allElements.elems);
    assert multiset(Shadowed(allElements.elems)) == multiset{};
  }

  /** The inner loop of `removeDuplicatesFromCategories` for the outer position `i`. */
  method RemoveLaterDuplicates(allElements: JavaList<CategoryElement>, i: nat, warnings0: seq<DuplicateWarning>,
                               ghost original: seq<CategoryElement>)
    returns (warnings: seq<DuplicateWarning>)
    requires i < |allElements.elems| && DerefSafeFrom(allElements.elems, i) && SeparatedBefore(allElements.elems, i)
    requires multiset(Ignored(warnings0)) + multiset(Shadowed(allElements.elems)) == multiset(Shadowed(original))
    requires Reported(warnings0, allElements.elems, i)
    modifies allElements
    ensures i < |allElements.elems| <= old(|allElements.elems|)
    ensures DerefSafeFrom(allElements.elems, i + 1) && SeparatedBefore(allElements.elems, i + 1)
    ensures Dedup(allElements.elems) == Dedup(old(allElements.elems))
    ensures multiset(Ignored(warnings)) + multiset(Shadowed(allElements.elems)) == multiset(Shadowed(original))
    ensures Reported(warnings, allElements.elems, i + 1)
  {
    warnings := warnings0;
    var j := |allElements.elems| - 1;
    while j > i
      invariant i <= j < |allElements.elems| <= old(|allElements.elems|)
      invariant DerefSafeFrom(allElements.elems, i) && SeparatedBefore(allElements.elems, i)
      invariant allElements.elems[..i + 1] == old(allElements.elems[..i + 1])
      invariant SeparatedAfter(allElements.elems, i, j)
      invariant Dedup(allElements.elems) == Dedup(old(allElements.elems))
      invariant multiset(Ignored(warnings)) + multiset(Shadowed(allElements.elems)) == multiset(Shadowed(original))
      invariant Reported(warnings, allElements.elems, i + 1)
      decreases j
    {
      ghost var s := allElements.elems;
      ghost var w := warnings;
      SafeComparison(s, i, j);
      warnings := CompareAndRemove(allElements, i, j, warnings, original);
      ScanStepKeeps(s, i, j, w, allElements.elems, warnings);
      ScanStepAccounts(s, i, j, w, original, allElements.elems, warnings);
      ScanStepReports(s, i, j, w, allElements.elems, warnings);
      j := j - 1;
    }
    assert SeparatedBefore(allElements.elems, i + 1);
  }

  /** One step of the inner loop: the declaration at `j` is removed when it duplicates the one at `i`. */
  method CompareAndRemove(allElements: JavaList<CategoryElement>, i: nat, j: nat, warnings0: seq<DuplicateWarning>,
                          ghost original: seq<CategoryElement>)
    returns (warnings: seq<DuplicateWarning>)
    requires i < j < |allElements.elems| && SeparatedBefore(allElements.elems, i)
    requires CompareSafe(allElements.elems[i], allElements.elems[j]) && SeparatedAfter(allElements.elems, i, j)
    requires multiset(Ignored(warnings0)) + multiset(Shadowed(allElements.elems)) == multiset(Shadowed(original))
    requires Reported(warnings0, allElements.elems, i + 1)
    modifies allElements
    ensures ScanStep(old(allElements.elems), i, j, warnings0, allElements.elems, warnings)
  {
    ghost var s := allElements.elems;
    warnings := warnings0;
    var outer := allElements.elems[i];
    var inner := allElements.elems[j];
    if outer.path == inner.path && outer.levelId == inner.levelId {
      if outer.name != inner.name {
        warnings := warnings + [DuplicateWarning(outer, inner)];
      }
      allElements.RemoveAt(j);
    }
  }

  /** What one step of the inner loop does to the list and the warnings. */
  predicate ScanStep(s: seq<CategoryElement>, i: nat, j: nat, warnings0: seq<DuplicateWarning>,
                     t: seq<CategoryElement>, warnings: seq<DuplicateWarning>)
    requires i < j < |s|
  {
    if Key(s[i]) == Key(s[j]) then
      t == s[..j] + s[j + 1..] &&
      warnings == warnings0 + (if s[i].name != s[j].name then [DuplicateWarning(s[i], s[j])] else [])
    else
      t == s && warnings == warnings0
  }

  /** A step of the inner loop keeps the scanned prefix and its separation, and moves the boundary by one. */
  lemma ScanStepKeeps(s: seq<CategoryElement>, i: nat, j: nat, warnings0: seq<DuplicateWarning>,
                      t: seq<CategoryElement>, warnings: seq<DuplicateWarning>)
    requires i < j < |s| && DerefSafeFrom(s, i) && SeparatedBefore(s, i) && SeparatedAfter(s, i, j)
    requires ScanStep(s, i, j, warnings0, t, warnings)
    ensures |t| <= |s| && j - 1 < |t| && DerefSafeFrom(t, i) && SeparatedBefore(t, i)
    ensures t[..i + 1] == s[..i + 1] && SeparatedAfter(t, i, j - 1)
    ensures Dedup(t) == Dedup(s)
  {
    if Key(s[i]) == Key(s[j]) {
      RemoveAndReport(s, i, j);
      RemovalKeepsSeparation(s, i, j);
      RemovalKeepsDerefSafe(s, i, j);
    } else {
      SeparatedAfterStep(s, i, j);
    }
  }

  /** A step of the inner loop accounts for every element it drops: the one it drops is shadowed iff it reports it. */
  lemma ScanStepAccounts(s: seq<CategoryElement>, i: nat, j: nat, warnings0: seq<DuplicateWarning>,
                         original: seq<CategoryElement>, t: seq<CategoryElement>, warnings: seq<DuplicateWarning>)
    requires i < j < |s| && SeparatedBefore(s, i)
    requires multiset(Ignored(warnings0)) + multiset(Shadowed(s)) == multiset(Shadowed(original))
    requires ScanStep(s, i, j, warnings0, t, warnings)
    ensures multiset(Ignored(warnings)) + multiset(Shadowed(t)) == multiset(Shadowed(original))
  {
    if Key(s[i]) == Key(s[j]) {
      RemoveAndReport(s, i, j);
      if s[i].name != s[j].name {
        IgnoredAppend(warnings0, DuplicateWarning(s[i], s[j]));
      } else {
        assert warnings == warnings0;
      }
    }
  }

  /** A step of the inner loop keeps every warning sound: each names a kept element and a differently named duplicate. */
  lemma ScanStepReports(s: seq<CategoryElement>, i: nat, j: nat, warnings0: seq<DuplicateWarning>,
                        t: seq<CategoryElement>, warnings: seq<DuplicateWarning>)
    requires i < j < |s| && i < |t| && t[..i + 1] == s[..i + 1]
    requires Reported(warnings0, s, i + 1)
    requires ScanStep(s, i, j, warnings0, t, warnings)
    ensures Reported(warnings, t, i + 1)
  {
    var extra := if Key(s[i]) == Key(s[j]) && s[i].name != s[j].name then [DuplicateWarning(s[i], s[j])] else [];
    assert warnings == warnings0 + extra;
    ReportedExtends(warnings0, extra, s, t, i);
  }

  lemma SeparatedAfterStep(s: seq<CategoryElement>, i: nat, j: nat)
    requires i < j < |s| && SeparatedAfter(s, i, j) && Key(s[i]) != Key(s[j])
    ensures SeparatedAfter(s, i, j - 1)
  {
  }

  /** Warnings stay sound when the prefix they point into is kept and the new ones are sound. */
  lemma ReportedExtends(warnings0: seq<DuplicateWarning>, extra: seq<DuplicateWarning>, s: seq<CategoryElement>,
                        t: seq<CategoryElement>, i: nat)
    requires i < |s| && i < |t| && t[..i + 1] == s[..i + 1] && Reported(warnings0, s, i + 1)
    requires forall w :: w in extra ==> Key(w.kept) == Key(w.ignored) && w.kept.name != w.ignored.name && w.kept == s[i]
    ensures Reported(warnings0 + extra, t, i + 1)
  {
    assert s[i] in s[..i + 1];
  }

  /** The proof step for one removal in the inner loop: survivors unchanged, the removed one shadowed iff its name differs. */
  lemma RemoveAndReport(s: seq<CategoryElement>, i: nat, j: nat)
    requires i < j < |s| && Key(s[i]) == Key(s[j]) && SeparatedBefore(s, i)
    ensures Dedup(s[..j] + s[j + 1..]) == Dedup(s)
    ensures multiset(Shadowed(s)) ==
            multiset(Shadowed(s[..j] + s[j + 1..])) + (if s[i].name != s[j].name then multiset{s[j]} else multiset{})
  {
    FirstWithAt(s, i, j);
    RemovalKeepsSurvivors(s, j);
  }

  lemma IgnoredAppend(warnings: seq<DuplicateWarning>, w: DuplicateWarning)
    ensures Ignored(warnings + [w]) == Ignored(warnings) + [w.ignored]
  {
  }

  /** The number of '/' in a path. */
  function SlashCount(s: string): nat {
    multiset(s)['/']
  }

  /** Where the comparator places a path: a null path first, then "/", then by the number of slashes. */
  function Depth(path: Option<string>): (d: int)
    ensures d >= -2
    ensures d < 0 <==> path.None? || path == Some("/")
  {
    match path
    case None => -2
    case Some(p) => if p == "/" then -1 else SlashCount(p)
  }

  /** The counting loop of the comparator. */
  method CountSlashes(s: string) returns (count: nat)
    ensures count == SlashCount(s)
  {
    count := 0;
    for i := 0 to |s|
      invariant count == SlashCount(s[..i])
    {
      assert s[..i + 1] == s[..i] + [s[i]];
      if s[i] == '/' {
        count := count + 1;
      }
    }
    assert s[..|s|] == s;
  }

  /**
   * The comparator `readCategories` sorts the declarations with, on their `path` attributes:
   * its sign is that of the difference in depth, so it is a total preorder, and between two
   * different ordinary paths it is the difference in the number of slashes.
   */
  method ComparePaths(element1: Option<string>, element2: Option<string>) returns (r: int)
    ensures r < 0 <==> Depth(element1) < Depth(element2)
    ensures r > 0 <==> Depth(element1) > Depth(element2)
    ensures element1 == element2 ==> r == 0
    ensures element1.None? && element2.Some? ==> r < 0
    ensures element1 == Some("/") && element2.Some? && element2 != Some("/") ==> r < 0
    ensures element1.Some? && element2.Some? && element1 != Some("/") && element2 != Some("/") ==>
              r == SlashCount(element1.value) - SlashCount(element2.value)
  {
    if element1 == element2 {
      return 0;
    } else if element1.None? {
      return -1;
    } else if element2.None? {
      return 1;
    } else if element1.value == element2.value {
      return 0;
    } else if element1.value == "/" {
      return -1;
    } else if element2.value == "/" {
      return 1;
    } else {
      var countSlashes1 := CountSlashes(element1.value);
      var countSlashes2 := CountSlashes(element2.value);
      return countSlashes1 as int - countSlashes2 as int;
    }
  }

  /** The path a category declared at `path` with the level-id `levelId` gives its children. */
  function ChildPath(path: string, levelId: string): string {
    if path == "/" then "/" + levelId else path + "/" + levelId
  }

  /**
   * The point of the sort: a declaration one level below a category, which needs that
   * category as its parent, sorts strictly after the category's own declaration.
   */
  lemma ChildPathSortsLater(path: string, levelId: string)
    requires levelId != []
    ensures Depth(Some(ChildPath(path, levelId))) > Depth(Some(path))
  {
    var child := ChildPath(path, levelId);
    if path == "/" {
      assert multiset(child) == multiset{'/'} + multiset(levelId);
      assert child != "/" by {
        assert |child| > 1;
      }
    } else {
      assert multiset(child) == multiset(path) + multiset{'/'} + multiset(levelId);
      assert child != "/" by {
        assert |child| > 1;
      }
    }
  }

  /** The declarations are ordered by the depth of their paths. */
  predicate OrderedByDepth(s: seq<CategoryElement>) {
    forall i, j :: 0 <= i < j < |s| ==> Depth(s[i].path) <= Depth(s[j].path)
  }

  /** The declarations of `s` at depth `d`, in their order in `s`. */
  function AtDepth(s: seq<CategoryElement>, d: int): seq<CategoryElement> {
    if s == [] then []
    else AtDepth(s[..|s| - 1], d) + (if Depth(s[|s| - 1].path) == d then [s[|s| - 1]] else [])
  }

  /** `x` placed into a list ordered by depth, after every declaration that is not deeper. */
  function InsertByDepth(r: seq<CategoryElement>, x: CategoryElement): seq<CategoryElement> {
    if r == [] || Depth(r[|r| - 1].path) <= Depth(x.path) then r + [x]
    else InsertByDepth(r[..|r| - 1], x) + [r[|r| - 1]]
  }

  /**
   * `Collections.sort` with the comparator of `readCategories`. The sort is stable, so the
   * result is the list ordered by depth in which declarations of one depth keep their order.
   */
  function SortedByDepth(s: seq<CategoryElement>): seq<CategoryElement> {
    if s == [] then [] else InsertByDepth(SortedByDepth(s[..|s| - 1]), s[|s| - 1])
  }

  lemma AtDepthConcat(a: seq<CategoryElement>, b: seq<CategoryElement>, d: int)
    ensures AtDepth(a + b, d) == AtDepth(a, d) + AtDepth(b, d)
    decreases |b|
  {
    if b == [] {
      assert a + b == a;
    } else {
      AtDepthConcat(a, b[..|b| - 1], d);
      assert (a + b)[..|a + b| - 1] == a + b[..|b| - 1];
    }
  }

  /** Inserting adds no declaration deeper than both the list and `x` allow. */
  lemma {:induction false} InsertByDepthBound(r: seq<CategoryElement>, x: CategoryElement, b: int)
    requires forall i :: 0 <= i < |r| ==> Depth(r[i].path) <= b
    requires Depth(x.path) <= b
    ensures forall i :: 0 <= i < |InsertByDepth(r, x)| ==> Depth(InsertByDepth(r, x)[i].path) <= b
    decreases |r|
  {
    if r != [] && Depth(r[|r| - 1].path) > Depth(x.path) {
      InsertByDepthBound(r[..|r| - 1], x, b);
    }
  }

  /** Inserting keeps the list ordered by depth. */
  lemma {:induction false} InsertByDepthOrdered(r: seq<CategoryElement>, x: CategoryElement)
    requires OrderedByDepth(r)
    ensures OrderedByDepth(InsertByDepth(r, x))
    decreases |r|
  {
    if r != [] && Depth(r[|r| - 1].path) > Depth(x.path) {
      var init, last := r[..|r| - 1], r[|r| - 1];
      InsertByDepthOrdered(init, x);
      InsertByDepthBound(init, x, Depth(last.path));
    }
  }

  /** Inserting adds exactly `x`. */
  lemma {:induction false} InsertByDepthElements(r: seq<CategoryElement>, x: CategoryElement)
    ensures multiset(InsertByDepth(r, x)) == multiset(r) + multiset{x}
    decreases |r|
  {
    if r != [] && Depth(r[|r| - 1].path) > Depth(x.path) {
      var init, last := r[..|r| - 1], r[|r| - 1];
      assert r == init + [last];
      InsertByDepthElements(init, x);
    }
  }

  /** Inserting into an ordered list puts `x` after every declaration of its depth. */
  lemma {:induction false} InsertByDepthAtDepth(r: seq<CategoryElement>, x: CategoryElement, d: int)
    requires OrderedByDepth(r)
    ensures AtDepth(InsertByDepth(r, x), d) == AtDepth(r, d) + (if Depth(x.path) == d then [x] else [])
    decreases |r|
  {
    var res := InsertByDepth(r, x);
    if r == [] || Depth(r[|r| - 1].path) <= Depth(x.path) {
      assert res[..|res| - 1] == r;
    } else {
      var init, last := r[..|r| - 1], r[|r| - 1];
      assert r == init + [last];
      InsertByDepthAtDepth(init, x, d);
      var ins := InsertByDepth(init, x);
      AtDepthConcat(ins, [last], d);
      AtDepthConcat(init, [last], d);
      assert [last][..0] == [];
    }
  }

  /**
   * The sort orders the declarations by depth, loses and adds none, and keeps the order of
   * the declarations at any one depth.
   */
  lemma {:induction false} SortedByDepthSpec(s: seq<CategoryElement>)
    ensures OrderedByDepth(SortedByDepth(s))
    ensures multiset(SortedByDepth(s)) == multiset(s)
    ensures forall d :: AtDepth(SortedByDepth(s), d) == AtDepth(s, d)
  {
    if s != [] {
      var init, last := s[..|s| - 1], s[|s| - 1];
      assert s == init + [last];
      SortedByDepthSpec(init);
      InsertByDepthOrdered(SortedByDepth(init), last);
      InsertByDepthElements(SortedByDepth(init), last);
      forall d ensures AtDepth(SortedByDepth(s), d) == AtDepth(s, d) {
        InsertByDepthAtDepth(SortedByDepth(init), last, d);
      }
    }
  }

  /** Every declaration that survives duplicate removal is the first with its key. */
  lemma {:induction false} DedupFirsts(s: seq<CategoryElement>)
    ensures forall e :: e in Dedup(s) ==> Key(e) in Keys(s) && FirstWith(s, Key(e)) == e
  {
    if s != [] {
      var init, last := s[..|s| - 1], s[|s| - 1];
      DedupFirsts(init);
      KeysLast(s);
    }
  }
}