/** End-to-end properties of `parse_filter_data`: exactly which inputs parse,
    and what the tree of a successful parse looks like. */
module ParseProperties {
  import opened Wrappers
  import opened FilterErrors
  import opened FilterTree
  import opened Buckets
  import opened Linker
  import opened LinkerProperties
  import opened TreeBuilder
  import opened TreeBuilderProperties

  // ---------------------------------------------------------------------
  // Facts about the reference definitions
  // ---------------------------------------------------------------------

  /** A name is touched exactly when a kept group declares it or a kept
      condition aims at it. */
  lemma {:induction false} TouchedIff(d: FilterDict, k: string)
    ensures FirstRef(d, k) < |d| <==> DeclarationOf(d, k).Some? || ConditionsFor(d, k) != []
  {
    if d != [] {
      var p, e := d[..|d| - 1], d[|d| - 1];
      assert d == p + [e];
      TouchedIff(p, k);
      FirstRefSnoc(p, e, k);
      ReferenceSnoc(p, e, k);
    }
  }

  /** The payloads collected for `k` are exactly those of the kept
      conditions aimed at `k`. */
  lemma {:induction false} ConditionsForMembers(d: FilterDict, k: string, c: Payload)
    ensures c in ConditionsFor(d, k) <==>
      exists i :: 0 <= i < |d| && KeptCondition(d[i].1) && d[i].1.condition.value == c
        && ParentOf(c.memberOf) == k
  {
    if d != [] {
      var p, e := d[..|d| - 1], d[|d| - 1];
      assert d == p + [e];
      ConditionsForMembers(p, k, c);
      ReferenceSnoc(p, e, k);
      assert forall i :: 0 <= i < |p| ==> p[i] == d[i];
      if c in ConditionsFor(d, k) && c !in ConditionsFor(p, k) {
        assert KeptCondition(e.1) && e.1.condition.value == c;
      }
    }
  }

  /** With distinct names, the declaration of a kept group's name is that
      group's body. */
  lemma {:induction false} DeclarationOfKept(d: FilterDict, i: nat)
    requires i < |d| && Distinct(Names(d)) && KeptGroup(d[i].1)
    ensures DeclarationOf(d, d[i].0) == d[i].1.group
  {
    var g := DeclarationOf(d, d[i].0).value;
    var j :| 0 <= j < |d| && d[j].0 == d[i].0 && KeptGroup(d[j].1) && d[j].1.group.value == g;
    assert Names(d)[i] == Names(d)[j];
  }

  // ---------------------------------------------------------------------
  // Conditions on the input under which each pass succeeds
  // ---------------------------------------------------------------------

  /** Every kept condition has a `path`. */
  predicate ConditionsHavePaths(d: FilterDict) {
    forall i :: 0 <= i < |d| && KeptCondition(d[i].1) ==> d[i].1.condition.value.path.Some?
  }

  /** Every kept group's conjunction is AND or OR in some case. */
  predicate ConjunctionsAccepted(d: FilterDict) {
    forall i :: 0 <= i < |d| && KeptGroup(d[i].1) ==> AcceptedConjunction(d[i].1.group.value.conjunction.value)
  }

  /** Every kept condition aims at the root or at a kept group. */
  predicate ConditionParentsDeclared(d: FilterDict) {
    forall i :: 0 <= i < |d| && KeptCondition(d[i].1) ==>
      var parent := ParentOf(d[i].1.condition.value.memberOf);
      parent == Root || DeclarationOf(d, parent).Some?
  }

  /** Every kept group's parent is the root or a kept group. */
  predicate GroupParentsDeclared(d: FilterDict) {
    forall i :: 0 <= i < |d| && KeptGroup(d[i].1) ==>
      var parent := ParentOf(d[i].1.group.value.memberOf);
      parent == Root || DeclarationOf(d, parent).Some?
  }

  /** The mapping of a successful link, with the facts the later passes use. */
  lemma {:induction false} LinkFacts(d: FilterDict)
    requires Link(d).Ok?
    ensures Root !in Names(d) && forall i :: 0 <= i < |d| ==> Accepted(d[i].1)
    ensures DeclarationOf(d, Root).None?
    ensures KeysInReferenceOrder(d, Link(d).value) && BucketsCollect(d, Link(d).value)
    ensures forall k :: k in Keys(Link(d).value) <==> k == Root || DeclarationOf(d, k).Some? || ConditionsFor(d, k) != []
    ensures forall i :: 0 <= i < |Link(d).value| ==> Link(d).value[i].1 == Get(Link(d).value, Link(d).value[i].0)
  {
    LinkOutcome(d);
    LinkPartition(d);
    forall k {
      TouchedIff(d, k);
    }
    forall i | 0 <= i < |Link(d).value|
      ensures Link(d).value[i].1 == Get(Link(d).value, Link(d).value[i].0)
    {
      GetAt(Link(d).value, i);
    }
  }

  /** A bucket of a successful link is ready for node creation under the
      input conditions. */
  lemma {:induction false} BucketReadyFromInput(d: FilterDict, k: string)
    requires Link(d).Ok? && Distinct(Names(d))
    requires ConditionParentsDeclared(d) && ConjunctionsAccepted(d) && ConditionsHavePaths(d)
    requires k in Keys(Link(d).value)
    ensures BucketReady(k, Get(Link(d).value, k))
  {
    LinkFacts(d);
    var b := Get(Link(d).value, k);
    if k != Root {
      if ConditionsFor(d, k) != [] {
        var c := ConditionsFor(d, k)[0];
        ConditionsForMembers(d, k, c);
        var i :| 0 <= i < |d| && KeptCondition(d[i].1) && d[i].1.condition.value == c && ParentOf(c.memberOf) == k;
      }
      var g := DeclarationOf(d, k).value;
      var j :| 0 <= j < |d| && d[j].0 == k && KeptGroup(d[j].1) && d[j].1.group.value == g;
      assert b.conjunction == g.conjunction;
    }
    forall c | c in b.conditions
      ensures c.path.Some? && c.value.Some?
    {
      ConditionsForMembers(d, k, c);
    }
  }

  /** A kept condition's payload lies in a bucket of the link. */
  lemma {:induction false} KeptConditionStored(d: FilterDict, i: nat)
    requires Link(d).Ok? && i < |d| && KeptCondition(d[i].1)
    ensures var c := d[i].1.condition.value;
      ParentOf(c.memberOf) in Keys(Link(d).value) && c in Get(Link(d).value, ParentOf(c.memberOf)).conditions
  {
    LinkFacts(d);
    var c := d[i].1.condition.value;
    ConditionsForMembers(d, ParentOf(c.memberOf), c);
  }

  /** Node creation succeeds after a successful link exactly when every kept
      condition aims at the root or a kept group, has a path, and every kept
      group's conjunction is accepted. */
  lemma {:induction false} MaterialiseIff(d: FilterDict)
    requires Link(d).Ok? && Distinct(Names(d))
    ensures Materialise(Link(d).value).Ok? <==>
      ConditionParentsDeclared(d) && ConjunctionsAccepted(d) && ConditionsHavePaths(d)
  {
    var m := Link(d).value;
    LinkFacts(d);
    MaterialiseOutcome(m);
    if ConditionParentsDeclared(d) && ConjunctionsAccepted(d) && ConditionsHavePaths(d) {
      forall i | 0 <= i < |m|
        ensures BucketReady(m[i].0, m[i].1)
      {
        assert m[i].0 in Keys(m);
        BucketReadyFromInput(d, m[i].0);
      }
    }
    if Materialise(m).Ok? {
      assert forall k :: k in Keys(m) ==> BucketReady(k, Get(m, k));
      forall i | 0 <= i < |d| && KeptCondition(d[i].1)
        ensures ParentOf(d[i].1.condition.value.memberOf) == Root || DeclarationOf(d, ParentOf(d[i].1.condition.value.memberOf)).Some?
        ensures d[i].1.condition.value.path.Some?
      {
        KeptConditionStored(d, i);
      }
      forall i | 0 <= i < |d| && KeptGroup(d[i].1)
        ensures AcceptedConjunction(d[i].1.group.value.conjunction.value)
      {
        DeclarationOfKept(d, i);
        assert d[i].0 in Keys(m);
        assert d[i].0 != Root by { assert Names(d)[i] == d[i].0; }
      }
    }
  }

  /** After a successful node creation the slots are the root followed by
      the kept groups, and each slot's parent is its group's resolved
      `memberOf`. */
  lemma {:induction false} MaterialisedSlots(d: FilterDict)
    requires Link(d).Ok? && Distinct(Names(d))
    requires Materialise(Link(d).value).Ok?
    ensures var a := Materialise(Link(d).value).value;
      && SlotNames(a) == Keys(Link(d).value)
      && (forall k :: k in SlotNames(a) <==> k == Root || DeclarationOf(d, k).Some?)
      && forall i :: 0 <= i < |a| ==> a[i].memberOf == DeclaredParent(d, a[i].name)
  {
    var m := Link(d).value;
    LinkFacts(d);
    MaterialiseIff(d);
    MaterialiseContents(m);
    var a := Materialise(m).value;
    assert SlotNames(a) == Keys(m);
    forall k | ConditionsFor(d, k) != [] && k != Root
      ensures DeclarationOf(d, k).Some?
    {
      var c := ConditionsFor(d, k)[0];
      ConditionsForMembers(d, k, c);
    }
  }

  lemma {:induction false} ParentsExistFromInput(d: FilterDict)
    requires Link(d).Ok? && Distinct(Names(d))
    requires Materialise(Link(d).value).Ok?
    requires GroupParentsDeclared(d)
    ensures var a := Materialise(Link(d).value).value;
      forall i :: 0 <= i < |a| ==> ParentExists(a, a[i])
  {
    var a := Materialise(Link(d).value).value;
    MaterialisedSlots(d);
    forall i | 0 <= i < |a|
      ensures ParentExists(a, a[i])
    {
      if a[i].memberOf.Some? {
        var g := DeclarationOf(d, a[i].name).value;
        var j :| 0 <= j < |d| && d[j].0 == a[i].name && KeptGroup(d[j].1) && d[j].1.group.value == g;
        assert a[i].memberOf.value in SlotNames(a);
      }
    }
  }

  lemma {:induction false} InputFromParentsExist(d: FilterDict)
    requires Link(d).Ok? && Distinct(Names(d))
    requires Materialise(Link(d).value).Ok?
    requires var a := Materialise(Link(d).value).value;
      forall i :: 0 <= i < |a| ==> ParentExists(a, a[i])
    ensures GroupParentsDeclared(d)
  {
    var a := Materialise(Link(d).value).value;
    MaterialisedSlots(d);
    forall j | 0 <= j < |d| && KeptGroup(d[j].1)
      ensures ParentOf(d[j].1.group.value.memberOf) == Root || DeclarationOf(d, ParentOf(d[j].1.group.value.memberOf)).Some?
    {
      DeclarationOfKept(d, j);
      assert d[j].0 in SlotNames(a);
      var i :| 0 <= i < |a| && SlotNames(a)[i] == d[j].0;
      assert ParentExists(a, a[i]);
      assert a[i].memberOf == Some(ParentOf(d[j].1.group.value.memberOf));
    }
  }

  /** Linking the groups succeeds after node creation exactly when every
      kept group's parent is the root or a kept group. */
  lemma {:induction false} BuildTreeIff(d: FilterDict)
    requires Link(d).Ok? && Distinct(Names(d))
    requires Materialise(Link(d).value).Ok?
    ensures BuildTree(Materialise(Link(d).value).value).Ok? <==> GroupParentsDeclared(d)
  {
    BuildTreeOutcome(Materialise(Link(d).value).value);
    if GroupParentsDeclared(d) {
      ParentsExistFromInput(d);
    } else if BuildTree(Materialise(Link(d).value).value).Ok? {
      InputFromParentsExist(d);
    }
  }

  /** `parse_filter_data` succeeds exactly when `@root` names no entry,
      every entry is accepted by the linker, every kept condition has a path
      and aims at the root or a kept group, every kept group has an accepted
      conjunction and a parent that is the root or a kept group.  Cycles
      among groups are not a reason to fail. */
  lemma {:induction false} ParseOutcome(d: FilterDict)
    requires Distinct(Names(d))
    ensures Parse(d).Ok? <==>
      && Root !in Names(d)
      && (forall i :: 0 <= i < |d| ==> Accepted(d[i].1))
      && ConditionsHavePaths(d)
      && ConditionParentsDeclared(d)
      && ConjunctionsAccepted(d)
      && GroupParentsDeclared(d)
  {
    LinkOutcome(d);
    if Link(d).Ok? {
      MaterialiseIff(d);
      if Materialise(Link(d).value).Ok? {
        BuildTreeIff(d);
      }
    }
  }

  /** The child groups of a name depend only on the slots' names and
      parents. */
  lemma {:induction false} ChildrenOfSameLinks(a: Arena, t: Arena, g: string)
    requires |a| == |t|
    requires forall i :: 0 <= i < |a| ==> a[i].name == t[i].name && a[i].memberOf == t[i].memberOf
    ensures ChildrenOf(a, g) == ChildrenOf(t, g)
  {
    ChildrenAmongSameLinks(a, t, |a|, g);
  }

  lemma {:induction false} ChildrenAmongSameLinks(a: Arena, t: Arena, n: nat, g: string)
    requires n <= |a| == |t|
    requires forall i :: 0 <= i < |a| ==> a[i].name == t[i].name && a[i].memberOf == t[i].memberOf
    ensures ChildrenAmong(a, n, g) == ChildrenAmong(t, n, g)
  {
    if n > 0 {
      ChildrenAmongSameLinks(a, t, n - 1, g);
    }
  }

  /** Slot `s` of tree `t` is what parsing `d` promises: its parent is its
      group's resolved `memberOf`; its conjunction is AND for the root and
      otherwise what the group constructor makes of the declared one; its
      members are first the conditions aimed at it, as condition nodes, in
      input order, then its child groups in slot order. */
  ghost predicate NodeOfTree(d: FilterDict, t: Arena, s: Slot) {
    var cs := ConditionsFor(d, s.name);
    && s.memberOf == DeclaredParent(d, s.name)
    && (s.name == Root ==> s.node.conjunction == "AND")
    && (s.name != Root ==>
          DeclaredConjunction(d, s.name).Some?
          && NewGroup(DeclaredConjunction(d, s.name).value) == Ok(Group(s.node.conjunction, [])))
    && |cs| <= |s.node.members|
    && (forall j :: 0 <= j < |cs| ==> s.node.members[j].Leaf? && NewCondition(cs[j]) == Ok(s.node.members[j].condition))
    && s.node.members[|cs|..] == ChildrenOf(t, s.name)
  }

  /** The tree of a successful parse: the root (the fixed AND node, without
      parent) comes first, followed by one node per kept group, each once, in
      order of first reference; every node holds its conditions, then its
      child groups, as `NodeOfTree` describes. */
  lemma {:induction false} ParseTree(d: FilterDict)
    requires Distinct(Names(d)) && Parse(d).Ok?
    ensures var t := Parse(d).value;
      && |t| >= 1 && t[0].name == Root && t[0].memberOf.None?
      && Distinct(SlotNames(t))
      && (forall k :: k in SlotNames(t) <==> k == Root || DeclarationOf(d, k).Some?)
      && (forall i, j :: 1 <= i < j < |t| ==> FirstRef(d, t[i].name) < FirstRef(d, t[j].name))
      && (forall i :: 0 <= i < |t| ==> NodeOfTree(d, t, t[i]))
  {
    var m := Link(d).value;
    var a := Materialise(m).value;
    var t := Parse(d).value;
    LinkFacts(d);
    MaterialiseContents(m);
    MaterialisedSlots(d);
    BuildTreeOutcome(a);
    assert SlotNames(t) == SlotNames(a);
    forall i | 0 <= i < |t|
      ensures NodeOfTree(d, t, t[i])
    {
      var g := t[i].name;
      ChildrenOfSameLinks(a, t, g);
      assert t[i] == Extended(a[i], ChildrenOf(a, g));
      assert m[i].1 == Get(m, g);
      assert Materialises(g, m[i].1, a[i].node);
      var cs := ConditionsFor(d, g);
      assert |a[i].node.members| == |cs|;
      assert t[i].node.members[|cs|..] == ChildrenOf(t, g);
    }
  }

  lemma {:induction false} BucketWithoutConjunction(name: string, b: Bucket)
    requires name != Root && b.conjunction.None?
    ensures MaterialiseBucket(name, b) == Err(MissingConjunction(name))
  {
  }

  /** A kept condition aimed at an undeclared name is recorded in a bucket
      that has no conjunction. */
  lemma {:induction false} DanglingBucket(d: FilterDict, i: nat)
    requires Link(d).Ok? && i < |d| && KeptCondition(d[i].1)
    requires var parent := ParentOf(d[i].1.condition.value.memberOf);
      parent != Root && DeclarationOf(d, parent).None?
    ensures var parent := ParentOf(d[i].1.condition.value.memberOf);
      Get(Link(d).value, parent).conjunction.None?
  {
    LinkFacts(d);
  }

  lemma {:induction false} ConditionParentUndeclared(d: FilterDict, i: nat)
    requires i < |d| && KeptCondition(d[i].1)
    requires var parent := ParentOf(d[i].1.condition.value.memberOf);
      parent != Root && DeclarationOf(d, parent).None?
    ensures !ConditionParentsDeclared(d)
  {
  }

  lemma {:induction false} MaterialiseFailsOnDanglingCondition(d: FilterDict)
    requires Link(d).Ok? && Distinct(Names(d)) && !ConditionParentsDeclared(d)
    ensures Materialise(Link(d).value).Err?
  {
    MaterialiseIff(d);
  }

  lemma {:induction false} ParseFailsOnDanglingCondition(d: FilterDict)
    requires Distinct(Names(d)) && !ConditionParentsDeclared(d)
    ensures Parse(d).Err?
  {
    ParseOutcome(d);
  }

  /** A condition aimed at a name no kept group declares makes the parse
      fail. */
  lemma {:induction false} DanglingConditionFails(d: FilterDict, i: nat)
    requires Distinct(Names(d)) && i < |d| && KeptCondition(d[i].1)
    requires var parent := ParentOf(d[i].1.condition.value.memberOf);
      parent != Root && DeclarationOf(d, parent).None?
    ensures Parse(d).Err?
  {
    ConditionParentUndeclared(d, i);
    ParseFailsOnDanglingCondition(d);
  }

  /** Such a condition lies in a bucket without a conjunction, so once
      linking has succeeded, node creation fails, at that bucket at the
      latest, with a missing conjunction. */
  lemma {:induction false} DanglingConditionLacksConjunction(d: FilterDict, i: nat)
    requires Distinct(Names(d)) && i < |d| && KeptCondition(d[i].1)
    requires var parent := ParentOf(d[i].1.condition.value.memberOf);
      parent != Root && DeclarationOf(d, parent).None?
    requires Link(d).Ok?
    ensures var parent := ParentOf(d[i].1.condition.value.memberOf);
      && Materialise(Link(d).value).Err?
      && MaterialiseBucket(parent, Get(Link(d).value, parent)) == Err(MissingConjunction(parent))
  {
    ConditionParentUndeclared(d, i);
    MaterialiseFailsOnDanglingCondition(d);
    DanglingBucket(d, i);
    var parent := ParentOf(d[i].1.condition.value.memberOf);
    BucketWithoutConjunction(parent, Get(Link(d).value, parent));
  }

  /** The parent a slot names is missing from the slots only when it is
      neither the root nor a kept group. */
  lemma {:induction false} UnknownParentUndeclared(d: FilterDict, p: string)
    requires Link(d).Ok? && Distinct(Names(d))
    requires Materialise(Link(d).value).Ok?
    requires p !in SlotNames(Materialise(Link(d).value).value)
    ensures p != Root && DeclarationOf(d, p).None?
  {
    MaterialisedSlots(d);
  }

  lemma {:induction false} GroupParentUndeclared(d: FilterDict, j: nat)
    requires j < |d| && KeptGroup(d[j].1)
    requires var parent := ParentOf(d[j].1.group.value.memberOf);
      parent != Root && DeclarationOf(d, parent).None?
    ensures !GroupParentsDeclared(d)
  {
  }

  lemma {:induction false} ParseFailsOnDanglingGroup(d: FilterDict)
    requires Distinct(Names(d)) && !GroupParentsDeclared(d)
    ensures Parse(d).Err?
  {
    ParseOutcome(d);
  }

  lemma {:induction false} BuildTreeFailsOnDanglingGroup(d: FilterDict)
    requires Link(d).Ok? && Distinct(Names(d)) && !GroupParentsDeclared(d)
    requires Materialise(Link(d).value).Ok?
    ensures BuildTree(Materialise(Link(d).value).value).Err?
  {
    BuildTreeIff(d);
  }

  /** A kept group whose parent is neither the root nor a kept group makes
      the parse fail. */
  lemma {:induction false} DanglingGroupFails(d: FilterDict, j: nat)
    requires Distinct(Names(d)) && j < |d| && KeptGroup(d[j].1)
    requires var parent := ParentOf(d[j].1.group.value.memberOf);
      parent != Root && DeclarationOf(d, parent).None?
    ensures Parse(d).Err?
  {
    GroupParentUndeclared(d, j);
    ParseFailsOnDanglingGroup(d);
  }

  /** When the earlier passes succeed, it is linking the groups that fails
      on such a parent, naming an unknown parent. */
  lemma {:induction false} DanglingGroupUnknownParent(d: FilterDict, j: nat)
    requires Distinct(Names(d)) && j < |d| && KeptGroup(d[j].1)
    requires var parent := ParentOf(d[j].1.group.value.memberOf);
      parent != Root && DeclarationOf(d, parent).None?
    requires Link(d).Ok? && Materialise(Link(d).value).Ok?
    ensures var a := Materialise(Link(d).value).value;
      && BuildTree(a).Err?
      && exists p :: p != Root && DeclarationOf(d, p).None? && BuildTree(a).error == UnknownParent(p)
  {
    GroupParentUndeclared(d, j);
    var a := Materialise(Link(d).value).value;
    BuildTreeFailsOnDanglingGroup(d);
    BuildTreeOutcome(a);
    var i :| 0 <= i < |a| && !ParentExists(a, a[i]) && BuildTree(a).error == UnknownParent(a[i].memberOf.value);
    UnknownParentUndeclared(d, a[i].memberOf.value);
  }

  /** Two groups that name each other as parent. */
  function CycleDict(): FilterDict {
    [("A", Entry(Some(GroupBody(Some("and"), Some("B"))), None)),
     ("B", Entry(Some(GroupBody(Some("Or"), Some("A"))), None))]
  }

  function CycleMapping(): Mapping {
    [(Root, EmptyBucket),
     ("A", Bucket(Some("and"), Some("B"), [])),
     ("B", Bucket(Some("Or"), Some("A"), []))]
  }

  function CycleSlots(): Arena {
    [Slot(Root, None, Group("AND", [])),
     Slot("A", Some("B"), Group("AND", [])),
     Slot("B", Some("A"), Group("OR", []))]
  }

  /** The linked tree: each group holds the other. */
  function CycleTreeSlots(): Arena {
    [Slot(Root, None, Group("AND", [])),
     Slot("A", Some("B"), Group("AND", [Sub("B")])),
     Slot("B", Some("A"), Group("OR", [Sub("A")]))]
  }

  lemma {:induction false} CycleLinks()
    ensures Link(CycleDict()) == Ok(CycleMapping())
  {
    var d, m := CycleDict(), CycleMapping();
    var d1 := d[..1];
    var m1 := m[..2];
    assert d1[..0] == [];
    assert LinkEntries(d1[..0]) == Ok(InitialMapping());
    assert Get(InitialMapping(), "A") == EmptyBucket;
    assert InitialMapping()[1..] == [];
    assert Put(InitialMapping(), "A", m[1].1) == m1;
    assert LinkEntries(d1) == Ok(m1);
    assert Get(m1, "B") == EmptyBucket;
    assert m1[1..][1..] == [];
    assert Put(m1, "B", m[2].1) == m;
    assert d[..|d| - 1] == d1;
    assert LinkEntries(d) == Ok(m);
  }

  lemma {:induction false} CycleNodes()
    ensures Materialise(CycleMapping()) == Ok(CycleSlots())
  {
    var m, a := CycleMapping(), CycleSlots();
    assert Upper("and") == "AND" && Upper("Or") == "OR";
    assert NewGroup("and") == Ok(a[1].node) && NewGroup("Or") == Ok(a[2].node);
    var none: seq<Member> := [];
    assert NewConditions([]) == Ok(none);
    assert none + none == none;
    assert MaterialiseBucket(Root, m[0].1) == Ok(a[0].node);
    assert MaterialiseBucket("A", m[1].1) == Ok(a[1].node);
    assert MaterialiseBucket("B", m[2].1) == Ok(a[2].node);
    assert m[..1][..0] == [];
    assert Materialise(m[..1][..0]) == Ok([]);
    assert m[..1][0] == m[0] && a[..1] == [] + [a[0]];
    assert Materialise(m[..1]) == Ok(a[..1]);
    assert m[..2][..1] == m[..1] && m[..2][1] == m[1] && a[..2] == a[..1] + [a[1]];
    assert Materialise(m[..2]) == Ok(a[..2]);
    assert a == a[..2] + [a[2]];
    assert m[..2] == m[..|m| - 1];
  }

  lemma {:induction false} CycleTree()
    ensures BuildTree(CycleSlots()) == Ok(CycleTreeSlots())
  {
    var a := CycleSlots();
    assert Find(a, "A") == Some(1) && Find(a, "B") == Some(2);
    assert AttachChildren(a, 1) == Ok(a);
    var t2 := a[2 := Slot("B", Some("A"), Group("OR", [Sub("A")]))];
    assert a[2].node.members + [Sub("A")] == [Sub("A")];
    assert AttachChild(a, a[1]) == Ok(t2);
    assert a[1].node.members + [Sub("B")] == [Sub("B")];
    assert AttachChildren(a, 2) == Ok(t2);
    assert Find(t2, "A") == Some(1);
    var t3 := t2[1 := Slot("A", Some("B"), Group("AND", [Sub("B")]))];
    assert AttachChild(t2, a[2]) == Ok(t3);
    assert AttachChildren(a, |a|) == Ok(t3);
    assert t3 == [a[0], t3[1], t2[2]];
  }

  /** Groups that are each other's parent are not rejected: each ends up
      among the other's members. */
  lemma {:induction false} CyclesAreNotRejected()
    ensures Parse(CycleDict()) == Ok(CycleTreeSlots())
  {
    CycleLinks();
    CycleNodes();
    CycleTree();
  }
}
