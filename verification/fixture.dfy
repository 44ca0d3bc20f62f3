/** The valid filter dictionary of the test suite (tests/test_parser.py):
    four conditions, two of them in `TestGroup`, one in `OtherTestGroup`,
    one in the root, then the two groups, `OtherTestGroup` nested in
    `TestGroup`.  Every stage of the parse is computed, and the rendered
    result is the string the suite expects. */
module ParserFixture {
  import opened Wrappers
  import opened FilterErrors
  import opened FilterTree
  import opened Buckets
  import opened Linker
  import opened TreeBuilder
  import opened Rendering
  import ParseProperties

  const C1 := Payload(Some("TestField"), None, Some("42"), Some("TestGroup"))
  const C2 := Payload(Some("DifferentTestField"), None, Some("23"), Some("TestGroup"))
  const C3 := Payload(Some("OtherTestField"), None, Some("foo"), Some("OtherTestGroup"))
  const C4 := Payload(Some("YetAnotherTestField"), None, Some("bar"), None)

  function ValidFilterDict(): FilterDict {
    [("TestConditionInGroup", Entry(None, Some(C1))),
     ("AnotherTestConditionInGroup", Entry(None, Some(C2))),
     ("TestConditionInOtherGroup", Entry(None, Some(C3))),
     ("TestConditionInRoot", Entry(None, Some(C4))),
     ("TestGroup", Entry(Some(GroupBody(Some("OR"), None)), None)),
     ("OtherTestGroup", Entry(Some(GroupBody(Some("AND"), Some("TestGroup"))), None))]
  }

  /** The intermediate mapping the suite inspects after linking. */
  function GroupedConditions(): Mapping {
    [(Root, Bucket(None, None, [C4])),
     ("TestGroup", Bucket(Some("OR"), Some(Root), [C1, C2])),
     ("OtherTestGroup", Bucket(Some("AND"), Some("TestGroup"), [C3]))]
  }

  /** The condition nodes built from the four payloads. */
  const L1 := Leaf(Condition("TestField", "=", "42"))
  const L2 := Leaf(Condition("DifferentTestField", "=", "23"))
  const L3 := Leaf(Condition("OtherTestField", "=", "foo"))
  const L4 := Leaf(Condition("YetAnotherTestField", "=", "bar"))

  /** The nodes after node creation, before linking. */
  function Nodes(): Arena {
    [Slot(Root, None, Group("AND", [L4])),
     Slot("TestGroup", Some(Root), Group("OR", [L1, L2])),
     Slot("OtherTestGroup", Some("TestGroup"), Group("AND", [L3]))]
  }

  /** The finished tree. */
  function Tree(): Arena {
    [Slot(Root, None, Group("AND", [L4, Sub("TestGroup")])),
     Slot("TestGroup", Some(Root), Group("OR", [L1, L2, Sub("OtherTestGroup")])),
     Slot("OtherTestGroup", Some("TestGroup"), Group("AND", [L3]))]
  }

  // ---------------------------------------------------------------------
  // Linking, entry by entry
  // ---------------------------------------------------------------------

  /** The mappings after each of the six entries. */
  function Linked(n: nat): Mapping
    requires 1 <= n <= 6
  {
    match n
    case 1 => [(Root, EmptyBucket), ("TestGroup", Bucket(None, None, [C1]))]
    case 2 => [(Root, EmptyBucket), ("TestGroup", Bucket(None, None, [C1, C2]))]
    case 3 => Linked(2) + [("OtherTestGroup", Bucket(None, None, [C3]))]
    case 4 => Linked(3)[0 := (Root, Bucket(None, None, [C4]))]
    case 5 => Linked(4)[1 := ("TestGroup", Bucket(Some("OR"), Some(Root), [C1, C2]))]
    case 6 => GroupedConditions()
  }

  lemma {:induction false} LinkStep(d: FilterDict, k: nat, m: Mapping)
    requires k < |d| && LinkEntries(d[..k]) == Ok(m)
    ensures LinkEntries(d[..k + 1]) == LinkEntry(m, d[k].0, d[k].1)
  {
    assert d[..k + 1][..k] == d[..k];
  }

  lemma {:induction false} LinkEntryOne()
    ensures LinkEntry(InitialMapping(), "TestConditionInGroup", Entry(None, Some(C1))) == Ok(Linked(1))
  {
    assert Keys(InitialMapping()) == [Root];
    assert MemberOf(C1.memberOf) == Ok("TestGroup") && Filled(C1.value);
    assert Get(InitialMapping(), "TestGroup") == EmptyBucket;
    assert EmptyBucket.conditions + [C1] == [C1];
    PutAbsent(InitialMapping(), "TestGroup", Bucket(None, None, [C1]));
    assert CollectCondition(InitialMapping(), "TestGroup", C1) == Linked(1);
  }

  lemma {:induction false} LinkEntryTwo()
    ensures LinkEntry(Linked(1), "AnotherTestConditionInGroup", Entry(None, Some(C2))) == Ok(Linked(2))
  {
    var m := Linked(1);
    assert Keys(m) == [Root, "TestGroup"];
    assert MemberOf(C2.memberOf) == Ok("TestGroup") && Filled(C2.value);
    assert Get(m, "TestGroup") == m[1].1;
    assert [C1] + [C2] == [C1, C2];
    PutPresent(m, 1, Bucket(None, None, [C1, C2]));
    assert CollectCondition(m, "TestGroup", C2) == Linked(2);
  }

  lemma {:induction false} LinkEntryThree()
    ensures LinkEntry(Linked(2), "TestConditionInOtherGroup", Entry(None, Some(C3))) == Ok(Linked(3))
  {
    var m := Linked(2);
    assert Keys(m) == [Root, "TestGroup"];
    assert MemberOf(C3.memberOf) == Ok("OtherTestGroup") && Filled(C3.value);
    assert Get(m, "OtherTestGroup") == EmptyBucket;
    assert EmptyBucket.conditions + [C3] == [C3];
    PutAbsent(m, "OtherTestGroup", Bucket(None, None, [C3]));
    assert CollectCondition(m, "OtherTestGroup", C3) == Linked(3);
  }

  lemma {:induction false} LinkEntryFour()
    ensures LinkEntry(Linked(3), "TestConditionInRoot", Entry(None, Some(C4))) == Ok(Linked(4))
  {
    var m := Linked(3);
    assert Keys(m) == [Root, "TestGroup", "OtherTestGroup"];
    assert MemberOf(C4.memberOf) == Ok(Root) && Filled(C4.value);
    assert Get(m, Root) == m[0].1;
    assert EmptyBucket.conditions + [C4] == [C4];
    PutPresent(m, 0, Bucket(None, None, [C4]));
    assert CollectCondition(m, Root, C4) == Linked(4);
  }

  lemma {:induction false} LinkEntryFive()
    ensures LinkEntry(Linked(4), "TestGroup", Entry(Some(GroupBody(Some("OR"), None)), None)) == Ok(Linked(5))
  {
    var m := Linked(4);
    assert Keys(m) == [Root, "TestGroup", "OtherTestGroup"];
    assert Get(m, "TestGroup") == m[1].1;
    PutPresent(m, 1, Bucket(Some("OR"), Some(Root), [C1, C2]));
  }

  lemma {:induction false} LinkEntrySix()
    ensures LinkEntry(Linked(5), "OtherTestGroup", Entry(Some(GroupBody(Some("AND"), Some("TestGroup"))), None)) == Ok(Linked(6))
  {
    var m := Linked(5);
    assert Keys(m) == [Root, "TestGroup", "OtherTestGroup"];
    assert Get(m, "OtherTestGroup") == m[2].1;
    PutPresent(m, 2, Bucket(Some("AND"), Some("TestGroup"), [C3]));
    assert m[2 := ("OtherTestGroup", Bucket(Some("AND"), Some("TestGroup"), [C3]))] == GroupedConditions();
  }

  lemma {:induction false} LinkFirstThree()
    ensures LinkEntries(ValidFilterDict()[..3]) == Ok(Linked(3))
  {
    var d := ValidFilterDict();
    assert d[..0] == [];
    assert d[0] == ("TestConditionInGroup", Entry(None, Some(C1)));
    LinkEntryOne();
    LinkStep(d, 0, InitialMapping());
    assert d[1] == ("AnotherTestConditionInGroup", Entry(None, Some(C2)));
    LinkEntryTwo();
    LinkStep(d, 1, Linked(1));
    assert d[2] == ("TestConditionInOtherGroup", Entry(None, Some(C3)));
    LinkEntryThree();
    LinkStep(d, 2, Linked(2));
  }

  lemma {:induction false} LinkFirstFour()
    ensures LinkEntries(ValidFilterDict()[..4]) == Ok(Linked(4))
  {
    var d := ValidFilterDict();
    LinkFirstThree();
    assert d[3] == ("TestConditionInRoot", Entry(None, Some(C4)));
    LinkEntryFour();
    LinkStep(d, 3, Linked(3));
  }

  lemma {:induction false} LinkFirstFive()
    ensures LinkEntries(ValidFilterDict()[..5]) == Ok(Linked(5))
  {
    var d := ValidFilterDict();
    LinkFirstFour();
    assert d[4] == ("TestGroup", Entry(Some(GroupBody(Some("OR"), None)), None));
    LinkEntryFive();
    LinkStep(d, 4, Linked(4));
  }

  lemma {:induction false} LinkAll()
    ensures LinkEntries(ValidFilterDict()) == Ok(GroupedConditions())
  {
    var d := ValidFilterDict();
    LinkFirstFive();
    assert d[5] == ("OtherTestGroup", Entry(Some(GroupBody(Some("AND"), Some("TestGroup"))), None));
    LinkEntrySix();
    LinkStep(d, 5, Linked(5));
    assert d[..6] == d;
  }

  /** No entry of the fixture is called like the root. */
  lemma {:induction false} FixtureAvoidsRoot()
    ensures Root !in Names(ValidFilterDict())
  {
    assert Names(ValidFilterDict()) == ["TestConditionInGroup", "AnotherTestConditionInGroup", "TestConditionInOtherGroup",
                                        "TestConditionInRoot", "TestGroup", "OtherTestGroup"];
  }

  /** The buckets of the linked mapping hold one, two and one conditions. */
  lemma {:induction false} FixtureBucketSizes()
    ensures |Get(GroupedConditions(), Root).conditions| == 1
    ensures |Get(GroupedConditions(), "TestGroup").conditions| == 2
    ensures |Get(GroupedConditions(), "OtherTestGroup").conditions| == 1
  {
    var m := GroupedConditions();
    assert Get(m, Root) == m[0].1;
    assert Get(m, "TestGroup") == Get(m[1..], "TestGroup") == m[1].1;
    assert Get(m, "OtherTestGroup") == Get(m[1..], "OtherTestGroup") == Get(m[2..], "OtherTestGroup") == m[2].1;
  }

  /** After linking, the mapping holds the root, `TestGroup` and
      `OtherTestGroup`, in that order, with one, two and one conditions. */
  lemma {:induction false} FixtureGroupsConditions()
    ensures Link(ValidFilterDict()) == Ok(GroupedConditions())
    ensures Keys(GroupedConditions()) == [Root, "TestGroup", "OtherTestGroup"]
    ensures |Get(GroupedConditions(), Root).conditions| == 1
    ensures |Get(GroupedConditions(), "TestGroup").conditions| == 2
    ensures |Get(GroupedConditions(), "OtherTestGroup").conditions| == 1
  {
    FixtureLinks();
    FixtureKeys();
    FixtureBucketSizes();
  }

  lemma {:induction false} FixtureLinks()
    ensures Link(ValidFilterDict()) == Ok(GroupedConditions())
  {
    LinkAll();
    FixtureAvoidsRoot();
  }

  lemma {:induction false} FixtureKeys()
    ensures Keys(GroupedConditions()) == [Root, "TestGroup", "OtherTestGroup"]
  {
  }

  // ---------------------------------------------------------------------
  // Node creation and linking
  // ---------------------------------------------------------------------

  lemma {:induction false} FixtureNodes()
    ensures Materialise(GroupedConditions()) == Ok(Nodes())
  {
    var m, a := GroupedConditions(), Nodes();
    assert Upper("OR") == "OR" && Upper("AND") == "AND";
    var none: seq<Member> := [];
    assert NewConditions([]) == Ok(none);
    assert NewConditions([C4]) == Ok([L4]) by {
      assert [C4][..0] == [];
      assert none + [L4] == [L4];
    }
    assert NewConditions([C1]) == Ok([L1]) by {
      assert [C1][..0] == [];
      assert none + [L1] == [L1];
    }
    assert NewConditions([C1, C2]) == Ok([L1, L2]) by {
      assert [C1, C2][..1] == [C1];
      assert [L1] + [L2] == [L1, L2];
    }
    assert NewConditions([C3]) == Ok([L3]) by {
      assert [C3][..0] == [];
      assert none + [L3] == [L3];
    }
    assert none + [L4] == [L4] && none + [L1, L2] == [L1, L2] && none + [L3] == [L3];
    assert MaterialiseBucket(Root, m[0].1) == Ok(a[0].node);
    assert MaterialiseBucket("TestGroup", m[1].1) == Ok(a[1].node);
    assert MaterialiseBucket("OtherTestGroup", m[2].1) == Ok(a[2].node);
    assert m[..1][..0] == [];
    assert Materialise(m[..1][..0]) == Ok([]);
    assert m[..1][0] == m[0] && a[..1] == [] + [a[0]];
    assert Materialise(m[..1]) == Ok(a[..1]);
    assert m[..2][..1] == m[..1] && m[..2][1] == m[1] && a[..2] == a[..1] + [a[1]];
    assert Materialise(m[..2]) == Ok(a[..2]);
    assert m[..|m| - 1] == m[..2] && a == a[..2] + [a[2]];
  }

  lemma {:induction false} FixtureTree()
    ensures BuildTree(Nodes()) == Ok(Tree())
  {
    var a, t := Nodes(), Tree();
    assert Find(a, Root) == Some(0) && Find(a, "TestGroup") == Some(1);
    assert AttachChildren(a, 1) == Ok(a);
    var t2 := a[0 := t[0]];
    assert a[0].node.members + [Sub("TestGroup")] == t[0].node.members;
    assert AttachChild(a, a[1]) == Ok(t2);
    assert AttachChildren(a, 2) == Ok(t2);
    assert Find(t2, "TestGroup") == Some(1);
    assert t2[1].node.members + [Sub("OtherTestGroup")] == t[1].node.members;
    assert AttachChild(t2, a[2]) == Ok(t2[1 := t[1]]);
    assert AttachChildren(a, |a|) == Ok(t2[1 := t[1]]);
    assert t2[1 := t[1]] == t;
  }

  /** The fixture parses into the expected tree: the root holds the root
      condition then `TestGroup`, which holds its two conditions then
      `OtherTestGroup`. */
  lemma {:induction false} FixtureParses()
    ensures Parse(ValidFilterDict()) == Ok(Tree())
  {
    FixtureGroupsConditions();
    FixtureNodes();
    FixtureTree();
  }

  // ---------------------------------------------------------------------
  // Rendering
  // ---------------------------------------------------------------------

  lemma {:induction false} LeavesRender()
    ensures RenderCondition(L1.condition) == "TestField = 42"
    ensures RenderCondition(L2.condition) == "DifferentTestField = 23"
    ensures RenderCondition(L3.condition) == "OtherTestField = foo"
    ensures RenderCondition(L4.condition) == "YetAnotherTestField = bar"
  {
  }

  /** Renders one member ahead of already rendered ones. */
  lemma {:induction false} RenderMembersCons(a: Arena, ms: seq<Member>, fuel: nat, h: string, rest: seq<string>)
    requires ms != []
    requires ms[0].Leaf? ==> RenderCondition(ms[0].condition) == h
    requires ms[0].Sub? ==>
      (0 < fuel && Find(a, ms[0].group).Some?
       && RenderGroup(a, a[Find(a, ms[0].group).value].node, fuel - 1) == Some(h))
    requires RenderMembers(a, ms[1..], fuel) == Some(rest)
    ensures RenderMembers(a, ms, fuel) == Some([h] + rest)
  {
  }

  lemma {:induction false} OtherTestGroupRenders()
    ensures RenderGroup(Tree(), Tree()[2].node, 1) == Some("(" + "OtherTestField = foo" + ")")
  {
    var t := Tree();
    var ms := t[2].node.members;
    LeavesRender();
    assert ms[1..] == [];
    RenderMembersCons(t, ms, 1, "OtherTestField = foo", []);
    assert ["OtherTestField = foo"] + [] == ["OtherTestField = foo"];
  }

  lemma {:induction false} TestGroupMembersRender()
    ensures RenderMembers(Tree(), Tree()[1].node.members, 2) ==
      Some(["TestField = 42", "DifferentTestField = 23", "(" + "OtherTestField = foo" + ")"])
  {
    var t := Tree();
    var ms := t[1].node.members;
    var other := "(" + "OtherTestField = foo" + ")";
    LeavesRender();
    OtherTestGroupRenders();
    assert Find(t, "OtherTestGroup") == Some(2);
    assert ms[1..][1..][1..] == [];
    RenderMembersCons(t, ms[1..][1..], 2, other, []);
    assert [other] + [] == [other];
    RenderMembersCons(t, ms[1..], 2, "DifferentTestField = 23", [other]);
    assert ["DifferentTestField = 23"] + [other] == ["DifferentTestField = 23", other];
    RenderMembersCons(t, ms, 2, "TestField = 42", ["DifferentTestField = 23", other]);
    assert ["TestField = 42"] + ["DifferentTestField = 23", other] == ["TestField = 42", "DifferentTestField = 23", other];
  }

  lemma {:induction false} TestGroupRenders()
    ensures RenderGroup(Tree(), Tree()[1].node, 2) ==
      Some("(" + ("TestField = 42" + " OR " + ("DifferentTestField = 23" + " OR " + ("(" + "OtherTestField = foo" + ")"))) + ")")
  {
    TestGroupMembersRender();
    var parts := ["TestField = 42", "DifferentTestField = 23", "(" + "OtherTestField = foo" + ")"];
    assert parts[1..][1..] == [parts[2]];
    assert " " + "OR" + " " == " OR ";
    assert Join(" OR ", parts[1..]) == parts[1] + " OR " + parts[2];
    assert Join(" OR ", parts) == parts[0] + " OR " + (parts[1] + " OR " + parts[2]);
  }

  /** The root's rendering, before the pieces are spelled out. */
  lemma {:induction false} RootRenders()
    ensures RenderTree(Tree()) ==
      Some("(" + ("YetAnotherTestField = bar" + " AND " +
        ("(" + ("TestField = 42" + " OR " + ("DifferentTestField = 23" + " OR " + ("(" + "OtherTestField = foo" + ")"))) + ")")) + ")")
  {
    var t := Tree();
    var ms := t[0].node.members;
    var inner := "(" + ("TestField = 42" + " OR " + ("DifferentTestField = 23" + " OR " + ("(" + "OtherTestField = foo" + ")"))) + ")";
    LeavesRender();
    TestGroupRenders();
    RenderGroupFuel(t, t[1].node, 2, 2);
    assert Find(t, "TestGroup") == Some(1);
    assert ms[1..][1..] == [];
    RenderMembersCons(t, ms[1..], 3, inner, []);
    assert [inner] + [] == [inner];
    RenderMembersCons(t, ms, 3, "YetAnotherTestField = bar", [inner]);
    assert ["YetAnotherTestField = bar"] + [inner] == ["YetAnotherTestField = bar", inner];
    var parts := ["YetAnotherTestField = bar", inner];
    assert parts[1..] == [inner];
    assert " " + "AND" + " " == " AND ";
    assert Join(" AND ", parts) == parts[0] + " AND " + inner;
    assert RenderGroup(t, t[0].node, 3) == Some("(" + (parts[0] + " AND " + inner) + ")");
  }

  /** Nested concatenation equals the flat left-to-right one. */
  lemma {:induction false} Flatten(a: string, b: string, c: string, d: string)
    ensures "(" + (a + " AND " + ("(" + (b + " OR " + (c + " OR " + ("(" + d + ")"))) + ")")) + ")" ==
      "(" + a + " AND " + "(" + b + " OR " + c + " OR " + "(" + d + ")" + ")" + ")"
  {
  }

  lemma {:induction false} Spelled1()
    ensures "(" + "YetAnotherTestField = bar" ==
      "(YetAnotherTestField = bar"
  {
  }

  lemma {:induction false} Spelled2()
    ensures "(YetAnotherTestField = bar" + " AND " ==
      "(YetAnotherTestField = bar AND "
  {
  }

  lemma {:induction false} Spelled3()
    ensures "(YetAnotherTestField = bar AND " + "(" ==
      "(YetAnotherTestField = bar AND ("
  {
  }

  lemma {:induction false} Spelled4()
    ensures "(YetAnotherTestField = bar AND (" + "TestField = 42" ==
      "(YetAnotherTestField = bar AND (TestField = 42"
  {
  }

  lemma {:induction false} Spelled5()
    ensures "(YetAnotherTestField = bar AND (TestField = 42" + " OR " ==
      "(YetAnotherTestField = bar AND (TestField = 42 OR "
  {
  }

  lemma {:induction false} Spelled6()
    ensures "(YetAnotherTestField = bar AND (TestField = 42 OR " + "DifferentTestField = 23" ==
      "(YetAnotherTestField = bar AND (TestField = 42 OR DifferentTestField = 23"
  {
  }

  lemma {:induction false} Spelled7()
    ensures "(YetAnotherTestField = bar AND (TestField = 42 OR DifferentTestField = 23" + " OR " ==
      "(YetAnotherTestField = bar AND (TestField = 42 OR DifferentTestField = 23 OR "
  {
  }

  lemma {:induction false} Spelled8()
    ensures "(YetAnotherTestField = bar AND (TestField = 42 OR DifferentTestField = 23 OR " + "(" ==
      "(YetAnotherTestField = bar AND (TestField = 42 OR DifferentTestField = 23 OR ("
  {
  }

  lemma {:induction false} Spelled9()
    ensures "(YetAnotherTestField = bar AND (TestField = 42 OR DifferentTestField = 23 OR (" + "OtherTestField = foo" ==
      "(YetAnotherTestField = bar AND (TestField = 42 OR DifferentTestField = 23 OR (OtherTestField = foo"
  {
  }

  lemma {:induction false} Spelled10()
    ensures "(YetAnotherTestField = bar AND (TestField = 42 OR DifferentTestField = 23 OR (OtherTestField = foo" + ")" ==
      "(YetAnotherTestField = bar AND (TestField = 42 OR DifferentTestField = 23 OR (OtherTestField = foo)"
  {
  }

  lemma {:induction false} Spelled11()
    ensures "(YetAnotherTestField = bar AND (TestField = 42 OR DifferentTestField = 23 OR (OtherTestField = foo)" + ")" ==
      "(YetAnotherTestField = bar AND (TestField = 42 OR DifferentTestField = 23 OR (OtherTestField = foo))"
  {
  }

  lemma {:induction false} Spelled12()
    ensures "(YetAnotherTestField = bar AND (TestField = 42 OR DifferentTestField = 23 OR (OtherTestField = foo))" + ")" ==
      "(YetAnotherTestField = bar AND (TestField = 42 OR DifferentTestField = 23 OR (OtherTestField = foo)))"
  {
  }

  lemma {:induction false} Spelled()
    ensures "(" + "YetAnotherTestField = bar" + " AND " + "(" + "TestField = 42" + " OR " + "DifferentTestField = 23" + " OR " + "(" + "OtherTestField = foo" + ")" + ")" + ")" ==
      "(YetAnotherTestField = bar AND (TestField = 42 OR DifferentTestField = 23 OR (OtherTestField = foo)))"
  {
    Spelled1();
    Spelled2();
    Spelled3();
    Spelled4();
    Spelled5();
    Spelled6();
    Spelled7();
    Spelled8();
    Spelled9();
    Spelled10();
    Spelled11();
    Spelled12();
  }

  /** With the suite's renderers, the parsed fixture renders to exactly the
      string the suite expects. */
  lemma {:induction false} FixtureRenders()
    ensures var r := Parse(ValidFilterDict());
      && r.Ok?
      && RenderTree(r.value) ==
           Some("(YetAnotherTestField = bar AND (TestField = 42 OR DifferentTestField = 23 OR (OtherTestField = foo)))")
  {
    FixtureParses();
    RootRenders();
    Flatten("YetAnotherTestField = bar", "TestField = 42", "DifferentTestField = 23", "OtherTestField = foo");
    Spelled();
  }

  // ---------------------------------------------------------------------
  // The suite's error cases
  // ---------------------------------------------------------------------

  /** A group whose `memberOf` names the root. */
  function RootAsParentDict(): FilterDict {
    [("TestGroup", Entry(Some(GroupBody(Some("AND"), Some(Root))), None))]
  }

  /** A condition aimed at the root, followed by an entry called `@root`
      (a condition body holding only a conjunction). */
  function RootAsNameDict(): FilterDict {
    [("TestCondition", Entry(None, Some(Payload(Some("TestField"), None, Some("42"), Some(Root))))),
     (Root, Entry(None, Some(Payload(None, None, None, None))))]
  }

  /** An entry with neither a group nor a condition body. */
  function ThingyDict(): FilterDict {
    [("TestThingy", Entry(None, None))]
  }

  lemma {:induction false} RootAsParentRejected()
    ensures Parse(RootAsParentDict()) == Err(RootKeyUsed(AsMemberOf))
  {
  }

  /** The entry name is checked before any entry is looked at: the loop
      alone would already fail on the first entry, but parsing reports the
      misused name. */
  lemma {:induction false} RootAsNameRejected()
    ensures LinkEntries(RootAsNameDict()).Err?
    ensures Parse(RootAsNameDict()) == Err(RootKeyUsed(AsEntryName))
  {
  }

  lemma {:induction false} ThingyRejected()
    ensures Parse(ThingyDict()) == Err(NoGroupOrCondition("TestThingy"))
  {
  }

  // ---------------------------------------------------------------------
  // Cycles
  // ---------------------------------------------------------------------

  /** Two groups whose first members are each other: neither renders, with
      any amount of fuel. */
  lemma {:induction false} MutualGroupsNeverRender(a: Arena, i: nat, j: nat, fuel: nat)
    requires i < |a| && j < |a|
    requires a[i].node.members != [] && a[i].node.members[0] == Sub(a[j].name) && Find(a, a[j].name) == Some(j)
    requires a[j].node.members != [] && a[j].node.members[0] == Sub(a[i].name) && Find(a, a[i].name) == Some(i)
    ensures RenderGroup(a, a[i].node, fuel).None? && RenderGroup(a, a[j].node, fuel).None?
  {
    if fuel > 0 {
      MutualGroupsNeverRender(a, i, j, fuel - 1);
    }
  }

  /** The tree of two groups that are each other's parent, which the parse
      accepts: rendered from the root it is `()`, for neither group hangs
      below the root, so both drop out with their conditions. */
  lemma {:induction false} CycleRendersEmpty()
    ensures var r := Parse(ParseProperties.CycleDict());
      r.Ok? && RenderTree(r.value) == Some("()")
  {
    ParseProperties.CyclesAreNotRejected();
    var t := ParseProperties.CycleTreeSlots();
    assert RenderMembers(t, t[0].node.members, |t|) == Some([]);
    assert RenderTree(t) == Some("(" + Join(" AND ", []) + ")");
    assert "(" + "" + ")" == "()";
  }

  /** In the same tree, either group rendered on its own never finishes:
      it renders with no amount of fuel, the counterpart of a renderer
      that recurses without end. */
  lemma {:induction false} CycleNeverRenders(fuel: nat)
    ensures var t := ParseProperties.CycleTreeSlots();
      RenderGroup(t, t[1].node, fuel).None? && RenderGroup(t, t[2].node, fuel).None?
  {
    var t := ParseProperties.CycleTreeSlots();
    assert Find(t, "A") == Some(1) && Find(t, "B") == Some(2);
    MutualGroupsNeverRender(t, 1, 2, fuel);
  }
}
