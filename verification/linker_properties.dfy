/** What the linker guarantees: when it fails and why, and, when it
    succeeds, exactly which buckets it creates and what they hold. */
module LinkerProperties {
  import opened Wrappers
  import opened FilterErrors
  import opened FilterTree
  import opened Buckets
  import opened Linker

  /** A single entry fails exactly when it is not accepted, with the error
      its shape calls for; an accepted entry writes only the bucket it
      touches, or nothing. */
  lemma {:induction false} LinkEntryOutcome(m: Mapping, name: string, e: Entry)
    ensures LinkEntry(m, name, e).Ok? <==> Accepted(e)
    ensures LinkEntry(m, name, e).Err? ==> LinkEntry(m, name, e).error == Rejection((name, e))
    ensures Accepted(e) && KeptGroup(e) ==>
      LinkEntry(m, name, e).value == DeclareGroup(m, name, e.group.value.conjunction.value, ParentOf(e.group.value.memberOf))
    ensures Accepted(e) && KeptCondition(e) ==>
      LinkEntry(m, name, e).value == CollectCondition(m, ParentOf(e.condition.value.memberOf), e.condition.value)
    ensures Accepted(e) && !KeptGroup(e) && !KeptCondition(e) ==> LinkEntry(m, name, e).value == m
  {
  }

  /** The loop succeeds exactly when every entry is accepted; otherwise it
      reports the first entry that is not. */
  lemma {:induction false} LinkEntriesOutcome(d: FilterDict)
    ensures LinkEntries(d).Ok? <==> forall i :: 0 <= i < |d| ==> Accepted(d[i].1)
    ensures LinkEntries(d).Err? ==>
      exists i :: 0 <= i < |d| && !Accepted(d[i].1)
        && (forall j :: 0 <= j < i ==> Accepted(d[j].1))
        && LinkEntries(d).error == Rejection(d[i])
  {
    if d != [] {
      var p, last := d[..|d| - 1], d[|d| - 1];
      LinkEntriesOutcome(p);
      assert forall i :: 0 <= i < |p| ==> p[i] == d[i];
      match LinkEntries(p)
      case Err(err) =>
        assert LinkEntries(d) == Err(err);
        var i :| 0 <= i < |p| && !Accepted(p[i].1)
          && (forall j :: 0 <= j < i ==> Accepted(p[j].1)) && err == Rejection(p[i]);
        assert !Accepted(d[i].1);
      case Ok(m) =>
        assert LinkEntries(d) == LinkEntry(m, last.0, last.1);
        LinkEntryOutcome(m, last.0, last.1);
        if !Accepted(last.1) {
          assert forall j :: 0 <= j < |d| - 1 ==> Accepted(d[j].1);
        }
    }
  }

  /** `_group_conditions` fails with RootKeyUsedError as soon as `@root` is an
      entry name, whatever the entries hold; otherwise it fails exactly at the
      first entry that is not accepted, with that entry's error. */
  lemma {:induction false} LinkOutcome(d: FilterDict)
    ensures Root in Names(d) ==> Link(d) == Err(RootKeyUsed(AsEntryName))
    ensures Link(d).Ok? <==> Root !in Names(d) && forall i :: 0 <= i < |d| ==> Accepted(d[i].1)
    ensures Root !in Names(d) && Link(d).Err? ==>
      exists i :: 0 <= i < |d| && !Accepted(d[i].1)
        && (forall j :: 0 <= j < i ==> Accepted(d[j].1))
        && Link(d).error == Rejection(d[i])
  {
    LinkEntriesOutcome(d);
  }

  /** One more entry moves the first reference of a name only if the name
      was not referenced before. */
  lemma {:induction false} FirstRefSnoc(p: FilterDict, e: (string, Entry), k: string)
    ensures FirstRef(p + [e], k) ==
      if FirstRef(p, k) < |p| then FirstRef(p, k) else if Touches(e, k) then |p| else |p| + 1
  {
    assert (p + [e])[..|p|] == p;
  }

  /** Keys past the first are not the root. */
  lemma {:induction false} LaterKeysNotRoot(p: FilterDict, m: Mapping, i: nat)
    requires KeysInReferenceOrder(p, m) && 1 <= i < |m|
    ensures m[i].0 != Root && FirstRef(p, m[i].0) < |p|
  {
    assert Keys(m)[0] != Keys(m)[i];
    assert m[i].0 in Keys(m) by { assert Keys(m)[i] == m[i].0; }
  }

  /** Rewriting the bucket of a name already present keeps the keys in
      reference order. */
  lemma {:induction false} RewriteKeepsOrder(p: FilterDict, e: (string, Entry), m: Mapping, k: string, b: Bucket)
    requires KeysInReferenceOrder(p, m)
    requires Target(e) == Some(k) && k in Keys(m)
    ensures KeysInReferenceOrder(p + [e], Put(m, k, b))
  {
    var d, m' := p + [e], Put(m, k, b);
    PutFacts(m, k, b);
    assert Keys(m') == Keys(m);
    forall k'
      ensures k' in Keys(m') <==> k' == Root || FirstRef(d, k') < |d|
    {
      FirstRefSnoc(p, e, k');
    }
    forall i | 0 <= i < |m|
      ensures m'[i].0 == m[i].0
    {
      assert Keys(m')[i] == Keys(m)[i];
    }
    forall i | 1 <= i < |m|
      ensures FirstRef(d, m[i].0) == FirstRef(p, m[i].0)
    {
      LaterKeysNotRoot(p, m, i);
      FirstRefSnoc(p, e, m[i].0);
    }
  }

  /** Writing the bucket of a new name appends it, which keeps the keys in
      reference order: the name is first referenced by the new entry. */
  lemma {:induction false} AppendKeepsOrder(p: FilterDict, e: (string, Entry), m: Mapping, k: string, b: Bucket)
    requires KeysInReferenceOrder(p, m)
    requires Target(e) == Some(k) && k !in Keys(m)
    ensures KeysInReferenceOrder(p + [e], Put(m, k, b))
  {
    var d, m' := p + [e], Put(m, k, b);
    PutKeys(m, k, b);
    PutDistinct(m, k, b);
    assert Keys(m') == Keys(m) + [k];
    forall k'
      ensures k' in Keys(m') <==> k' == Root || FirstRef(d, k') < |d|
    {
      FirstRefSnoc(p, e, k');
      assert k' in Keys(m') <==> k' in Keys(m) || k' == k;
    }
    forall i | 0 <= i < |m|
      ensures m'[i].0 == m[i].0
    {
      assert Keys(m')[i] == Keys(m)[i];
    }
    assert m'[|m|].0 == k by { assert Keys(m')[|m|] == k; }
    assert FirstRef(p, k) == |p| by {
      assert k != Root by { assert Keys(m)[0] == Root; }
    }
    FirstRefSnoc(p, e, k);
    forall i | 1 <= i < |m|
      ensures FirstRef(d, m[i].0) == FirstRef(p, m[i].0) < |p|
    {
      LaterKeysNotRoot(p, m, i);
      FirstRefSnoc(p, e, m[i].0);
    }
    forall i, j | 1 <= i < j < |m'|
      ensures FirstRef(d, m'[i].0) < FirstRef(d, m'[j].0)
    {
      if j == |m| {
        assert FirstRef(d, m'[j].0) == |p|;
      }
    }
  }

  /** Writing the bucket an entry targets keeps the keys in reference
      order. */
  lemma {:induction false} WriteKeepsOrder(p: FilterDict, e: (string, Entry), m: Mapping, k: string, b: Bucket)
    requires KeysInReferenceOrder(p, m)
    requires Target(e) == Some(k)
    ensures KeysInReferenceOrder(p + [e], Put(m, k, b))
  {
    if k in Keys(m) {
      RewriteKeepsOrder(p, e, m, k, b);
    } else {
      AppendKeepsOrder(p, e, m, k, b);
    }
  }

  /** An entry that writes nothing keeps the keys in reference order. */
  lemma {:induction false} SkipKeepsOrder(p: FilterDict, e: (string, Entry), m: Mapping)
    requires KeysInReferenceOrder(p, m)
    requires Target(e) == None
    ensures KeysInReferenceOrder(p + [e], m)
  {
    forall k' {
      FirstRefSnoc(p, e, k');
    }
  }

  /** The reference definitions grow by the one entry appended. */
  lemma {:induction false} ReferenceSnoc(p: FilterDict, e: (string, Entry), k: string)
    ensures ConditionsFor(p + [e], k) == ConditionsFor(p, k)
      + (if KeptCondition(e.1) && ParentOf(e.1.condition.value.memberOf) == k then [e.1.condition.value] else [])
    ensures DeclarationOf(p + [e], k) == if KeptGroup(e.1) && e.0 == k then e.1.group else DeclarationOf(p, k)
    ensures KeptConditionCount(p + [e]) == KeptConditionCount(p) + if KeptCondition(e.1) then 1 else 0
  {
    assert (p + [e])[..|p|] == p;
  }

  /** Linking one accepted entry keeps every bucket equal to what the
      reference definitions say about the longer input. */
  lemma {:induction false} LinkEntryCollects(p: FilterDict, e: (string, Entry), m: Mapping)
    requires BucketsCollect(p, m) && ConditionCount(m) == KeptConditionCount(p)
    requires Accepted(e.1)
    ensures BucketsCollect(p + [e], LinkEntry(m, e.0, e.1).value)
    ensures ConditionCount(LinkEntry(m, e.0, e.1).value) == KeptConditionCount(p + [e])
  {
    LinkEntryOutcome(m, e.0, e.1);
    if KeptGroup(e.1) {
      GroupCollects(p, e, m);
    } else if KeptCondition(e.1) {
      ConditionCollects(p, e, m);
    } else {
      forall k {
        ReferenceSnoc(p, e, k);
      }
    }
  }

  /** A kept group records its declaration in its own bucket. */
  lemma {:induction false} GroupCollects(p: FilterDict, e: (string, Entry), m: Mapping)
    requires BucketsCollect(p, m) && ConditionCount(m) == KeptConditionCount(p)
    requires KeptGroup(e.1)
    ensures var g := e.1.group.value;
      var m' := DeclareGroup(m, e.0, g.conjunction.value, ParentOf(g.memberOf));
      BucketsCollect(p + [e], m') && ConditionCount(m') == KeptConditionCount(p + [e])
  {
    var g := e.1.group.value;
    var b := Get(m, e.0).(conjunction := Some(g.conjunction.value), memberOf := Some(ParentOf(g.memberOf)));
    var m' := Put(m, e.0, b);
    forall k
      ensures Get(m', k).conditions == ConditionsFor(p + [e], k)
      ensures Get(m', k).conjunction == DeclaredConjunction(p + [e], k)
      ensures Get(m', k).memberOf == DeclaredParent(p + [e], k)
    {
      ReferenceSnoc(p, e, k);
      if k == e.0 {
        PutGetSame(m, e.0, b);
      } else {
        PutGetOther(m, e.0, b, k);
      }
    }
    PutConditionCount(m, e.0, b);
    ReferenceSnoc(p, e, e.0);
  }

  /** A kept condition is appended to its parent's bucket. */
  lemma {:induction false} ConditionCollects(p: FilterDict, e: (string, Entry), m: Mapping)
    requires BucketsCollect(p, m) && ConditionCount(m) == KeptConditionCount(p)
    requires KeptCondition(e.1)
    ensures var c := e.1.condition.value;
      var m' := CollectCondition(m, ParentOf(c.memberOf), c);
      BucketsCollect(p + [e], m') && ConditionCount(m') == KeptConditionCount(p + [e])
  {
    var c := e.1.condition.value;
    var t := ParentOf(c.memberOf);
    var b := Get(m, t).(conditions := Get(m, t).conditions + [c]);
    var m' := Put(m, t, b);
    forall k
      ensures Get(m', k).conditions == ConditionsFor(p + [e], k)
      ensures Get(m', k).conjunction == DeclaredConjunction(p + [e], k)
      ensures Get(m', k).memberOf == DeclaredParent(p + [e], k)
    {
      ReferenceSnoc(p, e, k);
      if k == t {
        PutGetSame(m, t, b);
      } else {
        PutGetOther(m, t, b, k);
      }
    }
    PutConditionCount(m, t, b);
    ReferenceSnoc(p, e, t);
  }

  /** Linking one accepted entry keeps the keys in reference order. */
  lemma {:induction false} LinkEntryKeepsOrder(p: FilterDict, e: (string, Entry), m: Mapping)
    requires KeysInReferenceOrder(p, m)
    requires Accepted(e.1)
    ensures KeysInReferenceOrder(p + [e], LinkEntry(m, e.0, e.1).value)
  {
    LinkEntryOutcome(m, e.0, e.1);
    if KeptGroup(e.1) {
      var g := e.1.group.value;
      var b := Get(m, e.0).(conjunction := Some(g.conjunction.value), memberOf := Some(ParentOf(g.memberOf)));
      WriteKeepsOrder(p, e, m, e.0, b);
    } else if KeptCondition(e.1) {
      var c := e.1.condition.value;
      var t := ParentOf(c.memberOf);
      WriteKeepsOrder(p, e, m, t, Get(m, t).(conditions := Get(m, t).conditions + [c]));
    } else {
      SkipKeepsOrder(p, e, m);
    }
  }

  /** After a successful run of the loop the mapping holds the root and every
      touched name, once each, in order of first reference; each bucket holds
      exactly the kept conditions aimed at it, in input order, and the
      declaration of its group; so every kept condition is stored exactly
      once. */
  lemma {:induction false} LinkEntriesCollects(d: FilterDict)
    requires LinkEntries(d).Ok?
    ensures KeysInReferenceOrder(d, LinkEntries(d).value)
    ensures BucketsCollect(d, LinkEntries(d).value)
    ensures ConditionCount(LinkEntries(d).value) == KeptConditionCount(d)
  {
    if d == [] {
      var m := InitialMapping();
      assert Keys(m) == [Root];
      assert m[1..] == [];
      assert forall k :: Get(m, k) == EmptyBucket;
    } else {
      var p, e := d[..|d| - 1], d[|d| - 1];
      assert d == p + [e];
      assert LinkEntries(p).Ok?;
      LinkEntriesCollects(p);
      var m := LinkEntries(p).value;
      assert LinkEntries(d) == LinkEntry(m, e.0, e.1);
      LinkEntryOutcome(m, e.0, e.1);
      LinkEntryCollects(p, e, m);
      LinkEntryKeepsOrder(p, e, m);
    }
  }

  /** `FirstRef` is what its name says: the least index of an entry that
      touches the name, `|d|` exactly when no entry does. */
  lemma {:induction false} FirstRefIsFirst(d: FilterDict, k: string)
    ensures FirstRef(d, k) < |d| ==> Touches(d[FirstRef(d, k)], k)
    ensures forall j :: 0 <= j < FirstRef(d, k) ==> !Touches(d[j], k)
  {
    if d != [] {
      var p, e := d[..|d| - 1], d[|d| - 1];
      assert d == p + [e];
      FirstRefIsFirst(p, k);
      FirstRefSnoc(p, e, k);
    }
  }

  /** Linking, when it succeeds: the mapping starts with the root, and its
      other keys are exactly the names kept groups declare and kept
      conditions aim at, each once, in order of first reference; each bucket
      holds exactly the kept conditions aimed at it, in input order, and the
      raw conjunction and resolved parent of the group of that name; the
      buckets hold as many conditions as were kept. */
  lemma {:induction false} LinkPartition(d: FilterDict)
    requires Link(d).Ok?
    ensures KeysInReferenceOrder(d, Link(d).value)
    ensures BucketsCollect(d, Link(d).value)
    ensures ConditionCount(Link(d).value) == KeptConditionCount(d)
  {
    LinkEntriesCollects(d);
  }

  /** The entries with the condition body of every group entry removed. */
  function DropShadowedConditions(d: FilterDict): (r: FilterDict)
    ensures |r| == |d|
  {
    seq(|d|, i requires 0 <= i < |d| =>
      (d[i].0, if d[i].1.group.Some? then Entry(d[i].1.group, None) else d[i].1))
  }

  /** Two inputs that differ only in the names of condition entries, none
      of them renamed from or to the root key. */
  predicate SameButConditionNames(d1: FilterDict, d2: FilterDict) {
    && |d1| == |d2|
    && forall i :: 0 <= i < |d1| ==>
         && d1[i].1 == d2[i].1
         && (|| d1[i].0 == d2[i].0
             || (d1[i].1.group.None? && d1[i].1.condition.Some? && d1[i].0 != Root && d2[i].0 != Root))
  }

  /** An entry holding both bodies is a group: its condition body is never
      looked at. */
  lemma {:induction false} GroupShadowsCondition(d: FilterDict)
    ensures Link(DropShadowedConditions(d)) == Link(d)
  {
    assert Names(DropShadowedConditions(d)) == Names(d);
    EntriesShadowCondition(d);
  }

  lemma {:induction false} EntriesShadowCondition(d: FilterDict)
    ensures LinkEntries(DropShadowedConditions(d)) == LinkEntries(d)
  {
    if d != [] {
      var p := d[..|d| - 1];
      assert DropShadowedConditions(d)[..|d| - 1] == DropShadowedConditions(p);
      EntriesShadowCondition(p);
    }
  }

  /** The linker discards the names of condition entries: renaming them
      leaves its result unchanged. */
  lemma {:induction false} ConditionNamesDiscarded(d1: FilterDict, d2: FilterDict)
    requires SameButConditionNames(d1, d2)
    ensures Link(d1) == Link(d2)
  {
    assert Root in Names(d1) <==> Root in Names(d2) by {
      if Root in Names(d1) {
        var i :| 0 <= i < |d1| && d1[i].0 == Root;
        assert d2[i].0 == Root;
      }
      if Root in Names(d2) {
        var i :| 0 <= i < |d2| && d2[i].0 == Root;
        assert d1[i].0 == Root;
      }
    }
    EntriesDiscardConditionNames(d1, d2);
  }

  lemma {:induction false} EntriesDiscardConditionNames(d1: FilterDict, d2: FilterDict)
    requires SameButConditionNames(d1, d2)
    ensures LinkEntries(d1) == LinkEntries(d2)
  {
    if d1 != [] {
      var n := |d1| - 1;
      assert SameButConditionNames(d1[..n], d2[..n]);
      EntriesDiscardConditionNames(d1[..n], d2[..n]);
    }
  }

  /** The leniency is asymmetric: an empty group is dropped without its
      `memberOf` being looked at, while an empty condition still has its
      `memberOf` resolved, so naming the root there is an error. */
  lemma {:induction false} LeniencyIsAsymmetric(d: FilterDict, name: string, conjunction: Option<string>, c: Payload)
    requires !Filled(conjunction) && name !in Names(d) && name != Root
    requires c.memberOf == Some(Root)
    ensures Link(d + [(name, Entry(Some(GroupBody(conjunction, Some(Root))), None))]) == Link(d)
    ensures Link(d + [(name, Entry(None, Some(c)))]).Err?
  {
    assert (d + [(name, Entry(None, Some(c)))])[..|d|] == d;
    var g := (name, Entry(Some(GroupBody(conjunction, Some(Root))), None));
    assert (d + [g])[..|d|] == d;
    assert Names(d + [g]) == Names(d) + [name];
  }
}
