/** What node creation and linking guarantee. */
module TreeBuilderProperties {
  import opened Wrappers
  import opened FilterErrors
  import opened FilterTree
  import opened Buckets
  import opened Linker
  import opened TreeBuilder

  /** A bucket node creation accepts: a non-root bucket carries an accepted
      conjunction, and each of its payloads has a path and a value. */
  predicate BucketReady(name: string, b: Bucket) {
    && (name == Root || (b.conjunction.Some? && AcceptedConjunction(b.conjunction.value)))
    && forall p :: p in b.conditions ==> p.path.Some? && p.value.Some?
  }

  /** `g` is the node made from bucket `b`: the root's is AND, any other's is
      what the group constructor makes of the bucket's conjunction; the
      members are the bucket's conditions as condition nodes, in order. */
  ghost predicate Materialises(name: string, b: Bucket, g: Group) {
    && (name == Root ==> g.conjunction == "AND")
    && (name != Root ==> b.conjunction.Some? && NewGroup(b.conjunction.value) == Ok(Group(g.conjunction, [])))
    && |g.members| == |b.conditions|
    && forall j :: 0 <= j < |b.conditions| ==>
         g.members[j].Leaf? && NewCondition(b.conditions[j]) == Ok(g.members[j].condition)
  }

  lemma {:induction false} MaterialiseBucketOutcome(name: string, b: Bucket)
    ensures MaterialiseBucket(name, b).Ok? <==> BucketReady(name, b)
    ensures MaterialiseBucket(name, b).Ok? ==> Materialises(name, b, MaterialiseBucket(name, b).value)
  {
    NewConditionsOutcome(b.conditions);
    if NewConditions(b.conditions).Ok? {
      assert forall p :: p in b.conditions ==> NewCondition(p).Ok?;
    } else {
      var j :| 0 <= j < |b.conditions| && NewCondition(b.conditions[j]).Err?;
      assert b.conditions[j] in b.conditions;
    }
  }

  /** Node creation succeeds exactly when every bucket is ready, and
      otherwise fails with the error of the first bucket that is not. */
  lemma {:induction false} MaterialiseOutcome(m: Mapping)
    ensures Materialise(m).Ok? <==> forall i :: 0 <= i < |m| ==> BucketReady(m[i].0, m[i].1)
    ensures Materialise(m).Err? ==>
      exists i :: 0 <= i < |m| && !BucketReady(m[i].0, m[i].1)
        && (forall j :: 0 <= j < i ==> BucketReady(m[j].0, m[j].1))
        && MaterialiseBucket(m[i].0, m[i].1) == Err(Materialise(m).error)
  {
    MaterialiseSucceeds(m);
    MaterialiseFirstError(m);
  }

  lemma {:induction false} MaterialiseSucceeds(m: Mapping)
    ensures Materialise(m).Ok? <==> AllReady(m)
  {
    if m != [] {
      var p, last := m[..|m| - 1], m[|m| - 1];
      MaterialiseSucceeds(p);
      MaterialiseBucketReady(last.0, last.1);
      AllReadySnoc(m);
    }
  }

  /** Every bucket of `m` is ready. */
  ghost predicate AllReady(m: Mapping) {
    forall i :: 0 <= i < |m| ==> BucketReady(m[i].0, m[i].1)
  }

  lemma {:induction false} AllReadySnoc(m: Mapping)
    requires m != []
    ensures AllReady(m) <==> AllReady(m[..|m| - 1]) && BucketReady(m[|m| - 1].0, m[|m| - 1].1)
  {
    var p := m[..|m| - 1];
    assert forall i :: 0 <= i < |p| ==> p[i] == m[i];
  }

  lemma {:induction false} MaterialiseBucketReady(name: string, b: Bucket)
    ensures MaterialiseBucket(name, b).Ok? <==> BucketReady(name, b)
  {
    MaterialiseBucketOutcome(name, b);
  }

  lemma {:induction false} MaterialiseFirstError(m: Mapping)
    ensures Materialise(m).Err? ==>
      exists i :: 0 <= i < |m| && !BucketReady(m[i].0, m[i].1)
        && (forall j :: 0 <= j < i ==> BucketReady(m[j].0, m[j].1))
        && MaterialiseBucket(m[i].0, m[i].1) == Err(Materialise(m).error)
  {
    if m != [] && Materialise(m).Err? {
      var p, last := m[..|m| - 1], m[|m| - 1];
      assert forall i :: 0 <= i < |p| ==> p[i] == m[i];
      if Materialise(p).Err? {
        MaterialiseFirstError(p);
        var i :| 0 <= i < |p| && !BucketReady(p[i].0, p[i].1)
          && (forall j :: 0 <= j < i ==> BucketReady(p[j].0, p[j].1))
          && MaterialiseBucket(p[i].0, p[i].1) == Err(Materialise(p).error);
        assert Materialise(m) == Materialise(p);
        assert !BucketReady(m[i].0, m[i].1);
      } else {
        MaterialiseSucceeds(p);
        MaterialiseBucketOutcome(last.0, last.1);
        assert Materialise(m) == Err(MaterialiseBucket(last.0, last.1).error);
        assert forall j :: 0 <= j < |m| - 1 ==> BucketReady(m[j].0, m[j].1);
      }
    }
  }

  /** A successful node creation yields one slot per bucket, in mapping
      order, carrying the bucket's name, its parent and the node made from
      it. */
  lemma {:induction false} MaterialiseContents(m: Mapping)
    ensures Materialise(m).Ok? ==> |Materialise(m).value| == |m|
    ensures Materialise(m).Ok? ==> forall i :: 0 <= i < |m| ==>
      var s := Materialise(m).value[i];
      s.name == m[i].0 && s.memberOf == m[i].1.memberOf && Materialises(m[i].0, m[i].1, s.node)
  {
    MaterialiseLength(m);
    forall i | 0 <= i < |m| && Materialise(m).Ok?
      ensures Materialise(m).value[i].name == m[i].0 && Materialise(m).value[i].memberOf == m[i].1.memberOf
      ensures Materialises(m[i].0, m[i].1, Materialise(m).value[i].node)
    {
      MaterialiseSlot(m, i);
    }
  }

  lemma {:induction false} MaterialiseLength(m: Mapping)
    ensures Materialise(m).Ok? ==> |Materialise(m).value| == |m|
  {
    if m != [] && Materialise(m).Ok? {
      MaterialiseLength(m[..|m| - 1]);
    }
  }

  /** Slot `i` of a successful node creation comes from bucket `i`. */
  lemma {:induction false} MaterialiseSlot(m: Mapping, i: nat)
    requires i < |m|
    ensures Materialise(m).Ok? ==>
      && |Materialise(m).value| == |m|
      && Materialise(m).value[i].name == m[i].0
      && Materialise(m).value[i].memberOf == m[i].1.memberOf
      && Materialises(m[i].0, m[i].1, Materialise(m).value[i].node)
  {
    if Materialise(m).Ok? {
      var p, last := m[..|m| - 1], m[|m| - 1];
      MaterialiseSnoc(m);
      MaterialiseLength(p);
      var node := MaterialiseBucket(last.0, last.1).value;
      if i < |p| {
        MaterialiseSlot(p, i);
        assert p[i] == m[i];
      } else {
        assert m[i] == last;
        MaterialiseBucketMakes(last.0, last.1);
      }
    }
  }

  /** A successful node creation is one over all but the last bucket,
      followed by the last bucket's slot. */
  lemma {:induction false} MaterialiseSnoc(m: Mapping)
    requires m != []
    ensures Materialise(m).Ok? ==>
      && Materialise(m[..|m| - 1]).Ok?
      && MaterialiseBucket(m[|m| - 1].0, m[|m| - 1].1).Ok?
      && Materialise(m).value == Materialise(m[..|m| - 1]).value
           + [Slot(m[|m| - 1].0, m[|m| - 1].1.memberOf, MaterialiseBucket(m[|m| - 1].0, m[|m| - 1].1).value)]
  {
  }

  lemma {:induction false} MaterialiseBucketMakes(name: string, b: Bucket)
    ensures MaterialiseBucket(name, b).Ok? ==> Materialises(name, b, MaterialiseBucket(name, b).value)
  {
    MaterialiseBucketOutcome(name, b);
  }

  /** The child groups of `g` among the slots, in slot order. */
  function ChildrenOf(a: Arena, g: string): seq<Member> {
    ChildrenAmong(a, |a|, g)
  }

  /** The child groups of `g` among the first `n` slots, in slot order. */
  function ChildrenAmong(a: Arena, n: nat, g: string): seq<Member>
    requires n <= |a|
  {
    if n == 0 then []
    else ChildrenAmong(a, n - 1, g) + (if a[n - 1].memberOf == Some(g) then [Sub(a[n - 1].name)] else [])
  }

  /** Slot `s` with `extra` appended to its node's members. */
  function Extended(s: Slot, extra: seq<Member>): Slot {
    s.(node := s.node.(members := s.node.members + extra))
  }

  /** A slot names an existing parent, or none. */
  predicate ParentExists(a: Arena, s: Slot) {
    s.memberOf.Some? ==> s.memberOf.value in SlotNames(a)
  }

  lemma {:induction false} AttachChildOutcome(t: Arena, s: Slot)
    ensures AttachChild(t, s).Ok? <==> ParentExists(t, s)
    ensures AttachChild(t, s).Err? ==> AttachChild(t, s).error == UnknownParent(s.memberOf.value)
  {
  }

  /** Linking leaves every slot's name in place. */
  lemma {:induction false} AttachChildrenKeepsNames(a: Arena, n: nat)
    requires n <= |a| && AttachChildren(a, n).Ok?
    ensures SlotNames(AttachChildren(a, n).value) == SlotNames(a)
  {
    var t := AttachChildren(a, n).value;
    assert forall i :: 0 <= i < |a| ==> SlotNames(t)[i] == SlotNames(a)[i];
  }

  /** Linking the first `n` slots succeeds exactly when each of them names
      an existing parent, and otherwise fails at the first that does not. */
  lemma {:induction false} AttachChildrenOutcome(a: Arena, n: nat)
    requires n <= |a|
    ensures AttachChildren(a, n).Ok? <==> forall i :: 0 <= i < n ==> ParentExists(a, a[i])
    ensures AttachChildren(a, n).Err? ==>
      exists i :: 0 <= i < n && !ParentExists(a, a[i]) && (forall j :: 0 <= j < i ==> ParentExists(a, a[j]))
        && AttachChildren(a, n).error == UnknownParent(a[i].memberOf.value)
  {
    AttachChildrenSucceeds(a, n);
    AttachChildrenFirstError(a, n);
  }

  /** Each of the first `n` slots names an existing parent, or none. */
  ghost predicate ParentsExist(a: Arena, n: nat)
    requires n <= |a|
  {
    forall i :: 0 <= i < n ==> ParentExists(a, a[i])
  }

  lemma {:induction false} AttachChildrenSucceeds(a: Arena, n: nat)
    requires n <= |a|
    ensures AttachChildren(a, n).Ok? <==> ParentsExist(a, n)
  {
    if n > 0 {
      AttachChildrenSucceeds(a, n - 1);
      if AttachChildren(a, n - 1).Ok? {
        var t := AttachChildren(a, n - 1).value;
        assert AttachChildren(a, n) == AttachChild(t, a[n - 1]);
        AttachChildrenKeepsNames(a, n - 1);
        AttachChildOutcome(t, a[n - 1]);
        assert ParentExists(t, a[n - 1]) == ParentExists(a, a[n - 1]);
      }
      ParentsExistSnoc(a, n);
    }
  }

  lemma {:induction false} ParentsExistSnoc(a: Arena, n: nat)
    requires 0 < n <= |a|
    ensures ParentsExist(a, n) <==> ParentsExist(a, n - 1) && ParentExists(a, a[n - 1])
  {
  }

  lemma {:induction false} AttachChildrenFirstError(a: Arena, n: nat)
    requires n <= |a|
    ensures AttachChildren(a, n).Err? ==>
      exists i :: 0 <= i < n && !ParentExists(a, a[i]) && (forall j :: 0 <= j < i ==> ParentExists(a, a[j]))
        && AttachChildren(a, n).error == UnknownParent(a[i].memberOf.value)
  {
    if n > 0 && AttachChildren(a, n).Err? {
      if AttachChildren(a, n - 1).Err? {
        AttachChildrenFirstError(a, n - 1);
        var i :| 0 <= i < n - 1 && !ParentExists(a, a[i]) && (forall j :: 0 <= j < i ==> ParentExists(a, a[j]))
          && AttachChildren(a, n - 1).error == UnknownParent(a[i].memberOf.value);
        assert AttachChildren(a, n) == AttachChildren(a, n - 1);
      } else {
        var t := AttachChildren(a, n - 1).value;
        AttachChildrenSucceeds(a, n - 1);
        assert AttachChildren(a, n) == AttachChild(t, a[n - 1]);
        AttachChildrenKeepsNames(a, n - 1);
        AttachChildOutcome(t, a[n - 1]);
        assert !ParentExists(a, a[n - 1]);
      }
    }
  }

  /** Attaching slot `n - 1` extends slot `i` exactly when `i` is its
      parent, by one reference to it. */
  lemma {:induction false} AttachChildAt(a: Arena, t: Arena, n: nat, i: nat)
    requires 0 < n <= |a| && i < |a| && Distinct(SlotNames(a))
    requires |t| == |a| && t[i] == Extended(a[i], ChildrenAmong(a, n - 1, a[i].name))
    requires forall k :: 0 <= k < |a| ==> t[k].name == a[k].name
    requires AttachChild(t, a[n - 1]).Ok?
    ensures AttachChild(t, a[n - 1]).value[i] == Extended(a[i], ChildrenAmong(a, n, a[i].name))
  {
    var s := a[n - 1];
    var before := ChildrenAmong(a, n - 1, a[i].name);
    if s.memberOf == Some(a[i].name) {
      var j := Find(t, a[i].name).value;
      assert SlotNames(a)[i] == SlotNames(a)[j];
      assert AttachChild(t, s).value[i] == Extended(t[i], [Sub(s.name)]);
      assert before + [Sub(s.name)] == ChildrenAmong(a, n, a[i].name);
    } else {
      assert AttachChild(t, s).value[i] == t[i];
      assert ChildrenAmong(a, n, a[i].name) == before + [];
    }
  }

  /** With distinct names, linking the first `n` slots appends to slot `i`'s
      members its child groups among them, in slot order, after what the
      slot already held. */
  lemma {:induction false} AttachChildrenAt(a: Arena, n: nat, i: nat)
    requires n <= |a| && i < |a| && Distinct(SlotNames(a))
    ensures AttachChildren(a, n).Ok? ==>
      AttachChildren(a, n).value[i] == Extended(a[i], ChildrenAmong(a, n, a[i].name))
  {
    if n == 0 {
      assert a[i].node.members + [] == a[i].node.members;
    } else if AttachChildren(a, n).Ok? {
      AttachChildrenAt(a, n - 1, i);
      var t := AttachChildren(a, n - 1).value;
      assert AttachChildren(a, n) == AttachChild(t, a[n - 1]);
      AttachChildAt(a, t, n, i);
    }
  }

  /** `_build_tree` succeeds exactly when every slot's parent exists, fails
      otherwise at the first slot whose parent does not, and, the names being
      distinct, appends to each node, after the members it already had, its
      child groups in slot order. */
  lemma {:induction false} BuildTreeOutcome(a: Arena)
    ensures BuildTree(a).Ok? <==> forall i :: 0 <= i < |a| ==> ParentExists(a, a[i])
    ensures BuildTree(a).Err? ==>
      exists i :: 0 <= i < |a| && !ParentExists(a, a[i]) && (forall j :: 0 <= j < i ==> ParentExists(a, a[j]))
        && BuildTree(a).error == UnknownParent(a[i].memberOf.value)
    ensures BuildTree(a).Ok? && Distinct(SlotNames(a)) ==>
      |BuildTree(a).value| == |a|
      && forall i :: 0 <= i < |a| ==> BuildTree(a).value[i] == Extended(a[i], ChildrenOf(a, a[i].name))
  {
    AttachChildrenOutcome(a, |a|);
    if BuildTree(a).Ok? && Distinct(SlotNames(a)) {
      forall i | 0 <= i < |a|
        ensures BuildTree(a).value[i] == Extended(a[i], ChildrenOf(a, a[i].name))
      {
        AttachChildrenAt(a, |a|, i);
      }
    }
  }
}
