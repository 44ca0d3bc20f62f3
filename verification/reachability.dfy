/** Which groups `evaluate()` on the root node visits.  A group is reached
    when a chain of child-group members leads to it from the root.  In a
    parsed tree every child-group member refers to a slot whose `memberOf`
    is the group holding it, so a reached group's chain of parents ends at
    the root; a group whose parents form a cycle is never reached, and it
    drops out of the root's evaluation together with its conditions. */
module Reachability {
  import opened Wrappers
  import opened FilterTree
  import opened Buckets
  import opened Linker
  import opened TreeBuilder
  import opened TreeBuilderProperties
  import opened ParseProperties

  /** The parent of the slot called `n`, if that slot exists and has one. */
  function Up(t: Arena, n: string): Option<string> {
    match Find(t, n)
    case None => None
    case Some(j) => t[j].memberOf
  }

  /** The name `k` steps up the chain of parents from `n`. */
  function UpBy(t: Arena, n: string, k: nat): Option<string>
    decreases k
  {
    if k == 0 then Some(n)
    else match Up(t, n)
      case None => None
      case Some(p) => UpBy(t, p, k - 1)
  }

  /** Slot `i` holds the group called `n` among its members. */
  predicate Holds(t: Arena, i: nat, n: string)
    requires i < |t|
  {
    Sub(n) in t[i].node.members
  }

  /** The group called `n` is reached from the root node through `k`
      child-group members. */
  ghost predicate ReachedIn(t: Arena, n: string, k: nat)
    decreases k
  {
    if k == 0 then n == Root
    else exists i :: 0 <= i < |t| && Holds(t, i, n) && ReachedIn(t, t[i].name, k - 1)
  }

  /** Every child-group member refers to a slot whose parent is the group
      holding it. */
  ghost predicate MembersAreChildren(t: Arena) {
    forall i, n :: 0 <= i < |t| && Holds(t, i, n) ==> Up(t, n) == Some(t[i].name)
  }

  /** Going up `a + b` steps is going up `a` steps, then `b` more. */
  lemma {:induction false} UpByAdd(t: Arena, n: string, a: nat, b: nat)
    ensures UpBy(t, n, a + b) == match UpBy(t, n, a)
      case None => None
      case Some(q) => UpBy(t, q, b)
    decreases a
  {
    if a > 0 && Up(t, n).Some? {
      UpByAdd(t, Up(t, n).value, a - 1, b);
    }
  }

  /** Where members are children, a group reached in `k` steps is `k` steps
      below the root. */
  lemma {:induction false} ReachedGoesUp(t: Arena, n: string, k: nat)
    requires MembersAreChildren(t)
    ensures ReachedIn(t, n, k) ==> UpBy(t, n, k) == Some(Root)
    decreases k
  {
    if k > 0 && ReachedIn(t, n, k) {
      var i :| 0 <= i < |t| && Holds(t, i, n) && ReachedIn(t, t[i].name, k - 1);
      assert Up(t, n) == Some(t[i].name);
      ReachedGoesUp(t, t[i].name, k - 1);
    }
  }

  /** When the root has no parent, a name whose chain of parents comes back
      to it never reaches the root. */
  lemma {:induction false} CycleAvoidsRoot(t: Arena, n: string, k: nat, m: nat)
    requires Up(t, Root) == None
    requires 1 <= k && UpBy(t, n, k) == Some(n)
    ensures UpBy(t, n, m) != Some(Root)
    decreases m
  {
    if m >= k {
      UpByAdd(t, n, k, m - k);
      CycleAvoidsRoot(t, n, k, m - k);
    } else {
      UpByAdd(t, n, m, k - m);
    }
  }

  /** A child group among the first `m` slots is one of them whose parent is
      `g`. */
  lemma {:induction false} ChildAmongIsChild(a: Arena, m: nat, g: string, n: string)
    requires m <= |a|
    ensures Sub(n) in ChildrenAmong(a, m, g) ==>
      exists j :: 0 <= j < m && a[j].name == n && a[j].memberOf == Some(g)
  {
    if m > 0 {
      ChildAmongIsChild(a, m - 1, g, n);
    }
  }

  /** In a tree of distinct names, the slot holding a name is the one `Find`
      returns. */
  lemma {:induction false} FindDistinct(t: Arena, j: nat)
    requires j < |t| && Distinct(SlotNames(t))
    ensures Find(t, t[j].name) == Some(j)
  {
    var r := Find(t, t[j].name);
    assert t[j].name in SlotNames(t) by { assert SlotNames(t)[j] == t[j].name; }
    assert SlotNames(t)[r.value] == SlotNames(t)[j];
  }

  /** A child group held by a node of the parsed tree is one of the node's
      child groups. */
  lemma {:induction false} HeldIsChild(d: FilterDict, t: Arena, s: Slot, n: string)
    requires NodeOfTree(d, t, s) && Sub(n) in s.node.members
    ensures Sub(n) in ChildrenOf(t, s.name)
  {
    var cs := ConditionsFor(d, s.name);
    var ms := s.node.members;
    var x :| 0 <= x < |ms| && ms[x] == Sub(n);
    assert ms[x] == ms[|cs|..][x - |cs|];
  }

  /** With distinct names, a child group of `g` is a slot whose parent is
      `g`. */
  lemma {:induction false} ChildIsUp(t: Arena, g: string, n: string)
    requires Distinct(SlotNames(t)) && Sub(n) in ChildrenOf(t, g)
    ensures Up(t, n) == Some(g)
  {
    ChildAmongIsChild(t, |t|, g, n);
    var j :| 0 <= j < |t| && t[j].name == n && t[j].memberOf == Some(g);
    FindDistinct(t, j);
  }

  /** In a parsed tree the root slot has no parent, and every child-group
      member is a child of the group holding it. */
  lemma {:induction false} ParsedMembersAreChildren(d: FilterDict)
    requires Distinct(Names(d)) && Parse(d).Ok?
    ensures Up(Parse(d).value, Root) == None
    ensures MembersAreChildren(Parse(d).value)
  {
    var t := Parse(d).value;
    ParseTree(d);
    forall i, n | 0 <= i < |t| && Holds(t, i, n)
      ensures Up(t, n) == Some(t[i].name)
    {
      HeldIsChild(d, t, t[i], n);
      ChildIsUp(t, t[i].name, n);
    }
  }

  /** In the tree of a successful parse, a group whose chain of parents
      comes back to it is reached from the root by no chain of members, so
      `evaluate()` on the root never visits it or its conditions. */
  lemma {:induction false} CyclesAreUnreachable(d: FilterDict, n: string, k: nat, m: nat)
    requires Distinct(Names(d)) && Parse(d).Ok?
    requires 1 <= k && UpBy(Parse(d).value, n, k) == Some(n)
    ensures !ReachedIn(Parse(d).value, n, m)
  {
    var t := Parse(d).value;
    ParsedMembersAreChildren(d);
    ReachedGoesUp(t, n, m);
    CycleAvoidsRoot(t, n, k, m);
  }

  /** The two groups that are each other's parent are reached from the root
      of their tree by no chain of members. */
  lemma {:induction false} CycleGroupsUnreachable(m: nat)
    ensures Parse(CycleDict()) == Ok(CycleTreeSlots())
    ensures !ReachedIn(CycleTreeSlots(), "A", m) && !ReachedIn(CycleTreeSlots(), "B", m)
  {
    CyclesAreNotRejected();
    CycleNamesDistinct();
    CycleChains();
    CyclesAreUnreachable(CycleDict(), "A", 2, m);
    CyclesAreUnreachable(CycleDict(), "B", 2, m);
  }

  lemma {:induction false} CycleNamesDistinct()
    ensures Distinct(Names(CycleDict()))
  {
    assert Names(CycleDict()) == ["A", "B"];
  }

  /** Two steps up from either group of the cycle lead back to it. */
  lemma {:induction false} CycleChains()
    ensures UpBy(CycleTreeSlots(), "A", 2) == Some("A")
    ensures UpBy(CycleTreeSlots(), "B", 2) == Some("B")
  {
    var t := CycleTreeSlots();
    assert Find(t, "A") == Some(1) && Find(t, "B") == Some(2);
  }
}
