/** Second pass of `FilterParser`: `_parse_conditions_and_groups` creates a
    node per bucket and fills it with the bucket's conditions, then
    `_build_tree` appends every group node to its parent's members.  Nodes
    live in an arena in mapping order; a child group is referred to by name,
    so forward references and cycles are representable. */
module TreeBuilder {
  import opened Wrappers
  import opened FilterErrors
  import opened FilterTree
  import opened Buckets
  import opened Linker

  /** A materialised bucket: its name, its `member_of` and its node. */
  datatype Slot = Slot(name: string, memberOf: Option<string>, node: Group)

  /** All nodes of a parse, the root first. */
  type Arena = seq<Slot>

  function SlotNames(a: Arena): (ns: seq<string>)
    ensures |ns| == |a|
    ensures forall i :: 0 <= i < |a| ==> ns[i] == a[i].name
  {
    seq(|a|, i requires 0 <= i < |a| => a[i].name)
  }

  /** The root node `__init__` creates once: `group_class(conjunction="AND")`. */
  function RootGroup(): (r: Result<Group, FilterError>)
    ensures r == Ok(Group("AND", []))
  {
    NewGroup("AND")
  }

  /** Builds one condition node per payload, in order; the first payload
      the constructor rejects ends the loop. */
  function NewConditions(ps: seq<Payload>): (r: Result<seq<Member>, FilterError>)
    ensures r.Ok? ==> |r.value| == |ps|
  {
    if ps == [] then Ok([])
    else
      var leaves :- NewConditions(ps[..|ps| - 1]);
      var c :- NewCondition(ps[|ps| - 1]);
      Ok(leaves + [Leaf(c)])
  }

  /** The loop builds a node for every payload exactly when the
      constructor accepts each of them, and otherwise stops with the error
      of the first it rejects. */
  lemma {:induction false} NewConditionsOutcome(ps: seq<Payload>)
    ensures NewConditions(ps).Ok? <==> forall j :: 0 <= j < |ps| ==> NewCondition(ps[j]).Ok?
    ensures NewConditions(ps).Ok? ==>
      forall j :: 0 <= j < |ps| ==> NewConditions(ps).value[j] == Leaf(NewCondition(ps[j]).value)
    ensures NewConditions(ps).Err? ==>
      exists j :: 0 <= j < |ps| && NewCondition(ps[j]) == Err(NewConditions(ps).error)
        && (forall i :: 0 <= i < j ==> NewCondition(ps[i]).Ok?)
  {
    if ps != [] {
      var init := ps[..|ps| - 1];
      assert forall j :: 0 <= j < |init| ==> init[j] == ps[j];
      NewConditionsOutcome(init);
    }
  }

  /** One iteration of `_parse_conditions_and_groups`: the root reuses the
      root node, any other bucket needs a conjunction (a bucket created only
      by conditions has none), then the conditions are appended in order. */
  function MaterialiseBucket(name: string, b: Bucket): Result<Group, FilterError> {
    var g :- if name == Root then RootGroup()
             else if b.conjunction.None? then Err(MissingConjunction(name))
             else NewGroup(b.conjunction.value);
    var leaves :- NewConditions(b.conditions);
    Ok(g.(members := g.members + leaves))
  }

  /** `_parse_conditions_and_groups` over the whole mapping, in order. */
  function Materialise(m: Mapping): Result<Arena, FilterError> {
    if m == [] then Ok([])
    else
      var a :- Materialise(m[..|m| - 1]);
      var (name, b) := m[|m| - 1];
      var node :- MaterialiseBucket(name, b);
      Ok(a + [Slot(name, b.memberOf, node)])
  }

  /** Position of the slot called `k`, if any. */
  function Find(a: Arena, k: string): (r: Option<nat>)
    ensures r.Some? ==> r.value < |a| && a[r.value].name == k
    ensures r.None? <==> k !in SlotNames(a)
  {
    if a == [] then None
    else if a[0].name == k then Some(0)
    else
      assert SlotNames(a[1..]) == SlotNames(a)[1..];
      match Find(a[1..], k)
      case None => None
      case Some(j) => Some(j + 1)
  }

  /** One iteration of `_build_tree`: a slot with a parent has its group
      appended to the parent's members; the parent must exist. */
  function AttachChild(t: Arena, s: Slot): (r: Result<Arena, FilterError>)
    ensures r.Ok? ==> |r.value| == |t|
    ensures r.Ok? ==> forall i {:trigger r.value[i]} :: 0 <= i < |t| ==>
      r.value[i].name == t[i].name && r.value[i].memberOf == t[i].memberOf
        && r.value[i].node.conjunction == t[i].node.conjunction
  {
    match s.memberOf
    case None => Ok(t)
    case Some(parent) =>
      match Find(t, parent)
      case None => Err(UnknownParent(parent))
      case Some(j) =>
        Ok(t[j := t[j].(node := t[j].node.(members := t[j].node.members + [Sub(s.name)]))])
  }

  /** `_build_tree` over the first `n` slots. */
  function AttachChildren(a: Arena, n: nat): (r: Result<Arena, FilterError>)
    requires n <= |a|
    ensures r.Ok? ==> |r.value| == |a|
    ensures r.Ok? ==> forall i {:trigger r.value[i]} :: 0 <= i < |a| ==>
      r.value[i].name == a[i].name && r.value[i].memberOf == a[i].memberOf
        && r.value[i].node.conjunction == a[i].node.conjunction
  {
    if n == 0 then Ok(a)
    else
      var t :- AttachChildren(a, n - 1);
      AttachChild(t, a[n - 1])
  }

  /** `_build_tree`. */
  function BuildTree(a: Arena): Result<Arena, FilterError> {
    AttachChildren(a, |a|)
  }

  /** `parse_filter_data` up to the final `evaluate()`: the tree, its root in
      slot 0. */
  function Parse(d: FilterDict): Result<Arena, FilterError> {
    var m :- Link(d);
    var a :- Materialise(m);
    BuildTree(a)
  }
}
