/** First pass of `FilterParser`: `_get_member_of` and `_group_conditions`.
    The flat, name-keyed filter dictionary is turned into the intermediate
    mapping of Buckets, one bucket per group name, the root first. */
module Linker {
  import opened Wrappers
  import opened FilterErrors
  import opened FilterTree
  import opened Buckets

  /** `Keys.ROOT`: the reserved name of the implicit top-level AND group. */
  const Root: string := "@root"

  /** Body of a `group` entry; keys other than these two are ignored. */
  datatype GroupBody = GroupBody(conjunction: Option<string>, memberOf: Option<string>)

  /** One value of the filter dictionary: its `group` and `condition` keys.
      An entry may carry both, one or neither. */
  datatype Entry = Entry(group: Option<GroupBody>, condition: Option<Payload>)

  /** The filter dictionary, in insertion order. */
  type FilterDict = seq<(string, Entry)>

  /** The entry names, in order: `Keys` read on the filter dictionary.  A
      name of its own keeps facts about the input's names apart from facts
      about the mapping's keys, which the proofs handle side by side. */
  function Names(d: FilterDict): seq<string> {
    Keys(d)
  }

  /** Python truthiness, restricted to strings: present and non-empty. */
  predicate Filled(o: Option<string>) {
    o.Some? && o.value != ""
  }

  /** The parent a `memberOf` field designates once it has been accepted. */
  function ParentOf(memberOf: Option<string>): string {
    memberOf.GetOr(Root)
  }

  /** The mapping as `__init__` leaves it: only the root bucket. */
  function InitialMapping(): Mapping {
    [(Root, EmptyBucket)]
  }

  // ---------------------------------------------------------------------
  // The linker
  // ---------------------------------------------------------------------

  /** `_get_member_of`: an absent field means the root, naming the root
      explicitly is an error, any other name is returned unchanged. */
  function MemberOf(memberOf: Option<string>): (r: Result<string, FilterError>)
    ensures r == Ok(Root) <==> memberOf.None?
    ensures r.Err? <==> memberOf == Some(Root)
    ensures r.Err? ==> r.error == RootKeyUsed(AsMemberOf)
    ensures memberOf.Some? && r.Ok? ==> r.value == memberOf.value
  {
    match memberOf
    case None => Ok(Root)
    case Some(name) => if name == Root then Err(RootKeyUsed(AsMemberOf)) else Ok(name)
  }

  /** `grouped_conditions[name].update(conjunction=..., member_of=...)`. */
  function DeclareGroup(m: Mapping, name: string, conjunction: string, parent: string): Mapping {
    Put(m, name, Get(m, name).(conjunction := Some(conjunction), memberOf := Some(parent)))
  }

  /** Appends a condition payload to the bucket of `parent`, creating the
      bucket on first reference. */
  function CollectCondition(m: Mapping, parent: string, c: Payload): Mapping {
    var b := Get(m, parent);
    Put(m, parent, b.(conditions := b.conditions + [c]))
  }

  /** One iteration of the loop in `_group_conditions`.  `group` is checked
      before `condition`; a group's `memberOf` is resolved only when its
      conjunction is usable, a condition's always, before its value. */
  function LinkEntry(m: Mapping, name: string, e: Entry): Result<Mapping, FilterError> {
    if e.group.Some? then
      var g := e.group.value;
      if !Filled(g.conjunction) then Ok(m)
      else
        var parent :- MemberOf(g.memberOf);
        Ok(DeclareGroup(m, name, g.conjunction.value, parent))
    else if e.condition.Some? then
      var c := e.condition.value;
      var parent :- MemberOf(c.memberOf);
      if !Filled(c.value) then Ok(m)
      else Ok(CollectCondition(m, parent, c))
    else
      Err(NoGroupOrCondition(name))
  }

  /** The loop of `_group_conditions` over the entries in order; the first
      failing entry ends it. */
  function LinkEntries(d: FilterDict): Result<Mapping, FilterError> {
    if d == [] then Ok(InitialMapping())
    else
      var m :- LinkEntries(d[..|d| - 1]);
      LinkEntry(m, d[|d| - 1].0, d[|d| - 1].1)
  }

  /** `_group_conditions`: the root name is checked before any entry. */
  function Link(d: FilterDict): Result<Mapping, FilterError> {
    if Root in Names(d) then Err(RootKeyUsed(AsEntryName))
    else LinkEntries(d)
  }

  // ---------------------------------------------------------------------
  // Reference definitions
  // ---------------------------------------------------------------------

  /** A group entry the linker keeps: its conjunction is usable. */
  predicate KeptGroup(e: Entry) {
    e.group.Some? && Filled(e.group.value.conjunction)
  }

  /** A condition entry the linker keeps: no group body, a usable value. */
  predicate KeptCondition(e: Entry) {
    e.group.None? && e.condition.Some? && Filled(e.condition.value.value)
  }

  /** The bucket an entry writes to: a kept group its own, a kept condition
      its parent's; other entries write nothing. */
  function Target(entry: (string, Entry)): Option<string> {
    if KeptGroup(entry.1) then Some(entry.0)
    else if KeptCondition(entry.1) then Some(ParentOf(entry.1.condition.value.memberOf))
    else None
  }

  predicate Touches(entry: (string, Entry), k: string) {
    Target(entry) == Some(k)
  }

  /** The entry passes the linker's checks. */
  predicate Accepted(e: Entry) {
    if e.group.Some? then !Filled(e.group.value.conjunction) || e.group.value.memberOf != Some(Root)
    else e.condition.Some? && e.condition.value.memberOf != Some(Root)
  }

  /** The error an entry that is not accepted raises. */
  function Rejection(entry: (string, Entry)): FilterError {
    if entry.1.group.None? && entry.1.condition.None? then NoGroupOrCondition(entry.0)
    else RootKeyUsed(AsMemberOf)
  }

  /** Index of the first entry that touches `k`, or `|d|` when none does. */
  function FirstRef(d: FilterDict, k: string): (r: nat)
    ensures r <= |d|
  {
    if d == [] then 0
    else
      var p := FirstRef(d[..|d| - 1], k);
      if p < |d| - 1 then p
      else if Touches(d[|d| - 1], k) then |d| - 1
      else |d|
  }

  /** The kept condition payloads whose parent is `k`, in input order. */
  function ConditionsFor(d: FilterDict, k: string): seq<Payload> {
    if d == [] then []
    else
      var e := d[|d| - 1];
      ConditionsFor(d[..|d| - 1], k)
        + (if KeptCondition(e.1) && ParentOf(e.1.condition.value.memberOf) == k
           then [e.1.condition.value] else [])
  }

  /** The body of the (last) kept group called `k`. */
  function DeclarationOf(d: FilterDict, k: string): (r: Option<GroupBody>)
    ensures r.Some? ==> exists i :: 0 <= i < |d| && d[i].0 == k && KeptGroup(d[i].1) && d[i].1.group.value == r.value
    ensures r.None? <==> forall i :: 0 <= i < |d| ==> !(d[i].0 == k && KeptGroup(d[i].1))
  {
    if d == [] then None
    else if KeptGroup(d[|d| - 1].1) && d[|d| - 1].0 == k then d[|d| - 1].1.group
    else
      var r := DeclarationOf(d[..|d| - 1], k);
      assert forall i :: 0 <= i < |d| - 1 ==> d[..|d| - 1][i] == d[i];
      r
  }

  function DeclaredConjunction(d: FilterDict, k: string): Option<string> {
    match DeclarationOf(d, k)
    case None => None
    case Some(g) => g.conjunction
  }

  function DeclaredParent(d: FilterDict, k: string): Option<string> {
    match DeclarationOf(d, k)
    case None => None
    case Some(g) => Some(ParentOf(g.memberOf))
  }

  /** Number of kept conditions. */
  function KeptConditionCount(d: FilterDict): nat {
    if d == [] then 0
    else KeptConditionCount(d[..|d| - 1]) + (if KeptCondition(d[|d| - 1].1) then 1 else 0)
  }

  /** The keys of `m` are the root followed by every touched name, each
      once, in order of first reference. */
  ghost predicate KeysInReferenceOrder(d: FilterDict, m: Mapping) {
    && |m| >= 1 && m[0].0 == Root
    && Distinct(Keys(m))
    && (forall k :: k in Keys(m) <==> k == Root || FirstRef(d, k) < |d|)
    && (forall i, j :: 1 <= i < j < |m| ==> FirstRef(d, m[i].0) < FirstRef(d, m[j].0))
  }

  /** Every bucket holds exactly the kept conditions aimed at it, in input
      order, and the declaration of the group of that name, if any. */
  ghost predicate BucketsCollect(d: FilterDict, m: Mapping) {
    forall k ::
      && Get(m, k).conditions == ConditionsFor(d, k)
      && Get(m, k).conjunction == DeclaredConjunction(d, k)
      && Get(m, k).memberOf == DeclaredParent(d, k)
  }
}
