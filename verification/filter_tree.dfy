/** The two kinds of filter-tree node and their constructors.  Evaluation is
    supplied by callers and is not part of this module; a group refers to a
    child group by the child's name (an arena handle, see TreeBuilder). */
module FilterTree {
  import opened Wrappers
  import opened FilterErrors

  /** Operator a condition gets when its payload names none. */
  const DefaultOperator: string := "="

  /** The keyword arguments a condition is built from.  The parser forwards a
      condition body unchanged, so `memberOf` rides along and is ignored. */
  datatype Payload = Payload(
    path: Option<string>,
    operator: Option<string>,
    value: Option<string>,
    memberOf: Option<string>)

  /** Leaf node. */
  datatype Condition = Condition(path: string, operator: string, value: string)

  /** A member of a group: a condition, or the group stored under `group`. */
  datatype Member = Leaf(condition: Condition) | Sub(group: string)

  /** Inner node: an upper-case conjunction and the ordered members. */
  datatype Group = Group(conjunction: string, members: seq<Member>)

  // ---------------------------------------------------------------------
  // Case mapping (ASCII)
  // ---------------------------------------------------------------------

  function UpperChar(c: char): char {
    if 'a' <= c <= 'z' then (c as int - 32) as char else c
  }

  function LowerChar(c: char): char {
    if 'A' <= c <= 'Z' then (c as int + 32) as char else c
  }

  function Upper(s: string): (r: string)
    ensures |r| == |s|
    ensures forall i :: 0 <= i < |s| ==> r[i] == UpperChar(s[i])
  {
    seq(|s|, i requires 0 <= i < |s| => UpperChar(s[i]))
  }

  /** `s` spells the upper-case word `w`, letter by letter, in either case. */
  predicate SpellsIgnoringCase(s: string, w: string) {
    |s| == |w| && forall i :: 0 <= i < |s| ==> s[i] == w[i] || s[i] == LowerChar(w[i])
  }

  predicate IsUpperWord(w: string) {
    forall i :: 0 <= i < |w| ==> 'A' <= w[i] <= 'Z'
  }

  /** Uppercasing yields an upper-case word exactly when the input spells it
      in any mixture of cases. */
  lemma {:induction false} UpperIsCaseInsensitive(s: string, w: string)
    requires IsUpperWord(w)
    ensures Upper(s) == w <==> SpellsIgnoringCase(s, w)
  {
    if SpellsIgnoringCase(s, w) {
      forall i | 0 <= i < |s|
        ensures Upper(s)[i] == w[i]
      {
        assert s[i] == w[i] || s[i] == LowerChar(w[i]);
      }
    }
    if Upper(s) == w {
      forall i | 0 <= i < |s|
        ensures s[i] == w[i] || s[i] == LowerChar(w[i])
      {
        assert UpperChar(s[i]) == w[i];
      }
    }
  }

  /** The conjunctions a group accepts, in any mixture of cases. */
  predicate AcceptedConjunction(c: string) {
    SpellsIgnoringCase(c, "AND") || SpellsIgnoringCase(c, "OR")
  }

  // ---------------------------------------------------------------------
  // Constructors
  // ---------------------------------------------------------------------

  /** `Condition(**kwargs)`: `path` and `value` are required (path is looked up
      first), the operator defaults to `=`, everything else is ignored. */
  function NewCondition(kwargs: Payload): (r: Result<Condition, FilterError>)
    ensures r.Ok? <==> kwargs.path.Some? && kwargs.value.Some?
    ensures kwargs.path.None? ==> r == Err(MissingPath)
    ensures kwargs.path.Some? && kwargs.value.None? ==> r == Err(MissingValue)
    ensures r.Ok? ==> r.value.path == kwargs.path.value && r.value.value == kwargs.value.value
    ensures r.Ok? && kwargs.operator.None? ==> r.value.operator == DefaultOperator
    ensures r.Ok? && kwargs.operator.Some? ==> r.value.operator == kwargs.operator.value
  {
    if kwargs.path.None? then Err(MissingPath)
    else if kwargs.value.None? then Err(MissingValue)
    else Ok(Condition(kwargs.path.value, kwargs.operator.GetOr(DefaultOperator), kwargs.value.value))
  }

  /** `Group(conjunction)`: the conjunction is accepted in any case and stored
      upper-case; a new group has no members. */
  function NewGroup(conjunction: string): (r: Result<Group, FilterError>)
    ensures r.Ok? <==> AcceptedConjunction(conjunction)
    ensures r.Err? ==> r.error == InvalidConjunction(conjunction)
    ensures r.Ok? ==> r.value.members == []
    ensures r.Ok? ==> r.value.conjunction == (if SpellsIgnoringCase(conjunction, "AND") then "AND" else "OR")
  {
    UpperIsCaseInsensitive(conjunction, "AND");
    UpperIsCaseInsensitive(conjunction, "OR");
    var normalised := Upper(conjunction);
    if normalised != "AND" && normalised != "OR" then Err(InvalidConjunction(conjunction))
    else Ok(Group(normalised, []))
  }

  /** Normalisation is idempotent: rebuilding a group from its stored
      conjunction gives the same empty group back. */
  lemma {:induction false} NewGroupIdempotent(conjunction: string)
    requires NewGroup(conjunction).Ok?
    ensures NewGroup(NewGroup(conjunction).value.conjunction) == NewGroup(conjunction)
  {
    var c := NewGroup(conjunction).value.conjunction;
    assert SpellsIgnoringCase(c, c);
  }
}
