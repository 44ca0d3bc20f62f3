/** The string rendering the test suite gives nodes (its `evaluate`
    implementations): a condition as `path operator value`, a group as its
    members' renderings joined by the padded conjunction, in parentheses.
    A child group is looked up in the arena by name; `fuel` bounds the
    nesting depth, so a cyclic arena renders to nothing instead of
    recursing forever. */
module Rendering {
  import opened Wrappers
  import opened FilterTree
  import opened TreeBuilder

  function RenderCondition(c: Condition): (r: string)
    ensures |r| == |c.path| + |c.operator| + |c.value| + 2
    ensures r[..|c.path|] == c.path && r[|c.path|] == ' '
    ensures r[|c.path| + 1..|c.path| + 1 + |c.operator|] == c.operator
    ensures r[|r| - |c.value|..] == c.value && r[|r| - |c.value| - 1] == ' '
  {
    c.path + " " + c.operator + " " + c.value
  }

  /** `sep.join(parts)`. */
  function Join(sep: string, parts: seq<string>): (r: string)
    ensures parts == [] ==> r == ""
    ensures |parts| == 1 ==> r == parts[0]
  {
    if parts == [] then ""
    else if |parts| == 1 then parts[0]
    else parts[0] + sep + Join(sep, parts[1..])
  }

  function RenderGroup(a: Arena, g: Group, fuel: nat): Option<string>
    decreases fuel, |g.members| + 1
  {
    match RenderMembers(a, g.members, fuel)
    case None => None
    case Some(parts) => Some("(" + Join(" " + g.conjunction + " ", parts) + ")")
  }

  /** The renderings of `ms`, in order; a child group costs one unit of
      fuel and must be present in the arena. */
  function RenderMembers(a: Arena, ms: seq<Member>, fuel: nat): Option<seq<string>>
    decreases fuel, |ms|
  {
    if ms == [] then Some([])
    else
      var head :=
        match ms[0]
        case Leaf(c) => Some(RenderCondition(c))
        case Sub(name) =>
          if fuel == 0 then None
          else match Find(a, name)
            case None => None
            case Some(j) => RenderGroup(a, a[j].node, fuel - 1);
      match head
      case None => None
      case Some(h) =>
        match RenderMembers(a, ms[1..], fuel)
        case None => None
        case Some(rest) => Some([h] + rest)
  }

  /** The rendering of the root node, slot 0, allowing one level of nesting
      per slot. */
  function RenderTree(t: Arena): Option<string> {
    if t == [] then None else RenderGroup(t, t[0].node, |t|)
  }

  /** More fuel never changes a rendering that already succeeded. */
  lemma {:induction false} RenderGroupFuel(a: Arena, g: Group, fuel: nat, more: nat)
    requires fuel <= more && RenderGroup(a, g, fuel).Some?
    ensures RenderGroup(a, g, more) == RenderGroup(a, g, fuel)
    decreases fuel, |g.members| + 1
  {
    RenderMembersFuel(a, g.members, fuel, more);
  }

  lemma {:induction false} RenderMembersFuel(a: Arena, ms: seq<Member>, fuel: nat, more: nat)
    requires fuel <= more && RenderMembers(a, ms, fuel).Some?
    ensures RenderMembers(a, ms, more) == RenderMembers(a, ms, fuel)
    decreases fuel, |ms|
  {
    if ms != [] {
      RenderMembersFuel(a, ms[1..], fuel, more);
      if ms[0].Sub? {
        var j := Find(a, ms[0].group).value;
        RenderGroupFuel(a, a[j].node, fuel - 1, more - 1);
      }
    }
  }
}
