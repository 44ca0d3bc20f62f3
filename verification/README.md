# json_api_drupal_filters in Dafny

A model of the filter parser of the Python package `json_api_drupal_filters`.
The parser reads a flat, name-keyed filter dictionary of the kind used in
Drupal's JSON:API query strings. Every entry is either a `group` (a conjunction
and an optional `memberOf`) or a `condition` (`path`, `operator`, `value` and an
optional `memberOf`). The parser turns it into a rooted tree of AND/OR groups
whose leaves are conditions. `FilterParser` does this in three passes:

1. `_group_conditions` (the linker) checks the reserved key `@root` and the
   shape of every entry. It drops groups without a conjunction and conditions
   without a value. It collects the kept conditions into a `defaultdict` of
   buckets, keyed by the group they belong to.
2. `_parse_conditions_and_groups` creates one group node per bucket. The root
   reuses the AND node made in `__init__`. Each node is filled with its
   bucket's condition nodes, in order.
3. `_build_tree` appends every group node to the members of its parent.

The `Condition` and `Group` constructors fix the node rules. A condition needs
a `path` and a `value`, and its operator defaults to `=`. A group accepts `AND`
or `OR` in any case, stores it upper-case, and starts with no members.

How the model is built:

- The filter dictionary is a `seq<(string, Entry)>` in insertion order. An
  absent key is `None`. A falsy value is `None` or the empty string.
- The intermediate `defaultdict` is an association list of `Bucket`s (module
  `Buckets`). Reading an absent key gives an empty bucket. Writing a new key
  appends it.
- The nodes live in an arena of `Slot`s in mapping order. A group refers to a
  child group by the child's name. Forward references and cycles can be
  represented, as they can in the Python object graph.
- Every `raise`, including the bare `KeyError`s, becomes a variant of
  `FilterError`. Every pass returns a `Result`, so the first error ends the
  parse, as the exception does.

Modules:

- `FilterErrors` and `FilterTree` model `filter_errors.py` and the
  constructors of `filter_tree.py`.
- `Buckets` and `Linker` model the first pass.
- `TreeBuilder` models the second and third passes and `parse_filter_data`.
- `LinkerProperties`, `TreeBuilderProperties` and `ParseProperties` hold the
  proofs.
- `Reachability` states which groups `evaluate()` on the root visits.
- `Rendering` and `ParserFixture` model the test suite's renderers and its
  valid dictionary.

The linker's results are stated against reference definitions in `Linker`.
These are written entry by entry: `Accepted`/`Rejection` (which entries raise,
and what), `KeptGroup`/`KeptCondition`, `FirstRef` (the first entry that
touches a name), `ConditionsFor` and `DeclarationOf`. The whole parse is then
characterised in terms of the input alone (`ParseOutcome`, `ParseTree`).

## Model

| member | source | states |
|---|---|---|
| `FilterTree.UpperIsCaseInsensitive` | json_api_drupal_filters/filter_tree.py:35 | Uppercasing a string gives an upper-case word exactly when the string spells that word in any mixture of cases. |
| `FilterTree.NewCondition` | json_api_drupal_filters/filter_tree.py:16-21 | A condition is built exactly when `path` and `value` are present. A missing path is reported before a missing value. The path and value are stored as given. The operator is the given one, or `=` when absent. Other keys, such as `memberOf`, are ignored. |
| `FilterTree.NewGroup` | json_api_drupal_filters/filter_tree.py:33-38 | A group is built exactly when the conjunction spells AND or OR in some case; otherwise the error carries the rejected conjunction. The stored conjunction is exactly "AND" or "OR", matching the input's spelling. A new group has no members. |
| `FilterTree.NewGroupIdempotent` | json_api_drupal_filters/filter_tree.py:35-38 | Building a group again from a group's stored conjunction gives the same group back. |
| `Buckets.Get` | json_api_drupal_filters/filter_parser.py:52 | Reading a name the mapping does not hold gives an empty bucket: no conjunction, no parent, no conditions. |
| `Buckets.PutFacts` | json_api_drupal_filters/filter_parser.py:91-96 | Writing a bucket appends its name to the key order only if the name is new. Distinct keys stay distinct. The name now reads the new bucket, and every other name reads as before. |
| `Buckets.PutPresent` | json_api_drupal_filters/filter_parser.py:81-84 | Updating a name already present replaces its bucket where it stands. |
| `Buckets.PutAbsent` | json_api_drupal_filters/filter_parser.py:91-96 | Writing a name not yet present appends it at the end of the insertion order. |
| `Linker.MemberOf` | json_api_drupal_filters/filter_parser.py:62-69 | An absent `memberOf` resolves to `@root`. An explicit `@root` is the only case that fails, with RootKeyUsedError. Any other value is returned unchanged. |
| `TreeBuilder.RootGroup` | json_api_drupal_filters/filter_parser.py:53 | The root node is an AND group with no members. |
| `LinkerProperties.LinkEntryOutcome` | json_api_drupal_filters/filter_parser.py:76-99 | One entry fails exactly when it is not accepted. Neither body gives NoGroupOrCondition; a kept group or any condition naming `@root` gives RootKeyUsedError. A kept group updates its own bucket with its raw conjunction and resolved parent. A kept condition is appended to its parent's bucket. A dropped entry changes nothing. |
| `LinkerProperties.LinkEntriesOutcome` | json_api_drupal_filters/filter_parser.py:76-99 | The loop succeeds exactly when every entry is accepted. Otherwise it fails with the error of the first entry that is not. |
| `LinkerProperties.LinkOutcome` | json_api_drupal_filters/filter_parser.py:71-99 | If `@root` names an entry, linking fails with RootKeyUsedError whatever the entries hold. Otherwise it succeeds exactly when every entry is accepted, and fails with the first rejected entry's error. |
| `LinkerProperties.LinkEntriesCollects` | json_api_drupal_filters/filter_parser.py:76-96 | After the loop, the keys are the root followed by every touched name, once each, in order of first reference. Each bucket holds exactly the kept conditions aimed at it, in input order, plus its group's declaration. The condition total equals the number of kept conditions. |
| `LinkerProperties.LinkPartition` | json_api_drupal_filters/filter_parser.py:71-96 | After a successful link, the keys are exactly `@root` plus the names of kept groups and the parents of kept conditions, in first-reference order. Every kept condition is stored once, in its parent's bucket, in input order, and each bucket carries its group's raw conjunction and resolved parent. |
| `LinkerProperties.GroupShadowsCondition` | json_api_drupal_filters/filter_parser.py:77-85 | An entry that has both bodies is treated as a group: removing its condition body never changes the link result. |
| `LinkerProperties.ConditionNamesDiscarded` | json_api_drupal_filters/filter_parser.py:85-96 | Renaming condition entries (to or from names other than `@root`) never changes the link result. |
| `LinkerProperties.LeniencyIsAsymmetric` | json_api_drupal_filters/filter_parser.py:77-89 | A group with a missing or empty conjunction is dropped even when its `memberOf` is `@root`. A condition whose `memberOf` is `@root` fails even with no value. |
| `TreeBuilder.NewConditionsOutcome` | json_api_drupal_filters/filter_parser.py:105-108 | A bucket's conditions all become condition nodes, in order, exactly when the constructor accepts every payload. Otherwise the error is that of the first payload it rejects. |
| `TreeBuilder.AttachChildren` | json_api_drupal_filters/filter_parser.py:111-116 | Linking the groups never changes a node's name, parent or conjunction, nor the number of nodes. |
| `TreeBuilderProperties.MaterialiseBucketOutcome` | json_api_drupal_filters/filter_parser.py:102-109 | A bucket becomes a node exactly when it is the root, or has a conjunction the group constructor accepts, and every payload has a path and a value. The root's node is AND. Any other node is the constructor's group, holding the bucket's conditions in order. |
| `TreeBuilderProperties.MaterialiseOutcome` | json_api_drupal_filters/filter_parser.py:101-109 | Node creation succeeds exactly when every bucket is ready. Otherwise it fails with the error of the first bucket that is not. |
| `TreeBuilderProperties.MaterialiseContents` | json_api_drupal_filters/filter_parser.py:101-109 | A successful node creation yields one slot per bucket, in mapping order, with the bucket's name, its parent, and the node made from it. |
| `TreeBuilderProperties.AttachChildOutcome` | json_api_drupal_filters/filter_parser.py:113-116 | Attaching one node fails exactly when its parent names no node, with an unknown-parent error naming that parent. |
| `TreeBuilderProperties.AttachChildrenOutcome` | json_api_drupal_filters/filter_parser.py:111-116 | Attaching a prefix of the nodes succeeds exactly when each of them names an existing parent or none. Otherwise it fails at the first that does not. |
| `TreeBuilderProperties.AttachChildrenAt` | json_api_drupal_filters/filter_parser.py:111-116 | With distinct names, after attaching the first n nodes, each node holds its earlier members followed by its child groups among them, in node order. |
| `TreeBuilderProperties.BuildTreeOutcome` | json_api_drupal_filters/filter_parser.py:111-116 | The tree build succeeds exactly when every node's parent exists, and otherwise fails at the first node whose parent does not. With distinct names, each node holds its earlier members followed by all its child groups, in mapping order; forward references included. |
| `ParseProperties.KeptConditionStored` | json_api_drupal_filters/filter_parser.py:85-96 | Every kept condition's payload lies in the bucket of its parent. |
| `ParseProperties.MaterialiseIff` | json_api_drupal_filters/filter_parser.py:101-109 | After a successful link, node creation succeeds exactly when three things hold: every kept condition has a path, every kept condition aims at the root or a kept group, and every kept group's conjunction is accepted. |
| `ParseProperties.MaterialisedSlots` | json_api_drupal_filters/filter_parser.py:101-109 | The nodes are the root followed by exactly the kept groups. Each node's parent is its group's resolved `memberOf`. |
| `ParseProperties.BuildTreeIff` | json_api_drupal_filters/filter_parser.py:111-116 | After the first two passes, the tree build succeeds exactly when every kept group's parent is the root or a kept group. |
| `ParseProperties.ParseOutcome` | json_api_drupal_filters/filter_parser.py:56-59 | Parsing succeeds exactly when five things hold: `@root` names no entry, every entry is accepted, every kept condition has a path, every kept condition aims at the root or a kept group, and every kept group has an accepted conjunction and a parent that is the root or a kept group. Cycles are not a reason to fail. |
| `ParseProperties.ParseTree` | json_api_drupal_filters/filter_parser.py:52-116 | A successful parse gives the root first (AND, no parent), then one node per kept group, each once, in first-reference order. Each node holds the conditions aimed at it, in input order, followed by its child groups in node order. |
| `ParseProperties.BucketWithoutConjunction` | json_api_drupal_filters/filter_parser.py:103-104 | A non-root bucket without a conjunction cannot become a node, and the error names it. |
| `ParseProperties.DanglingConditionFails` | json_api_drupal_filters/filter_parser.py:103-104 | A kept condition aimed at a name that no kept group declares makes the parse fail. |
| `ParseProperties.DanglingConditionLacksConjunction` | json_api_drupal_filters/filter_parser.py:103-104 | Such a condition's bucket has no conjunction. Once linking succeeds, node creation fails, and that bucket fails with a missing conjunction. |
| `ParseProperties.DanglingGroupFails` | json_api_drupal_filters/filter_parser.py:113-116 | A kept group whose parent is neither the root nor a kept group makes the parse fail. |
| `ParseProperties.DanglingGroupUnknownParent` | json_api_drupal_filters/filter_parser.py:113-116 | When the first two passes succeed, the tree build is what fails on such a group, with an unknown-parent error naming an undeclared parent. |
| `ParseProperties.CyclesAreNotRejected` | json_api_drupal_filters/filter_parser.py:111-116 | Two groups that are each other's parent parse successfully, and each ends up among the other's members. |
| `Reachability.ParsedMembersAreChildren` | json_api_drupal_filters/filter_parser.py:111-116 | In a parsed tree the root has no parent, and every child group among a node's members is a node whose `memberOf` names that holder. |
| `Reachability.CyclesAreUnreachable` | json_api_drupal_filters/filter_parser.py:56-60 | In a parsed tree, a group whose chain of parents comes back to it is reached from the root by no chain of members, so evaluating the root never visits it or its conditions. |
| `Reachability.CycleGroupsUnreachable` | json_api_drupal_filters/filter_parser.py:56-60 | The two groups that are each other's parent parse, and neither is reached from the root. |
| `Rendering.RenderCondition` | tests/test_parser.py:11-12 | The suite's condition rendering is the path, a space, the operator, a space and the value: each field stands at its place, and the length leaves room for nothing else. |
| `ParserFixture.RootAsParentRejected` | tests/test_parser.py:69-80 | The suite's group with `memberOf` `@root` fails with RootKeyUsedError. |
| `ParserFixture.RootAsNameRejected` | tests/test_parser.py:83-100 | The suite's dictionary with an entry called `@root` fails with the entry-name RootKeyUsedError, although its first entry would fail on its own. |
| `ParserFixture.ThingyRejected` | tests/test_parser.py:103-114 | An entry with neither body fails with NoGroupOrCondition, naming the entry. |
| `ParserFixture.FixtureGroupsConditions` | tests/test_parser.py:117-128 | Linking the suite's valid dictionary gives three buckets: `@root`, `TestGroup` and `OtherTestGroup`, in that order, with one, two and one conditions. |
| `ParserFixture.FixtureParses` | tests/test_parser.py:24-66 | The valid dictionary parses into the expected tree. The root holds the root condition, then `TestGroup`. `TestGroup` holds its two conditions, then `OtherTestGroup`. |
| `ParserFixture.FixtureRenders` | tests/test_parser.py:131-135 | With the suite's renderers, the parsed valid dictionary renders to exactly the string the suite expects. |
| `ParserFixture.CycleRendersEmpty` | json_api_drupal_filters/filter_parser.py:56-60 | The dictionary of two groups that are each other's parent parses, and its root renders as `()`: both groups and their conditions silently drop out. |
| `ParserFixture.CycleNeverRenders` | tests/test_parser.py:19-20 | In the same tree, either group rendered on its own gives no result, whatever the nesting budget. This stands for the suite's group renderer, called directly on a member of the cycle, recursing without end. |

## Left out

- The prototype `filter_parser.py` at the repository root is not part of this model. It is an abandoned draft that imports a module absent from the repository; the package's `json_api_drupal_filters/filter_parser.py` is the one modelled.
- `evaluate()` is abstract, and callers supply its meaning. `parse_filter_data` is modelled up to the final `self.root_group.evaluate()`, and returns the tree. Only the test suite's string renderers are modelled, in `Rendering`, for `ParserFixture`.
- `Rendering.RenderGroup` uses a fuel bound on nesting depth. Rendering from the root never meets a cycle, since no group on a cycle hangs below the root (`Reachability.CyclesAreUnreachable`). Only a group of a cycle rendered on its own gives `None`, where the Python renderer recurses until the interpreter stops it.
- `Group.accumulator` is stored and never used, so it is not modelled.
- Python truthiness is modelled only for strings: a missing key (`None`) and `""` are falsy. `0`, `False`, `[]` and non-string values are not modelled, and neither are entries or bodies that are not dictionaries.
- `str.upper()` is modelled on ASCII letters only. Non-ASCII case mappings (such as `ß` becoming `SS`) are not modelled.
- The bare `KeyError`s become the distinct variants `InvalidConjunction`, `MissingPath`, `MissingValue`, `MissingConjunction` and `UnknownParent`. The exception message texts are not modelled.
- The `condition_class`/`group_class` factories, the class hierarchy and object identity are left out. Nodes are values built by `NewCondition`/`NewGroup`, and a group refers to a child by name.
- `ParseProperties.ParseOutcome`: assumes the entry names are distinct, as the keys of a Python dict are. The same holds for the other lemmas that require `Distinct(Names(d))`.
- The `"object"` key stored in each bucket is represented by the arena slot built from that bucket.
- A `FilterParser` keeps its state, so calling `parse_filter_data` twice on one instance appends to the same root node twice. The model parses from a fresh instance each time.
- The raw conjunction is stored in the bucket as written. It is uppercased only by the `Group` constructor during node creation (json_api_drupal_filters/filter_parser.py:82 and json_api_drupal_filters/filter_tree.py:38). The model follows the code in this, so `LinkPartition` speaks of raw conjunctions.
