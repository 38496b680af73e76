# SHACL generator test checks, modelled in Dafny

LinkML's SHACL generator turns a LinkML schema into a SHACL shapes graph. Its test
suite parses the generated Turtle with rdflib and checks the triples in three ways:

- `do_test` checks that a few fixed triples are present. For the kitchen-sink schema, `Person` is an
  `sh:NodeShape` and is `sh:closed` (`"true"^^xsd:boolean`), or `"false"` when the
  generator runs with `closed=False`.
- `assert_any_of` checks that each `any_of` class of the kitchen sink has a property
  shape whose `sh:or` list declares the expected alternatives. Those alternatives are datatypes (`sh:datatype`),
  classes (`sh:class`) or enumerations (`sh:in`, one `rdf:first` pair per value).
  The comparison counts each pair but ignores order.
- `_get_data_type` is the recursive walk that reads an `sh:or` list back. For each
  node it scans all triples, records leaf `rdf:first`, `sh:datatype` and `sh:class`
  pairs, and descends into blank-node `rdf:first` objects and into the objects of
  `sh:in` and `rdf:rest`.
- `check_slot_default_value` (the `ifabsent` test) checks that every shape whose
  `sh:path` is a given slot carries the expected `sh:defaultValue` literal.

The model has four modules:

- `Rdf`: terms (IRIs, blank nodes, literals with an optional datatype IRI), triples
  and the fixed vocabulary.
- `Collector`: the walk. It is a method with a loop, proved equal to a
  specification function `Collect`, together with the properties of `Collect`.
- `OrLists`: well-formed `sh:or` lists and enumerations, built as RDF collections
  (section 5.2 of RDF Schema 1.1), and what the walk collects from them.
- `ShaclTest`: the expected constants (`Expected`, `ExpectedClosed`,
  `ExpectedAnyOf`) and the checks `AssertAnyOf`, `DoTest` and
  `CheckSlotDefaultValue`. Each returns `true` exactly when the Python test
  passes.

A graph is the list of triples in the order rdflib enumerates them. The walk has no
guard against cycles. What stops a runaway walk in Python is the interpreter's
recursion limit, which raises `RecursionError` and fails the test. The model takes
this limit as a parameter `limit` that counts nested calls. `Collect` answers `None`
when the walk would need more than `limit` nested calls, so `None` stands for the
walk that raises. The schema itself is not part of this model, so the declarations
behind the kitchen-sink expectations are not known. Any declaration consistent with the
expected pairs, without an empty enumeration, needs at most eight nested calls
(`KitchenSinkAnyOfPasses`), far below Python's default limit.

## Model

| member | source | states |
|---|---|---|
| `Collector.GetDataType` | tests/test_generators/test_shaclgen.py:157-199 | the loop over all triples returns exactly `Collect` for the node and the recursion limit: the spliced list of pairs, or `None` when a nested call goes past the limit |
| `Collector.Recurse` | tests/test_generators/test_shaclgen.py:178-179 | a nested call raises (`None`) when no nesting is left, and otherwise returns the walk from the object with one level less |
| `Collector.CollectedPairs` | tests/test_generators/test_shaclgen.py:166-199 | every pair the walk returns has predicate `rdf:first`, `sh:datatype` or `sh:class` |
| `Collector.LeafContribution` | tests/test_generators/test_shaclgen.py:172-195 | a triple about the node records `(rdf:first, o)` for a literal or IRI `rdf:first` object, and `(predicate, o)` for `sh:datatype` and `sh:class` |
| `Collector.DescentContribution` | tests/test_generators/test_shaclgen.py:177-198 | a blank-node `rdf:first` object, an `sh:in` object and an `rdf:rest` object are replaced by the walk from that object one level deeper, and raise when no nesting is left |
| `Collector.InertContribution` | tests/test_generators/test_shaclgen.py:167-198 | a triple about another subject, or with any other predicate, contributes nothing |
| `Collector.SpliceConcat` | tests/test_generators/test_shaclgen.py:166-199 | the contributions are spliced in triple order: those of one stretch of the list come before those of the next |
| `Collector.SpliceAbort` | tests/test_generators/test_shaclgen.py:166-199 | once a nested call raises partway through the loop, the whole walk raises |
| `Collector.NoOutgoingYieldsNothing` | tests/test_generators/test_shaclgen.py:166-199 | a node that is the subject of no triple (such as `rdf:nil`) yields the empty list, whatever the limit |
| `Collector.FuelMonotone` | tests/test_generators/test_shaclgen.py:157-199 | a walk that finishes within a recursion limit returns the same list under every larger limit |
| `Collector.InsertUnreached` | tests/test_generators/test_shaclgen.py:166-199 | inserting, anywhere in the triple list, an inactive triple or one whose subject the walk does not reach by descending within the limit leaves the result unchanged |
| `Collector.PermutedGraph` | tests/test_generators/test_shaclgen.py:166-199 | reordering the triples changes at most the order of the pairs: the multiset of pairs, and whether the walk finishes, stay the same |
| `OrLists.SpliceActiveOut` | tests/test_generators/test_shaclgen.py:166-199 | only the triples about the node with one of the five predicates the walk reacts to determine its result |
| `OrLists.ValueListCollects` | tests/test_generators/test_shaclgen.py:170-176 | a well-formed list of enumeration values yields one `(rdf:first, value)` pair per value, given one nested call per cell |
| `OrLists.AltNodeCollects` | tests/test_generators/test_shaclgen.py:187-195 | the node of a datatype, class or `sh:in` alternative yields that alternative's expected pairs |
| `OrLists.OrListCollects` | tests/test_generators/test_shaclgen.py:157-199 | a well-formed `sh:or` list with any cell order, walked with a limit that covers its depth, yields exactly the multiset of the declared alternatives, with each enumeration flattened |
| `OrLists.FlattenUndeclare` | tests/test_generators/test_shaclgen.py:31-109 | every list of pairs the walk can return is the flattening of some list of alternatives |
| `OrLists.UndeclareFlatten` | tests/test_generators/test_shaclgen.py:31-109 | the alternatives are recovered from the flattened pairs when each enumeration has exactly one value |
| `OrLists.OrDepthBound` | tests/test_generators/test_shaclgen.py:166-199 | without empty enumerations, the walk over a well-formed `sh:or` list needs at most two nested calls more than the number of pairs it yields |
| `OrLists.FlatteningIsLossy` | tests/test_generators/test_shaclgen.py:64-81 | one two-value enumeration and two one-value enumerations are expected as the same pairs |
| `ShaclTest.AssertAnyOf` | tests/test_generators/test_shaclgen.py:135-154 | passes exactly when every expectation has a `sh:property`/`sh:or` chain and every such chain's walk finishes with the expected pairs counted as a multiset |
| `ShaclTest.TestShacl` | tests/test_generators/test_shaclgen.py:112-115 | the default generation passes exactly when `Person` is an `sh:NodeShape` with `sh:closed` `"true"^^xsd:boolean` and `assert_any_of` passes |
| `ShaclTest.TestShaclClosed` | tests/test_generators/test_shaclgen.py:118-121 | the generation with `closed=False` passes exactly when `Person` has `sh:closed` `"false"^^xsd:boolean` and `assert_any_of` passes |
| `ShaclTest.DoTest` | tests/test_generators/test_shaclgen.py:124-132 | passes exactly when every expected triple is in the graph and `assert_any_of` with the kitchen-sink expectations passes |
| `ShaclTest.CheckSlotDefaultValue` | tests/test_generators/test_shaclgen.py:208-210 | passes exactly when every shape with the slot as `sh:path` has the literal with that lexical form and datatype as `sh:defaultValue` |
| `ShaclTest.AnyOfPermutation` | tests/test_generators/test_shaclgen.py:135-154 | the outcome of `assert_any_of` does not depend on the order in which the triples are listed |
| `ShaclTest.ExpectedPairsUnordered` | tests/test_generators/test_shaclgen.py:151 | expected pairs listed in another order give the same outcome |
| `ShaclTest.MissingChainFails` | tests/test_generators/test_shaclgen.py:152-154 | an expectation without a chain fails the check |
| `ShaclTest.MismatchFails` | tests/test_generators/test_shaclgen.py:145-151 | one chain whose walk disagrees or raises fails the check, even if another chain agrees |
| `ShaclTest.WellFormedListsPass` | tests/test_generators/test_shaclgen.py:135-154 | if every chain leads to a well-formed `sh:or` list whose flattened alternatives are the expected pairs, within the limit, the check passes |
| `ShaclTest.ExpectedAnyOfDeclared` | tests/test_generators/test_shaclgen.py:31-109 | each kitchen-sink expectation is exactly the flattening of one declaration of alternatives (`Declared`), at most eight nested calls deep, so the premises of `KitchenSinkAnyOfPasses` can be met |
| `ShaclTest.AnyOfEnumsSplit` | tests/test_generators/test_shaclgen.py:58-79 | the `AnyOfEnums` pairs are also the flattening of two enumerations, the four codes and `"TODO"` |
| `ShaclTest.KitchenSinkAnyOfPasses` | tests/test_generators/test_shaclgen.py:31-154 | a graph whose chains for the four `any_of` classes are well-formed lists of any declarations consistent with the expected pairs, with no empty enumeration, passes with any limit of at least eight |
| `ShaclTest.DefaultValueVacuous` | tests/test_generators/test_shaclgen.py:208-210 | the default-value check passes when no shape uses the slot as `sh:path` |
| `ShaclTest.DefaultValueExact` | tests/test_generators/test_shaclgen.py:208-210 | where a shape uses the slot, a literal that differs in lexical form or datatype from its default fails the check |

## Left out

- The generator itself (`ShaclGenerator`, `ShaclDataType`) is not part of this model. `TestShacl` and `TestShaclClosed` take the generated triples as a parameter.
- `KitchenSinkAnyOfPasses` does not cover declarations with an empty enumeration: each one adds nesting without adding a pair, so no limit fixed in advance covers them all (`WellFormedListsPass` covers them with a limit of at least their depth).
- Parsing and serialising Turtle with rdflib is not modelled: the checks take the triple list as given. Graph membership (`in g`) is modelled as membership in that list.
- The calls of `check_slot_default_value` at lines 212-255 are left out. They turn Python values (strings, numbers, booleans, dates) into literals, and that conversion belongs to rdflib. The model takes the lexical form and the datatype IRI directly.
- The `print` before the failing assertion (line 153) and which assertion message pytest shows: only pass or fail is modelled.
- The shape validation noted as a TODO at line 130 does not exist in the source.
- Language-tagged literals and rdflib's other term kinds: a term is an IRI, a blank node or a literal with an optional datatype.
- The `sh:in` test nested in the IRI case of the `rdf:first` branch (lines 182-184) is left out. The predicate there is already `rdf:first`, so the test is never true and that case always records the pair.
- `Collector.GetDataType`: the recursion limit counts only nested calls of the walk. Python's limit also counts the frames of pytest and of the test functions.
