/** The checks the SHACL generator test runs on the triples of a generated shapes
    graph: the expected triples of the kitchen-sink schema, the `sh:or` comparison of
    `assert_any_of`, the driver `do_test`, and the `sh:defaultValue` check of the
    `ifabsent` test. A check answers `true` when the Python test passes and `false`
    when one of its assertions fails or a nested walk raises. */
module ShaclTest {
  import opened Rdf
  import opened Collector
  import opened OrLists

  /** One entry of the `sh:or` expectations: a node shape and the pairs its `sh:or`
      list must yield, compared as multisets. */
  datatype Expectation = Expectation(subject: Term, pairs: seq<Pair>)

  const KitchenSink := "https://w3id.org/linkml/tests/kitchen_sink/"
  const BizCodes := "https://example.org/bizcodes/"

  const Person := URIRef(KitchenSink + "Person")
  const Organization := URIRef(KitchenSink + "Organization")

  /** The triples the default generation must contain: `Person` is a closed node shape. */
  const Expected: seq<Triple> := [
    Triple(Person, RdfType, ShNodeShape),
    Triple(Person, ShClosed, Literal("true", Some(XsdBooleanIri)))
  ]

  /** The triple the generation with `closed=False` must contain. */
  const ExpectedClosed: seq<Triple> := [
    Triple(Person, ShClosed, Literal("false", Some(XsdBooleanIri)))
  ]

  function BizCode(n: string): Term {
    URIRef(BizCodes + n)
  }

  const Codes: seq<Term> := [BizCode("001"), BizCode("002"), BizCode("003"), BizCode("004")]

  /** The `sh:or` expectations for the four `any_of` classes of the kitchen sink. */
  const ExpectedAnyOf: seq<Expectation> := [
    Expectation(URIRef(KitchenSink + "AnyOfSimpleType"),
      [Pair(ShDatatype, XsdInteger), Pair(ShDatatype, XsdString)]),
    Expectation(URIRef(KitchenSink + "AnyOfClasses"),
      [Pair(ShClass, Person), Pair(ShClass, Organization)]),
    Expectation(URIRef(KitchenSink + "AnyOfEnums"),
      [Pair(RdfFirst, BizCode("001")), Pair(RdfFirst, BizCode("002")),
       Pair(RdfFirst, BizCode("003")), Pair(RdfFirst, BizCode("004")),
       Pair(RdfFirst, Literal("TODO", None))]),
    Expectation(URIRef(KitchenSink + "AnyOfMix"),
      [Pair(ShDatatype, XsdInteger), Pair(ShClass, Person),
       Pair(RdfFirst, BizCode("001")), Pair(RdfFirst, BizCode("002")),
       Pair(RdfFirst, BizCode("003")), Pair(RdfFirst, BizCode("004"))])
  ]

  /** For each `any_of` class, in the order of `ExpectedAnyOf`, one declaration of
      alternatives consistent with its expected pairs. The expected pairs do not fix the
      declaration: `AnyOfEnumsSplit` gives another one for `AnyOfEnums`. */
  const Declared: seq<seq<Alternative>> := [
    [Datatype(XsdInteger), Datatype(XsdString)],
    [Class(Person), Class(Organization)],
    [Enumeration(Codes + [Literal("TODO", None)])],
    [Datatype(XsdInteger), Class(Person), Enumeration(Codes)]
  ]

  /** `g[i]` is an `sh:property` triple of `subject` and `g[j]` is the `sh:or` triple
      of that property shape. */
  predicate Chain(g: seq<Triple>, subject: Term, i: int, j: int) {
    0 <= i < |g| && 0 <= j < |g| &&
    g[i].s == subject && g[i].p == ShProperty &&
    g[j].s == g[i].o && g[j].p == ShOr
  }

  /** `assert_any_of` finds an `sh:or` chain for `subject`. */
  ghost predicate HasChain(g: seq<Triple>, subject: Term) {
    exists i, j :: Chain(g, subject, i, j)
  }

  /** The `Counter` comparison: the walk finished and yields the expected pairs, each as
      often as expected, in any order. */
  predicate Agrees(o: Option<seq<Pair>>, pairs: seq<Pair>) {
    o.Some? && multiset(o.value) == multiset(pairs)
  }

  /** What `assert_any_of` demands of one expectation: some chain exists, and every
      chain, not just the first, yields the expected pairs. */
  ghost predicate Satisfied(e: Expectation, g: seq<Triple>, limit: nat) {
    HasChain(g, e.subject) &&
    forall i, j :: Chain(g, e.subject, i, j) ==> Agrees(Collect(g[j].o, g, limit), e.pairs)
  }

  ghost predicate AnyOfHolds(expected: seq<Expectation>, g: seq<Triple>, limit: nat) {
    forall k :: 0 <= k < |expected| ==> Satisfied(expected[k], g, limit)
  }

  /** `assert_any_of`: `ok` is whether the Python function returns without an
      assertion failing and without a nested walk raising. */
  method AssertAnyOf(expected: seq<Expectation>, triples: seq<Triple>, limit: nat) returns (ok: bool)
    ensures ok == AnyOfHolds(expected, triples, limit)
  {
    for k := 0 to |expected|
      invariant forall k' :: 0 <= k' < k ==> Satisfied(expected[k'], triples, limit)
    {
      var ex := expected[k];
      var found := false;
      for i := 0 to |triples|
        invariant found <==> exists i', j :: i' < i && Chain(triples, ex.subject, i', j)
        invariant forall i', j :: i' < i && Chain(triples, ex.subject, i', j) ==>
                    Agrees(Collect(triples[j].o, triples, limit), ex.pairs)
      {
        var propertyTriple := triples[i];
        if propertyTriple.s == ex.subject && propertyTriple.p == ShProperty {
          ghost var foundBefore := found;
          for j := 0 to |triples|
            invariant found <==> foundBefore || exists j' :: j' < j && Chain(triples, ex.subject, i, j')
            invariant forall j' :: j' < j && Chain(triples, ex.subject, i, j') ==>
                        Agrees(Collect(triples[j'].o, triples, limit), ex.pairs)
          {
            var orTriple := triples[j];
            if orTriple.s == propertyTriple.o && orTriple.p == ShOr {
              found := true;
              assert Chain(triples, ex.subject, i, j);
              var got := GetDataType(orTriple.o, triples, limit);
              if got.None? || multiset(got.value) != multiset(ex.pairs) {
                assert !Satisfied(expected[k], triples, limit);
                return false;
              }
            }
          }
        }
      }
      if !found {
        assert !Satisfied(expected[k], triples, limit);
        return false;
      }
    }
    return true;
  }

  /** `test_shacl`: the default generation of the kitchen sink makes `Person` a closed
      node shape and passes `assert_any_of`. */
  method TestShacl(generated: seq<Triple>, limit: nat) returns (ok: bool)
    ensures ok == (Triple(Person, RdfType, ShNodeShape) in generated &&
                   Triple(Person, ShClosed, Literal("true", Some(XsdBooleanIri))) in generated &&
                   AnyOfHolds(ExpectedAnyOf, generated, limit))
  {
    ok := DoTest(Expected, generated, limit);
    assert (forall k :: 0 <= k < |Expected| ==> Expected[k] in generated) <==>
           (Expected[0] in generated && Expected[1] in generated);
  }

  /** `test_shacl_closed`: the generation with `closed=False` marks `Person` as not
      closed and passes `assert_any_of`. */
  method TestShaclClosed(generated: seq<Triple>, limit: nat) returns (ok: bool)
    ensures ok == (Triple(Person, ShClosed, Literal("false", Some(XsdBooleanIri))) in generated &&
                   AnyOfHolds(ExpectedAnyOf, generated, limit))
  {
    ok := DoTest(ExpectedClosed, generated, limit);
    assert (forall k :: 0 <= k < |ExpectedClosed| ==> ExpectedClosed[k] in generated) <==>
           ExpectedClosed[0] in generated;
  }

  /** `do_test`: every expected triple is in the graph, then `assert_any_of` with the
      `sh:or` expectations of the kitchen sink. */
  method DoTest(expected: seq<Triple>, triples: seq<Triple>, limit: nat) returns (ok: bool)
    ensures ok == ((forall k :: 0 <= k < |expected| ==> expected[k] in triples) &&
                   AnyOfHolds(ExpectedAnyOf, triples, limit))
  {
    for k := 0 to |expected|
      invariant forall k' :: 0 <= k' < k ==> expected[k'] in triples
    {
      if expected[k] !in triples {
        return false;
      }
    }
    ok := AssertAnyOf(ExpectedAnyOf, triples, limit);
  }

  /** What `check_slot_default_value` demands: every shape whose `sh:path` is `slot`
      carries `value` as its `sh:defaultValue`. */
  ghost predicate DefaultValueHolds(g: seq<Triple>, slot: Term, value: Term) {
    forall t :: t in g && t.p == ShPath && t.o == slot ==> Triple(t.s, ShDefaultValue, value) in g
  }

  /** `check_slot_default_value`, with the default already in its lexical form `lex`
      and `dt` the optional datatype IRI of the literal it builds. */
  method CheckSlotDefaultValue(g: seq<Triple>, slot: Term, lex: string, dt: Option<string>)
    returns (ok: bool)
    ensures ok == DefaultValueHolds(g, slot, Literal(lex, dt))
  {
    var value := Literal(lex, dt);
    for i := 0 to |g|
      invariant forall i' :: 0 <= i' < i && g[i'].p == ShPath && g[i'].o == slot ==>
                  Triple(g[i'].s, ShDefaultValue, value) in g
    {
      var t := g[i];
      if t.p == ShPath && t.o == slot && Triple(t.s, ShDefaultValue, value) !in g {
        return false;
      }
    }
    return true;
  }

  /** The outcome of `assert_any_of` does not depend on the order in which rdflib
      enumerates the triples. */
  lemma AnyOfPermutation(expected: seq<Expectation>, g: seq<Triple>, h: seq<Triple>, limit: nat)
    requires multiset(g) == multiset(h)
    ensures AnyOfHolds(expected, g, limit) == AnyOfHolds(expected, h, limit)
  {
    forall k | 0 <= k < |expected|
      ensures Satisfied(expected[k], g, limit) == Satisfied(expected[k], h, limit)
    {
      if Satisfied(expected[k], g, limit) {
        SatisfiedTransfer(expected[k], g, h, limit);
      }
      if Satisfied(expected[k], h, limit) {
        SatisfiedTransfer(expected[k], h, g, limit);
      }
    }
  }

  /** The position in `h` of a triple of `g`, for two enumerations of the same triples. */
  lemma IndexIn(g: seq<Triple>, h: seq<Triple>, i: int) returns (i': int)
    requires multiset(g) == multiset(h) && 0 <= i < |g|
    ensures 0 <= i' < |h| && h[i'] == g[i]
  {
    assert g[i] in multiset(h);
    i' :| 0 <= i' < |h| && h[i'] == g[i];
  }

  lemma SatisfiedTransfer(e: Expectation, g: seq<Triple>, h: seq<Triple>, limit: nat)
    requires multiset(g) == multiset(h)
    requires Satisfied(e, g, limit)
    ensures Satisfied(e, h, limit)
  {
    var i, j :| Chain(g, e.subject, i, j);
    var i' := IndexIn(g, h, i);
    var j' := IndexIn(g, h, j);
    assert Chain(h, e.subject, i', j');
    forall a, b | Chain(h, e.subject, a, b)
      ensures Agrees(Collect(h[b].o, h, limit), e.pairs)
    {
      var a' := IndexIn(h, g, a);
      var b' := IndexIn(h, g, b);
      assert Chain(g, e.subject, a', b');
      PermutedGraph(h[b].o, g, h, limit);
    }
  }

  /** The pairs of an expectation are compared as a multiset: listing them in another
      order changes nothing, but dropping or repeating one does. */
  lemma ExpectedPairsUnordered(e: Expectation, f: Expectation, g: seq<Triple>, limit: nat)
    requires e.subject == f.subject && multiset(e.pairs) == multiset(f.pairs)
    ensures Satisfied(e, g, limit) == Satisfied(f, g, limit)
  {
  }

  /** An expectation whose node shape has no `sh:property` leading to an `sh:or`
      fails the whole check. */
  lemma MissingChainFails(expected: seq<Expectation>, g: seq<Triple>, limit: nat, k: int)
    requires 0 <= k < |expected|
    requires !HasChain(g, expected[k].subject)
    ensures !AnyOfHolds(expected, g, limit)
  {
    assert !Satisfied(expected[k], g, limit);
  }

  /** One chain that disagrees fails the check, whatever the other chains yield. */
  lemma MismatchFails(expected: seq<Expectation>, g: seq<Triple>, limit: nat, k: int, i: int, j: int)
    requires 0 <= k < |expected|
    requires Chain(g, expected[k].subject, i, j)
    requires !Agrees(Collect(g[j].o, g, limit), expected[k].pairs)
    ensures !AnyOfHolds(expected, g, limit)
  {
    assert !Satisfied(expected[k], g, limit);
  }

  /** When every expected shape has an `sh:or` chain and each of its chains leads to a
      well-formed list declaring alternatives whose flattening has the expected pairs,
      and the recursion limit covers the depth of those lists, the check passes. */
  lemma WellFormedListsPass(expected: seq<Expectation>, decl: seq<seq<Alternative>>,
                            g: seq<Triple>, limit: nat)
    requires |decl| == |expected|
    requires forall k :: 0 <= k < |expected| ==> HasChain(g, expected[k].subject)
    requires forall k, i, j :: 0 <= k < |expected| && Chain(g, expected[k].subject, i, j) ==>
               IsOrList(g, g[j].o, decl[k])
    requires forall k :: 0 <= k < |expected| ==>
               multiset(Flatten(decl[k])) == multiset(expected[k].pairs) && OrDepth(decl[k]) <= limit
    ensures AnyOfHolds(expected, g, limit)
  {
    forall k, i, j | 0 <= k < |expected| && Chain(g, expected[k].subject, i, j)
      ensures Agrees(Collect(g[j].o, g, limit), expected[k].pairs)
    {
      OrListCollects(g, g[j].o, decl[k], limit);
    }
  }

  /** Each `sh:or` expectation of the kitchen sink is the flattening of the declaration
      in `Declared`, at most eight calls deep. */
  lemma ExpectedAnyOfDeclared()
    ensures |Declared| == |ExpectedAnyOf|
    ensures forall k :: 0 <= k < |Declared| ==>
              Flatten(Declared[k]) == ExpectedAnyOf[k].pairs && OrDepth(Declared[k]) <= 8
  {
    DeclaredSimpleType();
    DeclaredClasses();
    DeclaredEnums();
    DeclaredMix();
  }

  /** `AnyOfEnums` may as well declare the codes and `"TODO"` as two enumerations:
      their flattening is the same expected pairs. */
  lemma AnyOfEnumsSplit()
    ensures Flatten([Enumeration(Codes), Enumeration([Literal("TODO", None)])]) == ExpectedAnyOf[2].pairs
  {
    var todo := Literal("TODO", None);
    CodesPairs();
    EnumPrepend(todo, []);
    FlattenPrepend(Enumeration([todo]), []);
    FlattenPrepend(Enumeration(Codes), [Enumeration([todo])]);
    assert [Enumeration(Codes), Enumeration([todo])] == [Enumeration(Codes)] + [Enumeration([todo])];
    assert [Enumeration([todo])] == [Enumeration([todo])] + [];
  }

  /** A generated graph whose `sh:or` chains for the four `any_of` classes are
      well-formed lists of any declarations `decl` consistent with the expected pairs,
      with no empty enumeration, passes `assert_any_of` with any recursion limit of at
      least eight nested calls. */
  lemma KitchenSinkAnyOfPasses(decl: seq<seq<Alternative>>, g: seq<Triple>, limit: nat)
    requires limit >= 8
    requires |decl| == |ExpectedAnyOf|
    requires forall k :: 0 <= k < |decl| ==>
               NoEmptyEnumeration(decl[k]) && multiset(Flatten(decl[k])) == multiset(ExpectedAnyOf[k].pairs)
    requires forall k :: 0 <= k < |ExpectedAnyOf| ==> HasChain(g, ExpectedAnyOf[k].subject)
    requires forall k, i, j :: 0 <= k < |ExpectedAnyOf| && Chain(g, ExpectedAnyOf[k].subject, i, j) ==>
               IsOrList(g, g[j].o, decl[k])
    ensures AnyOfHolds(ExpectedAnyOf, g, limit)
  {
    forall k | 0 <= k < |decl|
      ensures OrDepth(decl[k]) <= limit
    {
      OrDepthBound(decl[k]);
      assert |Flatten(decl[k])| == |multiset(Flatten(decl[k]))| == |ExpectedAnyOf[k].pairs|;
      assert |ExpectedAnyOf[k].pairs| <= 6;
    }
    WellFormedListsPass(ExpectedAnyOf, decl, g, limit);
  }

  lemma DeclaredSimpleType()
    ensures Flatten(Declared[0]) == ExpectedAnyOf[0].pairs && OrDepth(Declared[0]) <= 8
  {
    var integer, str := Datatype(XsdInteger), Datatype(XsdString);
    FlattenPrepend(str, []);
    FlattenPrepend(integer, [str]);
    assert Declared[0] == [integer] + [str];
  }

  lemma DeclaredClasses()
    ensures Flatten(Declared[1]) == ExpectedAnyOf[1].pairs && OrDepth(Declared[1]) <= 8
  {
    var person, org := Class(Person), Class(Organization);
    FlattenPrepend(org, []);
    FlattenPrepend(person, [org]);
    assert Declared[1] == [person] + [org];
  }

  lemma CodesPairs()
    ensures EnumPairs(Codes) == [Pair(RdfFirst, BizCode("001")), Pair(RdfFirst, BizCode("002")),
                                 Pair(RdfFirst, BizCode("003")), Pair(RdfFirst, BizCode("004"))]
    ensures |Codes| == 4
  {
    EnumPrepend(BizCode("004"), []);
    EnumPrepend(BizCode("003"), [BizCode("004")]);
    EnumPrepend(BizCode("002"), [BizCode("003"), BizCode("004")]);
    EnumPrepend(BizCode("001"), [BizCode("002"), BizCode("003"), BizCode("004")]);
    assert Codes == [BizCode("001")] + ([BizCode("002")] + ([BizCode("003")] + ([BizCode("004")] + [])));
  }

  lemma DeclaredEnums()
    ensures Flatten(Declared[2]) == ExpectedAnyOf[2].pairs && OrDepth(Declared[2]) <= 8
  {
    var todo := Literal("TODO", None);
    CodesPairs();
    EnumConcat(Codes, [todo]);
    EnumPrepend(todo, []);
    FlattenPrepend(Enumeration(Codes + [todo]), []);
    assert Declared[2] == [Enumeration(Codes + [todo])] + [];
  }

  lemma DeclaredMix()
    ensures Flatten(Declared[3]) == ExpectedAnyOf[3].pairs && OrDepth(Declared[3]) <= 8
  {
    var integer, person, codes := Datatype(XsdInteger), Class(Person), Enumeration(Codes);
    CodesPairs();
    FlattenPrepend(codes, []);
    FlattenPrepend(person, [codes]);
    FlattenPrepend(integer, [person, codes]);
    assert Declared[3] == [integer] + [person, codes];
    assert [person, codes] == [person] + [codes];
    assert [codes] == [codes] + [];
  }

  lemma EnumPrepend(v: Term, vs: seq<Term>)
    ensures EnumPairs([v] + vs) == [Pair(RdfFirst, v)] + EnumPairs(vs)
  {
    assert ([v] + vs)[1..] == vs;
  }

  lemma {:induction false} EnumConcat(vs: seq<Term>, ws: seq<Term>)
    ensures EnumPairs(vs + ws) == EnumPairs(vs) + EnumPairs(ws)
  {
    if vs == [] {
      assert vs + ws == ws;
    } else {
      assert (vs + ws)[1..] == vs[1..] + ws;
      EnumConcat(vs[1..], ws);
    }
  }

  /** A default-value check for a slot that no shape uses as `sh:path` passes,
      whatever the default. */
  lemma DefaultValueVacuous(g: seq<Triple>, slot: Term, value: Term)
    requires forall t :: t in g ==> !(t.p == ShPath && t.o == slot)
    ensures DefaultValueHolds(g, slot, value)
  {
  }

  /** Where a shape uses the slot as `sh:path`, the default must be that exact literal:
      one with another lexical form or another datatype does not do. */
  lemma DefaultValueExact(g: seq<Triple>, slot: Term, shape: Term, lex: string, dt: Option<string>,
                          lex': string, dt': Option<string>)
    requires Triple(shape, ShPath, slot) in g
    requires forall t :: t in g && t.s == shape && t.p == ShDefaultValue ==> t.o == Literal(lex, dt)
    requires lex != lex' || dt != dt'
    ensures !DefaultValueHolds(g, slot, Literal(lex', dt'))
  {
  }
}
