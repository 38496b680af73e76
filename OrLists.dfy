/** Well-formed `sh:or` lists (section 4.6.3 of the W3C SHACL Recommendation), built as
    RDF collections (section 5.2 of RDF Schema 1.1), and what the walk of `Collector`
    reads back from them. The alternatives a schema slot may declare are a datatype
    (`sh:datatype`, SHACL 4.1.2), a class (`sh:class`, SHACL 4.1.1) or an enumeration
    of values (`sh:in`, SHACL 4.8.3, itself an RDF collection). */
module OrLists {
  import opened Rdf
  import opened Collector

  datatype Alternative =
    | Datatype(iri: Term)
    | Class(iri: Term)
    | Enumeration(values: seq<Term>)

  /** The pairs the test expects for one enumeration: one `rdf:first` pair per value. */
  function EnumPairs(vs: seq<Term>): seq<Pair> {
    if vs == [] then [] else [Pair(RdfFirst, vs[0])] + EnumPairs(vs[1..])
  }

  function AltPairs(a: Alternative): seq<Pair> {
    match a
    case Datatype(d) => [Pair(ShDatatype, d)]
    case Class(c) => [Pair(ShClass, c)]
    case Enumeration(vs) => EnumPairs(vs)
  }

  /** The expected pairs of a list of alternatives: enumerations are flattened. */
  function Flatten(alts: seq<Alternative>): seq<Pair> {
    if alts == [] then [] else AltPairs(alts[0]) + Flatten(alts[1..])
  }

  /** The alternative one collected pair stands for; an `rdf:first` pair is read as an
      enumeration of that one value. */
  function Undeclare(p: Pair): Alternative {
    if p.p == ShDatatype then Datatype(p.o)
    else if p.p == ShClass then Class(p.o)
    else Enumeration([p.o])
  }

  function UndeclareAll(ps: seq<Pair>): seq<Alternative> {
    if ps == [] then [] else [Undeclare(ps[0])] + UndeclareAll(ps[1..])
  }

  /** Every list of pairs the walk can return is the flattening of some alternatives:
      reading pairs back as alternatives and flattening them again is the identity. */
  lemma {:induction false} FlattenUndeclare(ps: seq<Pair>)
    requires AllCollected(ps)
    ensures Flatten(UndeclareAll(ps)) == ps
  {
    if ps != [] {
      var p, tail := ps[0], ps[1..];
      assert Collected(p.p);
      AllCollectedTail(ps);
      FlattenUndeclare(tail);
      assert UndeclareAll(ps) == [Undeclare(p)] + UndeclareAll(tail);
      FlattenPrepend(Undeclare(p), UndeclareAll(tail));
      UndeclareLeaf(p);
      assert ps == [p] + tail;
    }
  }

  lemma AllCollectedTail(ps: seq<Pair>)
    requires AllCollected(ps) && ps != []
    ensures AllCollected(ps[1..])
  {
    forall k | 0 <= k < |ps[1..]| ensures Collected(ps[1..][k].p) {
      assert ps[1..][k] == ps[k + 1];
    }
  }

  /** A collected pair is read back as the alternative that yields exactly that pair. */
  lemma UndeclareLeaf(p: Pair)
    requires Collected(p.p)
    ensures AltPairs(Undeclare(p)) == [p]
  {
    if p.p == RdfFirst {
      assert [p.o][1..] == [];
      assert EnumPairs([p.o]) == [Pair(RdfFirst, p.o)] + EnumPairs([]);
    }
  }

  lemma FlattenPrepend(a: Alternative, alts: seq<Alternative>)
    ensures Flatten([a] + alts) == AltPairs(a) + Flatten(alts)
    ensures OrDepth([a] + alts) == 1 + Max(AltDepth(a), OrDepth(alts))
  {
    assert ([a] + alts)[1..] == alts;
  }

  predicate SingletonEnumerations(alts: seq<Alternative>) {
    forall k :: 0 <= k < |alts| && alts[k].Enumeration? ==> |alts[k].values| == 1
  }

  /** The other direction holds only when no enumeration has other than one value:
      flattening forgets where one enumeration ends and the next begins. */
  lemma {:induction false} UndeclareFlatten(alts: seq<Alternative>)
    requires SingletonEnumerations(alts)
    ensures UndeclareAll(Flatten(alts)) == alts
  {
    if alts != [] {
      var a := alts[0];
      assert SingletonEnumerations(alts[1..]) by {
        forall k | 0 <= k < |alts[1..]| && alts[1..][k].Enumeration?
          ensures |alts[1..][k].values| == 1
        {
          assert alts[1..][k] == alts[k + 1];
        }
      }
      UndeclareFlatten(alts[1..]);
      UndeclareConcat(AltPairs(a), Flatten(alts[1..]));
      match a
      case Datatype(d) =>
      case Class(c) =>
      case Enumeration(vs) =>
        assert |vs| == 1;
        assert vs == [vs[0]];
        assert EnumPairs(vs[1..]) == [];
    }
  }

  lemma {:induction false} UndeclareConcat(ps: seq<Pair>, qs: seq<Pair>)
    ensures UndeclareAll(ps + qs) == UndeclareAll(ps) + UndeclareAll(qs)
  {
    if ps == [] {
      assert ps + qs == qs;
    } else {
      assert (ps + qs)[0] == ps[0];
      assert (ps + qs)[1..] == ps[1..] + qs;
      UndeclareConcat(ps[1..], qs);
    }
  }

  /** Flattening forgets where one enumeration ends and the next begins: one
      enumeration of two values and two enumerations of one value each are expected
      as the same pairs. */
  lemma FlatteningIsLossy(a: Term, b: Term)
    ensures Flatten([Enumeration([a, b])]) == Flatten([Enumeration([a]), Enumeration([b])])
    ensures [Enumeration([a, b])] != [Enumeration([a]), Enumeration([b])]
  {
    var pa, pb := Pair(RdfFirst, a), Pair(RdfFirst, b);
    assert EnumPairs([b]) == [pb] by {
      assert [b][1..] == [];
    }
    assert EnumPairs([a]) == [pa] by {
      assert [a][1..] == [];
    }
    assert EnumPairs([a, b]) == [pa, pb] by {
      assert [a, b][1..] == [b];
      assert EnumPairs([a, b]) == [pa] + EnumPairs([b]);
    }
    var one, two := [Enumeration([a, b])], [Enumeration([a]), Enumeration([b])];
    assert one[1..] == [] && two[1..] == [Enumeration([b])] && two[1..][1..] == [];
    assert Flatten(one) == [pa, pb] + [];
    assert Flatten(two) == [pa] + ([pb] + []);
  }

  /** The triples of `g` about `n` that the walk reacts to, in list order. */
  ghost function ActiveOut(g: seq<Triple>, n: Term): seq<Triple>
  {
    if g == [] then []
    else ActiveOut(g[..|g| - 1], n)
         + (if g[|g| - 1].s == n && Active(g[|g| - 1].p) then [g[|g| - 1]] else [])
  }

  /** Only the triples about `node` with a predicate the walk reacts to matter. */
  lemma {:induction false} SpliceActiveOut(node: Term, ts: seq<Triple>, g: seq<Triple>, fuel: nat)
    ensures Splice(node, ts, g, fuel) == Splice(node, ActiveOut(ts, node), g, fuel)
    decreases |ts|
  {
    if ts != [] {
      var init, x := ts[..|ts| - 1], ts[|ts| - 1];
      assert ts == init + [x];
      SpliceActiveOut(node, init, g, fuel);
      SpliceSnoc(node, init, x, g, fuel);
      if x.s == node && Active(x.p) {
        SpliceSnoc(node, ActiveOut(init, node), x, g, fuel);
      } else {
        InertContribution(node, x, g, fuel);
        assert ActiveOut(ts, node) == ActiveOut(init, node);
        var a := Splice(node, init, g, fuel);
        if a.Some? {
          assert a.value + [] == a.value;
        }
      }
    }
  }

  /** A node with exactly one active triple yields what that triple contributes. */
  lemma OneActive(node: Term, a: Triple, g: seq<Triple>, fuel: nat)
    requires ActiveOut(g, node) == [a]
    ensures Collect(node, g, fuel) == Contribution(node, a, g, fuel)
  {
    SpliceActiveOut(node, g, g, fuel);
    SpliceSnoc(node, [], a, g, fuel);
    assert [] + [a] == [a];
    var c := Contribution(node, a, g, fuel);
    if c.Some? {
      assert [] + c.value == c.value;
    }
  }

  /** A node whose one active triple descends yields the walk one level deeper. */
  lemma SingleDescent(node: Term, t: Triple, g: seq<Triple>, fuel: nat)
    requires ActiveOut(g, node) == [t] && t.s == node && Descends(t) && fuel >= 1
    ensures Collect(node, g, fuel) == Collect(t.o, g, fuel - 1)
  {
    OneActive(node, t, g, fuel);
    DescentContribution(node, t, g, fuel);
  }

  /** A node with exactly two active triples, in either order, yields the multiset union
      of what they contribute. */
  lemma TwoActive(node: Term, a: Triple, b: Triple, g: seq<Triple>, fuel: nat)
    requires multiset(ActiveOut(g, node)) == multiset{a, b}
    ensures BagOf(Collect(node, g, fuel))
         == BagSum(BagOf(Contribution(node, a, g, fuel)), BagOf(Contribution(node, b, g, fuel)))
  {
    SpliceActiveOut(node, g, g, fuel);
    assert multiset([a, b]) == multiset{a, b};
    SplicePermuted(node, ActiveOut(g, node), [a, b], g, fuel);
    SpliceSnoc(node, [], a, g, fuel);
    SpliceSnoc(node, [a], b, g, fuel);
    assert [] + [a] == [a] && [a] + [b] == [a, b];
    var ca, cb := Contribution(node, a, g, fuel), Contribution(node, b, g, fuel);
    BagOfAppend(Some([]), ca);
    BagOfAppend(Append(Some([]), ca), cb);
    if ca.Some? {
      assert [] + ca.value == ca.value;
    }
  }

  /** `head` starts a well-formed list of the enumeration values `vs`: each cell has
      one `rdf:first` to a value that is not a blank node and one `rdf:rest`, in either
      order and beside any number of ignored triples, and the chain ends at `rdf:nil`,
      which is the subject of no such triple. */
  ghost predicate IsValueList(g: seq<Triple>, head: Term, vs: seq<Term>)
    decreases |vs|
  {
    if vs == [] then head == RdfNil && ActiveOut(g, head) == []
    else
      !vs[0].BNode? &&
      exists next :: IsValueList(g, next, vs[1..]) &&
        multiset(ActiveOut(g, head)) == multiset{Triple(head, RdfFirst, vs[0]), Triple(head, RdfRest, next)}
  }

  /** `v` is the blank node standing for alternative `a` inside an `sh:or` list. */
  ghost predicate IsAltNode(g: seq<Triple>, v: Term, a: Alternative) {
    match a
    case Datatype(d) => ActiveOut(g, v) == [Triple(v, ShDatatype, d)]
    case Class(c) => ActiveOut(g, v) == [Triple(v, ShClass, c)]
    case Enumeration(vs) =>
      exists h :: IsValueList(g, h, vs) && ActiveOut(g, v) == [Triple(v, ShIn, h)]
  }

  /** `head` starts a well-formed `sh:or` list of the alternatives `alts`. */
  ghost predicate IsOrList(g: seq<Triple>, head: Term, alts: seq<Alternative>)
    decreases |alts|
  {
    if alts == [] then head == RdfNil && ActiveOut(g, head) == []
    else
      exists v: Term, next: Term :: v.BNode? && IsAltNode(g, v, alts[0]) && IsOrList(g, next, alts[1..]) &&
        multiset(ActiveOut(g, head)) == multiset{Triple(head, RdfFirst, v), Triple(head, RdfRest, next)}
  }

  function Max(a: nat, b: nat): nat {
    if a < b then b else a
  }

  /** The nesting depth of the walk over an alternative's node. */
  function AltDepth(a: Alternative): nat {
    if a.Enumeration? then 1 + |a.values| else 0
  }

  /** The nesting depth of the walk over a well-formed `sh:or` list. */
  function OrDepth(alts: seq<Alternative>): nat {
    if alts == [] then 0 else 1 + Max(AltDepth(alts[0]), OrDepth(alts[1..]))
  }

  /** Every alternative stands for at least one pair: no enumeration is empty. */
  predicate NoEmptyEnumeration(alts: seq<Alternative>) {
    forall k :: 0 <= k < |alts| ==> AltPairs(alts[k]) != []
  }

  lemma {:induction false} EnumPairsLength(vs: seq<Term>)
    ensures |EnumPairs(vs)| == |vs|
  {
    if vs != [] {
      EnumPairsLength(vs[1..]);
    }
  }

  /** Without empty enumerations, the walk over a well-formed `sh:or` list needs at most
      two nested calls more than the number of pairs it yields. */
  lemma {:induction false} OrDepthBound(alts: seq<Alternative>)
    requires NoEmptyEnumeration(alts)
    ensures OrDepth(alts) <= |Flatten(alts)| + 2
  {
    if alts != [] {
      var a, rest := alts[0], alts[1..];
      assert NoEmptyEnumeration(rest) by {
        forall k | 0 <= k < |rest| ensures AltPairs(rest[k]) != [] {
          assert rest[k] == alts[k + 1];
        }
      }
      OrDepthBound(rest);
      assert AltPairs(a) != [];
      if a.Enumeration? {
        EnumPairsLength(a.values);
      }
    }
  }

  /** For a well-formed list of enumeration values and enough fuel for its length, the
      walk finishes and collects one `rdf:first` pair per value. */
  lemma {:induction false} ValueListCollects(g: seq<Triple>, head: Term, vs: seq<Term>, fuel: nat)
    requires IsValueList(g, head, vs)
    requires fuel >= |vs|
    ensures BagOf(Collect(head, g, fuel)) == Some(multiset(EnumPairs(vs)))
    decreases |vs|
  {
    if vs == [] {
      NothingActive(g, head, fuel);
    } else {
      var next := ValueListNext(g, head, vs);
      var tail, less: nat := vs[1..], fuel - 1;
      ValueListCollects(g, next, tail, less);
      ValueCellCollects(g, head, vs, next, fuel);
    }
  }

  /** The node after the first cell of a non-empty value list. */
  lemma ValueListNext(g: seq<Triple>, head: Term, vs: seq<Term>) returns (next: Term)
    requires IsValueList(g, head, vs) && vs != []
    ensures !vs[0].BNode? && IsValueList(g, next, vs[1..])
    ensures multiset(ActiveOut(g, head)) == multiset{Triple(head, RdfFirst, vs[0]), Triple(head, RdfRest, next)}
  {
    next :| IsValueList(g, next, vs[1..]) &&
      multiset(ActiveOut(g, head)) == multiset{Triple(head, RdfFirst, vs[0]), Triple(head, RdfRest, next)};
  }

  /** A node with no active triple, such as the `rdf:nil` that ends a list, yields no pair. */
  lemma NothingActive(g: seq<Triple>, node: Term, fuel: nat)
    requires ActiveOut(g, node) == []
    ensures Collect(node, g, fuel) == Some([])
  {
    SpliceActiveOut(node, g, g, fuel);
  }

  /** One cell of a value list, given what the rest of the list yields. */
  lemma ValueCellCollects(g: seq<Triple>, head: Term, vs: seq<Term>, next: Term, fuel: nat)
    requires vs != [] && !vs[0].BNode? && fuel >= 1
    requires multiset(ActiveOut(g, head)) == multiset{Triple(head, RdfFirst, vs[0]), Triple(head, RdfRest, next)}
    requires BagOf(Collect(next, g, fuel - 1)) == Some(multiset(EnumPairs(vs[1..])))
    ensures BagOf(Collect(head, g, fuel)) == Some(multiset(EnumPairs(vs)))
  {
    var first := Triple(head, RdfFirst, vs[0]);
    LeafContribution(head, first, g, fuel);
    assert BagOf(Contribution(head, first, g, fuel)) == Some(multiset{Pair(RdfFirst, vs[0])});
    assert EnumPairs(vs) == [Pair(RdfFirst, vs[0])] + EnumPairs(vs[1..]);
    CellCollects(g, head, first, next, multiset{Pair(RdfFirst, vs[0])}, multiset(EnumPairs(vs[1..])), fuel);
  }

  /** One list cell whose `rdf:first` triple contributes the pairs `here` and whose
      `rdf:rest` leads to a node that yields `rest`. */
  lemma CellCollects(g: seq<Triple>, head: Term, first: Triple, next: Term,
                     here: multiset<Pair>, rest: multiset<Pair>, fuel: nat)
    requires fuel >= 1
    requires multiset(ActiveOut(g, head)) == multiset{first, Triple(head, RdfRest, next)}
    requires BagOf(Contribution(head, first, g, fuel)) == Some(here)
    requires BagOf(Collect(next, g, fuel - 1)) == Some(rest)
    ensures BagOf(Collect(head, g, fuel)) == Some(here + rest)
  {
    var link := Triple(head, RdfRest, next);
    TwoActive(head, first, link, g, fuel);
    DescentContribution(head, link, g, fuel);
  }

  lemma AltNodeCollects(g: seq<Triple>, v: Term, a: Alternative, fuel: nat)
    requires IsAltNode(g, v, a)
    requires fuel >= AltDepth(a)
    ensures BagOf(Collect(v, g, fuel)) == Some(multiset(AltPairs(a)))
  {
    match a
    case Datatype(d) =>
      OneActive(v, Triple(v, ShDatatype, d), g, fuel);
      LeafContribution(v, Triple(v, ShDatatype, d), g, fuel);
    case Class(c) =>
      OneActive(v, Triple(v, ShClass, c), g, fuel);
      LeafContribution(v, Triple(v, ShClass, c), g, fuel);
    case Enumeration(vs) =>
      var h := EnumerationList(g, v, vs);
      EnumerationCollects(g, v, vs, h, fuel);
  }

  /** The head of the value list of an enumeration node. */
  lemma EnumerationList(g: seq<Triple>, v: Term, vs: seq<Term>) returns (h: Term)
    requires IsAltNode(g, v, Enumeration(vs))
    ensures IsValueList(g, h, vs) && ActiveOut(g, v) == [Triple(v, ShIn, h)]
  {
    h :| IsValueList(g, h, vs) && ActiveOut(g, v) == [Triple(v, ShIn, h)];
  }

  lemma EnumerationCollects(g: seq<Triple>, v: Term, vs: seq<Term>, h: Term, fuel: nat)
    requires IsValueList(g, h, vs) && ActiveOut(g, v) == [Triple(v, ShIn, h)]
    requires fuel >= 1 + |vs|
    ensures BagOf(Collect(v, g, fuel)) == Some(multiset(EnumPairs(vs)))
  {
    SingleDescent(v, Triple(v, ShIn, h), g, fuel);
    ValueListCollects(g, h, vs, fuel - 1);
  }

  /** One cell of an `sh:or` list: its `rdf:first` leads to the node of alternative `a`. */
  lemma OrCellCollects(g: seq<Triple>, head: Term, v: Term, next: Term, a: Alternative,
                       rest: multiset<Pair>, fuel: nat)
    requires v.BNode? && IsAltNode(g, v, a)
    requires multiset(ActiveOut(g, head)) == multiset{Triple(head, RdfFirst, v), Triple(head, RdfRest, next)}
    requires fuel >= 1 + AltDepth(a)
    requires BagOf(Collect(next, g, fuel - 1)) == Some(rest)
    ensures BagOf(Collect(head, g, fuel)) == Some(multiset(AltPairs(a)) + rest)
  {
    AltNodeCollects(g, v, a, fuel - 1);
    DescentCellCollects(g, head, v, next, multiset(AltPairs(a)), rest, fuel);
  }

  /** A list cell whose `rdf:first` is a blank node: both links descend. */
  lemma DescentCellCollects(g: seq<Triple>, head: Term, v: Term, next: Term,
                            here: multiset<Pair>, rest: multiset<Pair>, fuel: nat)
    requires v.BNode? && fuel >= 1
    requires multiset(ActiveOut(g, head)) == multiset{Triple(head, RdfFirst, v), Triple(head, RdfRest, next)}
    requires BagOf(Collect(v, g, fuel - 1)) == Some(here)
    requires BagOf(Collect(next, g, fuel - 1)) == Some(rest)
    ensures BagOf(Collect(head, g, fuel)) == Some(here + rest)
  {
    DescentContribution(head, Triple(head, RdfFirst, v), g, fuel);
    CellCollects(g, head, Triple(head, RdfFirst, v), next, here, rest, fuel);
  }

  /** The alternative node and the next cell of a non-empty `sh:or` list. */
  lemma OrListNext(g: seq<Triple>, head: Term, alts: seq<Alternative>) returns (v: Term, next: Term)
    requires IsOrList(g, head, alts) && alts != []
    ensures v.BNode? && IsAltNode(g, v, alts[0]) && IsOrList(g, next, alts[1..])
    ensures multiset(ActiveOut(g, head)) == multiset{Triple(head, RdfFirst, v), Triple(head, RdfRest, next)}
  {
    v, next :| v.BNode? && IsAltNode(g, v, alts[0]) && IsOrList(g, next, alts[1..]) &&
      multiset(ActiveOut(g, head)) == multiset{Triple(head, RdfFirst, v), Triple(head, RdfRest, next)};
  }

  lemma FlattenCons(alts: seq<Alternative>)
    requires alts != []
    ensures multiset(Flatten(alts)) == multiset(AltPairs(alts[0])) + multiset(Flatten(alts[1..]))
    ensures OrDepth(alts) >= 1 + AltDepth(alts[0]) && OrDepth(alts) >= 1 + OrDepth(alts[1..])
  {
    assert Flatten(alts) == AltPairs(alts[0]) + Flatten(alts[1..]);
  }

  /** For a well-formed `sh:or` list and enough fuel for its depth, the walk finishes
      and collects exactly the declared alternatives, as a multiset, with every
      enumeration flattened into its `rdf:first` values. */
  lemma {:induction false} OrListCollects(g: seq<Triple>, head: Term, alts: seq<Alternative>, fuel: nat)
    requires IsOrList(g, head, alts)
    requires fuel >= OrDepth(alts)
    ensures BagOf(Collect(head, g, fuel)) == Some(multiset(Flatten(alts)))
    decreases |alts|
  {
    if alts == [] {
      NothingActive(g, head, fuel);
    } else {
      var v, next := OrListNext(g, head, alts);
      var tail, less: nat := alts[1..], fuel - 1;
      OrListCollects(g, next, tail, less);
      OrListStep(g, head, alts, v, next, fuel);
    }
  }

  /** One cell of a non-empty `sh:or` list, given what the rest of the list yields. */
  lemma OrListStep(g: seq<Triple>, head: Term, alts: seq<Alternative>, v: Term, next: Term, fuel: nat)
    requires alts != [] && v.BNode? && IsAltNode(g, v, alts[0])
    requires multiset(ActiveOut(g, head)) == multiset{Triple(head, RdfFirst, v), Triple(head, RdfRest, next)}
    requires fuel >= OrDepth(alts)
    requires BagOf(Collect(next, g, fuel - 1)) == Some(multiset(Flatten(alts[1..])))
    ensures BagOf(Collect(head, g, fuel)) == Some(multiset(Flatten(alts)))
  {
    FlattenCons(alts);
    OrCellCollects(g, head, v, next, alts[0], multiset(Flatten(alts[1..])), fuel);
  }
}
