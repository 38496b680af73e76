/** The walk `_get_data_type` of the SHACL generator test: starting from the head of an
    `sh:or` list it scans the whole triple list once per visited node, records the
    `sh:datatype`, `sh:class` and leaf `rdf:first` pairs it meets, and descends into
    blank-node `rdf:first` objects and into the objects of `sh:in` and `rdf:rest`.

    The Python recursion has no guard against cycles; what stops it is the interpreter's
    recursion limit, which raises `RecursionError`. Here every descent spends one unit
    of `fuel`, and the specification functions answer `None` when the fuel runs out:
    with the recursion limit as the fuel, `None` is the walk that raises. */
module Collector {
  import opened Rdf

  /** A collected (predicate, object) pair. */
  datatype Pair = Pair(p: Term, o: Term)

  /** The predicates that may appear in a collected pair. */
  predicate Collected(p: Term) {
    p == RdfFirst || p == ShDatatype || p == ShClass
  }

  predicate AllCollected(ps: seq<Pair>) {
    forall k :: 0 <= k < |ps| ==> Collected(ps[k].p)
  }

  /** The predicates the walk reacts to; a triple with any other predicate is skipped. */
  predicate Active(p: Term) {
    p == RdfFirst || p == RdfRest || p == ShIn || p == ShDatatype || p == ShClass
  }

  /** The triples that make the walk descend into their object. */
  predicate Descends(t: Triple) {
    (t.p == RdfFirst && t.o.BNode?) || t.p == ShIn || t.p == RdfRest
  }

  /** `extend` of the Python list; a walk that did not finish stays unfinished. */
  function Append(a: Option<seq<Pair>>, b: Option<seq<Pair>>): Option<seq<Pair>> {
    if a.Some? && b.Some? then Some(a.value + b.value) else None
  }

  /** The list `_get_data_type(node, g)` returns, or `None` when the walk needs more
      than `fuel` nested descents. */
  ghost function Collect(node: Term, g: seq<Triple>, fuel: nat): (r: Option<seq<Pair>>)
    decreases fuel, 3, 0
  {
    Splice(node, g, g, fuel)
  }

  /** The contributions of the triples `ts`, concatenated in their order; `g` is the
      graph the descents search. */
  ghost function Splice(node: Term, ts: seq<Triple>, g: seq<Triple>, fuel: nat): (r: Option<seq<Pair>>)
    decreases fuel, 2, |ts|
  {
    if ts == [] then Some([])
    else Append(Splice(node, ts[..|ts| - 1], g, fuel), Contribution(node, ts[|ts| - 1], g, fuel))
  }

  /** What one iteration of the loop over the triples adds for triple `t`. The `sh:in`
      test nested under the `rdf:first` branch of the source is left out: the predicate
      there is already `rdf:first`, so that test is never true. */
  ghost function Contribution(node: Term, t: Triple, g: seq<Triple>, fuel: nat): (r: Option<seq<Pair>>)
    decreases fuel, 1, 0
  {
    if t.s != node then Some([])
    else if t.p == RdfFirst then
      if t.o.Literal? then Some([Pair(RdfFirst, t.o)])
      else if t.o.BNode? then Descend(t.o, g, fuel)
      else Some([Pair(t.p, t.o)])
    else if t.p == ShIn then Descend(t.o, g, fuel)
    else if t.p == ShDatatype then Some([Pair(t.p, t.o)])
    else if t.p == ShClass then Some([Pair(t.p, t.o)])
    else if t.p == RdfRest then Descend(t.o, g, fuel)
    else Some([])
  }

  /** One recursive call of the walk, which spends one unit of fuel. */
  ghost function Descend(o: Term, g: seq<Triple>, fuel: nat): (r: Option<seq<Pair>>)
    decreases fuel, 0, 0
  {
    if fuel == 0 then None else Collect(o, g, fuel - 1)
  }

  /** `_get_data_type`: the loop over all triples, with the recursive calls. `limit` is
      the number of nested calls the interpreter still allows; a call beyond it raises
      `RecursionError`, which ends the test, and is answered here with `None`. */
  method GetDataType(blankNode: Term, triples: seq<Triple>, limit: nat) returns (r: Option<seq<Pair>>)
    ensures r == Collect(blankNode, triples, limit)
    decreases limit, 1
  {
    var datatypes := [];
    for i := 0 to |triples|
      invariant Splice(blankNode, triples[..i], triples, limit) == Some(datatypes)
    {
      var t := triples[i];
      assert triples[..i + 1] == triples[..i] + [t];
      SpliceSnoc(blankNode, triples[..i], t, triples, limit);
      if t.s == blankNode {
        if t.p == RdfFirst {
          if t.o.Literal? {
            datatypes := datatypes + [Pair(RdfFirst, t.o)];
          } else if t.o.BNode? {
            var sub := Recurse(t.o, triples, limit);
            if sub.None? {
              SpliceAbort(blankNode, triples, triples, limit, i + 1);
              return None;
            }
            datatypes := datatypes + sub.value;
          } else {
            datatypes := datatypes + [Pair(t.p, t.o)];
          }
        } else if t.p == ShIn {
          var sub := Recurse(t.o, triples, limit);
          if sub.None? {
            SpliceAbort(blankNode, triples, triples, limit, i + 1);
            return None;
          }
          datatypes := datatypes + sub.value;
        } else if t.p == ShDatatype {
          datatypes := datatypes + [Pair(t.p, t.o)];
        } else if t.p == ShClass {
          datatypes := datatypes + [Pair(t.p, t.o)];
        } else if t.p == RdfRest {
          var sub := Recurse(t.o, triples, limit);
          if sub.None? {
            SpliceAbort(blankNode, triples, triples, limit, i + 1);
            return None;
          }
          datatypes := datatypes + sub.value;
        } else {
          assert datatypes + [] == datatypes;
        }
      } else {
        assert datatypes + [] == datatypes;
      }
    }
    assert triples[..|triples|] == triples;
    r := Some(datatypes);
  }

  /** A nested call of the walk: it raises when no nesting is left. */
  method Recurse(o: Term, triples: seq<Triple>, limit: nat) returns (r: Option<seq<Pair>>)
    ensures r == Descend(o, triples, limit)
    decreases limit, 0
  {
    if limit == 0 {
      r := None;
    } else {
      r := GetDataType(o, triples, limit - 1);
    }
  }

  lemma SpliceSnoc(node: Term, ts: seq<Triple>, x: Triple, g: seq<Triple>, fuel: nat)
    ensures Splice(node, ts + [x], g, fuel) == Append(Splice(node, ts, g, fuel), Contribution(node, x, g, fuel))
  {
    assert (ts + [x])[..|ts|] == ts;
  }

  /** A walk that stops partway through its loop stops for good: the exception
      raised by a nested call ends the whole walk. */
  lemma {:induction false} SpliceAbort(node: Term, ts: seq<Triple>, g: seq<Triple>, fuel: nat, i: nat)
    requires i <= |ts|
    requires Splice(node, ts[..i], g, fuel) == None
    ensures Splice(node, ts, g, fuel) == None
    decreases |ts|
  {
    if i == |ts| {
      assert ts[..i] == ts;
    } else {
      var init := ts[..|ts| - 1];
      assert init[..i] == ts[..i];
      SpliceAbort(node, init, g, fuel, i);
    }
  }

  /** The result is the per-triple contributions spliced in triple order: the pairs
      contributed by one stretch of the list come before those of the next. */
  lemma {:induction false} SpliceConcat(node: Term, ts: seq<Triple>, us: seq<Triple>, g: seq<Triple>, fuel: nat)
    ensures Splice(node, ts + us, g, fuel) == Append(Splice(node, ts, g, fuel), Splice(node, us, g, fuel))
    decreases |us|
  {
    var a := Splice(node, ts, g, fuel);
    if us == [] {
      assert ts + us == ts;
      if a.Some? {
        assert a.value + [] == a.value;
      }
    } else {
      var init, x := us[..|us| - 1], us[|us| - 1];
      assert us == init + [x];
      assert ts + us == (ts + init) + [x];
      SpliceConcat(node, ts, init, g, fuel);
      SpliceSnoc(node, ts + init, x, g, fuel);
      SpliceSnoc(node, init, x, g, fuel);
      var b, c := Splice(node, init, g, fuel), Contribution(node, x, g, fuel);
      if a.Some? && b.Some? && c.Some? {
        assert a.value + b.value + c.value == a.value + (b.value + c.value);
      }
    }
  }

  /** A node that is the subject of no triple, such as `rdf:nil` at the end of a list,
      yields the empty list, whatever the fuel. */
  lemma {:induction false} NoOutgoingYieldsNothing(node: Term, g: seq<Triple>, fuel: nat)
    requires forall t :: t in g ==> t.s != node
    ensures Collect(node, g, fuel) == Some([])
  {
    SpliceOfForeign(node, g, g, fuel);
  }

  lemma {:induction false} SpliceOfForeign(node: Term, ts: seq<Triple>, g: seq<Triple>, fuel: nat)
    requires forall t :: t in ts ==> t.s != node
    ensures Splice(node, ts, g, fuel) == Some([])
    decreases |ts|
  {
    if ts != [] {
      var init, x := ts[..|ts| - 1], ts[|ts| - 1];
      assert ts == init + [x];
      assert forall t :: t in init ==> t in ts;
      SpliceOfForeign(node, init, g, fuel);
      assert x in ts;
      SpliceSnoc(node, init, x, g, fuel);
      var none: seq<Pair> := [];
      assert none + none == none;
    }
  }

  /** Every pair the walk returns has predicate `rdf:first`, `sh:datatype` or `sh:class`. */
  lemma {:induction false} CollectedPairs(node: Term, g: seq<Triple>, fuel: nat)
    ensures Collect(node, g, fuel).Some? ==> AllCollected(Collect(node, g, fuel).value)
    decreases fuel, 2, 0
  {
    SpliceCollectedPairs(node, g, g, fuel);
  }

  lemma {:induction false} SpliceCollectedPairs(node: Term, ts: seq<Triple>, g: seq<Triple>, fuel: nat)
    ensures Splice(node, ts, g, fuel).Some? ==> AllCollected(Splice(node, ts, g, fuel).value)
    decreases fuel, 1, |ts|
  {
    if ts != [] {
      var init, t := ts[..|ts| - 1], ts[|ts| - 1];
      SpliceCollectedPairs(node, init, g, fuel);
      ContributionCollectedPairs(node, t, g, fuel);
      var a, b := Splice(node, init, g, fuel), Contribution(node, t, g, fuel);
      if a.Some? && b.Some? {
        assert forall k :: 0 <= k < |a.value + b.value| ==>
          (a.value + b.value)[k] == (if k < |a.value| then a.value[k] else b.value[k - |a.value|]);
      }
    }
  }

  lemma {:induction false} ContributionCollectedPairs(node: Term, t: Triple, g: seq<Triple>, fuel: nat)
    ensures Contribution(node, t, g, fuel).Some? ==> AllCollected(Contribution(node, t, g, fuel).value)
    decreases fuel, 0, 0
  {
    if t.s == node && Descends(t) {
      DescentContribution(node, t, g, fuel);
      if fuel > 0 {
        var less: nat := fuel - 1;
        CollectedPairs(t.o, g, less);
      }
    } else if t.s == node && Active(t.p) {
      LeafContribution(node, t, g, fuel);
    } else {
      InertContribution(node, t, g, fuel);
    }
  }

  /** A leaf object of `rdf:first` (a literal or an IRI), and the object of an
      `sh:datatype` or `sh:class` triple, is recorded as the pair (predicate, object). */
  lemma LeafContribution(node: Term, t: Triple, g: seq<Triple>, fuel: nat)
    requires t.s == node
    requires (t.p == RdfFirst && !t.o.BNode?) || t.p == ShDatatype || t.p == ShClass
    ensures Contribution(node, t, g, fuel) == Some([Pair(t.p, t.o)])
  {
  }

  /** A descent splices in the whole walk from the object, one level deeper. */
  lemma DescentContribution(node: Term, t: Triple, g: seq<Triple>, fuel: nat)
    requires t.s == node && Descends(t)
    ensures fuel == 0 ==> Contribution(node, t, g, fuel) == None
    ensures fuel > 0 ==> Contribution(node, t, g, fuel) == Collect(t.o, g, fuel - 1)
  {
  }

  /** A triple about another subject, or with a predicate the walk does not react to,
      adds nothing. */
  lemma InertContribution(node: Term, t: Triple, g: seq<Triple>, fuel: nat)
    requires t.s != node || !Active(t.p)
    ensures Contribution(node, t, g, fuel) == Some([])
  {
  }

  /** More fuel never changes a finished walk: the fuel is only a bound. */
  lemma {:induction false} FuelMonotone(node: Term, g: seq<Triple>, fuel: nat, more: nat)
    requires fuel <= more
    requires Collect(node, g, fuel).Some?
    ensures Collect(node, g, more) == Collect(node, g, fuel)
    decreases fuel, 1
  {
    SpliceFuelMonotone(node, g, g, fuel, more);
  }

  lemma {:induction false} SpliceFuelMonotone(node: Term, ts: seq<Triple>, g: seq<Triple>, fuel: nat, more: nat)
    requires fuel <= more
    requires Splice(node, ts, g, fuel).Some?
    ensures Splice(node, ts, g, more) == Splice(node, ts, g, fuel)
    decreases fuel, 0, |ts|
  {
    if ts != [] {
      var init, t := ts[..|ts| - 1], ts[|ts| - 1];
      assert ts == init + [t];
      SpliceSnoc(node, init, t, g, fuel);
      SpliceSnoc(node, init, t, g, more);
      SpliceFuelMonotone(node, init, g, fuel, more);
      ContributionFuelMonotone(node, t, g, fuel, more);
    }
  }

  lemma {:induction false} ContributionFuelMonotone(node: Term, t: Triple, g: seq<Triple>, fuel: nat, more: nat)
    requires fuel <= more
    requires Contribution(node, t, g, fuel).Some?
    ensures Contribution(node, t, g, more) == Contribution(node, t, g, fuel)
    decreases fuel, 0, 0
  {
    if t.s == node && Descends(t) {
      DescentContribution(node, t, g, fuel);
      DescentContribution(node, t, g, more);
      FuelMonotone(t.o, g, fuel - 1, more - 1);
    }
  }

  /** The walk from `from` in `g` visits `x` within `fuel` nested calls: `x` is `from`
      itself, or the object of a triple about `from` that makes the walk descend. */
  ghost predicate Reaches(g: seq<Triple>, from: Term, x: Term, fuel: nat)
    decreases fuel
  {
    from == x ||
    (fuel > 0 && exists u :: u in g && u.s == from && Descends(u) && Reaches(g, u.o, x, fuel - 1))
  }

  /** Triple `t` cannot change the walk from `node` in `g` within `fuel` nested calls:
      either the walk ignores its predicate, or the walk never visits its subject. */
  ghost predicate Unreached(g: seq<Triple>, t: Triple, node: Term, fuel: nat) {
    !Active(t.p) || !Reaches(g, node, t.s, fuel)
  }

  /** Inserting such a triple anywhere in the list leaves the result unchanged. */
  lemma {:induction false} InsertUnreached(node: Term, g: seq<Triple>, k: nat, t: Triple, fuel: nat)
    requires k <= |g|
    requires Unreached(g, t, node, fuel)
    ensures Collect(node, g[..k] + [t] + g[k..], fuel) == Collect(node, g, fuel)
    decreases fuel, 1, 0
  {
    var g' := g[..k] + [t] + g[k..];
    SpliceConcat(node, g[..k] + [t], g[k..], g', fuel);
    SpliceSnoc(node, g[..k], t, g', fuel);
    assert forall u :: u in g[..k] ==> u in g;
    assert forall u :: u in g[k..] ==> u in g;
    SpliceUnreached(node, g[..k], g, k, t, fuel);
    SpliceUnreached(node, g[k..], g, k, t, fuel);
    SpliceConcat(node, g[..k], g[k..], g, fuel);
    assert g[..k] + g[k..] == g;
    var a := Splice(node, g[..k], g, fuel);
    if a.Some? {
      assert a.value + [] == a.value;
    }
  }

  lemma {:induction false} SpliceUnreached(node: Term, ts: seq<Triple>, g: seq<Triple>, k: nat, t: Triple, fuel: nat)
    requires k <= |g|
    requires Unreached(g, t, node, fuel)
    requires forall u :: u in ts ==> u in g
    ensures Splice(node, ts, g[..k] + [t] + g[k..], fuel) == Splice(node, ts, g, fuel)
    decreases fuel, 0, |ts|
  {
    if ts != [] {
      var g' := g[..k] + [t] + g[k..];
      var init, last := ts[..|ts| - 1], ts[|ts| - 1];
      assert ts == init + [last];
      assert forall u :: u in init ==> u in ts;
      SpliceUnreached(node, init, g, k, t, fuel);
      SpliceSnoc(node, init, last, g, fuel);
      SpliceSnoc(node, init, last, g', fuel);
      assert last in ts;
      if last.s == node && Descends(last) && fuel > 0 {
        InsertUnreached(last.o, g, k, t, fuel - 1);
      }
    }
  }

  /** The multiset of a finished walk. */
  function BagOf(o: Option<seq<Pair>>): Option<multiset<Pair>> {
    if o.Some? then Some(multiset(o.value)) else None
  }

  function BagSum(a: Option<multiset<Pair>>, b: Option<multiset<Pair>>): Option<multiset<Pair>> {
    if a.Some? && b.Some? then Some(a.value + b.value) else None
  }

  lemma BagOfAppend(a: Option<seq<Pair>>, b: Option<seq<Pair>>)
    ensures BagOf(Append(a, b)) == BagSum(BagOf(a), BagOf(b))
  {
    if a.Some? && b.Some? {
      assert multiset(a.value + b.value) == multiset(a.value) + multiset(b.value);
    }
  }

  /** Visiting the triples in another order yields the same multiset of pairs. */
  lemma {:induction false} SplicePermuted(node: Term, ts: seq<Triple>, us: seq<Triple>, g: seq<Triple>, fuel: nat)
    requires multiset(ts) == multiset(us)
    ensures BagOf(Splice(node, ts, g, fuel)) == BagOf(Splice(node, us, g, fuel))
    decreases |ts|
  {
    if ts == [] {
      assert |us| == |multiset(us)| == 0;
    } else {
      var init, x := ts[..|ts| - 1], ts[|ts| - 1];
      assert ts == init + [x];
      assert x in multiset(us);
      var j :| 0 <= j < |us| && us[j] == x;
      var left, right := us[..j], us[j + 1..];
      assert us == left + [x] + right;
      RemoveOne(ts, us, j);
      SplicePermuted(node, init, left + right, g, fuel);
      SpliceSnoc(node, init, x, g, fuel);
      BagOfAppend(Splice(node, init, g, fuel), Contribution(node, x, g, fuel));
      SpliceMiddle(node, left, x, right, g, fuel);
    }
  }

  lemma RemoveOne(ts: seq<Triple>, us: seq<Triple>, j: nat)
    requires multiset(ts) == multiset(us) && ts != []
    requires j < |us| && us[j] == ts[|ts| - 1]
    ensures multiset(ts[..|ts| - 1]) == multiset(us[..j] + us[j + 1..])
  {
    var init, x := ts[..|ts| - 1], ts[|ts| - 1];
    assert ts == init + [x];
    assert us == us[..j] + [x] + us[j + 1..];
    calc {
      multiset(init);
      multiset(ts) - multiset{x};
      multiset(us) - multiset{x};
      multiset(us[..j] + us[j + 1..]);
    }
  }

  /** Moving one triple to the end of the visited stretch keeps the multiset. */
  lemma SpliceMiddle(node: Term, left: seq<Triple>, x: Triple, right: seq<Triple>, g: seq<Triple>, fuel: nat)
    ensures BagOf(Splice(node, left + [x] + right, g, fuel))
         == BagSum(BagOf(Splice(node, left + right, g, fuel)), BagOf(Contribution(node, x, g, fuel)))
  {
    var c := Contribution(node, x, g, fuel);
    var sl, sr := Splice(node, left, g, fuel), Splice(node, right, g, fuel);
    SpliceConcat(node, left, right, g, fuel);
    SpliceConcat(node, left + [x], right, g, fuel);
    SpliceSnoc(node, left, x, g, fuel);
    BagOfAppend(sl, sr);
    BagOfAppend(Append(sl, c), sr);
    BagOfAppend(sl, c);
    BagOfAppend(Append(sl, sr), c);
    if sl.Some? && sr.Some? && c.Some? {
      var a, b, d := multiset(sl.value), multiset(sr.value), multiset(c.value);
      assert a + d + b == a + b + d;
    }
  }

  /** Searching a permutation of the graph yields the same multisets, contribution by contribution. */
  lemma {:induction false} SpliceInPermutedGraph(node: Term, ts: seq<Triple>, g: seq<Triple>, h: seq<Triple>, fuel: nat)
    requires multiset(g) == multiset(h)
    ensures BagOf(Splice(node, ts, h, fuel)) == BagOf(Splice(node, ts, g, fuel))
    decreases fuel, 1, |ts|
  {
    if ts != [] {
      var init, t := ts[..|ts| - 1], ts[|ts| - 1];
      assert ts == init + [t];
      SpliceInPermutedGraph(node, init, g, h, fuel);
      SpliceSnoc(node, init, t, g, fuel);
      SpliceSnoc(node, init, t, h, fuel);
      ContributionInPermutedGraph(node, t, g, h, fuel);
      BagOfAppend(Splice(node, init, h, fuel), Contribution(node, t, h, fuel));
      BagOfAppend(Splice(node, init, g, fuel), Contribution(node, t, g, fuel));
    }
  }

  lemma {:induction false} ContributionInPermutedGraph(node: Term, t: Triple, g: seq<Triple>, h: seq<Triple>, fuel: nat)
    requires multiset(g) == multiset(h)
    ensures BagOf(Contribution(node, t, h, fuel)) == BagOf(Contribution(node, t, g, fuel))
    decreases fuel, 0, 0
  {
    if t.s == node && Descends(t) {
      DescentContribution(node, t, g, fuel);
      DescentContribution(node, t, h, fuel);
      if fuel > 0 {
        var less: nat := fuel - 1;
        PermutedGraph(t.o, g, h, less);
      }
    } else if t.s == node && Active(t.p) {
      LeafContribution(node, t, g, fuel);
      LeafContribution(node, t, h, fuel);
    } else {
      InertContribution(node, t, g, fuel);
      InertContribution(node, t, h, fuel);
    }
  }

  lemma {:induction false} PermutedGraph(node: Term, g: seq<Triple>, h: seq<Triple>, fuel: nat)
    requires multiset(g) == multiset(h)
    ensures BagOf(Collect(node, h, fuel)) == BagOf(Collect(node, g, fuel))
    decreases fuel, 2, 0
  {
    SpliceInPermutedGraph(node, h, g, h, fuel);
    SplicePermuted(node, h, g, g, fuel);
  }
}
