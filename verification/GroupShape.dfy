/** The shape of a built group: the paths and the longest runs of triples between them, joined as they are written. */
module GroupShape {
  import opened Wrappers
  import opened Rdf
  import opened Algebra
  import opened Semantics
  import opened GroupBuilder

  // The triples and paths of an element.
  function ItemsOf(e: GraphPattern): seq<TripleOrPath> {
    match e
    case Bgp(ps) => seq(|ps|, i requires 0 <= i < |ps| => TripleItem(ps[i]))
    case Path(s, p, o) => [PathItem(s, p, o)]
    case _ => []
  }

  function AllItems(es: seq<GraphPattern>): seq<TripleOrPath> {
    if es == [] then [] else AllItems(es[..|es| - 1]) + ItemsOf(es[|es| - 1])
  }

  predicate IsElement(e: GraphPattern) { e.Path? || (e.Bgp? && e.patterns != []) }

  /** Paths and non-empty runs of triples, of which no two follow one another. */
  predicate Runs(es: seq<GraphPattern>) {
    && (forall i :: 0 <= i < |es| ==> IsElement(es[i]))
    && (forall i :: 0 <= i < |es| - 1 ==> es[i].Path? || es[i + 1].Path?)
  }

  // Joined from the left.
  function Chained(es: seq<GraphPattern>): GraphPattern {
    if es == [] then Bgp([])
    else if |es| == 1 then es[0]
    else Join(Chained(es[..|es| - 1]), es[|es| - 1])
  }

  lemma {:induction false} JoinedIsChained(es: seq<GraphPattern>)
    requires Runs(es)
    ensures JoinElements(es) == Chained(es)
  {
    if es != [] {
      var n := |es| - 1;
      JoinedIsChained(es[..n]);
      assert IsElement(es[n]);
      if n == 1 { assert es[..n] == [es[0]] && (es[0].Path? || es[1].Path?) && IsElement(es[0]); }
    }
  }

  // Elements that are finished, and the run that is still open.
  predicate Building(p: Progress) {
    Runs(p.elements) && (p.elements != [] ==> p.elements[|p.elements| - 1].Path?)
  }

  lemma FlushedRuns(p: Progress)
    requires Building(p)
    ensures Runs(Flush(p))
    ensures AllItems(Flush(p)) == AllItems(p.elements) + ItemsOf(Bgp(p.open))
  {
    if p.open != [] {
      assert Flush(p)[..|p.elements|] == p.elements;
    }
  }

  lemma {:induction false} BuildingOn(items: seq<TripleOrPath>)
    ensures var p := AdvanceAll(items); Building(p) && AllItems(p.elements) + ItemsOf(Bgp(p.open)) == items
  {
    if items != [] {
      var n := |items| - 1;
      BuildingOn(items[..n]);
      Advanced(AdvanceAll(items[..n]), items[n]);
      assert items == items[..n] + [items[n]];
    }
  }

  lemma Advanced(p: Progress, item: TripleOrPath)
    requires Building(p)
    ensures Building(Advance(p, item))
    ensures AllItems(Advance(p, item).elements) + ItemsOf(Bgp(Advance(p, item).open))
      == AllItems(p.elements) + ItemsOf(Bgp(p.open)) + [item]
  {
    match item {
      case TripleItem(t) => TripleAfter(AllItems(p.elements), p.open, t);
      case PathItem(s, q, o) =>
        FlushedRuns(p);
        PathAfter(Flush(p), Path(s, q, o));
        assert ItemsOf(Bgp([])) == [];
    }
  }

  lemma TripleAfter(items: seq<TripleOrPath>, ps: seq<TriplePattern>, t: TriplePattern)
    ensures items + ItemsOf(Bgp(ps + [t])) == items + ItemsOf(Bgp(ps)) + [TripleItem(t)]
  {
    assert ItemsOf(Bgp(ps + [t])) == ItemsOf(Bgp(ps)) + [TripleItem(t)];
  }

  lemma PathAfter(es: seq<GraphPattern>, p: GraphPattern)
    requires Runs(es) && p.Path?
    ensures Runs(es + [p]) && AllItems(es + [p]) == AllItems(es) + ItemsOf(p)
  {
    assert (es + [p])[..|es|] == es;
  }

  ghost predicate IsShape(items: seq<TripleOrPath>, es: seq<GraphPattern>) { Runs(es) && AllItems(es) == items }

  /** A group is built as the left-to-right join of its paths and the longest runs of triples between them. */
  lemma BuiltShape(items: seq<TripleOrPath>)
    ensures exists es :: IsShape(items, es) && Built(items) == Chained(es)
  {
    BuildingOn(items);
    FlushedRuns(AdvanceAll(items));
    var es := Flush(AdvanceAll(items));
    JoinedIsChained(es);
    assert IsShape(items, es);
  }

  // No join has an empty basic graph pattern, or two basic graph patterns.
  predicate Tidy(gp: GraphPattern) {
    gp.Join? ==>
      && Tidy(gp.left) && Tidy(gp.right) && gp.left != Bgp([]) && gp.right != Bgp([])
      && !(gp.left.Bgp? && gp.right.Bgp?)
  }

  /** Joining tidy patterns gives a tidy one. */
  lemma JoinTidy(l: GraphPattern, r: GraphPattern)
    requires Tidy(l) && Tidy(r)
    ensures Tidy(NewJoin(l, r))
  {
  }

  /** A variable as verb makes one triple: its solutions bind the ends and the verb to a triple of the graph. */
  lemma VariableVerbAnswers(w: World, s: TermPattern, x: Var, o: TermPattern, mu: Solution)
    ensures Answers(w, ItemPattern(UnfoldedVerb(s, VariableVerb(x), o)), mu) <==>
      mu.Keys == TermVars(s) + {x} + TermVars(o) && exists sigma :: Joins(w.active, s, x, o, mu, sigma)
  {
    var ps := [TriplePattern(s, VarName(x), o)];
    assert BgpVars(ps) == TripleVars(ps[0]) + BgpVars(ps[1..]);
    assert forall sigma :: MatchesAll(w.active, ps, mu, sigma) <==> MatchesTriple(w.active, ps[0], mu, sigma);
    assert forall sigma :: MatchesTriple(w.active, ps[0], mu, sigma) <==> Joins(w.active, s, x, o, mu, sigma);
  }

  ghost predicate Joins(g: Graph, s: TermPattern, x: Var, o: TermPattern, mu: Solution, sigma: map<string, Term>) {
    var a, b := Instance(s, mu, sigma), Instance(o, mu, sigma);
    a.Some? && b.Some? && x in mu && Triple(a.value, mu[x], b.value) in g
  }
}
