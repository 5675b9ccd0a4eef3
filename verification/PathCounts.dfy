/** How often a property path connects two terms, section 18.4 of SPARQL 1.1 Query. */
module PathCounts {
  import opened Rdf
  import opened Algebra
  import opened PathSemantics

  // The sum of f over a set.
  ghost function Total(ms: set<Term>, f: Term -> nat): nat {
    if ms == {} then 0
    else
      var m :| m in ms;
      f(m) + Total(ms - {m}, f)
  }

  /** It does not matter in which order a sum is taken. */
  lemma {:induction false} TotalWithout(ms: set<Term>, f: Term -> nat, m: Term)
    requires m in ms
    ensures Total(ms, f) == f(m) + Total(ms - {m}, f)
    decreases ms
  {
    var k :| k in ms && Total(ms, f) == f(k) + Total(ms - {k}, f);
    if k != m {
      TotalWithout(ms - {k}, f, m);
      TotalWithout(ms - {m}, f, k);
      assert ms - {k} - {m} == ms - {m} - {k};
    }
  }

  lemma {:induction false} TotalPositive(ms: set<Term>, f: Term -> nat)
    ensures Total(ms, f) > 0 <==> exists m :: m in ms && f(m) > 0
    decreases ms
  {
    if ms != {} {
      var m :| m in ms;
      TotalWithout(ms, f, m);
      TotalPositive(ms - {m}, f);
    }
  }

  // The triples from s to o whose predicate is none of ns.
  function Others(g: Graph, s: Term, o: Term, ns: seq<Iri>): set<Triple> {
    set t | t in g && t.subj == s && t.obj == o && t.pred.NamedNode? && t.pred.iri !in ns
  }

  /** Sequences multiply over the terms between, alternatives add, and optional or repeated paths count once. */
  ghost function Multiplicity(g: Graph, p: PropertyPath, s: Term, o: Term, sTerm: bool, oTerm: bool): nat
    decreases p
  {
    match p
    case PathNode(n) => if Triple(s, NamedNode(n), o) in g then 1 else 0
    case Reverse(q) => Multiplicity(g, q, o, s, oTerm, sTerm)
    case Sequence(a, b) =>
      Total(Nodes(g) + {s}, m => Multiplicity(g, a, s, m, sTerm, false) * Multiplicity(g, b, m, o, false, oTerm))
    case Alternative(a, b) => Multiplicity(g, a, s, o, sTerm, oTerm) + Multiplicity(g, b, s, o, sTerm, oTerm)
    case NegatedPropertySet(ns) => |Others(g, s, o, ns)|
    case _ => if Connects(g, p, s, o, sTerm, oTerm) then 1 else 0
  }

  lemma ProductPositive(x: nat, y: nat)
    ensures x * y > 0 <==> x > 0 && y > 0
  {
  }

  /** A path connects two terms exactly when it does so at least once. */
  lemma {:induction false} MultiplicityPositive(g: Graph, p: PropertyPath, s: Term, o: Term, sTerm: bool, oTerm: bool)
    ensures Multiplicity(g, p, s, o, sTerm, oTerm) > 0 <==> Connects(g, p, s, o, sTerm, oTerm)
    decreases p
  {
    match p {
      case Reverse(q) => MultiplicityPositive(g, q, o, s, oTerm, sTerm);
      case Sequence(_, _) => SequencePositive(g, p, s, o, sTerm, oTerm);
      case Alternative(a, b) =>
        MultiplicityPositive(g, a, s, o, sTerm, oTerm);
        MultiplicityPositive(g, b, s, o, sTerm, oTerm);
      case NegatedPropertySet(ns) => OthersPositive(g, s, o, ns);
      case _ =>
    }
  }

  lemma OthersPositive(g: Graph, s: Term, o: Term, ns: seq<Iri>)
    ensures |Others(g, s, o, ns)| > 0 <==> exists n :: n !in ns && Triple(s, NamedNode(n), o) in g
  {
    if |Others(g, s, o, ns)| > 0 {
      var t :| t in Others(g, s, o, ns);
      assert t == Triple(s, NamedNode(t.pred.iri), o);
    }
    if n :| n !in ns && Triple(s, NamedNode(n), o) in g {
      assert Triple(s, NamedNode(n), o) in Others(g, s, o, ns);
    }
  }

  lemma {:induction false} SequencePositive(g: Graph, p: PropertyPath, s: Term, o: Term, sTerm: bool, oTerm: bool)
    requires p.Sequence?
    ensures Multiplicity(g, p, s, o, sTerm, oTerm) > 0 <==> Connects(g, p, s, o, sTerm, oTerm)
    decreases p, 0
  {
    var f := m => Multiplicity(g, p.first, s, m, sTerm, false) * Multiplicity(g, p.second, m, o, false, oTerm);
    TotalPositive(Nodes(g) + {s}, f);
    forall m
      ensures f(m) > 0 <==> Connects(g, p.first, s, m, sTerm, false) && Connects(g, p.second, m, o, false, oTerm)
      ensures f(m) > 0 ==> m in Nodes(g) + {s}
    {
      MultiplicityPositive(g, p.first, s, m, sTerm, false);
      MultiplicityPositive(g, p.second, m, o, false, oTerm);
      ProductPositive(Multiplicity(g, p.first, s, m, sTerm, false), Multiplicity(g, p.second, m, o, false, oTerm));
      if f(m) > 0 { ConnectsNodes(g, p.first, s, m, sTerm, false); }
    }
  }
}
