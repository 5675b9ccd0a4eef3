/** Property path evaluation, section 18.4 of SPARQL 1.1 Query, on solution sets. */
module PathSemantics {
  import opened Rdf
  import opened Algebra

  // A zero-length path between equal terms: a variable end ranges over the graph's nodes,
  // a term end matches itself even when the graph does not mention it.
  ghost predicate ZeroLength(g: Graph, s: Term, o: Term, sTerm: bool, oTerm: bool) {
    s == o && (sTerm || oTerm || s in Nodes(g))
  }

  /**
    s and o are joined by the path in g. sTerm (oTerm) says that the end is given as a term
    rather than as a variable; it matters only to zero-length matches.
    A closure is walked from its term end, so each step starts at a term.
   */
  ghost predicate Connects(g: Graph, p: PropertyPath, s: Term, o: Term, sTerm: bool, oTerm: bool)
    decreases p, 0
  {
    match p
    case PathNode(n) => Triple(s, NamedNode(n), o) in g
    case Reverse(q) => Connects(g, q, o, s, oTerm, sTerm)
    case Sequence(a, b) => exists m :: Connects(g, a, s, m, sTerm, false) && Connects(g, b, m, o, false, oTerm)
    case Alternative(a, b) => Connects(g, a, s, o, sTerm, oTerm) || Connects(g, b, s, o, sTerm, oTerm)
    case ZeroOrOne(q) => ZeroLength(g, s, o, sTerm, oTerm) || Connects(g, q, s, o, sTerm, oTerm)
    case ZeroOrMore(q) =>
      ZeroLength(g, s, o, sTerm, oTerm) || Walk(g, q, s, o, sTerm, oTerm)
    case OneOrMore(q) => Walk(g, q, s, o, sTerm, oTerm)
    case NegatedPropertySet(ns) => exists n :: n !in ns && Triple(s, NamedNode(n), o) in g
  }

  ghost predicate Walk(g: Graph, p: PropertyPath, s: Term, o: Term, sTerm: bool, oTerm: bool)
    decreases p, 2
  {
    && (sTerm || oTerm || s in Nodes(g))
    && exists c: seq<Term> :: |c| >= 2 && c[0] == s && c[|c| - 1] == o && Chain(g, p, c, sTerm || !oTerm)
  }

  ghost predicate Chain(g: Graph, p: PropertyPath, c: seq<Term>, forward: bool)
    decreases p, 1
  {
    forall i :: 0 <= i < |c| - 1 ==> Connects(g, p, c[i], c[i + 1], forward, !forward)
  }

  /** The path matches a term outside the graph against itself, given which ends are terms. */
  predicate MatchesZero(p: PropertyPath, sTerm: bool, oTerm: bool) {
    match p
    case PathNode(_) => false
    case NegatedPropertySet(_) => false
    case Reverse(q) => MatchesZero(q, oTerm, sTerm)
    case Sequence(a, b) => MatchesZero(a, sTerm, false) && MatchesZero(b, false, oTerm)
    case Alternative(a, b) => MatchesZero(a, sTerm, oTerm) || MatchesZero(b, sTerm, oTerm)
    case ZeroOrOne(q) => sTerm || oTerm || MatchesZero(q, sTerm, oTerm)
    case ZeroOrMore(q) => sTerm || oTerm
    case OneOrMore(q) => (sTerm || oTerm) && MatchesZero(q, sTerm || !oTerm, !(sTerm || !oTerm))
  }

  // Connected terms are equal or both nodes of the graph.
  lemma {:induction false} ConnectsNodes(g: Graph, p: PropertyPath, s: Term, o: Term, sTerm: bool, oTerm: bool)
    requires Connects(g, p, s, o, sTerm, oTerm)
    ensures s == o || (s in Nodes(g) && o in Nodes(g))
    decreases p, 0
  {
    match p {
      case PathNode(n) => TripleNodes(g, Triple(s, NamedNode(n), o));
      case Reverse(q) => ConnectsNodes(g, q, o, s, oTerm, sTerm);
      case Sequence(a, b) =>
        var m :| Connects(g, a, s, m, sTerm, false) && Connects(g, b, m, o, false, oTerm);
        ConnectsNodes(g, a, s, m, sTerm, false);
        ConnectsNodes(g, b, m, o, false, oTerm);
      case Alternative(a, b) =>
        if Connects(g, a, s, o, sTerm, oTerm) {
          ConnectsNodes(g, a, s, o, sTerm, oTerm);
        } else {
          ConnectsNodes(g, b, s, o, sTerm, oTerm);
        }
      case ZeroOrOne(q) =>
        if !ZeroLength(g, s, o, sTerm, oTerm) { ConnectsNodes(g, q, s, o, sTerm, oTerm); }
      case ZeroOrMore(q) =>
        if !ZeroLength(g, s, o, sTerm, oTerm) { WalkNodes(g, q, s, o, sTerm, oTerm); }
      case OneOrMore(q) => WalkNodes(g, q, s, o, sTerm, oTerm);
      case NegatedPropertySet(ns) =>
        var n :| n !in ns && Triple(s, NamedNode(n), o) in g;
        TripleNodes(g, Triple(s, NamedNode(n), o));
    }
  }

  lemma SequenceMiddle(g: Graph, a: PropertyPath, b: PropertyPath, s: Term, o: Term, sTerm: bool, oTerm: bool)
      returns (m: Term)
    requires Connects(g, Sequence(a, b), s, o, sTerm, oTerm)
    ensures Connects(g, a, s, m, sTerm, false) && Connects(g, b, m, o, false, oTerm)
  {
    m :| Connects(g, a, s, m, sTerm, false) && Connects(g, b, m, o, false, oTerm);
  }

  lemma OutsideTriples(g: Graph, t: Term)
    requires t !in Nodes(g)
    ensures forall p, o :: Triple(t, p, o) !in g
  {
    forall p, o ensures Triple(t, p, o) !in g {
      var x := Triple(t, p, o);
      assert x in g ==> x.subj in Nodes(g);
    }
  }

  lemma TripleNodes(g: Graph, t: Triple)
    requires t in g
    ensures t.subj in Nodes(g) && t.obj in Nodes(g)
  {
  }

  lemma {:induction false} WalkNodes(g: Graph, p: PropertyPath, s: Term, o: Term, sTerm: bool, oTerm: bool)
    requires Walk(g, p, s, o, sTerm, oTerm)
    ensures s == o || (s in Nodes(g) && o in Nodes(g))
    decreases p, 2
  {
    var c: seq<Term> :| |c| >= 2 && c[0] == s && c[|c| - 1] == o && Chain(g, p, c, sTerm || !oTerm);
    ChainNodes(g, p, c, sTerm || !oTerm);
  }

  lemma {:induction false} ChainNodes(g: Graph, p: PropertyPath, c: seq<Term>, forward: bool)
    requires |c| >= 1 && Chain(g, p, c, forward)
    ensures c[0] == c[|c| - 1] || (c[0] in Nodes(g) && c[|c| - 1] in Nodes(g))
    ensures c[0] in Nodes(g) ==> forall i :: 0 <= i < |c| ==> c[i] in Nodes(g)
    ensures c[0] !in Nodes(g) ==> forall i :: 0 <= i < |c| ==> c[i] == c[0]
    decreases p, 1, |c|
  {
    if |c| > 1 {
      assert Connects(g, p, c[0], c[1], forward, !forward);
      ConnectsNodes(g, p, c[0], c[1], forward, !forward);
      var d := c[1..];
      assert Chain(g, p, d, forward) by {
        forall i | 0 <= i < |d| - 1 ensures Connects(g, p, d[i], d[i + 1], forward, !forward) {
          assert Connects(g, p, c[i + 1], c[i + 2], forward, !forward);
        }
      }
      ChainNodes(g, p, d, forward);
      assert forall i :: 0 < i < |c| ==> c[i] == d[i - 1];
    }
  }

  // Between nodes of the graph it does not matter whether an end is a term or a variable.
  lemma {:induction false} ConnectsAnyEnds(
      g: Graph, p: PropertyPath, s: Term, o: Term, sTerm: bool, oTerm: bool, sTerm': bool, oTerm': bool)
    requires s in Nodes(g) && o in Nodes(g)
    requires Connects(g, p, s, o, sTerm, oTerm)
    ensures Connects(g, p, s, o, sTerm', oTerm')
    decreases p, 0
  {
    match p {
      case PathNode(n) =>
      case NegatedPropertySet(ns) =>
      case Reverse(q) => ConnectsAnyEnds(g, q, o, s, oTerm, sTerm, oTerm', sTerm');
      case Sequence(a, b) =>
        var m :| Connects(g, a, s, m, sTerm, false) && Connects(g, b, m, o, false, oTerm);
        ConnectsNodes(g, a, s, m, sTerm, false);
        ConnectsAnyEnds(g, a, s, m, sTerm, false, sTerm', false);
        ConnectsAnyEnds(g, b, m, o, false, oTerm, false, oTerm');
      case Alternative(a, b) =>
        if Connects(g, a, s, o, sTerm, oTerm) {
          ConnectsAnyEnds(g, a, s, o, sTerm, oTerm, sTerm', oTerm');
        } else {
          ConnectsAnyEnds(g, b, s, o, sTerm, oTerm, sTerm', oTerm');
        }
      case ZeroOrOne(q) =>
        if !ZeroLength(g, s, o, sTerm, oTerm) { ConnectsAnyEnds(g, q, s, o, sTerm, oTerm, sTerm', oTerm'); }
      case ZeroOrMore(q) =>
        if !ZeroLength(g, s, o, sTerm, oTerm) { WalkAnyEnds(g, q, s, o, sTerm, oTerm, sTerm', oTerm'); }
      case OneOrMore(q) => WalkAnyEnds(g, q, s, o, sTerm, oTerm, sTerm', oTerm');
    }
  }

  lemma {:induction false} WalkAnyEnds(
      g: Graph, p: PropertyPath, s: Term, o: Term, sTerm: bool, oTerm: bool, sTerm': bool, oTerm': bool)
    requires s in Nodes(g)
    requires Walk(g, p, s, o, sTerm, oTerm)
    ensures Walk(g, p, s, o, sTerm', oTerm')
    decreases p, 2
  {
    var f, f' := sTerm || !oTerm, sTerm' || !oTerm';
    var c: seq<Term> :| |c| >= 2 && c[0] == s && c[|c| - 1] == o && Chain(g, p, c, f);
    ChainNodes(g, p, c, f);
    forall i | 0 <= i < |c| - 1 ensures Connects(g, p, c[i], c[i + 1], f', !f') {
      assert Connects(g, p, c[i], c[i + 1], f, !f);
      ConnectsAnyEnds(g, p, c[i], c[i + 1], f, !f, f', !f');
    }
    assert Chain(g, p, c, f');
  }

  /** A term outside the graph connects to itself exactly when the path matches zero-length there. */
  lemma {:induction false} ConnectsOutsideGraph(g: Graph, p: PropertyPath, t: Term, sTerm: bool, oTerm: bool)
    requires t !in Nodes(g)
    ensures Connects(g, p, t, t, sTerm, oTerm) <==> MatchesZero(p, sTerm, oTerm)
    decreases p, 0
  {
    match p {
      case PathNode(n) => OutsideTriples(g, t);
      case NegatedPropertySet(ns) => OutsideTriples(g, t);
      case Reverse(q) => ConnectsOutsideGraph(g, q, t, oTerm, sTerm);
      case Sequence(a, b) =>
        ConnectsOutsideGraph(g, a, t, sTerm, false);
        ConnectsOutsideGraph(g, b, t, false, oTerm);
        if Connects(g, p, t, t, sTerm, oTerm) {
          var m := SequenceMiddle(g, a, b, t, t, sTerm, oTerm);
          ConnectsNodes(g, a, t, m, sTerm, false);
        }
      case Alternative(a, b) =>
        ConnectsOutsideGraph(g, a, t, sTerm, oTerm);
        ConnectsOutsideGraph(g, b, t, sTerm, oTerm);
      case ZeroOrOne(q) => ConnectsOutsideGraph(g, q, t, sTerm, oTerm);
      case ZeroOrMore(q) =>
      case OneOrMore(q) =>
        var f := sTerm || !oTerm;
        ConnectsOutsideGraph(g, q, t, f, !f);
        if Walk(g, q, t, t, sTerm, oTerm) {
          var c: seq<Term> :| |c| >= 2 && c[0] == t && c[|c| - 1] == t && Chain(g, q, c, f);
          ChainNodes(g, q, c, f);
          assert Connects(g, q, c[0], c[1], f, !f);
        }
        if MatchesZero(q, f, !f) { assert Chain(g, q, [t, t], f); }
    }
  }
}
