/** How often a solution answers joined triples and paths, sections 18.3 to 18.5 of SPARQL 1.1 Query. */
module GroupCounts {
  import opened Wrappers
  import opened Rdf
  import opened Algebra
  import opened PathSemantics
  import opened Semantics
  import opened PathCounts

  // How often a path connects two terms. What building preserves, it preserves for any such count.
  type PathCount = (PropertyPath, Term, Term, bool, bool) -> nat

  /** The count of section 18.4. */
  ghost function Multiplicities(g: Graph): PathCount {
    (p, x, y, a, b) => Multiplicity(g, p, x, y, a, b)
  }

  predicate BlankFreeTerm(t: TermPattern) { !t.BlankTerm? }

  predicate BlankFreeTriple(t: TriplePattern) { BlankFreeTerm(t.subj) && BlankFreeTerm(t.obj) }

  /** The patterns that building produces: triples and paths without blank nodes, joined. */
  predicate Joinable(gp: GraphPattern) {
    match gp
    case Bgp(ps) => forall i :: 0 <= i < |ps| ==> BlankFreeTriple(ps[i])
    case Path(s, _, o) => BlankFreeTerm(s) && BlankFreeTerm(o)
    case Join(l, r) => Joinable(l) && Joinable(r)
    case _ => false
  }

  function PathTimes(n: PathCount, s: TermPattern, p: PropertyPath, o: TermPattern, mu: Solution): nat {
    var x, y := Instance(s, mu, map[]), Instance(o, mu, map[]);
    if x.Some? && y.Some? then n(p, x.value, y.value, IsTerm(s), IsTerm(o)) else 0
  }

  /** How often mu is a solution. Joined patterns bind fixed variables, so mu splits in one way only. */
  function Count(g: Graph, n: PathCount, gp: GraphPattern, mu: Solution): nat
    requires Joinable(gp)
  {
    match gp
    case Bgp(ps) => if mu.Keys == BgpVars(ps) && MatchesAll(g, ps, mu, map[]) then 1 else 0
    case Path(s, p, o) => if mu.Keys == InScope(gp) then PathTimes(n, s, p, o, mu) else 0
    case Join(l, r) =>
      if mu.Keys == InScope(gp) then Count(g, n, l, Restrict(mu, InScope(l))) * Count(g, n, r, Restrict(mu, InScope(r)))
      else 0
  }

  // ----- the same multiplicities, from bags of solutions joined pair by pair -----

  type Bag = seq<Solution>

  ghost function JoinOne(a: Solution, bs: Bag): Bag {
    if bs == [] then []
    else JoinOne(a, bs[..|bs| - 1]) + (if Compatible(a, bs[|bs| - 1]) then [a + bs[|bs| - 1]] else [])
  }

  ghost function JoinBags(xs: Bag, ys: Bag): Bag {
    if xs == [] then [] else JoinBags(xs[..|xs| - 1], ys) + JoinOne(xs[|xs| - 1], ys)
  }

  ghost function Times(b: Bag, mu: Solution): nat { multiset(b)[mu] }

  /** b lists the solutions of gp, each as often as it should be. */
  ghost predicate IsBag(g: Graph, n: PathCount, gp: GraphPattern, b: Bag)
    requires Joinable(gp)
  {
    if gp.Join? then
      exists x, y :: IsBag(g, n, gp.left, x) && IsBag(g, n, gp.right, y) && multiset(b) == multiset(JoinBags(x, y))
    else forall mu :: Times(b, mu) == Count(g, n, gp, mu)
  }

  ghost predicate Uniform(b: Bag, vs: set<Var>) {
    forall i :: 0 <= i < |b| ==> b[i].Keys == vs
  }

  lemma {:induction false} TimesSnoc(b: Bag, x: Solution, mu: Solution)
    ensures Times(b + [x], mu) == Times(b, mu) + (if x == mu then 1 else 0)
  {
  }

  lemma SplitUnique(a: Solution, b: Solution, mu: Solution, va: set<Var>, vb: set<Var>)
    requires a.Keys == va && b.Keys == vb && mu.Keys == va + vb
    ensures Compatible(a, b) && a + b == mu <==> a == Restrict(mu, va) && b == Restrict(mu, vb)
  {
    if Compatible(a, b) && a + b == mu {
      assert a == Restrict(mu, va) && b == Restrict(mu, vb);
    }
    if a == Restrict(mu, va) && b == Restrict(mu, vb) {
      assert a + b == mu;
    }
  }

  lemma {:induction false} JoinOneUniform(a: Solution, bs: Bag, va: set<Var>, vb: set<Var>)
    requires a.Keys == va && Uniform(bs, vb)
    ensures Uniform(JoinOne(a, bs), va + vb)
  {
    if bs != [] { JoinOneUniform(a, bs[..|bs| - 1], va, vb); }
  }

  lemma {:induction false} JoinBagsUniform(xs: Bag, ys: Bag, va: set<Var>, vb: set<Var>)
    requires Uniform(xs, va) && Uniform(ys, vb)
    ensures Uniform(JoinBags(xs, ys), va + vb)
  {
    if xs != [] {
      JoinBagsUniform(xs[..|xs| - 1], ys, va, vb);
      JoinOneUniform(xs[|xs| - 1], ys, va, vb);
    }
  }

  lemma TimesLast(b: Bag, mu: Solution)
    requires b != []
    ensures Times(b, mu) == Times(b[..|b| - 1], mu) + (if b[|b| - 1] == mu then 1 else 0)
  {
    assert b == b[..|b| - 1] + [b[|b| - 1]];
    TimesSnoc(b[..|b| - 1], b[|b| - 1], mu);
  }

  lemma {:induction false} JoinOneTimes(a: Solution, bs: Bag, va: set<Var>, vb: set<Var>, mu: Solution)
    requires a.Keys == va && Uniform(bs, vb) && mu.Keys == va + vb
    ensures Times(JoinOne(a, bs), mu) == if a == Restrict(mu, va) then Times(bs, Restrict(mu, vb)) else 0
  {
    if bs != [] {
      var last := bs[|bs| - 1];
      JoinOneTimes(a, bs[..|bs| - 1], va, vb, mu);
      TimesLast(bs, Restrict(mu, vb));
      TimesSnoc(JoinOne(a, bs[..|bs| - 1]), a + last, mu);
      SplitUnique(a, last, mu, va, vb);
    }
  }

  lemma TimesConcat(x: Bag, y: Bag, mu: Solution)
    ensures Times(x + y, mu) == Times(x, mu) + Times(y, mu)
  {
  }

  /** Joining pair by pair multiplies the multiplicities of the two parts. */
  lemma {:induction false} JoinBagsTimes(xs: Bag, ys: Bag, va: set<Var>, vb: set<Var>, mu: Solution)
    requires Uniform(xs, va) && Uniform(ys, vb) && mu.Keys == va + vb
    ensures Times(JoinBags(xs, ys), mu) == Times(xs, Restrict(mu, va)) * Times(ys, Restrict(mu, vb))
  {
    if xs != [] {
      var init, last := xs[..|xs| - 1], xs[|xs| - 1];
      JoinBagsTimes(init, ys, va, vb, mu);
      JoinOneTimes(last, ys, va, vb, mu);
      TimesLast(xs, Restrict(mu, va));
      TimesConcat(JoinBags(init, ys), JoinOne(last, ys), mu);
      OneMore(Times(init, Restrict(mu, va)), Times(ys, Restrict(mu, vb)));
    }
  }

  lemma OneMore(p: nat, q: nat)
    ensures (p + 1) * q == p * q + q
  {
  }

  lemma ForeignTimes(b: Bag, vs: set<Var>, mu: Solution)
    requires Uniform(b, vs) && mu.Keys != vs
    ensures Times(b, mu) == 0
  {
    assert forall i :: 0 <= i < |b| ==> b[i] != mu;
    assert mu !in b;
  }

  lemma SameBagUniform(b: Bag, j: Bag, vs: set<Var>)
    requires multiset(b) == multiset(j) && Uniform(j, vs)
    ensures Uniform(b, vs)
  {
    forall i | 0 <= i < |b| ensures b[i].Keys == vs {
      assert b[i] in multiset(b);
      assert b[i] in j;
    }
  }

  lemma CountedUniform(g: Graph, n: PathCount, gp: GraphPattern, b: Bag)
    requires Joinable(gp) && forall mu :: Times(b, mu) == Count(g, n, gp, mu)
    requires !gp.Join?
    ensures Uniform(b, InScope(gp))
  {
    forall i | 0 <= i < |b| ensures b[i].Keys == InScope(gp) {
      assert b[i] in multiset(b);
      assert Times(b, b[i]) > 0;
    }
  }

  /** Count is the multiplicity in every bag of solutions. */
  lemma {:induction false} BagCounts(g: Graph, n: PathCount, gp: GraphPattern, b: Bag)
    requires Joinable(gp) && IsBag(g, n, gp, b)
    ensures Uniform(b, InScope(gp))
    ensures forall mu :: Times(b, mu) == Count(g, n, gp, mu)
    decreases gp
  {
    if gp.Join? {
      var x, y :| IsBag(g, n, gp.left, x) && IsBag(g, n, gp.right, y) && multiset(b) == multiset(JoinBags(x, y));
      BagCounts(g, n, gp.left, x);
      BagCounts(g, n, gp.right, y);
      var va, vb := InScope(gp.left), InScope(gp.right);
      JoinBagsUniform(x, y, va, vb);
      SameBagUniform(b, JoinBags(x, y), va + vb);
      forall mu ensures Times(b, mu) == Count(g, n, gp, mu) {
        if mu.Keys == va + vb { JoinBagsTimes(x, y, va, vb, mu); } else { ForeignTimes(b, va + vb, mu); }
      }
    } else {
      CountedUniform(g, n, gp, b);
    }
  }

  // ----- the counts agree with the solution sets -----

  lemma BgpPositive(w: World, gp: GraphPattern, mu: Solution)
    requires gp.Bgp? && Joinable(gp)
    ensures Count(w.active, Multiplicities(w.active), gp, mu) > 0 <==> Answers(w, gp, mu)
  {
    forall sigma, i | 0 <= i < |gp.patterns|
      ensures MatchesTriple(w.active, gp.patterns[i], mu, sigma) <==> MatchesTriple(w.active, gp.patterns[i], mu, map[])
    {
      assert BlankFreeTriple(gp.patterns[i]);
    }
    forall sigma ensures MatchesAll(w.active, gp.patterns, mu, sigma) <==> MatchesAll(w.active, gp.patterns, mu, map[]) {}
  }

  lemma NoBlanks(g: Graph, s: TermPattern, p: PropertyPath, o: TermPattern, mu: Solution)
    requires BlankFreeTerm(s) && BlankFreeTerm(o)
    ensures (exists sigma :: MatchesPath(g, s, p, o, mu, sigma)) <==> MatchesPath(g, s, p, o, mu, map[])
  {
    forall sigma ensures MatchesPath(g, s, p, o, mu, sigma) <==> MatchesPath(g, s, p, o, mu, map[]) {}
  }

  lemma PathTimesPositive(g: Graph, s: TermPattern, p: PropertyPath, o: TermPattern, mu: Solution)
    ensures PathTimes(Multiplicities(g), s, p, o, mu) > 0 <==> MatchesPath(g, s, p, o, mu, map[])
  {
    var x, y := Instance(s, mu, map[]), Instance(o, mu, map[]);
    if x.Some? && y.Some? { MultiplicityPositive(g, p, x.value, y.value, IsTerm(s), IsTerm(o)); }
  }

  lemma PathPositive(w: World, gp: GraphPattern, mu: Solution)
    requires gp.Path? && Joinable(gp)
    ensures Count(w.active, Multiplicities(w.active), gp, mu) > 0 <==> Answers(w, gp, mu)
  {
    PathTimesPositive(w.active, gp.subj, gp.path, gp.obj, mu);
    NoBlanks(w.active, gp.subj, gp.path, gp.obj, mu);
  }

  /** A solution is one that counts at least once. */
  lemma {:induction false} CountPositive(w: World, gp: GraphPattern, mu: Solution)
    requires Joinable(gp)
    ensures Counts(w, gp, mu) <==> Answers(w, gp, mu)
    decreases gp
  {
    match gp {
      case Bgp(_) => BgpPositive(w, gp, mu);
      case Path(_, _, _) => PathPositive(w, gp, mu);
      case Join(l, r) =>
        forall nu ensures Counts(w, l, nu) <==> Answers(w, l, nu) { CountPositive(w, l, nu); }
        forall nu ensures Counts(w, r, nu) <==> Answers(w, r, nu) { CountPositive(w, r, nu); }
        if Answers(w, gp, mu) { JoinCounts(w, gp, mu); }
        if Counts(w, gp, mu) { CountedJoins(w, gp, mu); }
    }
  }

  ghost predicate Counts(w: World, gp: GraphPattern, mu: Solution)
    requires Joinable(gp)
  {
    Count(w.active, Multiplicities(w.active), gp, mu) > 0
  }

  lemma JoinCounts(w: World, gp: GraphPattern, mu: Solution)
    requires gp.Join? && Joinable(gp) && Answers(w, gp, mu)
    requires forall nu :: Answers(w, gp.left, nu) ==> Counts(w, gp.left, nu)
    requires forall nu :: Answers(w, gp.right, nu) ==> Counts(w, gp.right, nu)
    ensures Counts(w, gp, mu)
  {
    var a, b := JoinParts(w, gp, mu);
    SolutionKeys(w, gp.left, a);
    SolutionKeys(w, gp.right, b);
    SplitUnique(a, b, mu, InScope(gp.left), InScope(gp.right));
    ProductPositive(
      Count(w.active, Multiplicities(w.active), gp.left, a), Count(w.active, Multiplicities(w.active), gp.right, b));
  }

  lemma CountedJoins(w: World, gp: GraphPattern, mu: Solution)
    requires gp.Join? && Joinable(gp) && Counts(w, gp, mu)
    requires forall nu :: Counts(w, gp.left, nu) ==> Answers(w, gp.left, nu)
    requires forall nu :: Counts(w, gp.right, nu) ==> Answers(w, gp.right, nu)
    ensures Answers(w, gp, mu)
  {
    var a, b := Restrict(mu, InScope(gp.left)), Restrict(mu, InScope(gp.right));
    SplitUnique(a, b, mu, InScope(gp.left), InScope(gp.right));
    ProductPositive(
      Count(w.active, Multiplicities(w.active), gp.left, a), Count(w.active, Multiplicities(w.active), gp.right, b));
    assert JoinsTo(a, b, mu);
  }

  // Joined triples and paths bind all their variables.
  lemma {:induction false} SolutionKeys(w: World, gp: GraphPattern, mu: Solution)
    requires Joinable(gp) && Answers(w, gp, mu)
    ensures mu.Keys == InScope(gp)
    decreases gp
  {
    if gp.Join? {
      var a, b := JoinParts(w, gp, mu);
      SolutionKeys(w, gp.left, a);
      SolutionKeys(w, gp.right, b);
    }
  }

  // ----- bags exist -----

  // All solutions over the listed variables with terms from a finite set.
  ghost function Candidates(vs: seq<Var>, ts: set<Term>): set<Solution> {
    if vs == [] then {map[]} else set mu, t | mu in Candidates(vs[1..], ts) && t in ts :: mu[vs[0] := t]
  }

  lemma ListedSet(v: Var, rest: seq<Var>)
    ensures SeqSet([v] + rest) == {v} + SeqSet(rest)
  {
  }

  lemma {:induction false} CandidatesAll(vs: seq<Var>, ts: set<Term>, mu: Solution)
    requires mu.Keys == SeqSet(vs) && forall v :: v in mu ==> mu[v] in ts
    ensures mu in Candidates(vs, ts)
  {
    if vs == [] {
      assert mu == map[];
    } else {
      var v, rest := vs[0], vs[1..];
      ListedSet(v, rest);
      assert vs == [v] + rest;
      assert v in mu;
      var nu := if v in SeqSet(rest) then mu else mu - {v};
      CandidatesAll(rest, ts, nu);
      assert mu == nu[v := mu[v]];
    }
  }

  lemma Listed(vs: set<Var>) returns (s: seq<Var>)
    ensures SeqSet(s) == vs
    decreases vs
  {
    if vs == {} {
      s := [];
    } else {
      var v :| v in vs;
      var rest := Listed(vs - {v});
      s := [v] + rest;
      ListedSet(v, rest);
    }
  }

  lemma {:induction false} RepeatedTimes(x: Solution, k: nat, mu: Solution)
    ensures Times(seq(k, i => x), mu) == if mu == x then k else 0
  {
    if k > 0 {
      RepeatedTimes(x, k - 1, mu);
      assert seq(k, i => x) == seq(k - 1, i => x) + [x];
      TimesSnoc(seq(k - 1, i => x), x, mu);
    }
  }

  // A bag that lists the solutions of a finite set, each as often as f says.
  lemma BagOf(ms: set<Solution>, f: Solution -> nat) returns (b: Bag)
    ensures forall mu :: Times(b, mu) == if mu in ms then f(mu) else 0
    decreases ms
  {
    if ms == {} {
      b := [];
    } else {
      var x :| x in ms;
      var rest := BagOf(ms - {x}, f);
      b := rest + seq(f(x), i => x);
      forall mu ensures Times(b, mu) == if mu in ms then f(mu) else 0 {
        TimesConcat(rest, seq(f(x), i => x), mu);
        RepeatedTimes(x, f(x), mu);
      }
    }
  }

  // The terms that a solution of a pattern can bind.
  function Reach(g: Graph, gp: GraphPattern): set<Term> {
    Nodes(g) + (set t | t in g :: t.pred) + (if gp.Path? then Ends(gp.subj) + Ends(gp.obj) else {})
  }

  function Ends(t: TermPattern): set<Term> {
    if IsTerm(t) then {Instance(t, map[], map[]).value} else {}
  }

  lemma {:induction false} OccursIn(ps: seq<TriplePattern>, v: Var) returns (i: nat)
    requires v in BgpVars(ps)
    ensures i < |ps| && v in TripleVars(ps[i])
  {
    if v in TripleVars(ps[0]) { i := 0; } else { i := OccursIn(ps[1..], v); i := i + 1; }
  }

  lemma BgpReach(g: Graph, ps: seq<TriplePattern>, mu: Solution)
    requires mu.Keys == BgpVars(ps) && MatchesAll(g, ps, mu, map[])
    ensures forall v :: v in mu ==> mu[v] in Reach(g, Bgp(ps))
  {
    forall v | v in mu ensures mu[v] in Reach(g, Bgp(ps)) {
      var i := OccursIn(ps, v);
      assert MatchesTriple(g, ps[i], mu, map[]);
    }
  }

  lemma PathReach(g: Graph, gp: GraphPattern, mu: Solution)
    requires gp.Path? && Joinable(gp) && Count(g, Multiplicities(g), gp, mu) > 0
    ensures forall v :: v in mu ==> mu[v] in Reach(g, gp)
  {
    var s, p, o := gp.subj, gp.path, gp.obj;
    var x, y := Instance(s, mu, map[]).value, Instance(o, mu, map[]).value;
    MultiplicityPositive(g, p, x, y, IsTerm(s), IsTerm(o));
    ConnectsNodes(g, p, x, y, IsTerm(s), IsTerm(o));
    if x !in Nodes(g) { ConnectsOutsideGraph(g, p, x, IsTerm(s), IsTerm(o)); NeedsTermEnd(p, IsTerm(s), IsTerm(o)); }
  }

  // Outside the graph a path matches zero-length only from or to a given term.
  lemma {:induction false} NeedsTermEnd(p: PropertyPath, sTerm: bool, oTerm: bool)
    requires MatchesZero(p, sTerm, oTerm)
    ensures sTerm || oTerm
  {
    match p {
      case Reverse(q) => NeedsTermEnd(q, oTerm, sTerm);
      case Sequence(a, b) => NeedsTermEnd(a, sTerm, false);
      case Alternative(a, b) =>
        if MatchesZero(a, sTerm, oTerm) { NeedsTermEnd(a, sTerm, oTerm); } else { NeedsTermEnd(b, sTerm, oTerm); }
      case ZeroOrOne(q) => if !(sTerm || oTerm) { NeedsTermEnd(q, sTerm, oTerm); }
      case _ =>
    }
  }

  lemma LeafBag(g: Graph, gp: GraphPattern) returns (b: Bag)
    requires Joinable(gp) && !gp.Join?
    ensures IsBag(g, Multiplicities(g), gp, b)
  {
    var vs := Listed(InScope(gp));
    var ms, f := Candidates(vs, Reach(g, gp)), mu => Count(g, Multiplicities(g), gp, mu);
    b := BagOf(ms, f);
    forall mu ensures Times(b, mu) == Count(g, Multiplicities(g), gp, mu) {
      if Count(g, Multiplicities(g), gp, mu) > 0 {
        if gp.Bgp? { BgpReach(g, gp.patterns, mu); } else { PathReach(g, gp, mu); }
        CandidatesAll(vs, Reach(g, gp), mu);
      }
    }
  }

  /** Every pattern has a bag of solutions. */
  lemma {:induction false} BagExists(g: Graph, gp: GraphPattern) returns (b: Bag)
    requires Joinable(gp)
    ensures IsBag(g, Multiplicities(g), gp, b)
    decreases gp
  {
    if gp.Join? {
      var x := BagExists(g, gp.left);
      var y := BagExists(g, gp.right);
      b := JoinBags(x, y);
    } else {
      b := LeafBag(g, gp);
    }
  }
}
