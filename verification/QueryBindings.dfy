/** Substitution in whole queries, and the patterns on which it changes the meaning. */
module QueryBindings {
  import opened Wrappers
  import opened Rdf
  import opened Algebra
  import opened PathSemantics
  import opened Semantics
  import opened Bindings
  import opened BindingSemantics
  import opened BindingShapes
  import opened Mentions
  import opened Restriction
  import opened ExactRestriction
  import opened GroupBindings
  import opened Substitution

  datatype Query =
    | Select(pattern: GraphPattern)
    | Construct(template: seq<TriplePattern>, pattern: GraphPattern)
    | Describe(pattern: GraphPattern)
    | Ask(pattern: GraphPattern)

  function MaybeReplaceBindings(q: Query, b: Option<BindingMap>): Result<Query, BindingError> {
    if b.None? then Ok(q)
    else
      var p :- ReplacePattern(q.pattern, b.value);
      Ok(q.(pattern := p))
  }

  /**
    A query of any form keeps its form and template; its pattern has the original solutions that agree with the
    bindings. It fails exactly when a bound variable is refused.
   */
  lemma QueryReplaced(w: World, q: Query, b: BindingMap)
    ensures var r := MaybeReplaceBindings(q, Some(b));
      && (r.Ok? <==> Accepted(Refuses(q.pattern), b))
      && (r.Ok? ==> r.value == q.(pattern := r.value.pattern) && Shape(r.value.pattern) == Shape(q.pattern))
      && (r.Ok? && Replaceable(q.pattern, b) ==> Restricts(w, q.pattern, r.value.pattern, b))
  {
    PatternTold(q.pattern, b);
    if ReplacePattern(q.pattern, b).Ok? && Replaceable(q.pattern, b) { SubstitutionLemma(w, q.pattern, b); }
  }

  /** SELECT with bindings lists the projections of the solutions that agree with the bindings. */
  lemma SelectReplaced(w: World, inner: GraphPattern, vs: seq<Var>, b: BindingMap, nu: Solution)
    requires Replaceable(inner, b) && MaybeReplaceBindings(Select(Project(inner, vs)), Some(b)).Ok?
    ensures Answers(w, MaybeReplaceBindings(Select(Project(inner, vs)), Some(b)).value.pattern, nu) <==>
      ProjectsAgreeing(w, inner, SeqSet(vs), b, nu)
  {
    BindingLaws.FirstBoundSome(vs, b);
    SubstitutionLemma(w, inner, b);
    var inner' := ReplacePattern(inner, b).value;
    assert MaybeReplaceBindings(Select(Project(inner, vs)), Some(b)).value.pattern == Project(inner', vs);
    ProjectReplaced(w, inner, inner', vs, b, nu);
  }

  ghost predicate HasAnswer(w: World, gp: GraphPattern) {
    exists mu :: Answers(w, gp, mu)
  }

  ghost predicate HasAgreeingAnswer(w: World, gp: GraphPattern, b: BindingMap) {
    exists mu :: Answers(w, gp, mu) && Compatible(mu, Ground(b))
  }

  lemma LiftAnswer(w: World, gp: GraphPattern, gp': GraphPattern, b: BindingMap)
    requires Restricts(w, gp, gp', b) && HasAnswer(w, gp')
    ensures HasAgreeingAnswer(w, gp, b)
  {
    var nu :| Answers(w, gp', nu);
    var mu := Lift(w, gp, gp', b, nu);
  }

  lemma LowerAnswer(w: World, gp: GraphPattern, gp': GraphPattern, b: BindingMap)
    requires Restricts(w, gp, gp', b) && HasAgreeingAnswer(w, gp, b)
    ensures HasAnswer(w, gp')
  {
    var mu :| Answers(w, gp, mu) && Compatible(mu, Ground(b));
    Lower(w, gp, gp', b, mu);
  }

  /** ASK with bindings is yes exactly when some solution agrees with the bindings. */
  lemma AskReplaced(w: World, gp: GraphPattern, b: BindingMap)
    requires Replaceable(gp, b) && MaybeReplaceBindings(Ask(gp), Some(b)).Ok?
    ensures HasAnswer(w, MaybeReplaceBindings(Ask(gp), Some(b)).value.pattern) <==> HasAgreeingAnswer(w, gp, b)
  {
    SubstitutionLemma(w, gp, b);
    var gp' := ReplacePattern(gp, b).value;
    if HasAnswer(w, gp') { LiftAnswer(w, gp, gp', b); }
    if HasAgreeingAnswer(w, gp, b) { LowerAnswer(w, gp, gp', b); }
  }

  // ----- paths: exactly when the ends may be replaced -----

  ghost predicate PathKept(w: World, s: TermPattern, p: PropertyPath, o: TermPattern, b: BindingMap) {
    Restricts(w, Path(s, p, o), Path(ReplaceTerm(s, b), p, ReplaceTerm(o, b)), b)
  }

  // In the empty graph only zero-length matches connect, and only a term with itself.
  lemma EmptyGraphMatch(
      s: TermPattern, p: PropertyPath, o: TermPattern, mu: Solution, t: Term, sigma: map<string, Term>)
    requires Instance(s, mu, sigma) == Some(t) && Instance(o, mu, sigma) == Some(t)
    ensures (exists tau :: MatchesPath({}, s, p, o, mu, tau)) <==> MatchesZero(p, IsTerm(s), IsTerm(o))
  {
    ConnectsOutsideGraph({}, p, t, IsTerm(s), IsTerm(o));
    if MatchesZero(p, IsTerm(s), IsTerm(o)) {
      assert MatchesPath({}, s, p, o, mu, sigma);
    }
    if tau :| MatchesPath({}, s, p, o, mu, tau) {
      MatchesOnlyZero(s, p, o, mu, tau);
    }
  }

  lemma EmptyGraphPath(
      w: World, s: TermPattern, p: PropertyPath, o: TermPattern, mu: Solution, t: Term, sigma: map<string, Term>)
    requires w.active == {} && mu.Keys == TermVars(s) + TermVars(o)
    requires Instance(s, mu, sigma) == Some(t) && Instance(o, mu, sigma) == Some(t)
    ensures Answers(w, Path(s, p, o), mu) <==> MatchesZero(p, IsTerm(s), IsTerm(o))
  {
    EmptyGraphMatch(s, p, o, mu, t, sigma);
  }

  lemma MatchesOnlyZero(s: TermPattern, p: PropertyPath, o: TermPattern, mu: Solution, tau: map<string, Term>)
    requires MatchesPath({}, s, p, o, mu, tau)
    ensures MatchesZero(p, IsTerm(s), IsTerm(o))
  {
    var x, y := Instance(s, mu, tau).value, Instance(o, mu, tau).value;
    ConnectsNodes({}, p, x, y, IsTerm(s), IsTerm(o));
    ConnectsOutsideGraph({}, p, x, IsTerm(s), IsTerm(o));
  }

  // A term that both ends can stand for at once.
  function MeetingTerm(s: TermPattern, o: TermPattern): Term {
    if IsTerm(s) then Instance(s, map[], map[]).value
    else if IsTerm(o) then Instance(o, map[], map[]).value
    else NamedNode("")
  }

  function Blanks(t: TermPattern, x: Term): map<string, Term> {
    if t.BlankTerm? then map[t.id := x] else map[]
  }

  // One solution at which both ends meet, before and after the replacement.
  lemma EndsMeet(s: TermPattern, p: PropertyPath, o: TermPattern, b: BindingMap)
    returns (t: Term, sigma: map<string, Term>, mu: Solution)
    requires !EndsReplaceable(s, p, o, b)
    ensures mu.Keys == TermVars(s) + TermVars(o) && Compatible(mu, Ground(b))
    ensures Instance(s, mu, sigma) == Some(t) && Instance(o, mu, sigma) == Some(t)
    ensures var s', o', nu := ReplaceTerm(s, b), ReplaceTerm(o, b), Without(mu, b);
      && nu.Keys == TermVars(s') + TermVars(o')
      && Instance(s', nu, sigma) == Some(t) && Instance(o', nu, sigma) == Some(t)
  {
    var s', o' := ReplaceTerm(s, b), ReplaceTerm(o, b);
    t := MeetingTerm(s', o');
    sigma := Blanks(s, t) + Blanks(o, t);
    mu := map v | v in TermVars(s) + TermVars(o) :: t;
  }

  lemma PathBroken(w: World, s: TermPattern, p: PropertyPath, o: TermPattern, b: BindingMap)
    requires w.active == {} && !EndsReplaceable(s, p, o, b)
    ensures !PathKept(w, s, p, o, b)
  {
    var t, sigma, mu := EndsMeet(s, p, o, b);
    EmptyGraphPath(w, s, p, o, mu, t, sigma);
    EmptyGraphPath(w, ReplaceTerm(s, b), p, ReplaceTerm(o, b), Without(mu, b), t, sigma);
    NotBothWays(w, s, p, o, b, mu, Without(mu, b));
  }

  // One solution, with and without the bound variables, that only one of the two patterns has.
  lemma NotBothWays(w: World, s: TermPattern, p: PropertyPath, o: TermPattern, b: BindingMap, mu: Solution, nu: Solution)
    requires Drops(mu, b, nu) && mu.Keys == TermVars(s) + TermVars(o)
    requires Answers(w, Path(s, p, o), mu) != Answers(w, Path(ReplaceTerm(s, b), p, ReplaceTerm(o, b)), nu)
    ensures !PathKept(w, s, p, o, b)
  {
    var gp, gp' := Path(s, p, o), Path(ReplaceTerm(s, b), p, ReplaceTerm(o, b));
    if PathKept(w, s, p, o, b) {
      if Answers(w, gp', nu) {
        var x := Lift(w, gp, gp', b, nu);
        DropsUnique(x, mu, b, nu, s, o);
      } else {
        Lower(w, gp, gp', b, mu);
      }
    }
  }

  lemma DropsUnique(x: Solution, mu: Solution, b: BindingMap, nu: Solution, s: TermPattern, o: TermPattern)
    requires Drops(x, b, nu) && Drops(mu, b, nu) && x.Keys == mu.Keys
    ensures x == mu
  {
    forall v | v in x ensures x[v] == mu[v] {
      if v in b { assert v in Ground(b); } else { assert v in nu; }
    }
  }

  /** The ends of a path pattern may be replaced, in every graph, exactly under EndsReplaceable. */
  lemma PathReplaceableExactly(w: World, s: TermPattern, p: PropertyPath, o: TermPattern, b: BindingMap)
    ensures EndsReplaceable(s, p, o, b) <==> forall g :: PathKept(w.(active := g), s, p, o, b)
  {
    if EndsReplaceable(s, p, o, b) {
      forall g ensures PathKept(w.(active := g), s, p, o, b) { PathRestricts(w.(active := g), s, p, o, b); }
    } else {
      PathBroken(w.(active := {}), s, p, o, b);
    }
  }

  // ----- exactly when the exceptional operators keep their meaning -----

  ghost predicate Kept(w: World, gp: GraphPattern, b: BindingMap)
    requires ReplacePattern(gp, b).Ok?
  {
    Restricts(w, gp, ReplacePattern(gp, b).value, b)
  }

  /** FILTER, exactly: the bindings decide the condition as it was decided for some twin. */
  lemma FilterKeptExactly(w: World, e: Expression, inner: GraphPattern, b: BindingMap)
    requires Replaceable(inner, b) && ReplaceableExpr(e, b) && ReplacePattern(Filter(e, inner), b).Ok?
    ensures Kept(w, Filter(e, inner), b) <==> HeldByTwins(w, e, inner, b)
  {
    SubstitutionLemma(w, inner, b);
    ExpressionReplaced(w, e, b);
    FilterRestrictsExactly(w, e, ReplaceExpression(e, b).value, inner, ReplacePattern(inner, b).value, b);
  }

  ghost predicate BoundInTwin(w: World, v: Var, inner: GraphPattern, b: BindingMap, mu: Solution) {
    exists twin :: Answers(w, inner, twin) && Drops(twin, b, Without(mu, b)) && v in twin
  }

  lemma BoundHolds(w: World, v: Var, mu: Solution)
    ensures Holds(w, Bound(v), mu) <==> v in mu
  {
    assert |BoolLiteral(true).lexical| != |BoolLiteral(false).lexical|;
  }

  lemma BoundTwin(w: World, v: Var, inner: GraphPattern, b: BindingMap, mu: Solution)
    ensures HeldByTwin(w, Bound(v), inner, b, mu) <==> BoundInTwin(w, v, inner, b, mu)
  {
    forall twin ensures Holds(w, Bound(v), twin) <==> v in twin { BoundHolds(w, v, twin); }
  }

  // Each solution that leaves v unbound has a twin with the same remainder that binds it.
  ghost predicate UnboundHaveTwins(w: World, v: Var, inner: GraphPattern, b: BindingMap) {
    forall mu :: Answers(w, inner, mu) && Compatible(mu, Ground(b)) && v !in mu ==> BoundInTwin(w, v, inner, b, mu)
  }

  lemma BoundTwins(w: World, v: Var, inner: GraphPattern, b: BindingMap)
    requires v in b
    ensures HeldByTwins(w, Bound(v), inner, b) <==> UnboundHaveTwins(w, v, inner, b)
  {
    forall mu ensures HeldByTwin(w, Bound(v), inner, b, mu) <==> BoundInTwin(w, v, inner, b, mu) {
      BoundTwin(w, v, inner, b, mu);
    }
    forall mu ensures Holds(w, Bound(v), mu + Ground(b)) { BoundHolds(w, v, mu + Ground(b)); }
    forall mu | Answers(w, inner, mu) && Compatible(mu, Ground(b)) && v in mu
      ensures BoundInTwin(w, v, inner, b, mu)
    {
      assert Drops(mu, b, Without(mu, b));
    }
  }

  /** FILTER(BOUND(?v)), exactly: each solution that leaves ?v unbound has a twin that binds it. */
  lemma BoundFilterKeptExactly(w: World, v: Var, inner: GraphPattern, b: BindingMap)
    requires v in b && Replaceable(inner, b) && ReplacePattern(Filter(Bound(v), inner), b).Ok?
    ensures Kept(w, Filter(Bound(v), inner), b) <==> UnboundHaveTwins(w, v, inner, b)
  {
    FilterKeptExactly(w, Bound(v), inner, b);
    BoundTwins(w, v, inner, b);
  }

  /** OPTIONAL, exactly: no left solution is lost to a match that disagrees with the bindings. */
  lemma OptionalKeptExactly(w: World, gp: GraphPattern, b: BindingMap)
    requires gp.LeftJoin? && ReplacePattern(gp, b).Ok? && Replaceable(gp.left, b) && Replaceable(gp.right, b)
    requires (gp.expression.Some? ==> ReplaceableExpr(gp.expression.value, b))
    requires OptionalVars(gp.expression) * b.Keys <= Scope.Certain(gp.left)
    ensures Kept(w, gp, b) <==> UnmatchedRemain(w, gp, b)
  {
    SubstitutionLemma(w, gp.left, b);
    SubstitutionLemma(w, gp.right, b);
    OptionalReplaced(w, gp.expression, b);
    LeftJoinRestrictsExactly(w, gp, ReplacePattern(gp, b).value, b);
  }

  /** MINUS, exactly: each left solution that would stay has a twin that the right does not exclude. */
  lemma MinusKeptExactly(w: World, l: GraphPattern, r: GraphPattern, b: BindingMap)
    requires Replaceable(l, b) && Replaceable(r, b) && ReplacePattern(Minus(l, r), b).Ok?
    ensures Kept(w, Minus(l, r), b) <==> SparedTwins(w, l, r, b)
  {
    SubstitutionLemma(w, l, b);
    SubstitutionLemma(w, r, b);
    MinusRestrictsExactly(w, l, ReplacePattern(l, b).value, r, ReplacePattern(r, b).value, b);
  }

  /** A sub-select, exactly: each of its rows comes from a solution that agrees with the bindings. */
  lemma SubselectKeptExactly(w: World, inner: GraphPattern, vs: seq<Var>, b: BindingMap)
    requires Replaceable(inner, b) && ReplacePattern(Project(inner, vs), b).Ok?
    ensures Kept(w, Project(inner, vs), b) <==> RowsAgree(w, inner, SeqSet(vs), b)
  {
    BindingLaws.FirstBoundSome(vs, b);
    SubstitutionLemma(w, inner, b);
    ProjectRestrictsExactly(w, inner, ReplacePattern(inner, b).value, vs, b);
  }

  /** BIND to a variable that its pattern never binds, exactly: filling in the bindings changes no value it binds. */
  lemma BindKeptExactly(w: World, inner: GraphPattern, v: Var, e: Expression, b: BindingMap)
    requires Replaceable(inner, b) && ReplaceableExpr(e, b) && ReplacePattern(Extend(inner, v, e), b).Ok?
    requires Scope.NeverBinds(w, inner, v)
    ensures Kept(w, Extend(inner, v, e), b) <==> ValuesStay(w, e, inner, b)
  {
    SubstitutionLemma(w, inner, b);
    ExpressionReplaced(w, e, b);
    BindRestrictsExactly(w, Extend(inner, v, e), ReplacePattern(Extend(inner, v, e), b).value, b);
  }

  /** A slice, exactly: of each remainder it keeps what it kept before. */
  lemma SliceKeptExactly(w: World, gp: GraphPattern, b: BindingMap)
    requires gp.Slice? && Replaceable(gp.inner, b) && ReplacePattern(gp, b).Ok?
    ensures Kept(w, gp, b) <==> SlicesAlike(w, gp, ReplacePattern(gp, b).value, b)
  {
    SubstitutionLemma(w, gp.inner, b);
    SliceRestrictsExactly(w, gp, ReplacePattern(gp, b).value, b);
  }

  /**
    GROUP BY with aggregates under other names than its keys, exactly: each group whose key agrees with the
    bindings has a solution that does, and keeps its aggregates.
   */
  lemma GroupKeptExactly(w: World, gp: GraphPattern, b: BindingMap)
    requires gp.Group? && Replaceable(gp.inner, b) && ReplacePattern(gp, b).Ok?
    requires AggregateVars(gp.aggregates) !! SeqSet(gp.variables)
    ensures Kept(w, gp, b) <==> GroupsStay(w, gp, ReplacePattern(gp, b).value, b)
  {
    SubstitutionLemma(w, gp.inner, b);
    SameAggregateVars(gp.aggregates, b);
    GroupRestrictsExactly(w, gp, ReplacePattern(gp, b).value, b);
  }

  /**
    Whatever the keys, the aggregates of a replaced GROUP BY have the values that the original ones have over the
    solutions that agree with the bindings.
   */
  lemma GroupAggregates(w: World, gp: GraphPattern, b: BindingMap, key: Solution)
    requires gp.Group? && Replaceable(gp.inner, b) && ReplaceableAggregates(gp.aggregates, b) && ReplacePattern(gp, b).Ok?
    requires ToldApart(w, gp.inner, b) && ReadsCertain(gp.aggregates, gp.inner, b)
    ensures Aggregated(w, ReplacePattern(gp, b).value, key)
      == AggregateValues(w, gp.aggregates, AgreeingGroup(w, gp.inner, gp.variables, b, key))
  {
    var gp' := ReplacePattern(gp, b).value;
    SubstitutionLemma(w, gp.inner, b);
    AggregatesReplaced(w, gp.aggregates, b);
    AggregatesOverAgreeing(w, gp.inner, gp'.inner, gp.variables, gp.aggregates, gp'.aggregates, b, key);
  }

  /** Without aggregates, GROUP BY asks only for such a solution. */
  lemma PlainGroupKeptExactly(w: World, inner: GraphPattern, vs: seq<Var>, b: BindingMap)
    requires vs != [] && Replaceable(inner, b) && ReplacePattern(Group(inner, vs, []), b).Ok?
    ensures Kept(w, Group(inner, vs, []), b) <==>
      forall key :: Projects(w, inner, SeqSet(vs), key) && Compatible(key, Ground(b)) ==>
        ProjectsAgreeing(w, inner, SeqSet(vs) - b.Keys, b, Without(key, b))
  {
    var gp := Group(inner, vs, []);
    assert AggregateVars([]) == {} && ReplaceAggregates([], b) == Ok([]);
    GroupKeptExactly(w, gp, b);
    PlainGroupsStay(w, gp, ReplacePattern(gp, b).value, b);
  }

  lemma PlainGroupsStay(w: World, gp: GraphPattern, gp': GraphPattern, b: BindingMap)
    requires gp.Group? && gp'.Group? && gp.aggregates == [] == gp'.aggregates && gp.variables != []
    ensures GroupsStay(w, gp, gp', b) <==>
      forall key :: Projects(w, gp.inner, SeqSet(gp.variables), key) && Compatible(key, Ground(b)) ==>
        ProjectsAgreeing(w, gp.inner, SeqSet(gp.variables) - b.Keys, b, Without(key, b))
  {
    forall key
      ensures IsGroupKey(w, gp.inner, gp.variables, key) <==> Projects(w, gp.inner, SeqSet(gp.variables), key)
    {}
  }

  /** The one group over everything, without aggregates, is always kept. */
  lemma WholeGroupKept(w: World, inner: GraphPattern, b: BindingMap)
    requires Replaceable(inner, b) && ReplacePattern(Group(inner, [], []), b).Ok?
    ensures Kept(w, Group(inner, [], []), b)
  {
    var gp := Group(inner, [], []);
    assert AggregateVars([]) == {} && ReplaceAggregates([], b) == Ok([]);
    GroupKeptExactly(w, gp, b);
    var gp' := ReplacePattern(gp, b).value;
    forall key | IsGroupKey(w, inner, [], key) && Compatible(key, Ground(b))
      ensures AgreeingKey(w, gp, b, Without(key, b)) && Aggregated(w, gp, key) == Aggregated(w, gp', Without(key, b))
    {
      assert Without(key, b) == map[];
    }
  }

  // ----- where replacement changes the meaning -----

  const N: Term := NamedNode("n")
  const P: Iri := "p"
  const C: Term := NamedNode("c")
  const X_IS_N: BindingMap := map["x" := GroundNode("n")]
  const X_P_C: TriplePattern := TriplePattern(VarTerm("x"), NodeName(P), NodeTerm("c"))
  const N_P_C: TriplePattern := TriplePattern(NodeTerm("n"), NodeName(P), NodeTerm("c"))
  const EMPTY: GraphPattern := Bgp([])

  lemma EmptyBgp(w: World, mu: Solution)
    ensures Answers(w, EMPTY, mu) <==> mu == map[]
  {
    assert MatchesAll(w.active, [], mu, map[]);
  }

  lemma OneTriple(w: World, t: TriplePattern, mu: Solution)
    requires t == X_P_C || t == N_P_C
    ensures Answers(w, Bgp([t]), mu) <==> mu.Keys == TripleVars(t) && MatchesTriple(w.active, t, mu, map[])
  {
    assert BgpVars([t]) == TripleVars(t);
    if mu.Keys == TripleVars(t) {
      assert forall sigma :: MatchesTriple(w.active, t, mu, sigma) == MatchesTriple(w.active, t, mu, map[]);
      assert MatchesTriple(w.active, t, mu, map[]) ==> MatchesAll(w.active, [t], mu, map[]);
      forall sigma ensures MatchesAll(w.active, [t], mu, sigma) ==> MatchesTriple(w.active, t, mu, map[]) {
        assert [t][0] == t;
      }
    }
  }

  lemma ReplacedBgps()
    ensures ReplacePattern(Bgp([X_P_C]), X_IS_N) == Ok(Bgp([N_P_C]))
    ensures ReplacePattern(EMPTY, X_IS_N) == Ok(EMPTY)
  {
    assert ReplaceTriple(X_P_C, X_IS_N) == Ok(N_P_C);
    assert [X_P_C][1..] == [] && ReplaceTriples([], X_IS_N) == Ok([]);
    assert ReplaceTriples([X_P_C], X_IS_N) == Ok([N_P_C] + []);
    assert [N_P_C] + [] == [N_P_C];
  }

  /** FILTER(BOUND(?x)) over a pattern that never binds ?x: nothing before, the empty solution after. */
  lemma FilterNotKept(w: World)
    ensures var gp := Filter(Bound("x"), EMPTY);
      ReplacePattern(gp, X_IS_N).Ok? && !Kept(w, gp, X_IS_N)
  {
    ReplacedBgps();
    BoundFilterKeptExactly(w, "x", EMPTY, X_IS_N);
    EmptyBgp(w, map[]);
    forall twin | Answers(w, EMPTY, twin) ensures "x" !in twin { EmptyBgp(w, twin); }
    assert !BoundInTwin(w, "x", EMPTY, X_IS_N, map[]);
  }

  /** BIND(BOUND(?x) AS ?y) over a pattern that never binds ?x: false before, true after. */
  lemma BindNotKept(w: World)
    ensures var gp := Extend(EMPTY, "y", Bound("x"));
      ReplacePattern(gp, X_IS_N).Ok? && !Kept(w, gp, X_IS_N)
  {
    ReplacedBgps();
    EmptyBgp(w, map[]);
    forall a | Answers(w, EMPTY, a) ensures "y" !in a { EmptyBgp(w, a); }
    BindKeptExactly(w, EMPTY, "y", Bound("x"), X_IS_N);
    assert Compatible(map[], Ground(X_IS_N)) && "x" in map[] + Ground(X_IS_N);
    assert Eval(w, Bound("x"), map[]) != Eval(w, Bound("x"), map[] + Ground(X_IS_N)) by {
      assert |BoolLiteral(true).lexical| != |BoolLiteral(false).lexical|;
    }
  }

  /** OPTIONAL { ?x p c } where only another subject has p c: the binding turns a mismatch into an empty match. */
  lemma OptionalNotKept(w: World)
    requires w.active == {Triple(C, NamedNode(P), C)}
    ensures var gp := LeftJoin(EMPTY, Bgp([X_P_C]), None);
      ReplacePattern(gp, X_IS_N).Ok? && !Kept(w, gp, X_IS_N)
  {
    var gp := LeftJoin(EMPTY, Bgp([X_P_C]), None);
    ReplacedBgps();
    assert ReplaceOptional(None, X_IS_N) == Ok(None);
    var gp' := ReplacePattern(gp, X_IS_N).value;
    assert gp' == LeftJoin(EMPTY, Bgp([N_P_C]), None);
    EmptyBgp(w, map[]);
    forall c ensures !OptionalMatch(w, gp', map[], c) { OneTriple(w, N_P_C, c); }
    assert Answers(w, gp', map[]);
    forall mu | Answers(w, gp, mu) ensures mu == map["x" := C] { OptionalOnlyMatch(w, gp, mu); }
  }

  lemma OptionalOnlyMatch(w: World, gp: GraphPattern, mu: Solution)
    requires w.active == {Triple(C, NamedNode(P), C)}
    requires gp == LeftJoin(EMPTY, Bgp([X_P_C]), None) && Answers(w, gp, mu)
    ensures mu == map["x" := C]
  {
    var xc: Solution := map["x" := C];
    OneTriple(w, X_P_C, xc);
    var matched, a, c := LeftJoinParts(w, gp, mu);
    EmptyBgp(w, a);
    assert OptionalMatch(w, gp, map[], xc);
    OneTriple(w, X_P_C, c);
  }

  /** MINUS on the replaced variable alone: after replacement the two sides share nothing, so nothing is removed. */
  lemma MinusNotKept(w: World)
    requires w.active == {Triple(N, NamedNode(P), C)}
    ensures var gp := Minus(Bgp([X_P_C]), Bgp([X_P_C]));
      ReplacePattern(gp, X_IS_N).Ok? && !Kept(w, gp, X_IS_N)
  {
    var gp := Minus(Bgp([X_P_C]), Bgp([X_P_C]));
    ReplacedBgps();
    var gp' := ReplacePattern(gp, X_IS_N).value;
    assert gp' == Minus(Bgp([N_P_C]), Bgp([N_P_C]));
    OneTriple(w, N_P_C, map[]);
    forall c | Answers(w, Bgp([N_P_C]), c) ensures c.Keys == {} { OneTriple(w, N_P_C, c); }
    assert Answers(w, gp', map[]);
    forall mu ensures !Answers(w, gp, mu) { AllTakenAway(w, mu); }
  }

  lemma AllTakenAway(w: World, mu: Solution)
    ensures !Answers(w, Minus(Bgp([X_P_C]), Bgp([X_P_C])), mu)
  {
    if Answers(w, Bgp([X_P_C]), mu) {
      OneTriple(w, X_P_C, mu);
      assert "x" in mu.Keys * mu.Keys;
    }
  }

  /** A sub-select's own ?x is another variable, yet it is replaced: a solution of the sub-select is lost. */
  lemma SubselectNotKept(w: World)
    requires w.active == {Triple(C, NamedNode(P), C)}
    ensures var gp := Project(Bgp([X_P_C]), []);
      ReplacePattern(gp, X_IS_N).Ok? && !Kept(w, gp, X_IS_N)
  {
    var gp := Project(Bgp([X_P_C]), []);
    ReplacedBgps();
    var gp' := ReplacePattern(gp, X_IS_N).value;
    assert gp' == Project(Bgp([N_P_C]), []);
    var xc: Solution := map["x" := C];
    OneTriple(w, X_P_C, xc);
    assert Restrict(xc, SeqSet([])) == map[];
    assert Answers(w, gp, map[]) && Drops(map[], X_IS_N, map[]);
    NothingProjected(w, map[]);
    assert Restricts(w, gp, gp', X_IS_N) ==> Answers(w, gp', map[]);
  }

  /** GROUP BY ?y over { ?x p c }: the group of another subject is lost. */
  lemma GroupNotKept(w: World)
    requires w.active == {Triple(C, NamedNode(P), C)}
    ensures var gp := Group(Bgp([X_P_C]), ["y"], []);
      ReplacePattern(gp, X_IS_N).Ok? && !Kept(w, gp, X_IS_N)
  {
    var gp := Group(Bgp([X_P_C]), ["y"], []);
    ReplacedBgps();
    assert ReplaceAggregates([], X_IS_N) == Ok([]);
    var gp' := ReplacePattern(gp, X_IS_N).value;
    assert gp' == Group(Bgp([N_P_C]), ["y"], []);
    OneGroup(w);
    assert Drops(map[], X_IS_N, map[]);
    NothingGrouped(w, map[]);
  }

  lemma OneGroup(w: World)
    requires w.active == {Triple(C, NamedNode(P), C)}
    ensures Answers(w, Group(Bgp([X_P_C]), ["y"], []), map[])
  {
    var xc: Solution := map["x" := C];
    OneTriple(w, X_P_C, xc);
    assert Restrict(xc, SeqSet(["y"])) == map[];
    assert IsGroupKey(w, Bgp([X_P_C]), ["y"], map[]);
  }

  lemma NothingGrouped(w: World, nu: Solution)
    requires w.active == {Triple(C, NamedNode(P), C)}
    ensures !Answers(w, Group(Bgp([N_P_C]), ["y"], []), nu)
  {
    forall a ensures !Answers(w, Bgp([N_P_C]), a) { OneTriple(w, N_P_C, a); }
    forall key ensures !IsGroupKey(w, Bgp([N_P_C]), ["y"], key) {}
  }

  const FIRST_SUBJECT: GraphPattern := Slice(Bgp([X_P_C]), 0, Some(1))

  /** LIMIT 1 over { ?x p c } that keeps the row of another subject: the row of the bound one comes back. */
  lemma SliceNotKept(w: World)
    requires w.active == {Triple(N, NamedNode(P), C), Triple(C, NamedNode(P), C)}
    requires !w.fns.keeps(FIRST_SUBJECT, map["x" := N]) && w.fns.keeps(Slice(Bgp([N_P_C]), 0, Some(1)), map[])
    ensures ReplacePattern(FIRST_SUBJECT, X_IS_N).Ok? && !Kept(w, FIRST_SUBJECT, X_IS_N)
  {
    ReplacedBgps();
    var gp' := ReplacePattern(FIRST_SUBJECT, X_IS_N).value;
    assert gp' == Slice(Bgp([N_P_C]), 0, Some(1));
    OneTriple(w, N_P_C, map[]);
    assert Answers(w, gp', map[]);
    forall mu | Answers(w, FIRST_SUBJECT, mu) ensures !Drops(mu, X_IS_N, map[]) { NotFirst(w, mu); }
  }

  lemma NotFirst(w: World, mu: Solution)
    requires !w.fns.keeps(FIRST_SUBJECT, map["x" := N]) && Answers(w, FIRST_SUBJECT, mu)
    ensures !Drops(mu, X_IS_N, map[])
  {
    OneTriple(w, X_P_C, mu);
    if Drops(mu, X_IS_N, map[]) { AgreesOnX(mu); }
  }

  lemma AgreesOnX(mu: Solution)
    requires mu.Keys == {"x"} && Drops(mu, X_IS_N, map[])
    ensures mu == map["x" := N]
  {
    assert "x" in Ground(X_IS_N);
  }

  lemma NothingProjected(w: World, nu: Solution)
    requires w.active == {Triple(C, NamedNode(P), C)}
    ensures !Answers(w, Project(Bgp([N_P_C]), []), nu)
  {
    forall a ensures !Answers(w, Bgp([N_P_C]), a) { OneTriple(w, N_P_C, a); }
  }
}
