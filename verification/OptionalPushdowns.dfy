/** Constraints from around an OPTIONAL that are already applied to its right side. */
module OptionalPushdowns {
  import opened Wrappers
  import opened Rdf
  import opened Algebra
  import opened Semantics
  import opened TypeConstraints
  import opened FilterAnalysis
  import opened Pushdowns
  import opened PushdownSoundness
  import opened Mentions
  import opened QueryBindings
  import Scope

  // A match that the constraints leave on the right.
  ghost predicate FilteredMatch(w: World, gp: GraphPattern, c: Constraints, a: Solution, b: Solution)
    requires gp.LeftJoin?
  {
    OptionalMatch(w, gp, a, b) && Passes(c, b)
  }

  ghost predicate HasFilteredMatch(w: World, gp: GraphPattern, c: Constraints, a: Solution)
    requires gp.LeftJoin?
  {
    exists b :: FilteredMatch(w, gp, c, a, b)
  }

  /** The solutions of the OPTIONAL when its right side is filtered first. */
  ghost predicate FilteredAnswers(w: World, gp: GraphPattern, c: Constraints, mu: Solution)
    requires gp.LeftJoin?
  {
    || (exists a, b :: Answers(w, gp.left, a) && FilteredMatch(w, gp, c, a, b) && mu == a + b)
    || (Answers(w, gp.left, mu) && !HasFilteredMatch(w, gp, c, mu))
  }

  // A left solution whose matches are all filtered away.
  ghost predicate MatchesDropped(w: World, gp: GraphPattern, c: Constraints, a: Solution)
    requires gp.LeftJoin?
  {
    Answers(w, gp.left, a) && !HasFilteredMatch(w, gp, c, a) && exists b :: OptionalMatch(w, gp, a, b)
  }

  // What two compatible solutions share passes in the one when it is met by the other.
  lemma SharedPasses(c: Constraints, b: Solution, p: Solution)
    requires Meets(c, p) && Compatible(b, p)
    ensures Passes(c, b)
  {
    forall v | v in b && v in p ensures b[v] == p[v] {}
  }

  lemma PartOfJoined(a: Solution, b: Solution, p: Solution)
    requires Compatible(a, b) && Compatible(a + b, p)
    ensures Compatible(b, p) && Compatible(a, p)
  {
    forall v | v in b && v in p ensures b[v] == p[v] { assert v in a + b; }
    forall v | v in a && v in p ensures a[v] == p[v] { assert v in a + b; }
  }

  // A solution that some p joined with it lets through stays a solution.
  lemma SolutionStays(w: World, gp: GraphPattern, c: Constraints, mu: Solution, p: Solution)
    requires gp.LeftJoin? && Answers(w, gp, mu) && Meets(c, p) && Compatible(mu, p)
    ensures FilteredAnswers(w, gp, c, mu)
  {
    var matched, a, b := LeftJoinParts(w, gp, mu);
    if matched {
      PartOfJoined(a, b, p);
      SharedPasses(c, b, p);
      assert FilteredMatch(w, gp, c, a, b);
    }
  }

  lemma MatchedStays(w: World, gp: GraphPattern, c: Constraints, a: Solution, b: Solution)
    requires gp.LeftJoin? && Answers(w, gp.left, a) && FilteredMatch(w, gp, c, a, b)
    ensures Answers(w, gp, a + b)
  {
  }

  // What filtering adds are left solutions that have lost their matches.
  lemma FilteredIs(w: World, gp: GraphPattern, c: Constraints, mu: Solution)
    requires gp.LeftJoin? && FilteredAnswers(w, gp, c, mu)
    ensures Answers(w, gp, mu) || MatchesDropped(w, gp, c, mu)
  {
    if exists a, b :: Answers(w, gp.left, a) && FilteredMatch(w, gp, c, a, b) && mu == a + b {
      var a, b :| Answers(w, gp.left, a) && FilteredMatch(w, gp, c, a, b) && mu == a + b;
      MatchedStays(w, gp, c, a, b);
    }
  }

  // ----- under a filter -----

  lemma NotDropped(w: World, gp: GraphPattern, c: Constraints, mu: Solution)
    requires gp.LeftJoin? && Meets(c, mu)
    ensures !MatchesDropped(w, gp, c, mu)
  {
    forall b | OptionalMatch(w, gp, mu, b) ensures FilteredMatch(w, gp, c, mu, b) { SharedPasses(c, b, mu); }
  }

  /** Under a condition that holds only where the constraints are met, filtering the right side changes nothing. */
  lemma FilterOverOptional(w: World, gp: GraphPattern, c: Constraints, mu: Solution)
    requires gp.LeftJoin? && Meets(c, mu)
    ensures FilteredAnswers(w, gp, c, mu) <==> Answers(w, gp, mu)
  {
    if Answers(w, gp, mu) { SolutionStays(w, gp, c, mu, mu); }
    if FilteredAnswers(w, gp, c, mu) {
      FilteredIs(w, gp, c, mu);
      NotDropped(w, gp, c, mu);
    }
  }

  /** So a FILTER may push its constraints into the right side of an OPTIONAL below it. */
  lemma FilterConditionOverOptional(w: World, gp: GraphPattern, e: Expression, mu: Solution)
    requires gp.LeftJoin? && (Holds(w, e, mu) ==> EqualitiesTyped(w, e, FilterTyped(e, None), mu))
    ensures Answers(w, Filter(e, gp), mu) <==>
      FilteredAnswers(w, gp, AddFilter(UNCONSTRAINED, e, None), mu) && Holds(w, e, mu)
  {
    if Holds(w, e, mu) {
      FilterMeets(w, UNCONSTRAINED, e, None, mu, mu, FilterTyped(e, None) + FilterValued(e));
      FilterOverOptional(w, gp, AddFilter(UNCONSTRAINED, e, None), mu);
    }
  }

  function FilterValued(e: Expression): set<Var> {
    if VariablePushdowns(e).Some? then VariablePushdowns(e).value.Keys else {}
  }

  // ----- under a join -----

  ghost predicate AllMeet(c: Constraints, right: iset<Solution>) { forall p :: p in right ==> Meets(c, p) }

  ghost predicate FilteredJoins(w: World, gp: GraphPattern, c: Constraints, right: iset<Solution>, nu: Solution)
    requires gp.LeftJoin?
  {
    exists mu, p :: FilteredAnswers(w, gp, c, mu) && p in right && JoinsTo(mu, p, nu)
  }

  // Left solutions that have lost their matches join to nothing new.
  ghost predicate NothingAdded(w: World, gp: GraphPattern, c: Constraints, right: iset<Solution>)
    requires gp.LeftJoin?
  {
    forall a, p :: MatchesDropped(w, gp, c, a) && p in right && Compatible(a, p) ==> Joins(w, gp, right, a + p)
  }

  lemma JoinStays(w: World, gp: GraphPattern, c: Constraints, right: iset<Solution>, nu: Solution)
    requires gp.LeftJoin? && AllMeet(c, right) && Joins(w, gp, right, nu)
    ensures FilteredJoins(w, gp, c, right, nu)
  {
    var mu, p :| Answers(w, gp, mu) && p in right && JoinsTo(mu, p, nu);
    SolutionStays(w, gp, c, mu, p);
  }

  lemma FilteredJoinIs(w: World, gp: GraphPattern, c: Constraints, right: iset<Solution>, nu: Solution)
    requires gp.LeftJoin? && NothingAdded(w, gp, c, right) && FilteredJoins(w, gp, c, right, nu)
    ensures Joins(w, gp, right, nu)
  {
    var mu, p :| FilteredAnswers(w, gp, c, mu) && p in right && JoinsTo(mu, p, nu);
    FilteredIs(w, gp, c, mu);
  }

  lemma DroppedJoins(w: World, gp: GraphPattern, c: Constraints, right: iset<Solution>, a: Solution, p: Solution)
    requires gp.LeftJoin? && MatchesDropped(w, gp, c, a) && p in right && Compatible(a, p)
    ensures FilteredJoins(w, gp, c, right, a + p)
  {
    assert FilteredAnswers(w, gp, c, a) && JoinsTo(a, p, a + p);
  }

  /** Under a join with solutions that meet the constraints none is lost, and none added exactly under NothingAdded. */
  lemma JoinOverOptionalExactly(w: World, gp: GraphPattern, c: Constraints, right: iset<Solution>)
    requires gp.LeftJoin? && AllMeet(c, right)
    ensures (forall nu :: FilteredJoins(w, gp, c, right, nu) <==> Joins(w, gp, right, nu)) <==> NothingAdded(w, gp, c, right)
    ensures forall nu :: Joins(w, gp, right, nu) ==> FilteredJoins(w, gp, c, right, nu)
  {
    forall nu | Joins(w, gp, right, nu) ensures FilteredJoins(w, gp, c, right, nu) { JoinStays(w, gp, c, right, nu); }
    if NothingAdded(w, gp, c, right) {
      forall nu | FilteredJoins(w, gp, c, right, nu) ensures Joins(w, gp, right, nu) {
        FilteredJoinIs(w, gp, c, right, nu);
      }
    } else {
      var a, p :| MatchesDropped(w, gp, c, a) && p in right && Compatible(a, p) && !Joins(w, gp, right, a + p);
      DroppedJoins(w, gp, c, right, a, p);
    }
  }

  function ConstrainedKeys(c: Constraints): set<Var> { c.values.Keys + c.types.Keys }

  // When a binds what b shares with the constraints, b passes wherever a meets someone who does.
  lemma BoundPasses(c: Constraints, a: Solution, b: Solution, p: Solution, vs: set<Var>)
    requires Meets(c, p) && Compatible(a, b) && Compatible(a, p) && b.Keys <= vs && vs * ConstrainedKeys(c) <= a.Keys
    ensures Passes(c, b)
  {
    forall v | v in b && v in ConstrainedKeys(c) ensures v in p && b[v] == p[v] {
      assert v in vs * ConstrainedKeys(c);
    }
  }

  /** Nothing is added when the left side certainly binds the constrained variables that the right mentions. */
  lemma LeftBindsConstrained(w: World, gp: GraphPattern, c: Constraints, right: iset<Solution>)
    requires gp.LeftJoin? && AllMeet(c, right) && Vars(gp.right) * ConstrainedKeys(c) <= Scope.Certain(gp.left)
    ensures NothingAdded(w, gp, c, right)
  {
    forall a, p | MatchesDropped(w, gp, c, a) && p in right ensures !Compatible(a, p) {
      if Compatible(a, p) {
        var b :| OptionalMatch(w, gp, a, b);
        Scope.CertainlyBound(w, gp.left, a);
        SolutionVars(w, gp.right, b);
        BoundPasses(c, a, b, p, Vars(gp.right));
        assert FilteredMatch(w, gp, c, a, b);
      }
    }
  }

  /** OPTIONAL { ?x p c } over nothing, joined with ?x = n where only another subject has p c: a solution is added. */
  lemma JoinOverOptionalAdds(w: World)
    requires w.active == {Triple(C, NamedNode(P), C)}
    ensures var gp, c := LeftJoin(EMPTY, Bgp([X_P_C]), None), Constraints(map["x" := {N}], map[]);
      AllMeet(c, iset{map["x" := N]}) && !NothingAdded(w, gp, c, iset{map["x" := N]})
  {
    var gp, c := LeftJoin(EMPTY, Bgp([X_P_C]), None), Constraints(map["x" := {N}], map[]);
    var xc: Solution, xn: Solution := map["x" := C], map["x" := N];
    OneTriple(w, X_P_C, xc);
    EmptyBgp(w, map[]);
    assert OptionalMatch(w, gp, map[], xc);
    forall b ensures !FilteredMatch(w, gp, c, map[], b) { OneTriple(w, X_P_C, b); }
    assert MatchesDropped(w, gp, c, map[]) && map[] + xn == xn;
    forall mu | Answers(w, gp, mu) ensures mu == xc { OptionalOnlyMatch(w, gp, mu); }
    assert !Joins(w, gp, iset{xn}, xn);
  }
}
