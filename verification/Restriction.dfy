/** What replacement does to the solutions of each operator, given what it does to the parts. */
module Restriction {
  import opened Wrappers
  import opened Rdf
  import opened Algebra
  import opened PathSemantics
  import opened Semantics
  import opened Bindings
  import opened Mentions
  import opened BindingSemantics
  import Scope
  import BindingLaws

  // nu is what is left of a solution of gp that agrees with b.
  ghost predicate Remains(w: World, gp: GraphPattern, b: BindingMap, nu: Solution) {
    exists mu :: Answers(w, gp, mu) && Drops(mu, b, nu)
  }

  /** The solutions of gp' are those of gp that agree with b, with the variables of b dropped. */
  ghost predicate Restricts(w: World, gp: GraphPattern, gp': GraphPattern, b: BindingMap) {
    forall nu :: Answers(w, gp', nu) <==> Remains(w, gp, b, nu)
  }

  /** e' under any solution is e under that solution overridden by b. */
  ghost predicate ReadsBindings(w: World, e: Expression, e': Expression, b: BindingMap) {
    forall mu :: Eval(w, e', mu) == Eval(w, e, mu + Ground(b))
  }

  lemma Lift(w: World, gp: GraphPattern, gp': GraphPattern, b: BindingMap, nu: Solution) returns (mu: Solution)
    requires Restricts(w, gp, gp', b) && Answers(w, gp', nu)
    ensures Answers(w, gp, mu) && Drops(mu, b, nu)
  {
    mu :| Answers(w, gp, mu) && Drops(mu, b, nu);
  }

  lemma Lower(w: World, gp: GraphPattern, gp': GraphPattern, b: BindingMap, mu: Solution)
    requires Restricts(w, gp, gp', b) && Answers(w, gp, mu) && Compatible(mu, Ground(b))
    ensures Answers(w, gp', Without(mu, b))
  {
    assert Drops(mu, b, Without(mu, b));
  }

  // Both directions make a restriction.
  lemma BothWays(w: World, gp: GraphPattern, gp': GraphPattern, b: BindingMap)
    requires forall nu :: Answers(w, gp', nu) ==> Remains(w, gp, b, nu)
    requires forall mu :: Answers(w, gp, mu) && Compatible(mu, Ground(b)) ==> Answers(w, gp', Without(mu, b))
    ensures Restricts(w, gp, gp', b)
  {
  }

  // ----- joins -----

  lemma JoinedDrops(a: Solution, c: Solution, b: BindingMap, a': Solution, c': Solution)
    requires Drops(a, b, a') && Drops(c, b, c')
    ensures Compatible(a, c) <==> Compatible(a', c')
    ensures Drops(a + c, b, a' + c')
  {
    assert Without(a + c, b) == a' + c';
    if Compatible(a', c') {
      forall v | v in a && v in c ensures a[v] == c[v] {
        if v in b {
          assert v in Ground(b);
        } else {
          assert v in a' && v in c';
        }
      }
    }
  }

  lemma PartsCompatible(a: Solution, c: Solution, g: Solution)
    requires Compatible(a, c) && Compatible(a + c, g)
    ensures Compatible(a, g) && Compatible(c, g)
  {
    forall v | v in a && v in g ensures a[v] == g[v] { assert v in a + c; }
    forall v | v in c && v in g ensures c[v] == g[v] { assert v in a + c; }
  }

  lemma JoinRestricts(
      w: World, l: GraphPattern, l': GraphPattern, r: GraphPattern, r': GraphPattern, b: BindingMap)
    requires Restricts(w, l, l', b) && Restricts(w, r, r', b)
    ensures Restricts(w, Join(l, r), Join(l', r'), b)
  {
    forall nu | Answers(w, Join(l', r'), nu) ensures Remains(w, Join(l, r), b, nu) {
      var mu := LiftJoin(w, l, l', r, r', b, nu);
    }
    forall mu | Answers(w, Join(l, r), mu) && Compatible(mu, Ground(b)) ensures Answers(w, Join(l', r'), Without(mu, b)) {
      LowerJoin(w, l, l', r, r', b, mu);
    }
    BothWays(w, Join(l, r), Join(l', r'), b);
  }

  lemma LiftJoin(
      w: World, l: GraphPattern, l': GraphPattern, r: GraphPattern, r': GraphPattern, b: BindingMap, nu: Solution)
      returns (mu: Solution)
    requires Restricts(w, l, l', b) && Restricts(w, r, r', b) && Answers(w, Join(l', r'), nu)
    ensures Answers(w, Join(l, r), mu) && Drops(mu, b, nu)
  {
    var a', c' := JoinParts(w, Join(l', r'), nu);
    var a := Lift(w, l, l', b, a');
    var c := Lift(w, r, r', b, c');
    JoinedDrops(a, c, b, a', c');
    mu := a + c;
    assert JoinsTo(a, c, mu);
  }

  lemma LowerJoin(
      w: World, l: GraphPattern, l': GraphPattern, r: GraphPattern, r': GraphPattern, b: BindingMap, mu: Solution)
    requires Restricts(w, l, l', b) && Restricts(w, r, r', b)
    requires Answers(w, Join(l, r), mu) && Compatible(mu, Ground(b))
    ensures Answers(w, Join(l', r'), Without(mu, b))
  {
    var a, c := JoinParts(w, Join(l, r), mu);
    PartsCompatible(a, c, Ground(b));
    Lower(w, l, l', b, a);
    Lower(w, r, r', b, c);
    JoinedDrops(a, c, b, Without(a, b), Without(c, b));
    assert JoinsTo(Without(a, b), Without(c, b), Without(mu, b));
  }

  lemma LiftUnion(
      w: World, l: GraphPattern, l': GraphPattern, r: GraphPattern, r': GraphPattern, b: BindingMap, nu: Solution)
      returns (mu: Solution)
    requires Restricts(w, l, l', b) && Restricts(w, r, r', b) && Answers(w, Union(l', r'), nu)
    ensures Answers(w, Union(l, r), mu) && Drops(mu, b, nu)
  {
    if Answers(w, l', nu) { mu := Lift(w, l, l', b, nu); } else { mu := Lift(w, r, r', b, nu); }
  }

  lemma LowerUnion(
      w: World, l: GraphPattern, l': GraphPattern, r: GraphPattern, r': GraphPattern, b: BindingMap, mu: Solution)
    requires Restricts(w, l, l', b) && Restricts(w, r, r', b)
    requires Answers(w, Union(l, r), mu) && Compatible(mu, Ground(b))
    ensures Answers(w, Union(l', r'), Without(mu, b))
  {
    if Answers(w, l, mu) { Lower(w, l, l', b, mu); } else { Lower(w, r, r', b, mu); }
  }

  lemma UnionRestricts(
      w: World, l: GraphPattern, l': GraphPattern, r: GraphPattern, r': GraphPattern, b: BindingMap)
    requires Restricts(w, l, l', b) && Restricts(w, r, r', b)
    ensures Restricts(w, Union(l, r), Union(l', r'), b)
  {
    var gp, gp' := Union(l, r), Union(l', r');
    forall nu | Answers(w, gp', nu) ensures Remains(w, gp, b, nu) {
      var mu := LiftUnion(w, l, l', r, r', b, nu);
    }
    forall mu | Answers(w, gp, mu) && Compatible(mu, Ground(b)) ensures Answers(w, gp', Without(mu, b)) {
      LowerUnion(w, l, l', r, r', b, mu);
    }
    BothWays(w, gp, gp', b);
  }

  // ----- expressions over the solutions of a pattern -----

  lemma ValueReplaced(w: World, e: Expression, e': Expression, b: BindingMap, mu: Solution)
    requires ReadsBindings(w, e, e', b)
    requires Compatible(mu, Ground(b)) && ExprVars(e) * b.Keys <= mu.Keys
    ensures Eval(w, e', Without(mu, b)) == Eval(w, e, mu)
  {
    assert AgreeOn(ExprVars(e), Without(mu, b) + Ground(b), mu);
    EvalDependsOnVars(w, e, Without(mu, b) + Ground(b), mu);
  }

  // Some solution with the same remainder as mu, agreeing with the bindings, meets the condition.
  ghost predicate HeldByTwin(w: World, e: Expression, inner: GraphPattern, b: BindingMap, mu: Solution) {
    exists twin :: Answers(w, inner, twin) && Drops(twin, b, Without(mu, b)) && Holds(w, e, twin)
  }

  // The condition holds with the bindings filled in exactly when it held for some solution with that remainder.
  ghost predicate HeldByTwins(w: World, e: Expression, inner: GraphPattern, b: BindingMap) {
    forall mu :: Answers(w, inner, mu) && Compatible(mu, Ground(b)) ==>
      (Holds(w, e, mu + Ground(b)) <==> HeldByTwin(w, e, inner, b, mu))
  }

  lemma HoldsReplaced(w: World, e: Expression, e': Expression, b: BindingMap, mu: Solution)
    requires ReadsBindings(w, e, e', b)
    ensures Holds(w, e', Without(mu, b)) <==> Holds(w, e, mu + Ground(b))
  {
    assert Without(mu, b) + Ground(b) == mu + Ground(b);
  }

  lemma FilterAnswers(w: World, e: Expression, inner: GraphPattern)
    ensures forall mu :: Answers(w, Filter(e, inner), mu) <==> Answers(w, inner, mu) && Holds(w, e, mu)
  {
  }

  lemma FilterKeepsTwins(
      w: World, e: Expression, e': Expression, inner: GraphPattern, inner': GraphPattern, b: BindingMap, mu: Solution)
    requires Restricts(w, inner, inner', b) && ReadsBindings(w, e, e', b)
    requires Restricts(w, Filter(e, inner), Filter(e', inner'), b)
    requires Answers(w, inner, mu) && Compatible(mu, Ground(b))
    ensures Holds(w, e, mu + Ground(b)) <==> HeldByTwin(w, e, inner, b, mu)
  {
    FilterAnswers(w, e, inner);
    FilterAnswers(w, e', inner');
    HoldsReplaced(w, e, e', b, mu);
    Lower(w, inner, inner', b, mu);
    if Holds(w, e, mu + Ground(b)) {
      var twin := Lift(w, Filter(e, inner), Filter(e', inner'), b, Without(mu, b));
    }
    if HeldByTwin(w, e, inner, b, mu) {
      var twin :| Answers(w, inner, twin) && Drops(twin, b, Without(mu, b)) && Holds(w, e, twin);
      Lower(w, Filter(e, inner), Filter(e', inner'), b, twin);
    }
  }

  lemma LiftToTwin(
      w: World, e: Expression, e': Expression, inner: GraphPattern, inner': GraphPattern, b: BindingMap, nu: Solution)
    requires Restricts(w, inner, inner', b) && ReadsBindings(w, e, e', b) && HeldByTwins(w, e, inner, b)
    requires Answers(w, inner', nu) && Holds(w, e', nu)
    ensures exists twin :: Answers(w, inner, twin) && Drops(twin, b, nu) && Holds(w, e, twin)
  {
    var mu := Lift(w, inner, inner', b, nu);
    HoldsReplaced(w, e, e', b, mu);
    assert HeldByTwin(w, e, inner, b, mu);
  }

  lemma TwinsKeepFilter(
      w: World, e: Expression, e': Expression, inner: GraphPattern, inner': GraphPattern, b: BindingMap)
    requires Restricts(w, inner, inner', b) && ReadsBindings(w, e, e', b) && HeldByTwins(w, e, inner, b)
    ensures Restricts(w, Filter(e, inner), Filter(e', inner'), b)
  {
    var gp, gp' := Filter(e, inner), Filter(e', inner');
    FilterAnswers(w, e, inner);
    FilterAnswers(w, e', inner');
    forall nu | Answers(w, gp', nu) ensures Remains(w, gp, b, nu) {
      LiftToTwin(w, e, e', inner, inner', b, nu);
    }
    forall mu | Answers(w, gp, mu) && Compatible(mu, Ground(b)) ensures Answers(w, gp', Without(mu, b)) {
      Lower(w, inner, inner', b, mu);
      HoldsReplaced(w, e, e', b, mu);
      assert Drops(mu, b, Without(mu, b));
    }
    BothWays(w, gp, gp', b);
  }

  /** A filter keeps its meaning exactly when filling in the bindings decides it as it was decided for some twin. */
  lemma FilterRestrictsExactly(
      w: World, e: Expression, e': Expression, inner: GraphPattern, inner': GraphPattern, b: BindingMap)
    requires Restricts(w, inner, inner', b) && ReadsBindings(w, e, e', b)
    ensures Restricts(w, Filter(e, inner), Filter(e', inner'), b) <==> HeldByTwins(w, e, inner, b)
  {
    if Restricts(w, Filter(e, inner), Filter(e', inner'), b) {
      forall mu | Answers(w, inner, mu) && Compatible(mu, Ground(b))
        ensures Holds(w, e, mu + Ground(b)) <==> HeldByTwin(w, e, inner, b, mu)
      {
        FilterKeepsTwins(w, e, e', inner, inner', b, mu);
      }
    }
    if HeldByTwins(w, e, inner, b) { TwinsKeepFilter(w, e, e', inner, inner', b); }
  }

  // Filling in what mu binds already changes nothing.
  lemma FilledIn(w: World, e: Expression, b: BindingMap, mu: Solution)
    requires Compatible(mu, Ground(b)) && ExprVars(e) * b.Keys <= mu.Keys
    ensures Holds(w, e, mu + Ground(b)) <==> Holds(w, e, mu)
  {
    assert AgreeOn(ExprVars(e), mu + Ground(b), mu);
    EvalDependsOnVars(w, e, mu + Ground(b), mu);
  }

  lemma SameFilling(mu: Solution, twin: Solution, b: BindingMap)
    requires Drops(twin, b, Without(mu, b))
    ensures twin + Ground(b) == mu + Ground(b)
  {
    assert Without(twin, b) + Ground(b) == twin + Ground(b) && Without(mu, b) + Ground(b) == mu + Ground(b);
  }

  lemma CertainTwin(w: World, e: Expression, inner: GraphPattern, b: BindingMap, mu: Solution, twin: Solution)
    requires ExprVars(e) * b.Keys <= Scope.Certain(inner)
    requires Answers(w, inner, twin) && Drops(twin, b, Without(mu, b))
    ensures Holds(w, e, mu + Ground(b)) <==> Holds(w, e, twin)
  {
    Scope.CertainlyBound(w, inner, twin);
    FilledIn(w, e, b, twin);
    SameFilling(mu, twin, b);
  }

  lemma CertainTwins(w: World, e: Expression, inner: GraphPattern, b: BindingMap, mu: Solution)
    requires ExprVars(e) * b.Keys <= Scope.Certain(inner)
    requires Answers(w, inner, mu) && Compatible(mu, Ground(b))
    ensures Holds(w, e, mu + Ground(b)) <==> HeldByTwin(w, e, inner, b, mu)
  {
    assert Drops(mu, b, Without(mu, b));
    forall twin | Answers(w, inner, twin) && Drops(twin, b, Without(mu, b))
      ensures Holds(w, e, mu + Ground(b)) <==> Holds(w, e, twin)
    {
      CertainTwin(w, e, inner, b, mu, twin);
    }
  }

  lemma FilterRestricts(
      w: World, e: Expression, e': Expression, inner: GraphPattern, inner': GraphPattern, b: BindingMap)
    requires Restricts(w, inner, inner', b) && ReadsBindings(w, e, e', b)
    requires ExprVars(e) * b.Keys <= Scope.Certain(inner)
    ensures Restricts(w, Filter(e, inner), Filter(e', inner'), b)
  {
    forall mu | Answers(w, inner, mu) && Compatible(mu, Ground(b))
      ensures Holds(w, e, mu + Ground(b)) <==> HeldByTwin(w, e, inner, b, mu)
    {
      CertainTwins(w, e, inner, b, mu);
    }
    FilterRestrictsExactly(w, e, e', inner, inner', b);
  }

  lemma ExtendDrops(v: Var, x: Value, a: Solution, b: BindingMap)
    requires v !in b && Compatible(a, Ground(b))
    ensures Drops(ExtendWith(v, x, a), b, ExtendWith(v, x, Without(a, b)))
    ensures Compatible(ExtendWith(v, x, a), Ground(b))
  {
    assert Without(ExtendWith(v, x, a), b) == ExtendWith(v, x, Without(a, b));
  }

  lemma LiftExtend(
      w: World, inner: GraphPattern, inner': GraphPattern, v: Var, e: Expression, e': Expression, b: BindingMap, nu: Solution)
      returns (mu: Solution)
    requires Restricts(w, inner, inner', b) && ReadsBindings(w, e, e', b) && v !in b
    requires ExprVars(e) * b.Keys <= Scope.Certain(inner)
    requires Answers(w, Extend(inner', v, e'), nu)
    ensures Answers(w, Extend(inner, v, e), mu) && Drops(mu, b, nu)
  {
    var a' := ExtendPart(w, Extend(inner', v, e'), nu);
    var a := Lift(w, inner, inner', b, a');
    Scope.CertainlyBound(w, inner, a);
    ValueReplaced(w, e, e', b, a);
    ExtendDrops(v, Eval(w, e, a), a, b);
    mu := ExtendWith(v, Eval(w, e, a), a);
  }

  lemma ExtendAgrees(v: Var, x: Value, a: Solution, g: Solution)
    requires Compatible(ExtendWith(v, x, a), g)
    ensures Compatible(a, g)
  {
    forall u | u in a && u in g ensures a[u] == g[u] { assert u in ExtendWith(v, x, a); }
  }

  lemma LowerExtend(
      w: World, inner: GraphPattern, inner': GraphPattern, v: Var, e: Expression, e': Expression, b: BindingMap, mu: Solution)
    requires Restricts(w, inner, inner', b) && ReadsBindings(w, e, e', b) && v !in b
    requires ExprVars(e) * b.Keys <= Scope.Certain(inner)
    requires Answers(w, Extend(inner, v, e), mu) && Compatible(mu, Ground(b))
    ensures Answers(w, Extend(inner', v, e'), Without(mu, b))
  {
    var a := ExtendPart(w, Extend(inner, v, e), mu);
    ExtendAgrees(v, Eval(w, e, a), a, Ground(b));
    Scope.CertainlyBound(w, inner, a);
    ValueReplaced(w, e, e', b, a);
    Lower(w, inner, inner', b, a);
    ExtendDrops(v, Eval(w, e, a), a, b);
  }

  lemma ExtendRestricts(
      w: World, inner: GraphPattern, inner': GraphPattern, v: Var, e: Expression, e': Expression, b: BindingMap)
    requires Restricts(w, inner, inner', b) && ReadsBindings(w, e, e', b) && v !in b
    requires ExprVars(e) * b.Keys <= Scope.Certain(inner)
    ensures Restricts(w, Extend(inner, v, e), Extend(inner', v, e'), b)
  {
    var gp, gp' := Extend(inner, v, e), Extend(inner', v, e');
    forall nu | Answers(w, gp', nu) ensures Remains(w, gp, b, nu) {
      var mu := LiftExtend(w, inner, inner', v, e, e', b, nu);
    }
    forall mu | Answers(w, gp, mu) && Compatible(mu, Ground(b)) ensures Answers(w, gp', Without(mu, b)) {
      LowerExtend(w, inner, inner', v, e, e', b, mu);
    }
    BothWays(w, gp, gp', b);
  }

  // ----- optional parts -----

  ghost predicate OptionalReads(w: World, e: Option<Expression>, e': Option<Expression>, b: BindingMap) {
    e.Some? == e'.Some? && (e.Some? ==> ReadsBindings(w, e.value, e'.value, b))
  }

  lemma ConditionReplaced(
      w: World, e: Option<Expression>, e': Option<Expression>, b: BindingMap, mu: Solution)
    requires OptionalReads(w, e, e', b)
    requires Compatible(mu, Ground(b)) && OptionalVars(e) * b.Keys <= mu.Keys
    ensures HoldsIfAny(w, e', Without(mu, b)) <==> HoldsIfAny(w, e, mu)
  {
    if e.Some? { ValueReplaced(w, e.value, e'.value, b, mu); }
  }

  // The parts of an OPTIONAL are restricted, and its left binds the replaced variables of its condition.
  ghost predicate LeftJoinReplaced(w: World, gp: GraphPattern, gp': GraphPattern, b: BindingMap) {
    && gp.LeftJoin? && gp'.LeftJoin?
    && Restricts(w, gp.left, gp'.left, b) && Restricts(w, gp.right, gp'.right, b)
    && OptionalReads(w, gp.expression, gp'.expression, b)
    && OptionalVars(gp.expression) * b.Keys <= Scope.Certain(gp.left)
  }

  // a has a match on the right that agrees with the bindings.
  ghost predicate AgreeingMatch(w: World, gp: GraphPattern, b: BindingMap, a: Solution)
    requires gp.LeftJoin?
  {
    exists c :: OptionalMatch(w, gp, a, c) && Compatible(c, Ground(b))
  }

  // A match across the OPTIONAL, before and after.
  lemma MatchReplaced(
      w: World, gp: GraphPattern, gp': GraphPattern, b: BindingMap, a: Solution, c: Solution, a': Solution, c': Solution)
    requires LeftJoinReplaced(w, gp, gp', b)
    requires Answers(w, gp.left, a) && Answers(w, gp.right, c) && Answers(w, gp'.right, c')
    requires Drops(a, b, a') && Drops(c, b, c')
    ensures OptionalMatch(w, gp, a, c) <==> OptionalMatch(w, gp', a', c')
    ensures Drops(a + c, b, a' + c')
  {
    JoinedDrops(a, c, b, a', c');
    Scope.CertainlyBound(w, gp.left, a);
    ConditionReplaced(w, gp.expression, gp'.expression, b, a + c);
  }

  // The replaced right side matches exactly what an agreeing solution of the right side matched.
  lemma AgreeingMatchReplaced(w: World, gp: GraphPattern, gp': GraphPattern, b: BindingMap, a: Solution)
    requires LeftJoinReplaced(w, gp, gp', b) && Answers(w, gp.left, a) && Compatible(a, Ground(b))
    ensures AgreeingMatch(w, gp, b, a) <==> exists c' :: OptionalMatch(w, gp', Without(a, b), c')
  {
    if AgreeingMatch(w, gp, b, a) {
      var c :| OptionalMatch(w, gp, a, c) && Compatible(c, Ground(b));
      Lower(w, gp.right, gp'.right, b, c);
      MatchReplaced(w, gp, gp', b, a, c, Without(a, b), Without(c, b));
    }
    if c' :| OptionalMatch(w, gp', Without(a, b), c') {
      var c := Lift(w, gp.right, gp'.right, b, c');
      MatchReplaced(w, gp, gp', b, a, c, Without(a, b), c');
    }
  }

  lemma LowerLeftJoin(w: World, gp: GraphPattern, gp': GraphPattern, b: BindingMap, mu: Solution)
    requires LeftJoinReplaced(w, gp, gp', b)
    requires Answers(w, gp, mu) && Compatible(mu, Ground(b))
    ensures Answers(w, gp', Without(mu, b))
  {
    var matched, a, c := LeftJoinParts(w, gp, mu);
    if matched {
      PartsCompatible(a, c, Ground(b));
      Lower(w, gp.left, gp'.left, b, a);
      Lower(w, gp.right, gp'.right, b, c);
      MatchReplaced(w, gp, gp', b, a, c, Without(a, b), Without(c, b));
    } else {
      Lower(w, gp.left, gp'.left, b, a);
      AgreeingMatchReplaced(w, gp, gp', b, a);
    }
  }

  lemma LiftMatch(
      w: World, gp: GraphPattern, gp': GraphPattern, b: BindingMap, a: Solution, a': Solution, c': Solution)
    requires LeftJoinReplaced(w, gp, gp', b) && Answers(w, gp.left, a) && Drops(a, b, a')
    requires OptionalMatch(w, gp', a', c')
    ensures Remains(w, gp, b, a' + c')
  {
    var c := Lift(w, gp.right, gp'.right, b, c');
    MatchReplaced(w, gp, gp', b, a, c, a', c');
    MatchedAnswers(w, gp, a, c);
  }

  // nu is left of a solution of the left side without any match, or of one together with a match.
  ghost predicate LeftJoinLeaves(w: World, gp: GraphPattern, b: BindingMap, nu: Solution)
    requires gp.LeftJoin?
  {
    || (exists a :: Answers(w, gp.left, a) && Drops(a, b, nu) && !HasMatch(w, gp, a))
    || (exists a, c :: Answers(w, gp.left, a) && OptionalMatch(w, gp, a, c) && Drops(a + c, b, nu))
  }

  ghost predicate HasMatch(w: World, gp: GraphPattern, a: Solution)
    requires gp.LeftJoin?
  {
    exists c :: OptionalMatch(w, gp, a, c)
  }

  lemma RemainsLeft(w: World, gp: GraphPattern, b: BindingMap, nu: Solution)
    requires gp.LeftJoin? && Remains(w, gp, b, nu)
    ensures LeftJoinLeaves(w, gp, b, nu)
  {
    var mu :| Answers(w, gp, mu) && Drops(mu, b, nu);
    var matched, a, c := LeftJoinParts(w, gp, mu);
  }

  lemma LeavesRemain(w: World, gp: GraphPattern, b: BindingMap, nu: Solution)
    requires gp.LeftJoin? && LeftJoinLeaves(w, gp, b, nu)
    ensures Remains(w, gp, b, nu)
  {
    if exists a :: Answers(w, gp.left, a) && Drops(a, b, nu) && !HasMatch(w, gp, a) {
      var a :| Answers(w, gp.left, a) && Drops(a, b, nu) && !HasMatch(w, gp, a);
      UnmatchedAnswers(w, gp, a);
    } else {
      var a, c :| Answers(w, gp.left, a) && OptionalMatch(w, gp, a, c) && Drops(a + c, b, nu);
      MatchedAnswers(w, gp, a, c);
    }
  }

  // For every left solution without an agreeing match, its remainder is left of an unmatched or of a matched one.
  ghost predicate UnmatchedRemain(w: World, gp: GraphPattern, b: BindingMap)
    requires gp.LeftJoin?
  {
    forall a :: Answers(w, gp.left, a) && Compatible(a, Ground(b)) && !AgreeingMatch(w, gp, b, a) ==>
      LeftJoinLeaves(w, gp, b, Without(a, b))
  }

  lemma UnmatchedAnswers(w: World, gp: GraphPattern, a: Solution)
    requires gp.LeftJoin? && Answers(w, gp.left, a) && forall c :: !OptionalMatch(w, gp, a, c)
    ensures Answers(w, gp, a)
  {
  }

  lemma MatchedAnswers(w: World, gp: GraphPattern, a: Solution, c: Solution)
    requires gp.LeftJoin? && Answers(w, gp.left, a) && OptionalMatch(w, gp, a, c)
    ensures Answers(w, gp, a + c)
  {
  }

  lemma LiftLeftJoin(w: World, gp: GraphPattern, gp': GraphPattern, b: BindingMap, nu: Solution)
    requires LeftJoinReplaced(w, gp, gp', b) && UnmatchedRemain(w, gp, b) && Answers(w, gp', nu)
    ensures Remains(w, gp, b, nu)
  {
    var matched, a', c' := LeftJoinParts(w, gp', nu);
    var a := Lift(w, gp.left, gp'.left, b, a');
    if matched {
      LiftMatch(w, gp, gp', b, a, a', c');
    } else {
      AgreeingMatchReplaced(w, gp, gp', b, a);
      LeavesRemain(w, gp, b, nu);
    }
  }

  lemma UnmatchedReplaced(w: World, gp: GraphPattern, gp': GraphPattern, b: BindingMap, a: Solution)
    requires LeftJoinReplaced(w, gp, gp', b) && Restricts(w, gp, gp', b)
    requires Answers(w, gp.left, a) && Compatible(a, Ground(b)) && !AgreeingMatch(w, gp, b, a)
    ensures Remains(w, gp, b, Without(a, b))
  {
    Lower(w, gp.left, gp'.left, b, a);
    AgreeingMatchReplaced(w, gp, gp', b, a);
    assert Answers(w, gp', Without(a, b));
  }

  /** An OPTIONAL keeps its meaning exactly when no left solution is lost to a match that disagrees with the bindings. */
  lemma LeftJoinRestrictsExactly(w: World, gp: GraphPattern, gp': GraphPattern, b: BindingMap)
    requires LeftJoinReplaced(w, gp, gp', b)
    ensures Restricts(w, gp, gp', b) <==> UnmatchedRemain(w, gp, b)
  {
    if UnmatchedRemain(w, gp, b) {
      forall nu | Answers(w, gp', nu) ensures Remains(w, gp, b, nu) { LiftLeftJoin(w, gp, gp', b, nu); }
      forall mu | Answers(w, gp, mu) && Compatible(mu, Ground(b)) ensures Answers(w, gp', Without(mu, b)) {
        LowerLeftJoin(w, gp, gp', b, mu);
      }
      BothWays(w, gp, gp', b);
    }
    if Restricts(w, gp, gp', b) {
      forall a | Answers(w, gp.left, a) && Compatible(a, Ground(b)) && !AgreeingMatch(w, gp, b, a)
        ensures LeftJoinLeaves(w, gp, b, Without(a, b))
      {
        UnmatchedReplaced(w, gp, gp', b, a);
        RemainsLeft(w, gp, b, Without(a, b));
      }
    }
  }

  // What matches a on the right agrees with the bindings when a binds the replaced variables of the right.
  lemma MatchAgrees(w: World, r: GraphPattern, b: BindingMap, a: Solution, c: Solution)
    requires Answers(w, r, c) && Vars(r) * b.Keys <= a.Keys
    requires Compatible(a, Ground(b)) && Compatible(a, c)
    ensures Compatible(c, Ground(b))
  {
    SolutionVars(w, r, c);
    forall v | v in c && v in Ground(b) ensures c[v] == Ground(b)[v] {
      assert v in Vars(r) * b.Keys;
    }
  }

  lemma LeftJoinRestricts(w: World, gp: GraphPattern, gp': GraphPattern, b: BindingMap)
    requires LeftJoinReplaced(w, gp, gp', b) && Vars(gp.right) * b.Keys <= Scope.Certain(gp.left)
    ensures Restricts(w, gp, gp', b)
  {
    forall a | Answers(w, gp.left, a) && Compatible(a, Ground(b)) && !AgreeingMatch(w, gp, b, a)
      ensures LeftJoinLeaves(w, gp, b, Without(a, b))
    {
      Scope.CertainlyBound(w, gp.left, a);
      forall c ensures !OptionalMatch(w, gp, a, c) {
        if OptionalMatch(w, gp, a, c) { MatchAgrees(w, gp.right, b, a, c); }
      }
      assert Drops(a, b, Without(a, b));
    }
    LeftJoinRestrictsExactly(w, gp, gp', b);
  }

  // ----- MINUS -----

  ghost predicate Excludes(w: World, r: GraphPattern, mu: Solution) {
    exists c :: Answers(w, r, c) && Compatible(mu, c) && mu.Keys * c.Keys != {}
  }

  // mu is excluded by a solution that agrees with the bindings, over a variable that stays.
  ghost predicate ExcludesStill(w: World, r: GraphPattern, b: BindingMap, mu: Solution) {
    exists c :: Answers(w, r, c) && Compatible(c, Ground(b)) && Compatible(mu, c) && mu.Keys * c.Keys - b.Keys != {}
  }

  lemma SharedReplaced(mu: Solution, c: Solution, b: BindingMap, mu': Solution, c': Solution)
    requires Drops(mu, b, mu') && Drops(c, b, c')
    ensures Compatible(mu, c) <==> Compatible(mu', c')
    ensures mu'.Keys * c'.Keys == mu.Keys * c.Keys - b.Keys
  {
    JoinedDrops(mu, c, b, mu', c');
  }

  lemma LiftExclusion(w: World, r: GraphPattern, r': GraphPattern, b: BindingMap, mu: Solution)
    requires Restricts(w, r, r', b) && Compatible(mu, Ground(b)) && Excludes(w, r', Without(mu, b))
    ensures ExcludesStill(w, r, b, mu)
  {
    var c' :| Answers(w, r', c') && Compatible(Without(mu, b), c') && Without(mu, b).Keys * c'.Keys != {};
    var c := Lift(w, r, r', b, c');
    SharedReplaced(mu, c, b, Without(mu, b), c');
  }

  lemma LowerExclusion(w: World, r: GraphPattern, r': GraphPattern, b: BindingMap, mu: Solution)
    requires Restricts(w, r, r', b) && Compatible(mu, Ground(b)) && ExcludesStill(w, r, b, mu)
    ensures Excludes(w, r', Without(mu, b))
  {
    var c :| Answers(w, r, c) && Compatible(c, Ground(b)) && Compatible(mu, c) && mu.Keys * c.Keys - b.Keys != {};
    Lower(w, r, r', b, c);
    SharedReplaced(mu, c, b, Without(mu, b), Without(c, b));
  }

  lemma ExcludesReplaced(w: World, r: GraphPattern, r': GraphPattern, b: BindingMap, mu: Solution)
    requires Restricts(w, r, r', b) && Compatible(mu, Ground(b))
    ensures Excludes(w, r', Without(mu, b)) <==> ExcludesStill(w, r, b, mu)
  {
    if Excludes(w, r', Without(mu, b)) { LiftExclusion(w, r, r', b, mu); }
    if ExcludesStill(w, r, b, mu) { LowerExclusion(w, r, r', b, mu); }
  }

  lemma MinusAnswers(w: World, l: GraphPattern, r: GraphPattern, mu: Solution)
    ensures Answers(w, Minus(l, r), mu) <==> Answers(w, l, mu) && !Excludes(w, r, mu)
  {
  }

  // Every left solution that would stay has a twin with the same remainder that is not excluded.
  ghost predicate SparedTwins(w: World, l: GraphPattern, r: GraphPattern, b: BindingMap) {
    forall mu :: Answers(w, l, mu) && Compatible(mu, Ground(b)) && !ExcludesStill(w, r, b, mu) ==>
      exists twin :: Answers(w, l, twin) && Drops(twin, b, Without(mu, b)) && !Excludes(w, r, twin)
  }

  lemma LiftMinus(
      w: World, l: GraphPattern, l': GraphPattern, r: GraphPattern, r': GraphPattern, b: BindingMap, nu: Solution)
    requires Restricts(w, l, l', b) && Restricts(w, r, r', b) && SparedTwins(w, l, r, b)
    requires Answers(w, l', nu) && !Excludes(w, r', nu)
    ensures exists twin :: Answers(w, l, twin) && Drops(twin, b, nu) && !Excludes(w, r, twin)
  {
    var mu := Lift(w, l, l', b, nu);
    ExcludesReplaced(w, r, r', b, mu);
  }

  lemma StaysExcluded(w: World, r: GraphPattern, b: BindingMap, mu: Solution)
    requires ExcludesStill(w, r, b, mu)
    ensures Excludes(w, r, mu)
  {
    var c :| Answers(w, r, c) && Compatible(c, Ground(b)) && Compatible(mu, c) && mu.Keys * c.Keys - b.Keys != {};
    assert mu.Keys * c.Keys != {};
  }

  /** A MINUS keeps its meaning exactly when every left solution that would stay has an unexcluded twin. */
  lemma MinusRestrictsExactly(
      w: World, l: GraphPattern, l': GraphPattern, r: GraphPattern, r': GraphPattern, b: BindingMap)
    requires Restricts(w, l, l', b) && Restricts(w, r, r', b)
    ensures Restricts(w, Minus(l, r), Minus(l', r'), b) <==> SparedTwins(w, l, r, b)
  {
    var gp, gp' := Minus(l, r), Minus(l', r');
    forall mu ensures Answers(w, gp, mu) <==> Answers(w, l, mu) && !Excludes(w, r, mu) { MinusAnswers(w, l, r, mu); }
    forall mu ensures Answers(w, gp', mu) <==> Answers(w, l', mu) && !Excludes(w, r', mu) { MinusAnswers(w, l', r', mu); }
    if SparedTwins(w, l, r, b) {
      forall nu | Answers(w, gp', nu) ensures Remains(w, gp, b, nu) { LiftMinus(w, l, l', r, r', b, nu); }
      forall mu | Answers(w, gp, mu) && Compatible(mu, Ground(b)) ensures Answers(w, gp', Without(mu, b)) {
        Lower(w, l, l', b, mu);
        ExcludesReplaced(w, r, r', b, mu);
        if ExcludesStill(w, r, b, mu) { StaysExcluded(w, r, b, mu); }
      }
      BothWays(w, gp, gp', b);
    }
    if Restricts(w, gp, gp', b) {
      forall mu | Answers(w, l, mu) && Compatible(mu, Ground(b)) && !ExcludesStill(w, r, b, mu)
        ensures exists twin :: Answers(w, l, twin) && Drops(twin, b, Without(mu, b)) && !Excludes(w, r, twin)
      {
        Lower(w, l, l', b, mu);
        ExcludesReplaced(w, r, r', b, mu);
        var twin := Lift(w, gp, gp', b, Without(mu, b));
      }
    }
  }

  // An exclusion that stays, when the right mentions no bound variable or the left binds those that it mentions.
  lemma ExcluderStays(
      l: set<Var>, r: set<Var>, vs: set<Var>, b: BindingMap, mu: Solution, c: Solution)
    requires l <= mu.Keys && r <= c.Keys <= vs && Compatible(mu, c) && mu.Keys * c.Keys != {}
    requires Compatible(mu, Ground(b)) && (Apart(vs, b) || (vs * b.Keys <= l && l * r - b.Keys != {}))
    ensures Compatible(c, Ground(b)) && mu.Keys * c.Keys - b.Keys != {}
  {
    forall v | v in c && v in Ground(b) ensures c[v] == Ground(b)[v] { assert v in vs * b.Keys; }
    if Apart(vs, b) {
      assert mu.Keys * c.Keys - b.Keys == mu.Keys * c.Keys;
    } else {
      assert l * r - b.Keys <= mu.Keys * c.Keys - b.Keys;
    }
  }

  lemma ExclusionStays(w: World, l: GraphPattern, r: GraphPattern, b: BindingMap, mu: Solution)
    requires MinusReplaceable(l, r, b) && Answers(w, l, mu) && Compatible(mu, Ground(b)) && Excludes(w, r, mu)
    ensures ExcludesStill(w, r, b, mu)
  {
    var c :| Answers(w, r, c) && Compatible(mu, c) && mu.Keys * c.Keys != {};
    SolutionVars(w, r, c);
    Scope.CertainlyBound(w, l, mu);
    Scope.CertainlyBound(w, r, c);
    ExcluderStays(Scope.Certain(l), Scope.Certain(r), Vars(r), b, mu, c);
  }

  lemma MinusRestricts(
      w: World, l: GraphPattern, l': GraphPattern, r: GraphPattern, r': GraphPattern, b: BindingMap)
    requires Restricts(w, l, l', b) && Restricts(w, r, r', b) && MinusReplaceable(l, r, b)
    ensures Restricts(w, Minus(l, r), Minus(l', r'), b)
  {
    forall mu | Answers(w, l, mu) && Compatible(mu, Ground(b)) && !ExcludesStill(w, r, b, mu)
      ensures exists twin :: Answers(w, l, twin) && Drops(twin, b, Without(mu, b)) && !Excludes(w, r, twin)
    {
      if Excludes(w, r, mu) { ExclusionStays(w, l, r, b, mu); }
      assert Drops(mu, b, Without(mu, b));
    }
    MinusRestrictsExactly(w, l, l', r, r', b);
  }

  // ----- patterns without bound variables, and named places -----

  lemma ApartDrops(vs: set<Var>, b: BindingMap, mu: Solution)
    requires Apart(vs, b) && mu.Keys <= vs
    ensures Drops(mu, b, mu)
  {
    assert Without(mu, b) == mu;
  }

  lemma UnmentionedDrops(w: World, gp: GraphPattern, b: BindingMap, mu: Solution)
    requires Apart(Vars(gp), b) && Answers(w, gp, mu)
    ensures Drops(mu, b, mu)
  {
    SolutionVars(w, gp, mu);
    ApartDrops(Vars(gp), b, mu);
  }

  lemma UnmentionedRestricts(w: World, gp: GraphPattern, b: BindingMap)
    requires Apart(Vars(gp), b)
    ensures Restricts(w, gp, gp, b)
  {
    forall mu | Answers(w, gp, mu) ensures Drops(mu, b, mu) { UnmentionedDrops(w, gp, b, mu); }
    BothWays(w, gp, gp, b);
  }

  function Within(w: World, iri: Iri): World
    requires iri in w.named
  {
    w.(active := w.named[iri])
  }

  lemma NameDrops(name: NamedNodePattern, iri: Iri, a: Solution, b: BindingMap, name': NamedNodePattern)
    requires ReplaceName(name, b) == Ok(name')
    requires Compatible(a, Ground(b)) && NameMatches(name', iri)
    ensures name.VarName? && name.name in b ==> Ground(b)[name.name] == NamedNode(iri)
    ensures NameMatches(name, iri)
    ensures Drops(NameSolution(name, iri), b, NameSolution(name', iri))
  {
    assert Without(NameSolution(name, iri), b) == NameSolution(name', iri);
  }

  // A solution of the replaced place, with the bound variables put back.
  lemma NamedWhole(
      name: NamedNodePattern, name': NamedNodePattern, iri: Iri, a: Solution, a': Solution, b: BindingMap, nu: Solution)
      returns (mu: Solution)
    requires ReplaceName(name, b) == Ok(name')
    requires Drops(a, b, a') && NameMatches(name', iri) && JoinsTo(a', NameSolution(name', iri), nu)
    ensures NameMatches(name, iri) && JoinsTo(a, NameSolution(name, iri), mu) && Drops(mu, b, nu)
  {
    NameDrops(name, iri, a, b, name');
    JoinedDrops(a, NameSolution(name, iri), b, a', NameSolution(name', iri));
    mu := a + NameSolution(name, iri);
  }

  lemma LiftGraph(
      w: World, name: NamedNodePattern, name': NamedNodePattern, inner: GraphPattern, inner': GraphPattern,
      b: BindingMap, nu: Solution)
      returns (mu: Solution)
    requires ReplaceName(name, b) == Ok(name')
    requires forall iri :: iri in w.named ==> Restricts(Within(w, iri), inner, inner', b)
    requires Answers(w, GraphClause(name', inner'), nu)
    ensures Answers(w, GraphClause(name, inner), mu) && Drops(mu, b, nu)
  {
    var iri, a' := GraphParts(w, GraphClause(name', inner'), nu);
    var a := Lift(Within(w, iri), inner, inner', b, a');
    mu := NamedWhole(name, name', iri, a, a', b, nu);
  }

  // A solution of a named graph that agrees with the bindings, taken apart.
  lemma NamedParts(name: NamedNodePattern, name': NamedNodePattern, iri: Iri, a: Solution, b: BindingMap, mu: Solution)
    requires ReplaceName(name, b) == Ok(name')
    requires NameMatches(name, iri) && JoinsTo(a, NameSolution(name, iri), mu) && Compatible(mu, Ground(b))
    ensures Compatible(a, Ground(b)) && NameMatches(name', iri)
    ensures JoinsTo(Without(a, b), NameSolution(name', iri), Without(mu, b))
  {
    PartsCompatible(a, NameSolution(name, iri), Ground(b));
    if name.VarName? && name.name in b { assert name.name in NameSolution(name, iri); }
    NameDrops(name, iri, a, b, name');
    JoinedDrops(a, NameSolution(name, iri), b, Without(a, b), NameSolution(name', iri));
  }

  lemma LowerGraph(
      w: World, name: NamedNodePattern, name': NamedNodePattern, inner: GraphPattern, inner': GraphPattern,
      b: BindingMap, mu: Solution)
    requires ReplaceName(name, b) == Ok(name')
    requires forall iri :: iri in w.named ==> Restricts(Within(w, iri), inner, inner', b)
    requires Answers(w, GraphClause(name, inner), mu) && Compatible(mu, Ground(b))
    ensures Answers(w, GraphClause(name', inner'), Without(mu, b))
  {
    var iri, a := GraphParts(w, GraphClause(name, inner), mu);
    NamedParts(name, name', iri, a, b, mu);
    Lower(Within(w, iri), inner, inner', b, a);
    GraphAnswer(w, name', inner', iri, Without(a, b), Without(mu, b));
  }

  lemma GraphAnswer(w: World, name: NamedNodePattern, inner: GraphPattern, iri: Iri, a: Solution, mu: Solution)
    requires iri in w.named && NameMatches(name, iri) && JoinsTo(a, NameSolution(name, iri), mu)
    requires Answers(Within(w, iri), inner, a)
    ensures Answers(w, GraphClause(name, inner), mu)
  {
  }

  lemma GraphRestricts(
      w: World, name: NamedNodePattern, name': NamedNodePattern, inner: GraphPattern, inner': GraphPattern, b: BindingMap)
    requires ReplaceName(name, b) == Ok(name')
    requires forall iri :: iri in w.named ==> Restricts(Within(w, iri), inner, inner', b)
    ensures Restricts(w, GraphClause(name, inner), GraphClause(name', inner'), b)
  {
    var gp, gp' := GraphClause(name, inner), GraphClause(name', inner');
    forall nu | Answers(w, gp', nu) ensures Remains(w, gp, b, nu) {
      var mu := LiftGraph(w, name, name', inner, inner', b, nu);
    }
    forall mu | Answers(w, gp, mu) && Compatible(mu, Ground(b)) ensures Answers(w, gp', Without(mu, b)) {
      LowerGraph(w, name, name', inner, inner', b, mu);
    }
    BothWays(w, gp, gp', b);
  }

  // The dataset behind a service that answers.
  function Endpoint(w: World, iri: Iri): World
    requires w.fns.remote(iri).Some?
  {
    At(w, w.fns.remote(iri).value)
  }

  lemma ServiceAnswer(w: World, gp: GraphPattern, iri: Iri, a: Solution, mu: Solution)
    requires gp.Service? && NameMatches(gp.name, iri) && JoinsTo(a, NameSolution(gp.name, iri), mu)
    requires w.fns.remote(iri).Some? && Answers(Endpoint(w, iri), gp.inner, a)
    ensures Answers(w, gp, mu)
  {
  }

  ghost predicate ServiceReplaced(w: World, gp: GraphPattern, gp': GraphPattern, b: BindingMap) {
    && gp.Service? && gp'.Service? && gp.silent == gp'.silent && ReplaceName(gp.name, b) == Ok(gp'.name)
    && forall iri :: w.fns.remote(iri).Some? ==> Restricts(Endpoint(w, iri), gp.inner, gp'.inner, b)
  }

  lemma SkippedRemains(w: World, gp: GraphPattern, b: BindingMap)
    requires gp.Service? && gp.silent
    ensures Remains(w, gp, b, map[])
  {
    assert Answers(w, gp, map[]) && Drops(map[], b, map[]);
  }

  lemma LiftAnswer(
      w: World, gp: GraphPattern, gp': GraphPattern, b: BindingMap, iri: Iri, a': Solution, nu: Solution)
    requires ServiceReplaced(w, gp, gp', b) && NameMatches(gp'.name, iri) && JoinsTo(a', NameSolution(gp'.name, iri), nu)
    requires w.fns.remote(iri).Some? && Answers(Endpoint(w, iri), gp'.inner, a')
    ensures Remains(w, gp, b, nu)
  {
    var a := Lift(Endpoint(w, iri), gp.inner, gp'.inner, b, a');
    var mu := NamedWhole(gp.name, gp'.name, iri, a, a', b, nu);
    ServiceAnswer(w, gp, iri, a, mu);
  }

  lemma LiftService(w: World, gp: GraphPattern, gp': GraphPattern, b: BindingMap, nu: Solution)
    requires ServiceReplaced(w, gp, gp', b) && Answers(w, gp', nu)
    ensures Remains(w, gp, b, nu)
  {
    var skipped, iri, a' := ServiceParts(w, gp', nu);
    if skipped { SkippedRemains(w, gp, b); } else { LiftAnswer(w, gp, gp', b, iri, a', nu); }
  }

  lemma LowerService(w: World, gp: GraphPattern, gp': GraphPattern, b: BindingMap, mu: Solution)
    requires ServiceReplaced(w, gp, gp', b) && Answers(w, gp, mu) && Compatible(mu, Ground(b))
    ensures Answers(w, gp', Without(mu, b))
  {
    var skipped, iri, a := ServiceParts(w, gp, mu);
    if skipped {
      assert Without(mu, b) == map[];
    } else {
      NamedParts(gp.name, gp'.name, iri, a, b, mu);
      Lower(Endpoint(w, iri), gp.inner, gp'.inner, b, a);
      ServiceAnswer(w, gp', iri, Without(a, b), Without(mu, b));
    }
  }

  /** A SERVICE clause restricts, silent or not, also when its name is replaced. */
  lemma ServiceRestricts(w: World, gp: GraphPattern, gp': GraphPattern, b: BindingMap)
    requires ServiceReplaced(w, gp, gp', b)
    ensures Restricts(w, gp, gp', b)
  {
    forall nu | Answers(w, gp', nu) ensures Remains(w, gp, b, nu) { LiftService(w, gp, gp', b, nu); }
    forall mu | Answers(w, gp, mu) && Compatible(mu, Ground(b)) ensures Answers(w, gp', Without(mu, b)) {
      LowerService(w, gp, gp', b, mu);
    }
    BothWays(w, gp, gp', b);
  }

  // ----- sub-selects -----

  ghost predicate Projects(w: World, inner: GraphPattern, vs: set<Var>, nu: Solution) {
    exists a :: Answers(w, inner, a) && nu == Restrict(a, vs)
  }

  // nu is the projection of a solution that agrees with the bindings.
  ghost predicate ProjectsAgreeing(w: World, inner: GraphPattern, vs: set<Var>, b: BindingMap, nu: Solution) {
    exists a :: Answers(w, inner, a) && Compatible(a, Ground(b)) && nu == Restrict(a, vs)
  }

  lemma ProjectionDrops(a: Solution, vs: set<Var>, b: BindingMap)
    requires Apart(vs, b)
    ensures Drops(Restrict(a, vs), b, Restrict(a, vs))
    ensures Restrict(Without(a, b), vs) == Restrict(a, vs)
  {
    assert Without(Restrict(a, vs), b) == Restrict(a, vs);
  }

  lemma LiftProjection(w: World, inner: GraphPattern, inner': GraphPattern, vs: set<Var>, b: BindingMap, nu: Solution)
    requires Restricts(w, inner, inner', b) && Apart(vs, b) && Projects(w, inner', vs, nu)
    ensures ProjectsAgreeing(w, inner, vs, b, nu)
  {
    var a' :| Answers(w, inner', a') && nu == Restrict(a', vs);
    var a := Lift(w, inner, inner', b, a');
    ProjectionDrops(a, vs, b);
  }

  lemma LowerProjection(w: World, inner: GraphPattern, inner': GraphPattern, vs: set<Var>, b: BindingMap, nu: Solution)
    requires Restricts(w, inner, inner', b) && Apart(vs, b) && ProjectsAgreeing(w, inner, vs, b, nu)
    ensures Projects(w, inner', vs, nu)
  {
    var a :| Answers(w, inner, a) && Compatible(a, Ground(b)) && nu == Restrict(a, vs);
    Lower(w, inner, inner', b, a);
    ProjectionDrops(a, vs, b);
  }

  lemma ProjectAnswers(w: World, inner: GraphPattern, vs: seq<Var>)
    ensures forall nu :: Answers(w, Project(inner, vs), nu) <==> Projects(w, inner, SeqSet(vs), nu)
  {
  }

  lemma ProjectedRemains(w: World, gp: GraphPattern, inner: GraphPattern, vs: set<Var>, b: BindingMap, nu: Solution)
    requires (forall mu :: Answers(w, gp, mu) <==> Projects(w, inner, vs, mu)) && Apart(vs, b)
    ensures Remains(w, gp, b, nu) <==> Projects(w, inner, vs, nu)
  {
    forall mu | Answers(w, gp, mu) ensures Drops(mu, b, mu) {
      var a :| Answers(w, inner, a) && mu == Restrict(a, vs);
      ProjectionDrops(a, vs, b);
    }
  }

  lemma ProjectReplaced(w: World, inner: GraphPattern, inner': GraphPattern, vs: seq<Var>, b: BindingMap, nu: Solution)
    requires Restricts(w, inner, inner', b) && Apart(SeqSet(vs), b)
    ensures Answers(w, Project(inner', vs), nu) <==> ProjectsAgreeing(w, inner, SeqSet(vs), b, nu)
  {
    ProjectAnswers(w, inner', vs);
    if Projects(w, inner', SeqSet(vs), nu) { LiftProjection(w, inner, inner', SeqSet(vs), b, nu); }
    if ProjectsAgreeing(w, inner, SeqSet(vs), b, nu) { LowerProjection(w, inner, inner', SeqSet(vs), b, nu); }
  }

  // Each row of the sub-select comes from a solution that agrees with the bindings.
  ghost predicate RowsAgree(w: World, inner: GraphPattern, vs: set<Var>, b: BindingMap) {
    forall nu :: Projects(w, inner, vs, nu) ==> ProjectsAgreeing(w, inner, vs, b, nu)
  }

  lemma RestrictsByRows(
      w: World, gp: GraphPattern, gp': GraphPattern, inner: GraphPattern, vs: set<Var>, b: BindingMap)
    requires forall nu :: Remains(w, gp, b, nu) <==> Projects(w, inner, vs, nu)
    requires forall nu :: Answers(w, gp', nu) <==> ProjectsAgreeing(w, inner, vs, b, nu)
    ensures Restricts(w, gp, gp', b) <==> RowsAgree(w, inner, vs, b)
  {
    if Restricts(w, gp, gp', b) {
      forall nu | Projects(w, inner, vs, nu) ensures ProjectsAgreeing(w, inner, vs, b, nu) {
        assert Answers(w, gp', nu);
      }
    }
  }

  /** A sub-select keeps its meaning exactly when each of its rows comes from a solution that agrees with the bindings. */
  lemma ProjectRestrictsExactly(w: World, inner: GraphPattern, inner': GraphPattern, vs: seq<Var>, b: BindingMap)
    requires Restricts(w, inner, inner', b) && Apart(SeqSet(vs), b)
    ensures Restricts(w, Project(inner, vs), Project(inner', vs), b) <==> RowsAgree(w, inner, SeqSet(vs), b)
  {
    var gp, gp' := Project(inner, vs), Project(inner', vs);
    ProjectAnswers(w, inner, vs);
    forall nu ensures Remains(w, gp, b, nu) <==> Projects(w, inner, SeqSet(vs), nu) {
      ProjectedRemains(w, gp, inner, SeqSet(vs), b, nu);
    }
    forall nu ensures Answers(w, gp', nu) <==> ProjectsAgreeing(w, inner, SeqSet(vs), b, nu) {
      ProjectReplaced(w, inner, inner', vs, b, nu);
    }
    RestrictsByRows(w, gp, gp', inner, SeqSet(vs), b);
  }

  // ----- leaves -----

  lemma LiftBgp(w: World, ts: seq<TriplePattern>, b: BindingMap, nu: Solution) returns (mu: Solution)
    requires ReplaceTriples(ts, b).Ok? && Answers(w, Bgp(ReplaceTriples(ts, b).value), nu)
    ensures Answers(w, Bgp(ts), mu) && Drops(mu, b, nu)
  {
    TriplesReplaced(ts, b);
    var sigma :| MatchesAll(w.active, ReplaceTriples(ts, b).value, nu, sigma);
    mu := PutBack(nu, b, BgpVars(ts));
    PutBackDrops(nu, b, BgpVars(ts));
    BgpReplaced(w.active, ts, b, mu, sigma);
  }

  lemma LowerBgp(w: World, ts: seq<TriplePattern>, b: BindingMap, mu: Solution)
    requires ReplaceTriples(ts, b).Ok? && Answers(w, Bgp(ts), mu) && Compatible(mu, Ground(b))
    ensures Answers(w, Bgp(ReplaceTriples(ts, b).value), Without(mu, b))
  {
    TriplesReplaced(ts, b);
    var sigma :| MatchesAll(w.active, ts, mu, sigma);
    BgpReplaced(w.active, ts, b, mu, sigma);
  }

  lemma BgpRestricts(w: World, ts: seq<TriplePattern>, b: BindingMap)
    requires ReplaceTriples(ts, b).Ok?
    ensures Restricts(w, Bgp(ts), Bgp(ReplaceTriples(ts, b).value), b)
  {
    var gp, gp' := Bgp(ts), Bgp(ReplaceTriples(ts, b).value);
    forall nu | Answers(w, gp', nu) ensures Remains(w, gp, b, nu) {
      var mu := LiftBgp(w, ts, b, nu);
    }
    forall mu | Answers(w, gp, mu) && Compatible(mu, Ground(b)) ensures Answers(w, gp', Without(mu, b)) {
      LowerBgp(w, ts, b, mu);
    }
    BothWays(w, gp, gp', b);
  }

  lemma LiftPath(w: World, s: TermPattern, p: PropertyPath, o: TermPattern, b: BindingMap, nu: Solution)
      returns (mu: Solution)
    requires EndsReplaceable(s, p, o, b) && Answers(w, Path(ReplaceTerm(s, b), p, ReplaceTerm(o, b)), nu)
    ensures Answers(w, Path(s, p, o), mu) && Drops(mu, b, nu)
  {
    var s', o' := ReplaceTerm(s, b), ReplaceTerm(o, b);
    var vs := TermVars(s) + TermVars(o);
    assert TermVars(s') + TermVars(o') == vs - b.Keys;
    var sigma :| MatchesPath(w.active, s', p, o', nu, sigma);
    mu := PutBack(nu, b, vs);
    PutBackDrops(nu, b, vs);
    PathReplaced(w.active, s, p, o, b, mu, sigma);
  }

  lemma LowerPath(w: World, s: TermPattern, p: PropertyPath, o: TermPattern, b: BindingMap, mu: Solution)
    requires EndsReplaceable(s, p, o, b) && Answers(w, Path(s, p, o), mu) && Compatible(mu, Ground(b))
    ensures Answers(w, Path(ReplaceTerm(s, b), p, ReplaceTerm(o, b)), Without(mu, b))
  {
    assert TermVars(ReplaceTerm(s, b)) + TermVars(ReplaceTerm(o, b)) == TermVars(s) + TermVars(o) - b.Keys;
    var sigma :| MatchesPath(w.active, s, p, o, mu, sigma);
    PathReplaced(w.active, s, p, o, b, mu, sigma);
  }

  lemma PathRestricts(w: World, s: TermPattern, p: PropertyPath, o: TermPattern, b: BindingMap)
    requires EndsReplaceable(s, p, o, b)
    ensures Restricts(w, Path(s, p, o), Path(ReplaceTerm(s, b), p, ReplaceTerm(o, b)), b)
  {
    var gp, gp' := Path(s, p, o), Path(ReplaceTerm(s, b), p, ReplaceTerm(o, b));
    forall nu | Answers(w, gp', nu) ensures Remains(w, gp, b, nu) {
      var mu := LiftPath(w, s, p, o, b, nu);
    }
    forall mu | Answers(w, gp, mu) && Compatible(mu, Ground(b)) ensures Answers(w, gp', Without(mu, b)) {
      LowerPath(w, s, p, o, b, mu);
    }
    BothWays(w, gp, gp', b);
  }

  // Operators that leave the solution set as it is.
  lemma SameSolutions(w: World, gp: GraphPattern)
    requires gp.OrderBy? || gp.Distinct? || gp.Reduced?
    ensures forall mu :: Answers(w, gp, mu) <==> Answers(w, gp.inner, mu)
  {
  }

  lemma RestrictsAlike(w: World, x: GraphPattern, x': GraphPattern, y: GraphPattern, y': GraphPattern, b: BindingMap)
    requires forall mu :: Answers(w, x, mu) <==> Answers(w, y, mu)
    requires forall mu :: Answers(w, x', mu) <==> Answers(w, y', mu)
    requires Restricts(w, y, y', b)
    ensures Restricts(w, x, x', b)
  {
    forall nu | Answers(w, x', nu) ensures Remains(w, x, b, nu) { var mu := Lift(w, y, y', b, nu); }
    BothWays(w, x, x', b);
  }

  lemma SameSolutionsRestrict(w: World, gp: GraphPattern, gp': GraphPattern, b: BindingMap)
    requires gp.OrderBy? || gp.Distinct? || gp.Reduced?
    requires gp'.OrderBy? || gp'.Distinct? || gp'.Reduced?
    requires Restricts(w, gp.inner, gp'.inner, b)
    ensures Restricts(w, gp, gp', b)
  {
    SameSolutions(w, gp);
    SameSolutions(w, gp');
    RestrictsAlike(w, gp, gp', gp.inner, gp'.inner, b);
  }

  lemma ValuesRestrict(w: World, gp: GraphPattern, b: BindingMap)
    requires (gp.Values? || gp.PValues?) && FirstBound(gp.variables, b).None?
    ensures Restricts(w, gp, gp, b)
  {
    BindingLaws.FirstBoundSome(gp.variables, b);
    UnmentionedRestricts(w, gp, b);
  }
}
