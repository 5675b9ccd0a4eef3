/** Exactly when BIND, slices and groups keep their meaning under replacement, given what it does to their parts. */
module ExactRestriction {
  import opened Wrappers
  import opened Rdf
  import opened Algebra
  import opened Semantics
  import opened Bindings
  import opened BindingSemantics
  import opened Restriction
  import Scope

  // ----- BIND -----

  // Filling in the bindings does not change the value of e.
  ghost predicate ValuesStay(w: World, e: Expression, inner: GraphPattern, b: BindingMap) {
    forall mu :: Answers(w, inner, mu) && Compatible(mu, Ground(b)) ==> Eval(w, e, mu) == Eval(w, e, mu + Ground(b))
  }

  lemma FilledValue(w: World, e: Expression, e': Expression, b: BindingMap, mu: Solution)
    requires ReadsBindings(w, e, e', b)
    ensures Eval(w, e', Without(mu, b)) == Eval(w, e, mu + Ground(b))
  {
    assert Without(mu, b) + Ground(b) == mu + Ground(b);
  }

  lemma ExtendAnswers(w: World, inner: GraphPattern, v: Var, e: Expression, a: Solution)
    requires Answers(w, inner, a)
    ensures Answers(w, Extend(inner, v, e), ExtendWith(v, Eval(w, e, a), a))
  {
  }

  lemma LiftBind(w: World, gp: GraphPattern, gp': GraphPattern, b: BindingMap, nu: Solution)
    requires BindReplaced(w, gp, gp', b) && ValuesStay(w, gp.bind, gp.inner, b) && Answers(w, gp', nu)
    ensures Remains(w, gp, b, nu)
  {
    var a' := ExtendPart(w, gp', nu);
    var a := Lift(w, gp.inner, gp'.inner, b, a');
    FilledValue(w, gp.bind, gp'.bind, b, a);
    ExtendDrops(gp.variable, Eval(w, gp.bind, a), a, b);
    ExtendAnswers(w, gp.inner, gp.variable, gp.bind, a);
  }

  lemma LowerBind(w: World, gp: GraphPattern, gp': GraphPattern, b: BindingMap, mu: Solution)
    requires BindReplaced(w, gp, gp', b) && ValuesStay(w, gp.bind, gp.inner, b)
    requires Answers(w, gp, mu) && Compatible(mu, Ground(b))
    ensures Answers(w, gp', Without(mu, b))
  {
    var a := ExtendPart(w, gp, mu);
    ExtendAgrees(gp.variable, Eval(w, gp.bind, a), a, Ground(b));
    FilledValue(w, gp.bind, gp'.bind, b, a);
    Lower(w, gp.inner, gp'.inner, b, a);
    ExtendDrops(gp.variable, Eval(w, gp.bind, a), a, b);
    ExtendAnswers(w, gp'.inner, gp.variable, gp'.bind, Without(a, b));
  }

  // The parts of a BIND are restricted, and its variable is not replaced.
  ghost predicate BindReplaced(w: World, gp: GraphPattern, gp': GraphPattern, b: BindingMap) {
    && gp.Extend? && gp'.Extend? && gp.variable == gp'.variable && gp.variable !in b
    && Restricts(w, gp.inner, gp'.inner, b) && ReadsBindings(w, gp.bind, gp'.bind, b)
  }

  lemma ExtendedApart(v: Var, x: Value, a: Solution, y: Value, c: Solution)
    requires v !in a && v !in c && ExtendWith(v, x, a) == ExtendWith(v, y, c)
    ensures a == c && x == y
  {
    assert ExtendWith(v, x, a) - {v} == a && ExtendWith(v, y, c) - {v} == c;
    assert x.Some? <==> v in ExtendWith(v, x, a);
    assert y.Some? <==> v in ExtendWith(v, y, c);
  }

  lemma BindValueStays(w: World, gp: GraphPattern, gp': GraphPattern, b: BindingMap, mu: Solution)
    requires BindReplaced(w, gp, gp', b) && Scope.NeverBinds(w, gp.inner, gp.variable) && Restricts(w, gp, gp', b)
    requires Answers(w, gp.inner, mu) && Compatible(mu, Ground(b))
    ensures Eval(w, gp.bind, mu) == Eval(w, gp.bind, mu + Ground(b))
  {
    var v, x := gp.variable, Eval(w, gp.bind, mu);
    ExtendAnswers(w, gp.inner, v, gp.bind, mu);
    ExtendDrops(v, x, mu, b);
    Lower(w, gp, gp', b, ExtendWith(v, x, mu));
    var a' := ExtendPart(w, gp', ExtendWith(v, x, Without(mu, b)));
    var a := Lift(w, gp.inner, gp'.inner, b, a');
    ExtendedApart(v, x, Without(mu, b), Eval(w, gp'.bind, a'), a');
    FilledValue(w, gp.bind, gp'.bind, b, mu);
  }

  /** A BIND keeps its meaning exactly when filling in the bindings never changes the value that it binds. */
  lemma BindRestrictsExactly(w: World, gp: GraphPattern, gp': GraphPattern, b: BindingMap)
    requires BindReplaced(w, gp, gp', b) && Scope.NeverBinds(w, gp.inner, gp.variable)
    ensures Restricts(w, gp, gp', b) <==> ValuesStay(w, gp.bind, gp.inner, b)
  {
    if ValuesStay(w, gp.bind, gp.inner, b) {
      forall nu | Answers(w, gp', nu) ensures Remains(w, gp, b, nu) { LiftBind(w, gp, gp', b, nu); }
      forall mu | Answers(w, gp, mu) && Compatible(mu, Ground(b)) ensures Answers(w, gp', Without(mu, b)) {
        LowerBind(w, gp, gp', b, mu);
      }
      BothWays(w, gp, gp', b);
    }
    if Restricts(w, gp, gp', b) {
      forall mu | Answers(w, gp.inner, mu) && Compatible(mu, Ground(b))
        ensures Eval(w, gp.bind, mu) == Eval(w, gp.bind, mu + Ground(b))
      {
        BindValueStays(w, gp, gp', b, mu);
      }
    }
  }

  // ----- slices -----

  ghost predicate SliceReplaced(w: World, gp: GraphPattern, gp': GraphPattern, b: BindingMap) {
    gp.Slice? && gp'.Slice? && Restricts(w, gp.inner, gp'.inner, b)
  }

  // The slice keeps some solution with the same remainder as mu, agreeing with the bindings.
  ghost predicate TwinInSlice(w: World, gp: GraphPattern, b: BindingMap, mu: Solution)
    requires gp.Slice?
  {
    exists twin :: Answers(w, gp.inner, twin) && Drops(twin, b, Without(mu, b)) && w.fns.keeps(gp, twin)
  }

  // The replaced slice keeps a remainder exactly when the original kept a solution with that remainder.
  ghost predicate SlicesAlike(w: World, gp: GraphPattern, gp': GraphPattern, b: BindingMap)
    requires gp.Slice?
  {
    forall mu :: Answers(w, gp.inner, mu) && Compatible(mu, Ground(b)) ==>
      (w.fns.keeps(gp', Without(mu, b)) <==> TwinInSlice(w, gp, b, mu))
  }

  lemma SliceAnswers(w: World, gp: GraphPattern)
    requires gp.Slice?
    ensures forall mu :: Answers(w, gp, mu) <==> Answers(w, gp.inner, mu) && w.fns.keeps(gp, mu)
  {
  }

  lemma LiftSlice(w: World, gp: GraphPattern, gp': GraphPattern, b: BindingMap, nu: Solution)
    requires SliceReplaced(w, gp, gp', b) && SlicesAlike(w, gp, gp', b)
    requires Answers(w, gp'.inner, nu) && w.fns.keeps(gp', nu)
    ensures exists twin :: Answers(w, gp.inner, twin) && Drops(twin, b, nu) && w.fns.keeps(gp, twin)
  {
    var mu := Lift(w, gp.inner, gp'.inner, b, nu);
    assert TwinInSlice(w, gp, b, mu);
  }

  lemma AlikeRestricts(w: World, gp: GraphPattern, gp': GraphPattern, b: BindingMap)
    requires SliceReplaced(w, gp, gp', b) && SlicesAlike(w, gp, gp', b)
    ensures Restricts(w, gp, gp', b)
  {
    SliceAnswers(w, gp);
    SliceAnswers(w, gp');
    forall nu | Answers(w, gp', nu) ensures Remains(w, gp, b, nu) { LiftSlice(w, gp, gp', b, nu); }
    forall mu | Answers(w, gp, mu) && Compatible(mu, Ground(b)) ensures Answers(w, gp', Without(mu, b)) {
      Lower(w, gp.inner, gp'.inner, b, mu);
      assert Drops(mu, b, Without(mu, b));
    }
    BothWays(w, gp, gp', b);
  }

  lemma SliceAlikeAt(w: World, gp: GraphPattern, gp': GraphPattern, b: BindingMap, mu: Solution)
    requires SliceReplaced(w, gp, gp', b) && Restricts(w, gp, gp', b)
    requires Answers(w, gp.inner, mu) && Compatible(mu, Ground(b))
    ensures w.fns.keeps(gp', Without(mu, b)) <==> TwinInSlice(w, gp, b, mu)
  {
    SliceAnswers(w, gp);
    SliceAnswers(w, gp');
    Lower(w, gp.inner, gp'.inner, b, mu);
    if w.fns.keeps(gp', Without(mu, b)) {
      var twin := Lift(w, gp, gp', b, Without(mu, b));
    }
    if TwinInSlice(w, gp, b, mu) {
      var twin :| Answers(w, gp.inner, twin) && Drops(twin, b, Without(mu, b)) && w.fns.keeps(gp, twin);
      Lower(w, gp, gp', b, twin);
    }
  }

  /** A slice keeps its meaning exactly when it keeps, of every remainder, what it kept before the replacement. */
  lemma SliceRestrictsExactly(w: World, gp: GraphPattern, gp': GraphPattern, b: BindingMap)
    requires SliceReplaced(w, gp, gp', b)
    ensures Restricts(w, gp, gp', b) <==> SlicesAlike(w, gp, gp', b)
  {
    if SlicesAlike(w, gp, gp', b) { AlikeRestricts(w, gp, gp', b); }
    if Restricts(w, gp, gp', b) {
      forall mu | Answers(w, gp.inner, mu) && Compatible(mu, Ground(b))
        ensures w.fns.keeps(gp', Without(mu, b)) <==> TwinInSlice(w, gp, b, mu)
      {
        SliceAlikeAt(w, gp, gp', b, mu);
      }
    }
  }

  // ----- groups -----

  // The keys are the same, no aggregate is bound or a key, and the pattern is restricted.
  ghost predicate GroupReplaced(w: World, gp: GraphPattern, gp': GraphPattern, b: BindingMap) {
    && gp.Group? && gp'.Group? && gp'.variables == gp.variables
    && AggregateVars(gp'.aggregates) == AggregateVars(gp.aggregates)
    && Apart(AggregateVars(gp.aggregates), b) && AggregateVars(gp.aggregates) !! SeqSet(gp.variables)
    && Restricts(w, gp.inner, gp'.inner, b)
  }

  ghost function Aggregated(w: World, gp: GraphPattern, key: Solution): Solution
    requires gp.Group?
  {
    AggregateValues(w, gp.aggregates, GroupOf(w, gp.inner, gp.variables, key))
  }

  // key is what a solution that agrees with the bindings has for the unbound ones of the grouping variables.
  ghost predicate AgreeingKey(w: World, gp: GraphPattern, b: BindingMap, key: Solution)
    requires gp.Group?
  {
    if gp.variables == [] then key == map[] else ProjectsAgreeing(w, gp.inner, SeqSet(gp.variables) - b.Keys, b, key)
  }

  // Every group whose key agrees with the bindings has a solution that does, and its aggregates stay the same.
  ghost predicate GroupsStay(w: World, gp: GraphPattern, gp': GraphPattern, b: BindingMap)
    requires gp.Group? && gp'.Group?
  {
    forall key :: IsGroupKey(w, gp.inner, gp.variables, key) && Compatible(key, Ground(b)) ==>
      && AgreeingKey(w, gp, b, Without(key, b))
      && Aggregated(w, gp, key) == Aggregated(w, gp', Without(key, b))
  }

  lemma GroupAnswer(w: World, gp: GraphPattern, key: Solution)
    requires gp.Group? && IsGroupKey(w, gp.inner, gp.variables, key)
    ensures Answers(w, gp, key + Aggregated(w, gp, key))
  {
  }

  lemma KeyWithin(w: World, inner: GraphPattern, vs: seq<Var>, key: Solution)
    requires IsGroupKey(w, inner, vs, key)
    ensures key.Keys <= SeqSet(vs)
  {
  }

  // The values that aggregates add to a key.
  lemma AggregatedApart(w: World, gp: GraphPattern, gp': GraphPattern, b: BindingMap, key: Solution, key': Solution)
    requires GroupReplaced(w, gp, gp', b) && key.Keys <= SeqSet(gp.variables) && key'.Keys <= SeqSet(gp.variables)
    ensures Compatible(key + Aggregated(w, gp, key), Ground(b)) <==> Compatible(key, Ground(b))
    ensures Without(key + Aggregated(w, gp, key), b) == Without(key, b) + Aggregated(w, gp, key)
    ensures Without(key, b) + Aggregated(w, gp, key) == key' + Aggregated(w, gp', key') ==>
      Without(key, b) == key' && Aggregated(w, gp, key) == Aggregated(w, gp', key')
  {
    Scope.AggregateValueKeys(w, gp.aggregates, GroupOf(w, gp.inner, gp.variables, key));
    Scope.AggregateValueKeys(w, gp'.aggregates, GroupOf(w, gp'.inner, gp'.variables, key'));
    SumAgrees(key, Aggregated(w, gp, key), b);
    if Without(key, b) + Aggregated(w, gp, key) == key' + Aggregated(w, gp', key') {
      SumsApart(Without(key, b), Aggregated(w, gp, key), key', Aggregated(w, gp', key'), SeqSet(gp.variables));
    }
  }

  lemma SumAgrees(key: Solution, more: Solution, b: BindingMap)
    requires Apart(more.Keys, b) && more.Keys !! key.Keys
    ensures Compatible(key + more, Ground(b)) <==> Compatible(key, Ground(b))
    ensures Without(key + more, b) == Without(key, b) + more
  {
    if Compatible(key + more, Ground(b)) { PartsCompatible(key, more, Ground(b)); }
  }

  lemma SumsApart(a: Solution, x: Solution, c: Solution, y: Solution, vs: set<Var>)
    requires a.Keys <= vs && c.Keys <= vs && x.Keys !! vs && y.Keys !! vs && a + x == c + y
    ensures a == c && x == y
  {
    assert Restrict(a + x, vs) == a && Restrict(c + y, vs) == c;
    assert (a + x) - vs == x && (c + y) - vs == y;
  }

  lemma KeyProjection(a: Solution, vs: set<Var>, b: BindingMap)
    ensures Without(Restrict(a, vs), b) == Restrict(a, vs - b.Keys) == Restrict(Without(a, b), vs)
    ensures Compatible(a, Ground(b)) ==> Compatible(Restrict(a, vs), Ground(b))
  {
  }

  lemma LiftKey(w: World, gp: GraphPattern, gp': GraphPattern, b: BindingMap, key': Solution) returns (key: Solution)
    requires GroupReplaced(w, gp, gp', b) && IsGroupKey(w, gp'.inner, gp.variables, key')
    ensures AgreeingKey(w, gp, b, key')
    ensures IsGroupKey(w, gp.inner, gp.variables, key) && Compatible(key, Ground(b)) && Without(key, b) == key'
  {
    if gp.variables == [] {
      key := map[];
      assert Without(key, b) == map[];
    } else {
      var a' :| Answers(w, gp'.inner, a') && key' == Restrict(a', SeqSet(gp.variables));
      var a := Lift(w, gp.inner, gp'.inner, b, a');
      key := Restrict(a, SeqSet(gp.variables));
      KeyProjection(a, SeqSet(gp.variables), b);
    }
  }

  lemma LowerKey(w: World, gp: GraphPattern, gp': GraphPattern, b: BindingMap, key': Solution)
    requires GroupReplaced(w, gp, gp', b) && AgreeingKey(w, gp, b, key')
    ensures IsGroupKey(w, gp'.inner, gp.variables, key')
  {
    if gp.variables != [] {
      var a :| Answers(w, gp.inner, a) && Compatible(a, Ground(b)) && key' == Restrict(a, SeqSet(gp.variables) - b.Keys);
      Lower(w, gp.inner, gp'.inner, b, a);
      KeyProjection(a, SeqSet(gp.variables), b);
    }
  }

  lemma LiftGroup(w: World, gp: GraphPattern, gp': GraphPattern, b: BindingMap, nu: Solution)
    requires GroupReplaced(w, gp, gp', b) && GroupsStay(w, gp, gp', b) && Answers(w, gp', nu)
    ensures Remains(w, gp, b, nu)
  {
    var key' := GroupPart(w, gp', nu);
    var key := LiftKey(w, gp, gp', b, key');
    GroupRemains(w, gp, gp', b, key);
  }

  lemma GroupRemains(w: World, gp: GraphPattern, gp': GraphPattern, b: BindingMap, key: Solution)
    requires GroupReplaced(w, gp, gp', b)
    requires IsGroupKey(w, gp.inner, gp.variables, key) && Compatible(key, Ground(b))
    ensures Remains(w, gp, b, Without(key, b) + Aggregated(w, gp, key))
  {
    KeyWithin(w, gp.inner, gp.variables, key);
    AggregatedApart(w, gp, gp', b, key, key);
    GroupAnswer(w, gp, key);
  }

  lemma LowerGroup(w: World, gp: GraphPattern, gp': GraphPattern, b: BindingMap, mu: Solution)
    requires GroupReplaced(w, gp, gp', b) && GroupsStay(w, gp, gp', b)
    requires Answers(w, gp, mu) && Compatible(mu, Ground(b))
    ensures Answers(w, gp', Without(mu, b))
  {
    var key := GroupPart(w, gp, mu);
    KeyWithin(w, gp.inner, gp.variables, key);
    AggregatedApart(w, gp, gp', b, key, key);
    LowerKey(w, gp, gp', b, Without(key, b));
    GroupAnswer(w, gp', Without(key, b));
  }

  lemma GroupStays(w: World, gp: GraphPattern, gp': GraphPattern, b: BindingMap, key: Solution)
    requires GroupReplaced(w, gp, gp', b) && Restricts(w, gp, gp', b)
    requires IsGroupKey(w, gp.inner, gp.variables, key) && Compatible(key, Ground(b))
    ensures AgreeingKey(w, gp, b, Without(key, b)) && Aggregated(w, gp, key) == Aggregated(w, gp', Without(key, b))
  {
    KeyWithin(w, gp.inner, gp.variables, key);
    GroupAnswer(w, gp, key);
    AggregatedApart(w, gp, gp', b, key, key);
    Lower(w, gp, gp', b, key + Aggregated(w, gp, key));
    var key' := GroupPart(w, gp', Without(key, b) + Aggregated(w, gp, key));
    KeyWithin(w, gp'.inner, gp.variables, key');
    AggregatedApart(w, gp, gp', b, key, key');
    var before := LiftKey(w, gp, gp', b, key');
  }

  /**
    A GROUP BY keeps its meaning exactly when every group whose key agrees with the bindings has a solution
    that agrees with them, and its aggregates have the same values over the replaced pattern.
   */
  lemma GroupRestrictsExactly(w: World, gp: GraphPattern, gp': GraphPattern, b: BindingMap)
    requires GroupReplaced(w, gp, gp', b)
    ensures Restricts(w, gp, gp', b) <==> GroupsStay(w, gp, gp', b)
  {
    if GroupsStay(w, gp, gp', b) {
      forall nu | Answers(w, gp', nu) ensures Remains(w, gp, b, nu) { LiftGroup(w, gp, gp', b, nu); }
      forall mu | Answers(w, gp, mu) && Compatible(mu, Ground(b)) ensures Answers(w, gp', Without(mu, b)) {
        LowerGroup(w, gp, gp', b, mu);
      }
      BothWays(w, gp, gp', b);
    }
    if Restricts(w, gp, gp', b) {
      forall key | IsGroupKey(w, gp.inner, gp.variables, key) && Compatible(key, Ground(b))
        ensures AgreeingKey(w, gp, b, Without(key, b)) && Aggregated(w, gp, key) == Aggregated(w, gp', Without(key, b))
      {
        GroupStays(w, gp, gp', b, key);
      }
    }
  }
}
