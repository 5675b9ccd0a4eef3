/** What replacement does to the aggregates of a group: they range over the solutions that agree with the bindings. */
module GroupBindings {
  import opened Wrappers
  import opened Rdf
  import opened Algebra
  import opened Semantics
  import opened Bindings
  import opened Mentions
  import opened BindingSemantics
  import opened Restriction
  import opened ExactRestriction
  import Scope

  // The solutions that agree with the bindings and have the given unbound part of the key.
  ghost function AgreeingGroup(w: World, inner: GraphPattern, vs: seq<Var>, b: BindingMap, key: Solution): iset<Solution> {
    iset mu | Answers(w, inner, mu) && Compatible(mu, Ground(b)) && Without(Restrict(mu, SeqSet(vs)), b) == key
  }

  ghost predicate Twins(w: World, inner: GraphPattern, b: BindingMap, mu: Solution, twin: Solution) {
    && Answers(w, inner, mu) && Compatible(mu, Ground(b)) && Answers(w, inner, twin) && Compatible(twin, Ground(b))
    && Without(mu, b) == Without(twin, b)
  }

  // No two of the agreeing solutions differ in bound variables only.
  ghost predicate ToldApart(w: World, inner: GraphPattern, b: BindingMap) {
    forall mu, twin :: Twins(w, inner, b, mu, twin) ==> mu == twin
  }

  // ----- groups that correspond by dropping the bound variables -----

  ghost predicate OneToOne(group: iset<Solution>, b: BindingMap) {
    forall mu, twin :: mu in group && twin in group && Without(mu, b) == Without(twin, b) ==> mu == twin
  }

  ghost predicate Corresponds(group: iset<Solution>, group': iset<Solution>, b: BindingMap) {
    && OneToOne(group, b)
    && (forall mu :: mu in group ==> Without(mu, b) in group')
    && (forall nu :: nu in group' ==> exists mu :: mu in group && Without(mu, b) == nu)
  }

  function Dropped(ms: set<Solution>, b: BindingMap): set<Solution> {
    set mu | mu in ms :: Without(mu, b)
  }

  ghost function Before(group: iset<Solution>, group': iset<Solution>, b: BindingMap, nu: Solution): Solution
    requires Corresponds(group, group', b) && nu in group'
  {
    var mu :| mu in group && Without(mu, b) == nu;
    mu
  }

  lemma MembersListed(ms: set<Solution>, group: iset<Solution>)
    requires Lists(ms, group)
    ensures Members(group) == ms
  {
    assert Lists(Members(group), group);
    forall mu ensures mu in ms <==> mu in Members(group) {}
  }

  // A group is finite when the one that it corresponds to is.
  lemma ListsBefore(group: iset<Solution>, group': iset<Solution>, b: BindingMap, ms': set<Solution>)
    requires Corresponds(group, group', b) && Lists(ms', group')
    ensures exists ms :: Lists(ms, group)
  {
    var ms := set nu | nu in ms' :: Before(group, group', b, nu);
    forall mu ensures mu in ms <==> mu in group {
      if mu in group { assert Before(group, group', b, Without(mu, b)) == mu; }
    }
    assert Lists(ms, group);
  }

  lemma MembersCorrespond(group: iset<Solution>, group': iset<Solution>, b: BindingMap)
    requires Corresponds(group, group', b)
    ensures Members(group') == Dropped(Members(group), b)
    ensures forall mu :: mu in Members(group) ==> mu in group
  {
    if ms :| Lists(ms, group) {
      MembersListed(ms, group);
      assert Lists(Dropped(ms, b), group');
      MembersListed(Dropped(ms, b), group');
    } else if ms' :| Lists(ms', group') {
      ListsBefore(group, group', b, ms');
      assert false;
    }
  }

  ghost predicate DropsApart(ms: set<Solution>, b: BindingMap) {
    forall mu, twin :: mu in ms && twin in ms && Without(mu, b) == Without(twin, b) ==> mu == twin
  }

  ghost predicate KeepsValues(f: Solution -> Value, f': Solution -> Value, ms: set<Solution>, b: BindingMap) {
    forall mu {:trigger mu in ms} :: mu in ms ==> f'(Without(mu, b)) == f(mu)
  }

  lemma {:induction false} DroppedSize(ms: set<Solution>, b: BindingMap)
    requires DropsApart(ms, b)
    ensures |Dropped(ms, b)| == |ms|
  {
    if ms != {} {
      var mu :| mu in ms;
      DroppedSize(ms - {mu}, b);
      assert Dropped(ms, b) == Dropped(ms - {mu}, b) + {Without(mu, b)};
    }
  }

  lemma SameTally(f: Solution -> Value, f': Solution -> Value, ms: set<Solution>, b: BindingMap)
    requires DropsApart(ms, b) && KeepsValues(f, f', ms, b)
    ensures TallyOf(f', Dropped(ms, b)) == TallyOf(f, ms)
  {
    var tally, tally' := TallyOf(f, ms), TallyOf(f', Dropped(ms, b));
    assert tally'.Keys == tally.Keys by { SameValues(f, f', ms, b); }
    forall x | x in tally ensures tally'[x] == tally[x] {
      DroppedWith(f, f', ms, b, x);
      DroppedSize(MembersWith(f, ms, x), b);
    }
  }

  lemma DroppedWith(f: Solution -> Value, f': Solution -> Value, ms: set<Solution>, b: BindingMap, x: Value)
    requires KeepsValues(f, f', ms, b)
    ensures MembersWith(f', Dropped(ms, b), x) == Dropped(MembersWith(f, ms, x), b)
  {
  }

  lemma SameValues(f: Solution -> Value, f': Solution -> Value, ms: set<Solution>, b: BindingMap)
    requires KeepsValues(f, f', ms, b)
    ensures (set nu | nu in Dropped(ms, b) :: f'(nu)) == set mu | mu in ms :: f(mu)
  {
    forall mu | mu in ms ensures f(mu) in (set nu | nu in Dropped(ms, b) :: f'(nu)) {
      assert Without(mu, b) in Dropped(ms, b);
    }
  }

  // ----- aggregates -----

  /** The replaced aggregate has the same name and DISTINCT, and its expression reads the bindings. */
  ghost predicate AggregateReads(w: World, a: AggregateExpression, a': AggregateExpression, b: BindingMap) {
    match a
    case CountSolutions(_) => a' == a
    case AggregateCall(name, e, distinct) =>
      a'.AggregateCall? && a'.name == name && a'.distinct == distinct && ReadsBindings(w, e, a'.expr, b)
  }

  // The bound variables that an aggregate reads are bound in every member.
  ghost predicate BindsRead(a: AggregateExpression, group: iset<Solution>, b: BindingMap) {
    a.AggregateCall? ==> forall mu :: mu in group ==> Compatible(mu, Ground(b)) && ExprVars(a.expr) * b.Keys <= mu.Keys
  }

  lemma SameAggregate(
    w: World, a: AggregateExpression, a': AggregateExpression, group: iset<Solution>, group': iset<Solution>, b: BindingMap)
    requires AggregateReads(w, a, a', b) && Corresponds(group, group', b) && BindsRead(a, group, b)
    ensures AggregateValue(w, a', group') == AggregateValue(w, a, group)
  {
    MembersCorrespond(group, group', b);
    DroppedSize(Members(group), b);
    if a.AggregateCall? {
      forall mu | mu in Members(group)
        ensures ValueIn(w, a'.expr)(Without(mu, b)) == ValueIn(w, a.expr)(mu)
      {
        ValueReplaced(w, a.expr, a'.expr, b, mu);
      }
      SameTally(ValueIn(w, a.expr), ValueIn(w, a'.expr), Members(group), b);
    }
  }

  ghost predicate AllRead(w: World, aggs: seq<NamedAggregate>, aggs': seq<NamedAggregate>, b: BindingMap) {
    |aggs'| == |aggs| && forall i :: 0 <= i < |aggs| ==>
      aggs'[i].variable == aggs[i].variable && AggregateReads(w, aggs[i].aggregate, aggs'[i].aggregate, b)
  }

  lemma {:induction false} SameAggregates(
    w: World, aggs: seq<NamedAggregate>, aggs': seq<NamedAggregate>, group: iset<Solution>, group': iset<Solution>,
    b: BindingMap)
    requires AllRead(w, aggs, aggs', b) && Corresponds(group, group', b)
    requires forall i :: 0 <= i < |aggs| ==> BindsRead(aggs[i].aggregate, group, b)
    ensures AggregateValues(w, aggs', group') == AggregateValues(w, aggs, group)
  {
    if aggs != [] {
      SameAggregate(w, aggs[0].aggregate, aggs'[0].aggregate, group, group', b);
      SameAggregates(w, aggs[1..], aggs'[1..], group, group', b);
    }
  }

  // ----- groups -----

  lemma {:induction false} SameAggregateVars(aggs: seq<NamedAggregate>, b: BindingMap)
    requires ReplaceAggregates(aggs, b).Ok?
    ensures AggregateVars(ReplaceAggregates(aggs, b).value) == AggregateVars(aggs) && Apart(AggregateVars(aggs), b)
  {
    if aggs != [] {
      SameAggregateVars(aggs[1..], b);
      var aggs' := ReplaceAggregates(aggs, b).value;
      assert aggs == [aggs[0]] + aggs[1..] && aggs' == [aggs'[0]] + ReplaceAggregates(aggs[1..], b).value;
      FirstVariable(aggs[0], aggs[1..]);
      FirstVariable(aggs'[0], ReplaceAggregates(aggs[1..], b).value);
    }
  }

  lemma FirstVariable(a: NamedAggregate, rest: seq<NamedAggregate>)
    ensures AggregateVars([a] + rest) == {a.variable} + AggregateVars(rest)
  {
    forall x | x in rest ensures x in [a] + rest {}
  }

  lemma GroupsCorrespond(
    w: World, inner: GraphPattern, inner': GraphPattern, vs: seq<Var>, b: BindingMap, key: Solution)
    requires Restricts(w, inner, inner', b) && ToldApart(w, inner, b)
    ensures Corresponds(AgreeingGroup(w, inner, vs, b, key), GroupOf(w, inner', vs, key), b)
  {
    var group, group' := AgreeingGroup(w, inner, vs, b, key), GroupOf(w, inner', vs, key);
    forall mu | mu in group ensures Without(mu, b) in group' { LowerMember(w, inner, inner', vs, b, key, mu); }
    forall nu | nu in group' ensures exists mu :: mu in group && Without(mu, b) == nu {
      var mu := LiftMember(w, inner, inner', vs, b, key, nu);
    }
    AgreeingOneToOne(w, inner, vs, b, key);
  }

  lemma AgreeingOneToOne(w: World, inner: GraphPattern, vs: seq<Var>, b: BindingMap, key: Solution)
    requires ToldApart(w, inner, b)
    ensures OneToOne(AgreeingGroup(w, inner, vs, b, key), b)
  {
    var group := AgreeingGroup(w, inner, vs, b, key);
    forall mu, twin | mu in group && twin in group && Without(mu, b) == Without(twin, b) ensures mu == twin {
      assert Twins(w, inner, b, mu, twin);
    }
  }

  lemma LowerMember(
    w: World, inner: GraphPattern, inner': GraphPattern, vs: seq<Var>, b: BindingMap, key: Solution, mu: Solution)
    requires Restricts(w, inner, inner', b) && mu in AgreeingGroup(w, inner, vs, b, key)
    ensures Without(mu, b) in GroupOf(w, inner', vs, key)
  {
    Lower(w, inner, inner', b, mu);
    KeyProjection(mu, SeqSet(vs), b);
  }

  lemma LiftMember(
    w: World, inner: GraphPattern, inner': GraphPattern, vs: seq<Var>, b: BindingMap, key: Solution, nu: Solution)
    returns (mu: Solution)
    requires Restricts(w, inner, inner', b) && nu in GroupOf(w, inner', vs, key)
    ensures mu in AgreeingGroup(w, inner, vs, b, key) && Without(mu, b) == nu
  {
    mu := Lift(w, inner, inner', b, nu);
    KeyProjection(mu, SeqSet(vs), b);
  }

  /**
    The aggregates over a replaced pattern have the values that the original ones have over the solutions that
    agree with the bindings.
   */
  lemma AggregatesOverAgreeing(
    w: World, inner: GraphPattern, inner': GraphPattern, vs: seq<Var>, aggs: seq<NamedAggregate>,
    aggs': seq<NamedAggregate>, b: BindingMap, key: Solution)
    requires Restricts(w, inner, inner', b) && ToldApart(w, inner, b)
    requires AllRead(w, aggs, aggs', b) && ReadsCertain(aggs, inner, b)
    ensures AggregateValues(w, aggs', GroupOf(w, inner', vs, key))
      == AggregateValues(w, aggs, AgreeingGroup(w, inner, vs, b, key))
  {
    var group := AgreeingGroup(w, inner, vs, b, key);
    GroupsCorrespond(w, inner, inner', vs, b, key);
    forall i | 0 <= i < |aggs| ensures BindsRead(aggs[i].aggregate, group, b) {
      assert aggs[i] in aggs;
      CertainRead(w, inner, vs, aggs[i].aggregate, b, key);
    }
    SameAggregates(w, aggs, aggs', group, GroupOf(w, inner', vs, key), b);
  }

  lemma CertainRead(
    w: World, inner: GraphPattern, vs: seq<Var>, a: AggregateExpression, b: BindingMap, key: Solution)
    requires a.AggregateCall? ==> ExprVars(a.expr) * b.Keys <= Scope.Certain(inner)
    ensures BindsRead(a, AgreeingGroup(w, inner, vs, b, key), b)
  {
    forall mu | a.AggregateCall? && mu in AgreeingGroup(w, inner, vs, b, key)
      ensures Compatible(mu, Ground(b)) && ExprVars(a.expr) * b.Keys <= mu.Keys
    {
      Scope.CertainlyBound(w, inner, mu);
    }
  }

  // Every bound variable of the pattern is certainly bound by it.
  predicate BindsBound(inner: GraphPattern, b: BindingMap) { Vars(inner) * b.Keys <= Scope.Certain(inner) }

  lemma BoundPart(w: World, inner: GraphPattern, b: BindingMap, mu: Solution)
    requires BindsBound(inner, b) && Answers(w, inner, mu) && Compatible(mu, Ground(b))
    ensures mu == Without(mu, b) + Restrict(Ground(b), Vars(inner))
  {
    Scope.CertainlyBound(w, inner, mu);
    SolutionVars(w, inner, mu);
    FilledPart(mu, Vars(inner), b);
  }

  lemma FilledPart(mu: Solution, vs: set<Var>, b: BindingMap)
    requires vs * b.Keys <= mu.Keys <= vs && Compatible(mu, Ground(b))
    ensures mu == Without(mu, b) + Restrict(Ground(b), vs)
  {
    forall v | v in mu && v in b ensures v in Restrict(Ground(b), vs) {}
  }

  lemma CertainToldApart(w: World, inner: GraphPattern, b: BindingMap)
    requires BindsBound(inner, b)
    ensures ToldApart(w, inner, b)
  {
    forall mu, twin | Twins(w, inner, b, mu, twin) ensures mu == twin {
      BoundPart(w, inner, b, mu);
      BoundPart(w, inner, b, twin);
    }
  }

  // ----- bound keys -----

  lemma MembersAgree(w: World, inner: GraphPattern, vs: seq<Var>, b: BindingMap, mu: Solution)
    requires BoundAreKeys(inner, vs, b) && Answers(w, inner, mu)
    ensures Compatible(mu, Ground(b)) <==> Compatible(Restrict(mu, SeqSet(vs)), Ground(b))
  {
    SolutionVars(w, inner, mu);
    forall v | v in mu && v in b && Compatible(Restrict(mu, SeqSet(vs)), Ground(b)) ensures mu[v] == Ground(b)[v] {
      assert v in Vars(inner) * b.Keys;
      assert v in Restrict(mu, SeqSet(vs));
    }
  }

  lemma SameKey(w: World, inner: GraphPattern, vs: seq<Var>, b: BindingMap, a: Solution, mu: Solution)
    requires BoundAreKeys(inner, vs, b) && Answers(w, inner, a) && Answers(w, inner, mu)
    requires Compatible(a, Ground(b)) && Compatible(mu, Ground(b))
    requires Without(Restrict(mu, SeqSet(vs)), b) == Without(Restrict(a, SeqSet(vs)), b)
    ensures Restrict(mu, SeqSet(vs)) == Restrict(a, SeqSet(vs))
  {
    BoundPart(w, inner, b, a);
    BoundPart(w, inner, b, mu);
    KeyOfFilled(a, Restrict(Ground(b), Vars(inner)), SeqSet(vs), b);
    KeyOfFilled(mu, Restrict(Ground(b), Vars(inner)), SeqSet(vs), b);
  }

  lemma KeyOfFilled(mu: Solution, g: Solution, vs: set<Var>, b: BindingMap)
    requires mu == Without(mu, b) + g
    ensures Restrict(mu, vs) == Without(Restrict(mu, vs), b) + Restrict(g, vs)
  {
  }

  // With a bound key that agrees, the agreeing solutions of the group are all of it.
  lemma WholeGroupAgrees(w: World, inner: GraphPattern, vs: seq<Var>, b: BindingMap, key: Solution)
    requires BoundAreKeys(inner, vs, b) && IsGroupKey(w, inner, vs, key) && Compatible(key, Ground(b))
    ensures AgreeingGroup(w, inner, vs, b, Without(key, b)) == GroupOf(w, inner, vs, key)
  {
    AgreeingWithin(w, inner, vs, b, key);
    GroupWithin(w, inner, vs, b, key);
  }

  lemma AgreeingWithin(w: World, inner: GraphPattern, vs: seq<Var>, b: BindingMap, key: Solution)
    requires BoundAreKeys(inner, vs, b) && IsGroupKey(w, inner, vs, key) && Compatible(key, Ground(b))
    ensures AgreeingGroup(w, inner, vs, b, Without(key, b)) <= GroupOf(w, inner, vs, key)
  {
    forall mu | mu in AgreeingGroup(w, inner, vs, b, Without(key, b)) ensures mu in GroupOf(w, inner, vs, key) {
      InWholeGroup(w, inner, vs, b, key, mu);
    }
  }

  lemma GroupWithin(w: World, inner: GraphPattern, vs: seq<Var>, b: BindingMap, key: Solution)
    requires BoundAreKeys(inner, vs, b) && Compatible(key, Ground(b))
    ensures GroupOf(w, inner, vs, key) <= AgreeingGroup(w, inner, vs, b, Without(key, b))
  {
    forall mu | mu in GroupOf(w, inner, vs, key) ensures mu in AgreeingGroup(w, inner, vs, b, Without(key, b)) {
      AgreesInGroup(w, inner, vs, b, key, mu);
    }
  }

  lemma AgreesInGroup(w: World, inner: GraphPattern, vs: seq<Var>, b: BindingMap, key: Solution, mu: Solution)
    requires BoundAreKeys(inner, vs, b) && mu in GroupOf(w, inner, vs, key) && Compatible(key, Ground(b))
    ensures mu in AgreeingGroup(w, inner, vs, b, Without(key, b))
  {
    MembersAgree(w, inner, vs, b, mu);
  }

  lemma InWholeGroup(w: World, inner: GraphPattern, vs: seq<Var>, b: BindingMap, key: Solution, mu: Solution)
    requires BoundAreKeys(inner, vs, b) && IsGroupKey(w, inner, vs, key) && Compatible(key, Ground(b))
    requires mu in AgreeingGroup(w, inner, vs, b, Without(key, b))
    ensures Restrict(mu, SeqSet(vs)) == key
  {
    if vs != [] {
      var a :| Answers(w, inner, a) && key == Restrict(a, SeqSet(vs));
      MembersAgree(w, inner, vs, b, a);
      SameKey(w, inner, vs, b, a, mu);
    }
  }

  lemma KeyHasAgreeing(w: World, gp: GraphPattern, b: BindingMap, key: Solution)
    requires gp.Group? && BoundAreKeys(gp.inner, gp.variables, b)
    requires IsGroupKey(w, gp.inner, gp.variables, key) && Compatible(key, Ground(b))
    ensures AgreeingKey(w, gp, b, Without(key, b))
  {
    if gp.variables == [] {
      assert Without(key, b) == map[];
    } else {
      var a :| Answers(w, gp.inner, a) && key == Restrict(a, SeqSet(gp.variables));
      MembersAgree(w, gp.inner, gp.variables, b, a);
      KeyProjection(a, SeqSet(gp.variables), b);
    }
  }

  /** A GROUP BY whose bound variables are certainly bound keys keeps its meaning, aggregates included. */
  lemma GroupRestricts(w: World, gp: GraphPattern, gp': GraphPattern, b: BindingMap)
    requires GroupReplaced(w, gp, gp', b) && BoundAreKeys(gp.inner, gp.variables, b)
    requires AllRead(w, gp.aggregates, gp'.aggregates, b) && ReadsCertain(gp.aggregates, gp.inner, b)
    ensures Restricts(w, gp, gp', b)
  {
    CertainToldApart(w, gp.inner, b);
    forall key | IsGroupKey(w, gp.inner, gp.variables, key) && Compatible(key, Ground(b))
      ensures AgreeingKey(w, gp, b, Without(key, b)) && Aggregated(w, gp, key) == Aggregated(w, gp', Without(key, b))
    {
      KeyHasAgreeing(w, gp, b, key);
      WholeGroupAgrees(w, gp.inner, gp.variables, b, key);
      AggregatesOverAgreeing(
        w, gp.inner, gp'.inner, gp.variables, gp.aggregates, gp'.aggregates, b, Without(key, b));
    }
    GroupRestrictsExactly(w, gp, gp', b);
  }
}
