/**
  The substitution lemma: the solutions of a replaced pattern are the solutions of the original that
  agree with the bindings, with the bound variables dropped.
 */
module BindingSemantics {
  import opened Wrappers
  import opened Rdf
  import opened Algebra
  import opened PathSemantics
  import opened Semantics
  import opened Bindings
  import opened Scope
  import opened Mentions
  import BindingLaws

  // The bindings read as a solution.
  function Ground(b: BindingMap): Solution {
    map v | v in b :: ToTerm(b[v])
  }

  function Without(mu: Solution, b: BindingMap): Solution {
    mu - b.Keys
  }

  predicate Apart(vs: set<Var>, b: BindingMap) {
    forall v :: v in vs ==> v !in b
  }

  /** Replacing an end of the path cannot turn a zero-length match on or off. */
  predicate EndsReplaceable(s: TermPattern, p: PropertyPath, o: TermPattern, b: BindingMap) {
    var s', o' := ReplaceTerm(s, b), ReplaceTerm(o, b);
    || MatchesZero(p, IsTerm(s'), IsTerm(o')) == MatchesZero(p, IsTerm(s), IsTerm(o))
    || (IsTerm(s') && IsTerm(o') && s' != o')
  }

  /**
    Where substitution keeps the meaning. A bound variable that an expression reads must be certainly
    bound by the pattern the expression ranges over; one that the right of an OPTIONAL mentions must be
    certainly bound by its left; one that a GROUP BY mentions must be a key. Sub-selects and slices must not
    mention any.
   */
  predicate Replaceable(gp: GraphPattern, b: BindingMap)
    decreases gp, 1
  {
    match gp
    case Bgp(_) => true
    case Path(s, p, o) => EndsReplaceable(s, p, o, b)
    case Join(l, r) => Replaceable(l, b) && Replaceable(r, b)
    case LeftJoin(l, r, e) =>
      && Replaceable(l, b) && Replaceable(r, b) && (e.Some? ==> ReplaceableExpr(e.value, b))
      && (Vars(r) + OptionalVars(e)) * b.Keys <= Certain(l)
    case Filter(e, inner) => Replaceable(inner, b) && ReplaceableExpr(e, b) && ExprVars(e) * b.Keys <= Certain(inner)
    case Union(l, r) => Replaceable(l, b) && Replaceable(r, b)
    case GraphClause(_, inner) => Replaceable(inner, b)
    case Extend(inner, _, e) => Replaceable(inner, b) && ReplaceableExpr(e, b) && ExprVars(e) * b.Keys <= Certain(inner)
    case Minus(l, r) => Replaceable(l, b) && (Apart(Vars(r), b) || (Replaceable(r, b) && MinusReplaceable(l, r, b)))
    case Values(_, _) => true
    case PValues(_, _) => true
    case OrderBy(inner, _) => Replaceable(inner, b)
    case Distinct(inner) => Replaceable(inner, b)
    case Reduced(inner) => Replaceable(inner, b)
    case Service(_, inner, _) => Replaceable(inner, b)
    case Group(inner, vs, aggs) =>
      || Apart(Vars(gp), b)
      || (Replaceable(inner, b) && ReplaceableAggregates(aggs, b) && GroupReplaceable(inner, vs, aggs, b))
    case _ => Apart(Vars(gp), b)
  }

  // Every bound variable of the pattern is a key and certainly bound, and so is every one that an aggregate reads.
  predicate GroupReplaceable(inner: GraphPattern, vs: seq<Var>, aggs: seq<NamedAggregate>, b: BindingMap) {
    BoundAreKeys(inner, vs, b) && ReadsCertain(aggs, inner, b) && AggregateVars(aggs) !! SeqSet(vs)
  }

  predicate BoundAreKeys(inner: GraphPattern, vs: seq<Var>, b: BindingMap) {
    Vars(inner) * b.Keys <= SeqSet(vs) * Certain(inner)
  }

  predicate ReadsCertain(aggs: seq<NamedAggregate>, inner: GraphPattern, b: BindingMap) {
    forall a :: a in aggs && a.aggregate.AggregateCall? ==> ExprVars(a.aggregate.expr) * b.Keys <= Certain(inner)
  }

  // The right of a MINUS mentions no bound variable, or both sides certainly share another variable and the
  // left certainly binds the bound ones.
  predicate MinusReplaceable(l: GraphPattern, r: GraphPattern, b: BindingMap) {
    || Apart(Vars(r), b)
    || (Vars(r) * b.Keys <= Certain(l) && Certain(l) * Certain(r) - b.Keys != {})
  }

  // Only the patterns under EXISTS restrict an expression.
  predicate ReplaceableExpr(e: Expression, b: BindingMap)
    decreases e, 1
  {
    match e
    case Or(x, y) => ReplaceableExpr(x, b) && ReplaceableExpr(y, b)
    case And(x, y) => ReplaceableExpr(x, b) && ReplaceableExpr(y, b)
    case Equal(x, y) => ReplaceableExpr(x, b) && ReplaceableExpr(y, b)
    case SameTerm(x, y) => ReplaceableExpr(x, b) && ReplaceableExpr(y, b)
    case Compare(_, x, y) => ReplaceableExpr(x, b) && ReplaceableExpr(y, b)
    case In(x, es) => ReplaceableExpr(x, b) && ReplaceableExprs(es, b)
    case Arith(_, x, y) => ReplaceableExpr(x, b) && ReplaceableExpr(y, b)
    case Sign(_, x) => ReplaceableExpr(x, b)
    case Not(x) => ReplaceableExpr(x, b)
    case Exists(p) => Replaceable(p, b)
    case If(c, x, y) => ReplaceableExpr(c, b) && ReplaceableExpr(x, b) && ReplaceableExpr(y, b)
    case Coalesce(es) => ReplaceableExprs(es, b)
    case FunctionCall(_, es) => ReplaceableExprs(es, b)
    case _ => true
  }

  predicate ReplaceableAggregate(a: AggregateExpression, b: BindingMap)
    decreases a, 0
  {
    a.AggregateCall? ==> ReplaceableExpr(a.expr, b)
  }

  predicate ReplaceableAggregates(aggs: seq<NamedAggregate>, b: BindingMap)
    decreases aggs, 0
  {
    aggs == [] || (ReplaceableAggregate(aggs[0].aggregate, b) && ReplaceableAggregates(aggs[1..], b))
  }

  predicate ReplaceableExprs(es: seq<Expression>, b: BindingMap)
    decreases es, 0
  {
    es == [] || (ReplaceableExpr(es[0], b) && ReplaceableExprs(es[1..], b))
  }

  // ----- basic graph patterns and paths -----

  // nu is mu without the bound variables, and mu agrees with the bindings.
  ghost predicate Drops(mu: Solution, b: BindingMap, nu: Solution) {
    Compatible(mu, Ground(b)) && nu == Without(mu, b)
  }

  // The bound variables among vs put back.
  function PutBack(nu: Solution, b: BindingMap, vs: set<Var>): Solution {
    nu + Restrict(Ground(b), vs)
  }

  lemma PutBackDrops(nu: Solution, b: BindingMap, vs: set<Var>)
    requires nu.Keys !! b.Keys
    ensures Drops(PutBack(nu, b, vs), b, nu)
    ensures PutBack(nu, b, vs).Keys == nu.Keys + vs * b.Keys
  {
    assert Without(PutBack(nu, b, vs), b) == nu;
  }

  lemma InstanceReplaced(t: TermPattern, b: BindingMap, mu: Solution, sigma: map<string, Term>)
    requires TermVars(t) <= mu.Keys && Compatible(mu, Ground(b))
    ensures Instance(ReplaceTerm(t, b), Without(mu, b), sigma) == Instance(t, mu, sigma)
  {
  }

  lemma NameReplaced(n: NamedNodePattern, b: BindingMap, mu: Solution)
    requires NameVars(n) <= mu.Keys && Compatible(mu, Ground(b)) && ReplaceName(n, b).Ok?
    ensures NameInstance(ReplaceName(n, b).value, Without(mu, b)) == NameInstance(n, mu)
  {
  }

  lemma {:induction false} TriplesReplaced(ts: seq<TriplePattern>, b: BindingMap)
    requires ReplaceTriples(ts, b).Ok?
    ensures var ts' := ReplaceTriples(ts, b).value;
      && |ts'| == |ts| && BgpVars(ts') == BgpVars(ts) - b.Keys
      && forall i :: 0 <= i < |ts| ==> ReplaceTriple(ts[i], b) == Ok(ts'[i]) && TripleVars(ts[i]) <= BgpVars(ts)
  {
    if ts != [] {
      TriplesReplaced(ts[1..], b);
      var ts' := ReplaceTriples(ts, b).value;
      assert ts'[1..] == ReplaceTriples(ts[1..], b).value;
      forall i | 0 <= i < |ts|
        ensures ReplaceTriple(ts[i], b) == Ok(ts'[i]) && TripleVars(ts[i]) <= BgpVars(ts)
      {
        if i > 0 { assert ts[i] == ts[1..][i - 1] && ts'[i] == ts'[1..][i - 1]; }
      }
    }
  }

  lemma BgpReplaced(g: Graph, ts: seq<TriplePattern>, b: BindingMap, mu: Solution, sigma: map<string, Term>)
    requires ReplaceTriples(ts, b).Ok?
    requires BgpVars(ts) <= mu.Keys && Compatible(mu, Ground(b))
    ensures MatchesAll(g, ReplaceTriples(ts, b).value, Without(mu, b), sigma) <==> MatchesAll(g, ts, mu, sigma)
  {
    TriplesReplaced(ts, b);
    var ts' := ReplaceTriples(ts, b).value;
    forall i | 0 <= i < |ts|
      ensures MatchesTriple(g, ts'[i], Without(mu, b), sigma) <==> MatchesTriple(g, ts[i], mu, sigma)
    {
      assert ReplaceTriple(ts[i], b) == Ok(ts'[i]);
      InstanceReplaced(ts[i].subj, b, mu, sigma);
      InstanceReplaced(ts[i].obj, b, mu, sigma);
      NameReplaced(ts[i].pred, b, mu);
    }
  }

  lemma ConnectsReplaced(g: Graph, p: PropertyPath, x: Term, y: Term, sT: bool, oT: bool, sT': bool, oT': bool)
    requires x == y ==> MatchesZero(p, sT, oT) == MatchesZero(p, sT', oT')
    ensures Connects(g, p, x, y, sT, oT) <==> Connects(g, p, x, y, sT', oT')
  {
    if x == y && x !in Nodes(g) {
      ConnectsOutsideGraph(g, p, x, sT, oT);
      ConnectsOutsideGraph(g, p, x, sT', oT');
    } else {
      if Connects(g, p, x, y, sT, oT) {
        ConnectsNodes(g, p, x, y, sT, oT);
        ConnectsAnyEnds(g, p, x, y, sT, oT, sT', oT');
      }
      if Connects(g, p, x, y, sT', oT') {
        ConnectsNodes(g, p, x, y, sT', oT');
        ConnectsAnyEnds(g, p, x, y, sT', oT', sT, oT);
      }
    }
  }

  // The ends of the path stand for x and y.
  lemma EndsConnect(
      g: Graph, s: TermPattern, p: PropertyPath, o: TermPattern, b: BindingMap, nu: Solution, sigma: map<string, Term>,
      x: Term, y: Term)
    requires EndsReplaceable(s, p, o, b)
    requires Instance(ReplaceTerm(s, b), nu, sigma) == Some(x) && Instance(ReplaceTerm(o, b), nu, sigma) == Some(y)
    ensures Connects(g, p, x, y, IsTerm(ReplaceTerm(s, b)), IsTerm(ReplaceTerm(o, b))) <==>
      Connects(g, p, x, y, IsTerm(s), IsTerm(o))
  {
    var s', o' := ReplaceTerm(s, b), ReplaceTerm(o, b);
    ConnectsReplaced(g, p, x, y, IsTerm(s), IsTerm(o), IsTerm(s'), IsTerm(o'));
  }

  lemma PathReplaced(
      g: Graph, s: TermPattern, p: PropertyPath, o: TermPattern, b: BindingMap, mu: Solution, sigma: map<string, Term>)
    requires EndsReplaceable(s, p, o, b)
    requires TermVars(s) + TermVars(o) <= mu.Keys && Compatible(mu, Ground(b))
    ensures MatchesPath(g, ReplaceTerm(s, b), p, ReplaceTerm(o, b), Without(mu, b), sigma) <==>
      MatchesPath(g, s, p, o, mu, sigma)
  {
    InstanceReplaced(s, b, mu, sigma);
    InstanceReplaced(o, b, mu, sigma);
    var x, y := Instance(s, mu, sigma), Instance(o, mu, sigma);
    if x.Some? && y.Some? {
      EndsConnect(g, s, p, o, b, Without(mu, b), sigma, x.value, y.value);
    }
  }

  // ----- patterns that mention no bound variable -----

  lemma {:induction false} UnmentionedTriples(ts: seq<TriplePattern>, b: BindingMap)
    requires Apart(BgpVars(ts), b)
    ensures ReplaceTriples(ts, b) == Ok(ts)
  {
    if ts != [] {
      assert ts == [ts[0]] + ts[1..];
      UnmentionedTriples(ts[1..], b);
    }
  }

  lemma UnmentionedList(vs: seq<Var>, b: BindingMap)
    requires Apart(SeqSet(vs), b)
    ensures FirstBound(vs, b).None?
  {
    BindingLaws.FirstBoundSome(vs, b);
    assert forall v :: v in vs ==> v in SeqSet(vs);
  }

  /** Replacement leaves a pattern without bound variables as it is. */
  lemma {:induction false} Unmentioned(gp: GraphPattern, b: BindingMap)
    requires Apart(Vars(gp), b)
    ensures ReplacePattern(gp, b) == Ok(gp)
    decreases gp, 1
  {
    match gp {
      case Bgp(ps) => UnmentionedTriples(ps, b);
      case Path(s, p, o) =>
      case Join(l, r) => Unmentioned(l, b); Unmentioned(r, b);
      case LeftJoin(_, _, _) => UnmentionedLeftJoin(gp, b);
      case Filter(e, inner) => UnmentionedExpr(e, b); Unmentioned(inner, b);
      case Union(l, r) => Unmentioned(l, b); Unmentioned(r, b);
      case GraphClause(name, inner) => Unmentioned(inner, b);
      case Extend(inner, v, e) => UnmentionedExpr(e, b); Unmentioned(inner, b);
      case Minus(l, r) => Unmentioned(l, b); Unmentioned(r, b);
      case Values(vs, rows) => UnmentionedList(vs, b);
      case PValues(vs, name) => UnmentionedList(vs, b);
      case OrderBy(inner, order) => UnmentionedOrders(order, b); Unmentioned(inner, b);
      case Project(inner, vs) => UnmentionedList(vs, b); Unmentioned(inner, b);
      case Distinct(inner) => Unmentioned(inner, b);
      case Reduced(inner) => Unmentioned(inner, b);
      case Slice(inner, _, _) => Unmentioned(inner, b);
      case Group(_, _, _) => UnmentionedGroup(gp, b);
      case Service(name, inner, silent) => Unmentioned(inner, b);
    }
  }

  lemma {:induction false} UnmentionedLeftJoin(gp: GraphPattern, b: BindingMap)
    requires gp.LeftJoin? && Apart(Vars(gp), b)
    ensures ReplacePattern(gp, b) == Ok(gp)
    decreases gp, 0
  {
    UnmentionedOptional(gp.expression, b);
    Unmentioned(gp.left, b);
    Unmentioned(gp.right, b);
  }

  lemma {:induction false} UnmentionedGroup(gp: GraphPattern, b: BindingMap)
    requires gp.Group? && Apart(Vars(gp), b)
    ensures ReplacePattern(gp, b) == Ok(gp)
    decreases gp, 0
  {
    UnmentionedAggregates(gp.aggregates, b);
    Unmentioned(gp.inner, b);
  }

  lemma {:induction false} UnmentionedOptional(e: Option<Expression>, b: BindingMap)
    requires Apart(OptionalVars(e), b)
    ensures ReplaceOptional(e, b) == Ok(e)
    decreases e, 0
  {
    if e.Some? { UnmentionedExpr(e.value, b); }
  }

  lemma {:induction false} UnmentionedExpr(e: Expression, b: BindingMap)
    requires Apart(ExprVars(e), b)
    ensures ReplaceExpression(e, b) == Ok(e)
    decreases e, 1
  {
    match e {
      case NodeExpr(_) =>
      case LiteralExpr(_) =>
      case Variable(_) =>
      case Bound(_) =>
      case In(x, es) => UnmentionedExpr(x, b); UnmentionedExprs(es, b);
      case Sign(_, x) => UnmentionedExpr(x, b);
      case Not(x) => UnmentionedExpr(x, b);
      case Exists(p) => Unmentioned(p, b);
      case If(c, x, y) =>
        UnmentionedExpr(c, b);
        UnmentionedExpr(x, b);
        UnmentionedExpr(y, b);
      case Coalesce(es) => UnmentionedExprs(es, b);
      case FunctionCall(_, es) => UnmentionedExprs(es, b);
      case _ => UnmentionedExpr(e.a, b); UnmentionedExpr(e.b, b);
    }
  }

  lemma {:induction false} UnmentionedExprs(es: seq<Expression>, b: BindingMap)
    requires Apart(ExprsVars(es), b)
    ensures ReplaceExpressions(es, b) == Ok(es)
    decreases es, 0
  {
    if es != [] {
      assert es == [es[0]] + es[1..];
      UnmentionedExpr(es[0], b);
      UnmentionedExprs(es[1..], b);
    }
  }

  lemma {:induction false} UnmentionedAggregates(aggs: seq<NamedAggregate>, b: BindingMap)
    requires Apart(AggVars(aggs), b)
    ensures ReplaceAggregates(aggs, b) == Ok(aggs)
    decreases aggs, 0
  {
    if aggs != [] {
      assert aggs == [aggs[0]] + aggs[1..];
      UnmentionedAggregate(aggs[0].aggregate, b);
      UnmentionedAggregates(aggs[1..], b);
    }
  }

  lemma {:induction false} UnmentionedAggregate(a: AggregateExpression, b: BindingMap)
    requires Apart(AggregateExprVars(a), b)
    ensures ReplaceAggregate(a, b) == Ok(a)
    decreases a, 0
  {
    if a.AggregateCall? { UnmentionedExpr(a.expr, b); }
  }

  lemma {:induction false} UnmentionedOrders(os: seq<OrderExpression>, b: BindingMap)
    requires Apart(OrderVars(os), b)
    ensures ReplaceOrders(os, b) == Ok(os)
    decreases os, 0
  {
    if os != [] {
      assert os == [os[0]] + os[1..];
      UnmentionedOrder(os[0], b);
      UnmentionedOrders(os[1..], b);
    }
  }

  lemma {:induction false} UnmentionedOrder(o: OrderExpression, b: BindingMap)
    requires Apart(OneOrderVars(o), b)
    ensures ReplaceOrder(o, b) == Ok(o)
    decreases o, 0
  {
    UnmentionedExpr(o.expr, b);
  }
}
