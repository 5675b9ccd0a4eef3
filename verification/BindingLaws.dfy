/** Syntactic laws of substitution: it composes, and it removes exactly the bound variables from scope. */
module BindingLaws {
  import opened Wrappers
  import opened Rdf
  import opened Algebra
  import opened Bindings

  // ----- replacing by b1 and then by b2 is replacing by both -----

  lemma {:induction false} FirstBoundSome(vs: seq<Var>, b: BindingMap)
    ensures FirstBound(vs, b).Some? <==> exists v :: v in vs && v in b
  {
    if vs != [] { FirstBoundSome(vs[1..], b); }
  }

  lemma FirstBoundUnion(vs: seq<Var>, b1: BindingMap, b2: BindingMap)
    ensures FirstBound(vs, b1 + b2).None? <==> FirstBound(vs, b1).None? && FirstBound(vs, b2).None?
  {
    FirstBoundSome(vs, b1);
    FirstBoundSome(vs, b2);
    FirstBoundSome(vs, b1 + b2);
  }

  ghost predicate Composes<T(!new)>(first: Result<T, BindingError>, second: Result<T, BindingError>, both: Result<T, BindingError>) {
    && (both.Ok? <==> first.Ok? && second.Ok?)
    && (both.Ok? ==> both == second)
  }

  // What the second replacement makes of the outcome of the first.
  function ThenPattern(r: Result<GraphPattern, BindingError>, b: BindingMap): Result<GraphPattern, BindingError> {
    if r.Ok? then ReplacePattern(r.value, b) else r
  }

  function ThenExpression(r: Result<Expression, BindingError>, b: BindingMap): Result<Expression, BindingError> {
    if r.Ok? then ReplaceExpression(r.value, b) else r
  }

  lemma TermComposes(t: TermPattern, b1: BindingMap, b2: BindingMap)
    requires b1.Keys !! b2.Keys
    ensures ReplaceTerm(ReplaceTerm(t, b1), b2) == ReplaceTerm(t, b1 + b2)
  {
  }

  lemma NameComposes(n: NamedNodePattern, b1: BindingMap, b2: BindingMap)
    requires b1.Keys !! b2.Keys
    ensures var r := ReplaceName(n, b1);
      Composes(r, if r.Ok? then ReplaceName(r.value, b2) else r, ReplaceName(n, b1 + b2))
  {
  }

  lemma {:induction false} TriplesCompose(ts: seq<TriplePattern>, b1: BindingMap, b2: BindingMap)
    requires b1.Keys !! b2.Keys
    ensures var r := ReplaceTriples(ts, b1);
      Composes(r, if r.Ok? then ReplaceTriples(r.value, b2) else r, ReplaceTriples(ts, b1 + b2))
  {
    if ts != [] {
      NameComposes(ts[0].pred, b1, b2);
      TermComposes(ts[0].subj, b1, b2);
      TermComposes(ts[0].obj, b1, b2);
      TriplesCompose(ts[1..], b1, b2);
    }
  }

  /** Replacing by b1 and then b2 succeeds exactly when replacing by both does, with the same pattern. */
  lemma {:induction false} PatternComposes(gp: GraphPattern, b1: BindingMap, b2: BindingMap)
    requires b1.Keys !! b2.Keys
    ensures var r := ReplacePattern(gp, b1);
      Composes(r, ThenPattern(r, b2), ReplacePattern(gp, b1 + b2))
    decreases gp, 1
  {
    match gp {
      case Bgp(ps) => TriplesCompose(ps, b1, b2);
      case Path(s, p, o) =>
      case Join(_, _) => CombinationComposes(gp, b1, b2);
      case LeftJoin(_, _, _) => CombinationComposes(gp, b1, b2);
      case Union(_, _) => CombinationComposes(gp, b1, b2);
      case Minus(_, _) => CombinationComposes(gp, b1, b2);
      case Filter(_, _) => ClauseComposes(gp, b1, b2);
      case GraphClause(_, _) => ClauseComposes(gp, b1, b2);
      case Extend(_, _, _) => ClauseComposes(gp, b1, b2);
      case Service(_, _, _) => ClauseComposes(gp, b1, b2);
      case Values(vs, rows) => FirstBoundUnion(vs, b1, b2);
      case PValues(vs, name) => FirstBoundUnion(vs, b1, b2);
      case OrderBy(_, _) => ModifierComposes(gp, b1, b2);
      case Project(_, _) => ModifierComposes(gp, b1, b2);
      case Group(_, _, _) => ModifierComposes(gp, b1, b2);
      case Distinct(inner) => PatternComposes(inner, b1, b2);
      case Reduced(inner) => PatternComposes(inner, b1, b2);
      case Slice(inner, _, _) => PatternComposes(inner, b1, b2);
    }
  }

  lemma {:induction false} CombinationComposes(gp: GraphPattern, b1: BindingMap, b2: BindingMap)
    requires b1.Keys !! b2.Keys
    requires gp.Join? || gp.LeftJoin? || gp.Union? || gp.Minus?
    ensures var r := ReplacePattern(gp, b1);
      Composes(r, ThenPattern(r, b2), ReplacePattern(gp, b1 + b2))
    decreases gp, 0
  {
    if gp.LeftJoin? { OptionalComposes(gp.expression, b1, b2); }
    PatternComposes(gp.left, b1, b2);
    PatternComposes(gp.right, b1, b2);
  }

  lemma {:induction false} ClauseComposes(gp: GraphPattern, b1: BindingMap, b2: BindingMap)
    requires b1.Keys !! b2.Keys
    requires gp.Filter? || gp.GraphClause? || gp.Extend? || gp.Service?
    ensures var r := ReplacePattern(gp, b1);
      Composes(r, ThenPattern(r, b2), ReplacePattern(gp, b1 + b2))
    decreases gp, 0
  {
    PatternComposes(gp.inner, b1, b2);
    match gp {
      case Filter(e, _) => ExpressionComposes(e, b1, b2);
      case GraphClause(name, _) => NameComposes(name, b1, b2);
      case Extend(_, _, e) => ExpressionComposes(e, b1, b2);
      case Service(name, _, _) => NameComposes(name, b1, b2);
    }
  }

  lemma {:induction false} ModifierComposes(gp: GraphPattern, b1: BindingMap, b2: BindingMap)
    requires b1.Keys !! b2.Keys
    requires gp.OrderBy? || gp.Project? || gp.Group?
    ensures var r := ReplacePattern(gp, b1);
      Composes(r, ThenPattern(r, b2), ReplacePattern(gp, b1 + b2))
    decreases gp, 0
  {
    PatternComposes(gp.inner, b1, b2);
    match gp {
      case OrderBy(_, order) => OrdersCompose(order, b1, b2);
      case Project(_, vs) => FirstBoundUnion(vs, b1, b2);
      case Group(_, _, aggs) => AggregatesCompose(aggs, b1, b2);
    }
  }

  lemma {:induction false} OptionalComposes(e: Option<Expression>, b1: BindingMap, b2: BindingMap)
    requires b1.Keys !! b2.Keys
    ensures var r := ReplaceOptional(e, b1);
      Composes(r, if r.Ok? then ReplaceOptional(r.value, b2) else r, ReplaceOptional(e, b1 + b2))
    decreases e, 0
  {
    if e.Some? { ExpressionComposes(e.value, b1, b2); }
  }

  lemma {:induction false} ExpressionComposes(e: Expression, b1: BindingMap, b2: BindingMap)
    requires b1.Keys !! b2.Keys
    ensures var r := ReplaceExpression(e, b1);
      Composes(r, ThenExpression(r, b2), ReplaceExpression(e, b1 + b2))
    decreases e, 1
  {
    match e {
      case NodeExpr(_) =>
      case LiteralExpr(_) =>
      case Variable(v) =>
      case Or(_, _) => OperatorComposes(e, b1, b2);
      case And(_, _) => OperatorComposes(e, b1, b2);
      case Equal(_, _) => OperatorComposes(e, b1, b2);
      case SameTerm(_, _) => OperatorComposes(e, b1, b2);
      case Compare(_, _, _) => OperatorComposes(e, b1, b2);
      case In(x, es) => ExpressionComposes(x, b1, b2); ExpressionsCompose(es, b1, b2);
      case Arith(_, _, _) => OperatorComposes(e, b1, b2);
      case Sign(op, x) => ExpressionComposes(x, b1, b2);
      case Not(x) => ExpressionComposes(x, b1, b2);
      case Exists(p) => PatternComposes(p, b1, b2);
      case Bound(v) =>
      case If(c, x, y) =>
        ExpressionComposes(c, b1, b2);
        ExpressionComposes(x, b1, b2);
        ExpressionComposes(y, b1, b2);
      case Coalesce(es) => ExpressionsCompose(es, b1, b2);
      case FunctionCall(f, es) => ExpressionsCompose(es, b1, b2);
    }
  }

  lemma {:induction false} OperatorComposes(e: Expression, b1: BindingMap, b2: BindingMap)
    requires b1.Keys !! b2.Keys
    requires e.Or? || e.And? || e.Equal? || e.SameTerm? || e.Compare? || e.Arith?
    ensures var r := ReplaceExpression(e, b1);
      Composes(r, ThenExpression(r, b2), ReplaceExpression(e, b1 + b2))
    decreases e, 0
  {
    ExpressionComposes(e.a, b1, b2);
    ExpressionComposes(e.b, b1, b2);
  }

  lemma {:induction false} ExpressionsCompose(es: seq<Expression>, b1: BindingMap, b2: BindingMap)
    requires b1.Keys !! b2.Keys
    ensures var r := ReplaceExpressions(es, b1);
      Composes(r, if r.Ok? then ReplaceExpressions(r.value, b2) else r, ReplaceExpressions(es, b1 + b2))
    decreases es, 0
  {
    if es != [] {
      ExpressionComposes(es[0], b1, b2);
      ExpressionsCompose(es[1..], b1, b2);
    }
  }

  lemma {:induction false} AggregatesCompose(aggs: seq<NamedAggregate>, b1: BindingMap, b2: BindingMap)
    requires b1.Keys !! b2.Keys
    ensures var r := ReplaceAggregates(aggs, b1);
      Composes(r, if r.Ok? then ReplaceAggregates(r.value, b2) else r, ReplaceAggregates(aggs, b1 + b2))
    decreases aggs, 0
  {
    if aggs != [] {
      var a := aggs[0].aggregate;
      if a.AggregateCall? { ExpressionComposes(a.expr, b1, b2); }
      AggregatesCompose(aggs[1..], b1, b2);
    }
  }

  lemma {:induction false} OrderComposes(o: OrderExpression, b1: BindingMap, b2: BindingMap)
    requires b1.Keys !! b2.Keys
    ensures var r := ReplaceOrder(o, b1);
      Composes(r, if r.Ok? then ReplaceOrder(r.value, b2) else r, ReplaceOrder(o, b1 + b2))
    decreases o, 0
  {
    ExpressionComposes(o.expr, b1, b2);
  }

  lemma {:induction false} OrdersCompose(os: seq<OrderExpression>, b1: BindingMap, b2: BindingMap)
    requires b1.Keys !! b2.Keys
    ensures var r := ReplaceOrders(os, b1);
      Composes(r, if r.Ok? then ReplaceOrders(r.value, b2) else r, ReplaceOrders(os, b1 + b2))
    decreases os, 0
  {
    if os != [] {
      OrderComposes(os[0], b1, b2);
      OrdersCompose(os[1..], b1, b2);
    }
  }

  // ----- the scope of the result -----

  /** The GROUP BY keys in scope that are bound: replacement renames nothing there and reports no error. */
  function BoundGroupKeys(gp: GraphPattern, b: BindingMap): set<Var> {
    match gp
    case Group(_, vs, _) => SeqSet(vs) * b.Keys
    case Join(l, r) => BoundGroupKeys(l, b) + BoundGroupKeys(r, b)
    case LeftJoin(l, r, _) => BoundGroupKeys(l, b) + BoundGroupKeys(r, b)
    case Union(l, r) => BoundGroupKeys(l, b) + BoundGroupKeys(r, b)
    case Minus(l, _) => BoundGroupKeys(l, b)
    case GraphClause(_, inner) => BoundGroupKeys(inner, b)
    case Extend(inner, _, _) => BoundGroupKeys(inner, b)
    case Service(_, inner, _) => BoundGroupKeys(inner, b)
    case Filter(_, inner) => BoundGroupKeys(inner, b)
    case OrderBy(inner, _) => BoundGroupKeys(inner, b)
    case Distinct(inner) => BoundGroupKeys(inner, b)
    case Reduced(inner) => BoundGroupKeys(inner, b)
    case Slice(inner, _, _) => BoundGroupKeys(inner, b)
    case _ => {}
  }

  lemma {:induction false} BoundGroupKeysBound(gp: GraphPattern, b: BindingMap)
    ensures BoundGroupKeys(gp, b) <= b.Keys
    decreases gp
  {
    match gp {
      case Join(l, r) => BoundGroupKeysBound(l, b); BoundGroupKeysBound(r, b);
      case LeftJoin(l, r, _) => BoundGroupKeysBound(l, b); BoundGroupKeysBound(r, b);
      case Union(l, r) => BoundGroupKeysBound(l, b); BoundGroupKeysBound(r, b);
      case Minus(l, _) => BoundGroupKeysBound(l, b);
      case GraphClause(_, inner) => BoundGroupKeysBound(inner, b);
      case Extend(inner, _, _) => BoundGroupKeysBound(inner, b);
      case Service(_, inner, _) => BoundGroupKeysBound(inner, b);
      case Filter(_, inner) => BoundGroupKeysBound(inner, b);
      case OrderBy(inner, _) => BoundGroupKeysBound(inner, b);
      case Distinct(inner) => BoundGroupKeysBound(inner, b);
      case Reduced(inner) => BoundGroupKeysBound(inner, b);
      case Slice(inner, _, _) => BoundGroupKeysBound(inner, b);
      case _ =>
    }
  }

  lemma {:induction false} TriplesScope(ts: seq<TriplePattern>, b: BindingMap)
    requires ReplaceTriples(ts, b).Ok?
    ensures BgpVars(ReplaceTriples(ts, b).value) == BgpVars(ts) - b.Keys
  {
    if ts != [] { TriplesScope(ts[1..], b); }
  }

  lemma UnboundList(vs: seq<Var>, b: BindingMap)
    requires FirstBound(vs, b).None?
    ensures SeqSet(vs) - b.Keys == SeqSet(vs)
  {
    FirstBoundSome(vs, b);
  }

  lemma {:induction false} AggregatesScope(aggs: seq<NamedAggregate>, b: BindingMap)
    requires ReplaceAggregates(aggs, b).Ok?
    ensures AggregateVars(ReplaceAggregates(aggs, b).value) == AggregateVars(aggs)
    ensures AggregateVars(aggs) !! b.Keys
  {
    if aggs != [] {
      AggregatesScope(aggs[1..], b);
      var r := ReplaceAggregates(aggs, b).value;
      var rest := ReplaceAggregates(aggs[1..], b).value;
      assert r == [r[0]] + rest;
      AggregateVarsCons(aggs);
      AggregateVarsCons(r);
      assert r[1..] == rest;
    }
  }

  lemma AggregateVarsCons(aggs: seq<NamedAggregate>)
    requires aggs != []
    ensures AggregateVars(aggs) == {aggs[0].variable} + AggregateVars(aggs[1..])
  {
    assert aggs == [aggs[0]] + aggs[1..];
  }

  lemma {:induction false} ReplacedScopeWithKeys(gp: GraphPattern, b: BindingMap)
    requires ReplacePattern(gp, b).Ok?
    ensures InScope(ReplacePattern(gp, b).value) == (InScope(gp) - b.Keys) + BoundGroupKeys(gp, b)
    decreases gp, 1
  {
    match gp {
      case Bgp(ps) => TriplesScope(ps, b);
      case Path(s, p, o) =>
      case Join(_, _) => CombinationScope(gp, b);
      case LeftJoin(_, _, _) => CombinationScope(gp, b);
      case Union(_, _) => CombinationScope(gp, b);
      case Minus(l, r) => ReplacedScopeWithKeys(l, b);
      case Values(vs, rows) => UnboundList(vs, b);
      case PValues(vs, name) => UnboundList(vs, b);
      case Project(inner, vs) => UnboundList(vs, b);
      case Group(inner, vs, aggs) => AggregatesScope(aggs, b);
      case _ => WrapperScope(gp, b);
    }
  }

  lemma {:induction false} WrapperScope(gp: GraphPattern, b: BindingMap)
    requires gp.Filter? || gp.GraphClause? || gp.Extend? || gp.Service?
      || gp.OrderBy? || gp.Distinct? || gp.Reduced? || gp.Slice?
    requires ReplacePattern(gp, b).Ok?
    ensures InScope(ReplacePattern(gp, b).value) == (InScope(gp) - b.Keys) + BoundGroupKeys(gp, b)
    decreases gp, 0
  {
    ReplacedScopeWithKeys(gp.inner, b);
  }

  lemma {:induction false} CombinationScope(gp: GraphPattern, b: BindingMap)
    requires gp.Join? || gp.LeftJoin? || gp.Union?
    requires ReplacePattern(gp, b).Ok?
    ensures InScope(ReplacePattern(gp, b).value) == (InScope(gp) - b.Keys) + BoundGroupKeys(gp, b)
    decreases gp, 0
  {
    ReplacedScopeWithKeys(gp.left, b);
    ReplacedScopeWithKeys(gp.right, b);
  }

  /** On success the bound variables, and only they, leave the scope: exactly when no GROUP BY key is bound. */
  lemma ReplacedScope(gp: GraphPattern, b: BindingMap)
    requires ReplacePattern(gp, b).Ok?
    ensures InScope(ReplacePattern(gp, b).value) == InScope(gp) - b.Keys <==> BoundGroupKeys(gp, b) == {}
  {
    ReplacedScopeWithKeys(gp, b);
    BoundGroupKeysBound(gp, b);
    var s, k := InScope(gp) - b.Keys, BoundGroupKeys(gp, b);
    assert forall v :: v in k ==> v !in s && v in s + k;
  }
}
