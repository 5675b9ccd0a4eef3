/** Which variables a replaced query still mentions: the unbound ones, and bound GROUP BY keys. */
module BindingMentions {
  import opened Wrappers
  import opened Rdf
  import opened Algebra
  import opened Mentions
  import opened Bindings
  import BindingLaws

  // The GROUP BY keys anywhere in a query part; only these are never looked at by the replacement.
  function GroupKeys(gp: GraphPattern): set<Var>
    decreases gp, 1
  {
    match gp
    case Join(l, r) => GroupKeys(l) + GroupKeys(r)
    case LeftJoin(l, r, e) => GroupKeys(l) + GroupKeys(r) + OptionalKeys(e)
    case Filter(e, inner) => ExprKeys(e) + GroupKeys(inner)
    case Union(l, r) => GroupKeys(l) + GroupKeys(r)
    case GraphClause(_, inner) => GroupKeys(inner)
    case Extend(inner, _, e) => ExprKeys(e) + GroupKeys(inner)
    case Minus(l, r) => GroupKeys(l) + GroupKeys(r)
    case OrderBy(inner, order) => GroupKeys(inner) + OrderKeys(order)
    case Project(inner, _) => GroupKeys(inner)
    case Distinct(inner) => GroupKeys(inner)
    case Reduced(inner) => GroupKeys(inner)
    case Slice(inner, _, _) => GroupKeys(inner)
    case Group(inner, vs, aggs) => SeqSet(vs) + AggKeys(aggs) + GroupKeys(inner)
    case Service(_, inner, _) => GroupKeys(inner)
    case _ => {}
  }

  function OptionalKeys(e: Option<Expression>): set<Var>
    decreases e, 0
  {
    if e.None? then {} else ExprKeys(e.value)
  }

  function ExprKeys(e: Expression): set<Var>
    decreases e, 1
  {
    match e
    case NodeExpr(_) => {}
    case LiteralExpr(_) => {}
    case Variable(_) => {}
    case Bound(_) => {}
    case In(a, es) => ExprKeys(a) + ExprsKeys(es)
    case Sign(_, a) => ExprKeys(a)
    case Not(a) => ExprKeys(a)
    case Exists(p) => GroupKeys(p)
    case If(c, a, b) => ExprKeys(c) + ExprKeys(a) + ExprKeys(b)
    case Coalesce(es) => ExprsKeys(es)
    case FunctionCall(_, es) => ExprsKeys(es)
    case _ => ExprKeys(e.a) + ExprKeys(e.b)
  }

  function ExprsKeys(es: seq<Expression>): set<Var>
    decreases es, 0
  {
    if es == [] then {} else ExprKeys(es[0]) + ExprsKeys(es[1..])
  }

  function AggKeys(aggs: seq<NamedAggregate>): set<Var>
    decreases aggs, 0
  {
    if aggs == [] then {} else AggregateExprKeys(aggs[0].aggregate) + AggKeys(aggs[1..])
  }

  function AggregateExprKeys(a: AggregateExpression): set<Var>
    decreases a, 0
  {
    if a.AggregateCall? then ExprKeys(a.expr) else {}
  }

  function OrderKeys(os: seq<OrderExpression>): set<Var>
    decreases os, 0
  {
    if os == [] then {} else OneOrderKeys(os[0]) + OrderKeys(os[1..])
  }

  function OneOrderKeys(o: OrderExpression): set<Var>
    decreases o, 0
  {
    ExprKeys(o.expr)
  }

  // What is left of the variables: all but the bound ones, except bound keys.
  predicate Leaves(after: set<Var>, before: set<Var>, keys: set<Var>, bound: set<Var>) {
    after == (before - bound) + (keys * bound)
  }

  lemma NameLeaves(n: NamedNodePattern, b: BindingMap)
    requires ReplaceName(n, b).Ok?
    ensures Leaves(NameVars(ReplaceName(n, b).value), NameVars(n), {}, b.Keys)
  {
  }

  lemma UnboundLeaves(vs: seq<Var>, b: BindingMap)
    requires FirstBound(vs, b).None?
    ensures Leaves(SeqSet(vs), SeqSet(vs), {}, b.Keys)
  {
    BindingLaws.FirstBoundSome(vs, b);
  }

  /** No bound variable is left in a replaced pattern, save the bound keys of its GROUP BY clauses; nothing else goes. */
  lemma {:induction false} PatternLeaves(gp: GraphPattern, b: BindingMap)
    requires ReplacePattern(gp, b).Ok?
    ensures Leaves(Vars(ReplacePattern(gp, b).value), Vars(gp), GroupKeys(gp), b.Keys)
    decreases gp, 1
  {
    match gp {
      case Bgp(ps) => BindingLaws.TriplesScope(ps, b);
      case Path(_, _, _) =>
      case Values(vs, _) => UnboundLeaves(vs, b);
      case PValues(vs, _) => UnboundLeaves(vs, b);
      case Join(_, _) => CombinationLeaves(gp, b);
      case Union(_, _) => CombinationLeaves(gp, b);
      case Minus(_, _) => CombinationLeaves(gp, b);
      case LeftJoin(_, _, _) => LeftJoinLeaves(gp, b);
      case Filter(_, _) => ExpressionClauseLeaves(gp, b);
      case Extend(_, _, _) => ExpressionClauseLeaves(gp, b);
      case OrderBy(_, _) => ListClauseLeaves(gp, b);
      case Group(_, _, _) => ListClauseLeaves(gp, b);
      case GraphClause(name, _) => NamedClauseLeaves(gp, b);
      case Service(name, _, _) => NamedClauseLeaves(gp, b);
      case Project(inner, vs) =>
        UnboundLeaves(vs, b);
        PatternLeaves(inner, b);
      case Distinct(inner) => PatternLeaves(inner, b);
      case Reduced(inner) => PatternLeaves(inner, b);
      case Slice(inner, _, _) => PatternLeaves(inner, b);
    }
  }

  lemma {:induction false} CombinationLeaves(gp: GraphPattern, b: BindingMap)
    requires (gp.Join? || gp.Union? || gp.Minus?) && ReplacePattern(gp, b).Ok?
    ensures Leaves(Vars(ReplacePattern(gp, b).value), Vars(gp), GroupKeys(gp), b.Keys)
    decreases gp, 0
  {
    PatternLeaves(gp.left, b);
    PatternLeaves(gp.right, b);
  }

  lemma {:induction false} LeftJoinLeaves(gp: GraphPattern, b: BindingMap)
    requires gp.LeftJoin? && ReplacePattern(gp, b).Ok?
    ensures Leaves(Vars(ReplacePattern(gp, b).value), Vars(gp), GroupKeys(gp), b.Keys)
    decreases gp, 0
  {
    PatternLeaves(gp.left, b);
    PatternLeaves(gp.right, b);
    if gp.expression.Some? { ExpressionLeaves(gp.expression.value, b); }
  }

  lemma {:induction false} ExpressionClauseLeaves(gp: GraphPattern, b: BindingMap)
    requires (gp.Filter? || gp.Extend?) && ReplacePattern(gp, b).Ok?
    ensures Leaves(Vars(ReplacePattern(gp, b).value), Vars(gp), GroupKeys(gp), b.Keys)
    decreases gp, 0
  {
    PatternLeaves(gp.inner, b);
    ExpressionLeaves(if gp.Filter? then gp.expr else gp.bind, b);
  }

  lemma {:induction false} NamedClauseLeaves(gp: GraphPattern, b: BindingMap)
    requires (gp.GraphClause? || gp.Service?) && ReplacePattern(gp, b).Ok?
    ensures Leaves(Vars(ReplacePattern(gp, b).value), Vars(gp), GroupKeys(gp), b.Keys)
    decreases gp, 0
  {
    NameLeaves(gp.name, b);
    PatternLeaves(gp.inner, b);
  }

  lemma {:induction false} ListClauseLeaves(gp: GraphPattern, b: BindingMap)
    requires (gp.OrderBy? || gp.Group?) && ReplacePattern(gp, b).Ok?
    ensures Leaves(Vars(ReplacePattern(gp, b).value), Vars(gp), GroupKeys(gp), b.Keys)
    decreases gp, 0
  {
    PatternLeaves(gp.inner, b);
    if gp.OrderBy? { OrdersLeave(gp.order, b); } else { AggregatesLeave(gp.aggregates, b); }
  }

  /** The same of expressions, EXISTS patterns included. */
  lemma {:induction false} ExpressionLeaves(e: Expression, b: BindingMap)
    requires ReplaceExpression(e, b).Ok?
    ensures Leaves(ExprVars(ReplaceExpression(e, b).value), ExprVars(e), ExprKeys(e), b.Keys)
    decreases e, 1
  {
    match e {
      case NodeExpr(_) =>
      case LiteralExpr(_) =>
      case Variable(_) =>
      case Bound(_) =>
      case In(_, _) => ListTestLeaves(e, b);
      case Sign(_, a) => ExpressionLeaves(a, b);
      case Not(a) => ExpressionLeaves(a, b);
      case Exists(p) => PatternLeaves(p, b);
      case If(_, _, _) => ChoiceLeaves(e, b);
      case Coalesce(es) => ExpressionsLeave(es, b);
      case FunctionCall(_, es) => ExpressionsLeave(es, b);
      case _ => OperatorLeaves(e, b);
    }
  }

  lemma {:induction false} ListTestLeaves(e: Expression, b: BindingMap)
    requires e.In? && ReplaceExpression(e, b).Ok?
    ensures Leaves(ExprVars(ReplaceExpression(e, b).value), ExprVars(e), ExprKeys(e), b.Keys)
    decreases e, 0
  {
    ExpressionLeaves(e.a, b);
    ExpressionsLeave(e.list, b);
  }

  lemma {:induction false} ChoiceLeaves(e: Expression, b: BindingMap)
    requires e.If? && ReplaceExpression(e, b).Ok?
    ensures Leaves(ExprVars(ReplaceExpression(e, b).value), ExprVars(e), ExprKeys(e), b.Keys)
    decreases e, 0
  {
    ExpressionLeaves(e.cond, b);
    ExpressionLeaves(e.a, b);
    ExpressionLeaves(e.b, b);
  }

  lemma {:induction false} OperatorLeaves(e: Expression, b: BindingMap)
    requires e.Or? || e.And? || e.Equal? || e.SameTerm? || e.Compare? || e.Arith?
    requires ReplaceExpression(e, b).Ok?
    ensures Leaves(ExprVars(ReplaceExpression(e, b).value), ExprVars(e), ExprKeys(e), b.Keys)
    decreases e, 0
  {
    ExpressionLeaves(e.a, b);
    ExpressionLeaves(e.b, b);
  }

  lemma {:induction false} ExpressionsLeave(es: seq<Expression>, b: BindingMap)
    requires ReplaceExpressions(es, b).Ok?
    ensures Leaves(ExprsVars(ReplaceExpressions(es, b).value), ExprsVars(es), ExprsKeys(es), b.Keys)
    decreases es, 0
  {
    if es != [] {
      ExpressionLeaves(es[0], b);
      ExpressionsLeave(es[1..], b);
      assert ReplaceExpressions(es, b).value[1..] == ReplaceExpressions(es[1..], b).value;
    }
  }

  lemma {:induction false} AggregatesLeave(aggs: seq<NamedAggregate>, b: BindingMap)
    requires ReplaceAggregates(aggs, b).Ok?
    ensures Leaves(AggVars(ReplaceAggregates(aggs, b).value), AggVars(aggs), AggKeys(aggs), b.Keys)
    decreases aggs, 0
  {
    if aggs != [] {
      AggregateLeaves(aggs[0].aggregate, b);
      AggregatesLeave(aggs[1..], b);
      assert ReplaceAggregates(aggs, b).value[1..] == ReplaceAggregates(aggs[1..], b).value;
    }
  }

  lemma {:induction false} AggregateLeaves(a: AggregateExpression, b: BindingMap)
    requires ReplaceAggregate(a, b).Ok?
    ensures Leaves(AggregateExprVars(ReplaceAggregate(a, b).value), AggregateExprVars(a), AggregateExprKeys(a), b.Keys)
    decreases a, 0
  {
    if a.AggregateCall? { ExpressionLeaves(a.expr, b); }
  }

  lemma {:induction false} OrdersLeave(os: seq<OrderExpression>, b: BindingMap)
    requires ReplaceOrders(os, b).Ok?
    ensures Leaves(OrderVars(ReplaceOrders(os, b).value), OrderVars(os), OrderKeys(os), b.Keys)
    decreases os, 0
  {
    if os != [] {
      OrderLeaves(os[0], b);
      OrdersLeave(os[1..], b);
      assert ReplaceOrders(os, b).value[1..] == ReplaceOrders(os[1..], b).value;
    }
  }

  lemma {:induction false} OrderLeaves(o: OrderExpression, b: BindingMap)
    requires ReplaceOrder(o, b).Ok?
    ensures Leaves(OneOrderVars(ReplaceOrder(o, b).value), OneOrderVars(o), OneOrderKeys(o), b.Keys)
    decreases o, 0
  {
    ExpressionLeaves(o.expr, b);
  }
}
