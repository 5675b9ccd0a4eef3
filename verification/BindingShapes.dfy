/** What replacement never touches: the shape of a query. And exactly when it refuses. */
module BindingShapes {
  import opened Wrappers
  import opened Rdf
  import opened Algebra
  import opened Bindings
  import BindingLaws

  // ----- the shape of a query: the same with every place that a term may fill left blank -----

  const BLANK_TERM: TermPattern := NodeTerm("")
  const BLANK_NAME: NamedNodePattern := NodeName("")
  const BLANK_EXPR: Expression := NodeExpr("")

  function TriplesShape(ts: seq<TriplePattern>): seq<TriplePattern> {
    if ts == [] then [] else [TriplePattern(BLANK_TERM, BLANK_NAME, BLANK_TERM)] + TriplesShape(ts[1..])
  }

  function Shape(gp: GraphPattern): GraphPattern
    decreases gp, 1
  {
    match gp
    case Bgp(ps) => Bgp(TriplesShape(ps))
    case Path(_, p, _) => Path(BLANK_TERM, p, BLANK_TERM)
    case Join(l, r) => Join(Shape(l), Shape(r))
    case LeftJoin(l, r, e) => LeftJoin(Shape(l), Shape(r), OptionalShape(e))
    case Filter(e, inner) => Filter(ExprShape(e), Shape(inner))
    case Union(l, r) => Union(Shape(l), Shape(r))
    case GraphClause(_, inner) => GraphClause(BLANK_NAME, Shape(inner))
    case Extend(inner, v, e) => Extend(Shape(inner), v, ExprShape(e))
    case Minus(l, r) => Minus(Shape(l), Shape(r))
    case Values(_, _) => gp
    case PValues(_, _) => gp
    case OrderBy(inner, order) => OrderBy(Shape(inner), OrdersShape(order))
    case Project(inner, vs) => Project(Shape(inner), vs)
    case Distinct(inner) => Distinct(Shape(inner))
    case Reduced(inner) => Reduced(Shape(inner))
    case Slice(inner, start, length) => Slice(Shape(inner), start, length)
    case Group(inner, vs, aggs) => Group(Shape(inner), vs, AggregatesShape(aggs))
    case Service(_, inner, silent) => Service(BLANK_NAME, Shape(inner), silent)
  }

  function OptionalShape(e: Option<Expression>): Option<Expression>
    decreases e, 0
  {
    if e.None? then None else Some(ExprShape(e.value))
  }

  function ExprShape(e: Expression): Expression
    decreases e, 1
  {
    match e
    case NodeExpr(_) => BLANK_EXPR
    case LiteralExpr(_) => BLANK_EXPR
    case Variable(_) => BLANK_EXPR
    case Bound(_) => BLANK_EXPR
    case Or(x, y) => Or(ExprShape(x), ExprShape(y))
    case And(x, y) => And(ExprShape(x), ExprShape(y))
    case Equal(x, y) => Equal(ExprShape(x), ExprShape(y))
    case SameTerm(x, y) => SameTerm(ExprShape(x), ExprShape(y))
    case Compare(op, x, y) => Compare(op, ExprShape(x), ExprShape(y))
    case In(x, es) => In(ExprShape(x), ExprsShape(es))
    case Arith(op, x, y) => Arith(op, ExprShape(x), ExprShape(y))
    case Sign(op, x) => Sign(op, ExprShape(x))
    case Not(x) => Not(ExprShape(x))
    case Exists(p) => Exists(Shape(p))
    case If(c, x, y) => If(ExprShape(c), ExprShape(x), ExprShape(y))
    case Coalesce(es) => Coalesce(ExprsShape(es))
    case FunctionCall(f, es) => FunctionCall(f, ExprsShape(es))
  }

  function ExprsShape(es: seq<Expression>): seq<Expression>
    decreases es, 0
  {
    if es == [] then [] else [ExprShape(es[0])] + ExprsShape(es[1..])
  }

  function AggregateShape(a: AggregateExpression): AggregateExpression
    decreases a, 0
  {
    if a.AggregateCall? then a.(expr := ExprShape(a.expr)) else a
  }

  function AggregatesShape(aggs: seq<NamedAggregate>): seq<NamedAggregate>
    decreases aggs, 0
  {
    if aggs == [] then []
    else [NamedAggregate(aggs[0].variable, AggregateShape(aggs[0].aggregate))] + AggregatesShape(aggs[1..])
  }

  function OrderShape(o: OrderExpression): OrderExpression
    decreases o, 0
  {
    o.(expr := ExprShape(o.expr))
  }

  function OrdersShape(os: seq<OrderExpression>): seq<OrderExpression>
    decreases os, 0
  {
    if os == [] then [] else [OrderShape(os[0])] + OrdersShape(os[1..])
  }

  // ----- what a query may refuse -----

  function NameRefuses(n: NamedNodePattern): set<BindingError> { set v | v in NameVars(n) :: LiteralForIri(v) }

  function TriplesRefuse(ts: seq<TriplePattern>): set<BindingError> {
    if ts == [] then {} else NameRefuses(ts[0].pred) + TriplesRefuse(ts[1..])
  }

  /** The variables that must stay variables, and those that stand where only an IRI may. */
  function Refuses(gp: GraphPattern): set<BindingError>
    decreases gp, 1
  {
    match gp
    case Bgp(ps) => TriplesRefuse(ps)
    case Path(_, _, _) => {}
    case Join(l, r) => Refuses(l) + Refuses(r)
    case LeftJoin(l, r, e) => OptionalRefuses(e) + Refuses(l) + Refuses(r)
    case Filter(e, inner) => ExprRefuses(e) + Refuses(inner)
    case Union(l, r) => Refuses(l) + Refuses(r)
    case GraphClause(name, inner) => NameRefuses(name) + Refuses(inner)
    case Extend(inner, v, e) => {InBindPosition(v)} + Refuses(inner) + ExprRefuses(e)
    case Minus(l, r) => Refuses(l) + Refuses(r)
    case Values(vs, _) => set v | v in vs :: InValues(v)
    case PValues(vs, _) => set v | v in vs :: InPValues(v)
    case OrderBy(inner, order) => OrdersRefuse(order) + Refuses(inner)
    case Project(inner, vs) => (set v | v in vs :: InProject(v)) + Refuses(inner)
    case Distinct(inner) => Refuses(inner)
    case Reduced(inner) => Refuses(inner)
    case Slice(inner, _, _) => Refuses(inner)
    case Group(inner, _, aggs) => AggregatesRefuse(aggs) + Refuses(inner)
    case Service(name, inner, _) => NameRefuses(name) + Refuses(inner)
  }

  function OptionalRefuses(e: Option<Expression>): set<BindingError>
    decreases e, 0
  {
    if e.None? then {} else ExprRefuses(e.value)
  }

  function ExprRefuses(e: Expression): set<BindingError>
    decreases e, 1
  {
    match e
    case NodeExpr(_) => {}
    case LiteralExpr(_) => {}
    case Variable(_) => {}
    case Bound(_) => {}
    case In(x, es) => ExprRefuses(x) + ExprsRefuse(es)
    case Sign(_, x) => ExprRefuses(x)
    case Not(x) => ExprRefuses(x)
    case Exists(p) => Refuses(p)
    case If(c, x, y) => ExprRefuses(c) + ExprRefuses(x) + ExprRefuses(y)
    case Coalesce(es) => ExprsRefuse(es)
    case FunctionCall(_, es) => ExprsRefuse(es)
    case _ => ExprRefuses(e.a) + ExprRefuses(e.b)
  }

  function ExprsRefuse(es: seq<Expression>): set<BindingError>
    decreases es, 0
  {
    if es == [] then {} else ExprRefuses(es[0]) + ExprsRefuse(es[1..])
  }

  function AggregateRefuses(a: AggregateExpression): set<BindingError>
    decreases a, 0
  {
    if a.AggregateCall? then ExprRefuses(a.expr) else {}
  }

  function AggregatesRefuse(aggs: seq<NamedAggregate>): set<BindingError>
    decreases aggs, 0
  {
    if aggs == [] then {}
    else {InGroupBy(aggs[0].variable)} + AggregateRefuses(aggs[0].aggregate) + AggregatesRefuse(aggs[1..])
  }

  function OrderRefuses(o: OrderExpression): set<BindingError>
    decreases o, 0
  {
    ExprRefuses(o.expr)
  }

  function OrdersRefuse(os: seq<OrderExpression>): set<BindingError>
    decreases os, 0
  {
    if os == [] then {} else OrderRefuses(os[0]) + OrdersRefuse(os[1..])
  }

  // The bindings give a refused variable a term, or a literal where an IRI is needed.
  predicate Hits(e: BindingError, b: BindingMap) {
    e.variable in b && (e.LiteralForIri? ==> b[e.variable].GroundLiteral?)
  }

  predicate Accepted(es: set<BindingError>, b: BindingMap) { forall e :: e in es ==> !Hits(e, b) }

  // Success keeps the shape and means that nothing is refused; an error names something refused.
  predicate Told<T(==)>(r: Result<T, BindingError>, before: T, shape: T -> T, es: set<BindingError>, b: BindingMap) {
    match r
    case Ok(after) => shape(after) == shape(before) && Accepted(es, b)
    case Err(e) => e in es && Hits(e, b)
  }

  // ----- replacement keeps the shape, and fails exactly when something is refused -----

  lemma FirstBoundRefused(vs: seq<Var>, b: BindingMap)
    ensures FirstBound(vs, b).None? ==> forall v :: v in vs ==> v !in b
    ensures FirstBound(vs, b).Some? ==> FirstBound(vs, b).value in vs && FirstBound(vs, b).value in b
  {
    BindingLaws.FirstBoundSome(vs, b);
  }

  lemma {:induction false} TriplesTold(ts: seq<TriplePattern>, b: BindingMap)
    ensures Told(ReplaceTriples(ts, b), ts, TriplesShape, TriplesRefuse(ts), b)
  {
    if ts != [] {
      TriplesTold(ts[1..], b);
      if ReplaceTriples(ts, b).Ok? { assert ReplaceTriples(ts, b).value[1..] == ReplaceTriples(ts[1..], b).value; }
    }
  }

  /** Replacement keeps the shape of a query, and fails exactly when a bound variable is refused, saying which. */
  lemma {:induction false} PatternTold(gp: GraphPattern, b: BindingMap)
    ensures Told(ReplacePattern(gp, b), gp, Shape, Refuses(gp), b)
    decreases gp, 1
  {
    match gp {
      case Bgp(ps) => TriplesTold(ps, b);
      case Path(_, _, _) =>
      case Join(_, _) => CombinationTold(gp, b);
      case Union(_, _) => CombinationTold(gp, b);
      case Minus(_, _) => CombinationTold(gp, b);
      case LeftJoin(_, _, _) => CombinationTold(gp, b);
      case Values(vs, _) => FirstBoundRefused(vs, b);
      case PValues(vs, _) => FirstBoundRefused(vs, b);
      case Project(inner, vs) =>
        FirstBoundRefused(vs, b);
        PatternTold(inner, b);
      case Distinct(inner) => PatternTold(inner, b);
      case Reduced(inner) => PatternTold(inner, b);
      case Slice(inner, _, _) => PatternTold(inner, b);
      case Filter(_, _) => ExpressionClauseTold(gp, b);
      case Extend(_, _, _) => ExpressionClauseTold(gp, b);
      case OrderBy(_, _) => ListClauseTold(gp, b);
      case Group(_, _, _) => ListClauseTold(gp, b);
      case GraphClause(_, _) => NamedClauseTold(gp, b);
      case Service(_, _, _) => NamedClauseTold(gp, b);
    }
  }

  lemma {:induction false} CombinationTold(gp: GraphPattern, b: BindingMap)
    requires gp.Join? || gp.Union? || gp.Minus? || gp.LeftJoin?
    ensures Told(ReplacePattern(gp, b), gp, Shape, Refuses(gp), b)
    decreases gp, 0
  {
    PatternTold(gp.left, b);
    PatternTold(gp.right, b);
    if gp.LeftJoin? && gp.expression.Some? { ExpressionTold(gp.expression.value, b); }
  }

  lemma {:induction false} ExpressionClauseTold(gp: GraphPattern, b: BindingMap)
    requires gp.Filter? || gp.Extend?
    ensures Told(ReplacePattern(gp, b), gp, Shape, Refuses(gp), b)
    decreases gp, 0
  {
    PatternTold(gp.inner, b);
    ExpressionTold(if gp.Filter? then gp.expr else gp.bind, b);
  }

  lemma {:induction false} ListClauseTold(gp: GraphPattern, b: BindingMap)
    requires gp.OrderBy? || gp.Group?
    ensures Told(ReplacePattern(gp, b), gp, Shape, Refuses(gp), b)
    decreases gp, 0
  {
    PatternTold(gp.inner, b);
    if gp.OrderBy? { OrdersTold(gp.order, b); } else { AggregatesTold(gp.aggregates, b); }
  }

  lemma {:induction false} NamedClauseTold(gp: GraphPattern, b: BindingMap)
    requires gp.GraphClause? || gp.Service?
    ensures Told(ReplacePattern(gp, b), gp, Shape, Refuses(gp), b)
    decreases gp, 0
  {
    PatternTold(gp.inner, b);
  }

  /** The same of expressions. */
  lemma {:induction false} ExpressionTold(e: Expression, b: BindingMap)
    ensures Told(ReplaceExpression(e, b), e, ExprShape, ExprRefuses(e), b)
    decreases e, 1
  {
    match e {
      case NodeExpr(_) =>
      case LiteralExpr(_) =>
      case Variable(_) =>
      case Bound(_) =>
      case In(x, es) =>
        ExpressionTold(x, b);
        ExpressionsTold(es, b);
      case Sign(_, x) => ExpressionTold(x, b);
      case Not(x) => ExpressionTold(x, b);
      case Exists(p) => PatternTold(p, b);
      case If(_, _, _) => ChoiceTold(e, b);
      case Coalesce(es) => ExpressionsTold(es, b);
      case FunctionCall(_, es) => ExpressionsTold(es, b);
      case _ => OperatorTold(e, b);
    }
  }

  lemma {:induction false} ChoiceTold(e: Expression, b: BindingMap)
    requires e.If?
    ensures Told(ReplaceExpression(e, b), e, ExprShape, ExprRefuses(e), b)
    decreases e, 0
  {
    ExpressionTold(e.cond, b);
    ExpressionTold(e.a, b);
    ExpressionTold(e.b, b);
  }

  lemma {:induction false} OperatorTold(e: Expression, b: BindingMap)
    requires e.Or? || e.And? || e.Equal? || e.SameTerm? || e.Compare? || e.Arith?
    ensures Told(ReplaceExpression(e, b), e, ExprShape, ExprRefuses(e), b)
    decreases e, 0
  {
    ExpressionTold(e.a, b);
    ExpressionTold(e.b, b);
  }

  lemma {:induction false} ExpressionsTold(es: seq<Expression>, b: BindingMap)
    ensures Told(ReplaceExpressions(es, b), es, ExprsShape, ExprsRefuse(es), b)
    decreases es, 0
  {
    if es != [] {
      ExpressionTold(es[0], b);
      ExpressionsTold(es[1..], b);
      if ReplaceExpressions(es, b).Ok? {
        assert ReplaceExpressions(es, b).value[1..] == ReplaceExpressions(es[1..], b).value;
      }
    }
  }

  /** The same of one aggregate: its name and DISTINCT stay. */
  lemma {:induction false} AggregateTold(a: AggregateExpression, b: BindingMap)
    ensures Told(ReplaceAggregate(a, b), a, AggregateShape, AggregateRefuses(a), b)
    decreases a, 0
  {
    if a.AggregateCall? { ExpressionTold(a.expr, b); }
  }

  lemma {:induction false} AggregatesTold(aggs: seq<NamedAggregate>, b: BindingMap)
    ensures Told(ReplaceAggregates(aggs, b), aggs, AggregatesShape, AggregatesRefuse(aggs), b)
    decreases aggs, 0
  {
    if aggs != [] {
      AggregateTold(aggs[0].aggregate, b);
      AggregatesTold(aggs[1..], b);
      if ReplaceAggregates(aggs, b).Ok? {
        assert ReplaceAggregates(aggs, b).value[1..] == ReplaceAggregates(aggs[1..], b).value;
      }
    }
  }

  lemma {:induction false} OrderTold(o: OrderExpression, b: BindingMap)
    ensures Told(ReplaceOrder(o, b), o, OrderShape, OrderRefuses(o), b)
    decreases o, 0
  {
    ExpressionTold(o.expr, b);
  }

  /** The same of ordering conditions: their directions stay. */
  lemma {:induction false} OrdersTold(os: seq<OrderExpression>, b: BindingMap)
    ensures Told(ReplaceOrders(os, b), os, OrdersShape, OrdersRefuse(os), b)
    decreases os, 0
  {
    if os != [] {
      OrderTold(os[0], b);
      OrdersTold(os[1..], b);
      if ReplaceOrders(os, b).Ok? {
        assert ReplaceOrders(os, b).value[1..] == ReplaceOrders(os[1..], b).value;
      }
    }
  }
}
