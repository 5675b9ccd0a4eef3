/** Substitution of ground terms for variables in a query. */
module Bindings {
  import opened Wrappers
  import opened Rdf
  import opened Algebra

  type BindingMap = map<Var, GroundTerm>

  datatype BindingError =
    | InBindPosition(variable: Var)
    | InValues(variable: Var)
    | InPValues(variable: Var)
    | InProject(variable: Var)
    | InGroupBy(variable: Var)
    | LiteralForIri(variable: Var)

  function ReplaceTerm(t: TermPattern, b: BindingMap): TermPattern {
    if t.VarTerm? && t.name in b then
      match b[t.name]
      case GroundNode(n) => NodeTerm(n)
      case GroundLiteral(l) => LitTerm(l)
    else t
  }

  function ReplaceName(n: NamedNodePattern, b: BindingMap): Result<NamedNodePattern, BindingError> {
    if n.VarName? && n.name in b then
      match b[n.name]
      case GroundNode(i) => Ok(NodeName(i))
      case GroundLiteral(_) => Err(LiteralForIri(n.name))
    else Ok(n)
  }

  function ReplaceTriple(t: TriplePattern, b: BindingMap): Result<TriplePattern, BindingError> {
    var p :- ReplaceName(t.pred, b);
    Ok(TriplePattern(ReplaceTerm(t.subj, b), p, ReplaceTerm(t.obj, b)))
  }

  function ReplaceTriples(ts: seq<TriplePattern>, b: BindingMap): Result<seq<TriplePattern>, BindingError> {
    if ts == [] then Ok([])
    else
      var t :- ReplaceTriple(ts[0], b);
      var rest :- ReplaceTriples(ts[1..], b);
      Ok([t] + rest)
  }

  // The first of the listed variables that is bound, if any.
  function FirstBound(vs: seq<Var>, b: BindingMap): Option<Var> {
    if vs == [] then None else if vs[0] in b then Some(vs[0]) else FirstBound(vs[1..], b)
  }

  function ReplacePattern(gp: GraphPattern, b: BindingMap): Result<GraphPattern, BindingError>
    decreases gp, 1
  {
    match gp
    case Bgp(ps) =>
      var ps' :- ReplaceTriples(ps, b);
      Ok(Bgp(ps'))
    case Path(s, p, o) => Ok(Path(ReplaceTerm(s, b), p, ReplaceTerm(o, b)))
    case Join(l, r) =>
      var l' :- ReplacePattern(l, b);
      var r' :- ReplacePattern(r, b);
      Ok(Join(l', r'))
    case LeftJoin(l, r, e) =>
      var e' :- ReplaceOptional(e, b);
      var l' :- ReplacePattern(l, b);
      var r' :- ReplacePattern(r, b);
      Ok(LeftJoin(l', r', e'))
    case Filter(e, inner) =>
      var inner' :- ReplacePattern(inner, b);
      var e' :- ReplaceExpression(e, b);
      Ok(Filter(e', inner'))
    case Union(l, r) =>
      var l' :- ReplacePattern(l, b);
      var r' :- ReplacePattern(r, b);
      Ok(Union(l', r'))
    case GraphClause(name, inner) =>
      var inner' :- ReplacePattern(inner, b);
      var name' :- ReplaceName(name, b);
      Ok(GraphClause(name', inner'))
    case Extend(inner, v, e) =>
      if v in b then Err(InBindPosition(v))
      else
        var inner' :- ReplacePattern(inner, b);
        var e' :- ReplaceExpression(e, b);
        Ok(Extend(inner', v, e'))
    case Minus(l, r) =>
      var l' :- ReplacePattern(l, b);
      var r' :- ReplacePattern(r, b);
      Ok(Minus(l', r'))
    case Values(vs, rows) =>
      var bound := FirstBound(vs, b);
      if bound.Some? then Err(InValues(bound.value)) else Ok(gp)
    case PValues(vs, name) =>
      var bound := FirstBound(vs, b);
      if bound.Some? then Err(InPValues(bound.value)) else Ok(gp)
    case OrderBy(inner, order) =>
      var order' :- ReplaceOrders(order, b);
      var inner' :- ReplacePattern(inner, b);
      Ok(OrderBy(inner', order'))
    case Project(inner, vs) =>
      var bound := FirstBound(vs, b);
      if bound.Some? then Err(InProject(bound.value))
      else
        var inner' :- ReplacePattern(inner, b);
        Ok(Project(inner', vs))
    case Distinct(inner) =>
      var inner' :- ReplacePattern(inner, b);
      Ok(Distinct(inner'))
    case Reduced(inner) =>
      var inner' :- ReplacePattern(inner, b);
      Ok(Reduced(inner'))
    case Slice(inner, start, length) =>
      var inner' :- ReplacePattern(inner, b);
      Ok(Slice(inner', start, length))
    case Group(inner, vs, aggs) =>
      var aggs' :- ReplaceAggregates(aggs, b);
      var inner' :- ReplacePattern(inner, b);
      Ok(Group(inner', vs, aggs'))
    case Service(name, inner, silent) =>
      var name' :- ReplaceName(name, b);
      var inner' :- ReplacePattern(inner, b);
      Ok(Service(name', inner', silent))
  }

  function ReplaceOptional(e: Option<Expression>, b: BindingMap): Result<Option<Expression>, BindingError>
    decreases e, 0
  {
    if e.None? then Ok(None)
    else
      var e' :- ReplaceExpression(e.value, b);
      Ok(Some(e'))
  }

  function ReplaceExpression(e: Expression, b: BindingMap): Result<Expression, BindingError>
    decreases e, 1
  {
    match e
    case NodeExpr(_) => Ok(e)
    case LiteralExpr(_) => Ok(e)
    case Variable(v) =>
      if v in b then
        match b[v]
        case GroundNode(n) => Ok(NodeExpr(n))
        case GroundLiteral(l) => Ok(LiteralExpr(l))
      else Ok(e)
    case Or(x, y) =>
      var x' :- ReplaceExpression(x, b);
      var y' :- ReplaceExpression(y, b);
      Ok(Or(x', y'))
    case And(x, y) =>
      var x' :- ReplaceExpression(x, b);
      var y' :- ReplaceExpression(y, b);
      Ok(And(x', y'))
    case Equal(x, y) =>
      var x' :- ReplaceExpression(x, b);
      var y' :- ReplaceExpression(y, b);
      Ok(Equal(x', y'))
    case SameTerm(x, y) =>
      var x' :- ReplaceExpression(x, b);
      var y' :- ReplaceExpression(y, b);
      Ok(SameTerm(x', y'))
    case Compare(op, x, y) =>
      var x' :- ReplaceExpression(x, b);
      var y' :- ReplaceExpression(y, b);
      Ok(Compare(op, x', y'))
    case In(x, es) =>
      var x' :- ReplaceExpression(x, b);
      var es' :- ReplaceExpressions(es, b);
      Ok(In(x', es'))
    case Arith(op, x, y) =>
      var x' :- ReplaceExpression(x, b);
      var y' :- ReplaceExpression(y, b);
      Ok(Arith(op, x', y'))
    case Sign(op, x) =>
      var x' :- ReplaceExpression(x, b);
      Ok(Sign(op, x'))
    case Not(x) =>
      var x' :- ReplaceExpression(x, b);
      Ok(Not(x'))
    case Exists(p) =>
      var p' :- ReplacePattern(p, b);
      Ok(Exists(p'))
    case Bound(v) => if v in b then Ok(LiteralExpr(BoolLiteral(true))) else Ok(e)
    case If(c, x, y) =>
      var c' :- ReplaceExpression(c, b);
      var x' :- ReplaceExpression(x, b);
      var y' :- ReplaceExpression(y, b);
      Ok(If(c', x', y'))
    case Coalesce(es) =>
      var es' :- ReplaceExpressions(es, b);
      Ok(Coalesce(es'))
    case FunctionCall(f, es) =>
      var es' :- ReplaceExpressions(es, b);
      Ok(FunctionCall(f, es'))
  }

  function ReplaceExpressions(es: seq<Expression>, b: BindingMap): Result<seq<Expression>, BindingError>
    decreases es, 0
  {
    if es == [] then Ok([])
    else
      var e :- ReplaceExpression(es[0], b);
      var rest :- ReplaceExpressions(es[1..], b);
      Ok([e] + rest)
  }

  function ReplaceAggregate(a: AggregateExpression, b: BindingMap): Result<AggregateExpression, BindingError>
    decreases a, 0
  {
    match a
    case CountSolutions(_) => Ok(a)
    case AggregateCall(name, e, distinct) =>
      var e' :- ReplaceExpression(e, b);
      Ok(AggregateCall(name, e', distinct))
  }

  function ReplaceAggregates(aggs: seq<NamedAggregate>, b: BindingMap)
      : Result<seq<NamedAggregate>, BindingError>
    decreases aggs, 0
  {
    if aggs == [] then Ok([])
    else if aggs[0].variable in b then Err(InGroupBy(aggs[0].variable))
    else
      var a :- ReplaceAggregate(aggs[0].aggregate, b);
      var rest :- ReplaceAggregates(aggs[1..], b);
      Ok([NamedAggregate(aggs[0].variable, a)] + rest)
  }

  function ReplaceOrder(o: OrderExpression, b: BindingMap): Result<OrderExpression, BindingError>
    decreases o, 0
  {
    match o
    case Asc(e) =>
      var e' :- ReplaceExpression(e, b);
      Ok(Asc(e'))
    case Desc(e) =>
      var e' :- ReplaceExpression(e, b);
      Ok(Desc(e'))
  }

  function ReplaceOrders(os: seq<OrderExpression>, b: BindingMap): Result<seq<OrderExpression>, BindingError>
    decreases os, 0
  {
    if os == [] then Ok([])
    else
      var o :- ReplaceOrder(os[0], b);
      var rest :- ReplaceOrders(os[1..], b);
      Ok([o] + rest)
  }
}
