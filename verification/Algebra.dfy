/** The SPARQL algebra: property paths, expressions, graph patterns, and the static in-scope analysis. */
module Algebra {
  import opened Wrappers
  import opened Rdf

  datatype PropertyPath =
    | PathNode(iri: Iri)
    | Reverse(path: PropertyPath)
    | Sequence(first: PropertyPath, second: PropertyPath)
    | Alternative(left: PropertyPath, right: PropertyPath)
    | ZeroOrMore(path: PropertyPath)
    | OneOrMore(path: PropertyPath)
    | ZeroOrOne(path: PropertyPath)
    | NegatedPropertySet(iris: seq<Iri>)

  datatype TermPattern =
    | NodeTerm(iri: Iri)
    | BlankTerm(id: string)
    | LitTerm(literal: Literal)
    | VarTerm(name: Var)

  datatype NamedNodePattern = NodeName(iri: Iri) | VarName(name: Var)

  datatype TriplePattern = TriplePattern(subj: TermPattern, pred: NamedNodePattern, obj: TermPattern)

  datatype CompareOp = Greater | GreaterOrEqual | Less | LessOrEqual
  datatype ArithOp = Add | Subtract | Multiply | Divide
  datatype SignOp = UnaryPlus | UnaryMinus

  // The built-in functions the type analysis tells apart; OtherBuiltin stands for the rest.
  datatype Function =
    | Str | StrBefore | StrAfter
    | Datatype | IriFn | BNode
    | Contains | Regex | LangMatches | StrStarts | StrEnds
    | IsIri | IsBlank | IsLiteral | IsNumeric
    | Year | Month | Day | Hours | Minutes | Seconds
    | OtherBuiltin(name: string)
    | Custom(cast: DatatypeIri)

  datatype Expression =
    | NodeExpr(iri: Iri)
    | LiteralExpr(literal: Literal)
    | Variable(name: Var)
    | Or(a: Expression, b: Expression)
    | And(a: Expression, b: Expression)
    | Equal(a: Expression, b: Expression)
    | SameTerm(a: Expression, b: Expression)
    | Compare(cmp: CompareOp, a: Expression, b: Expression)
    | In(a: Expression, list: seq<Expression>)
    | Arith(arith: ArithOp, a: Expression, b: Expression)
    | Sign(sign: SignOp, a: Expression)
    | Not(a: Expression)
    | Exists(pattern: GraphPattern)
    | Bound(name: Var)
    | If(cond: Expression, a: Expression, b: Expression)
    | Coalesce(list: seq<Expression>)
    | FunctionCall(func: Function, list: seq<Expression>)

  datatype AggregateExpression =
    | CountSolutions(distinct: bool)
    | AggregateCall(name: string, expr: Expression, distinct: bool)

  datatype NamedAggregate = NamedAggregate(variable: Var, aggregate: AggregateExpression)

  datatype OrderExpression = Asc(expr: Expression) | Desc(expr: Expression)

  type Row = seq<Option<GroundTerm>>

  datatype GraphPattern =
    | Bgp(patterns: seq<TriplePattern>)
    | Path(subj: TermPattern, path: PropertyPath, obj: TermPattern)
    | Join(left: GraphPattern, right: GraphPattern)
    | LeftJoin(left: GraphPattern, right: GraphPattern, expression: Option<Expression>)
    | Filter(expr: Expression, inner: GraphPattern)
    | Union(left: GraphPattern, right: GraphPattern)
    | GraphClause(name: NamedNodePattern, inner: GraphPattern)
    | Extend(inner: GraphPattern, variable: Var, bind: Expression)
    | Minus(left: GraphPattern, right: GraphPattern)
    | Values(variables: seq<Var>, rows: seq<Row>)
    | PValues(variables: seq<Var>, parameter: string)
    | OrderBy(inner: GraphPattern, order: seq<OrderExpression>)
    | Project(inner: GraphPattern, variables: seq<Var>)
    | Distinct(inner: GraphPattern)
    | Reduced(inner: GraphPattern)
    | Slice(inner: GraphPattern, start: nat, length: Option<nat>)
    | Group(inner: GraphPattern, variables: seq<Var>, aggregates: seq<NamedAggregate>)
    | Service(name: NamedNodePattern, inner: GraphPattern, silent: bool)

  function TermVars(t: TermPattern): set<Var> {
    if t.VarTerm? then {t.name} else {}
  }

  function NameVars(n: NamedNodePattern): set<Var> {
    if n.VarName? then {n.name} else {}
  }

  function TripleVars(t: TriplePattern): set<Var> {
    TermVars(t.subj) + NameVars(t.pred) + TermVars(t.obj)
  }

  function BgpVars(ps: seq<TriplePattern>): set<Var> {
    if ps == [] then {} else TripleVars(ps[0]) + BgpVars(ps[1..])
  }

  function SeqSet<T(==)>(s: seq<T>): set<T> {
    set x | x in s
  }

  function AggregateVars(aggs: seq<NamedAggregate>): set<Var> {
    set a | a in aggs :: a.variable
  }

  /** The variables the source reports as in scope (section 18.2.1 of SPARQL 1.1 Query). */
  function InScope(gp: GraphPattern): set<Var> {
    match gp
    case Bgp(ps) => BgpVars(ps)
    case Path(s, _, o) => TermVars(s) + TermVars(o)
    case Join(l, r) => InScope(l) + InScope(r)
    case LeftJoin(l, r, _) => InScope(l) + InScope(r)
    case Union(l, r) => InScope(l) + InScope(r)
    case GraphClause(name, inner) => NameVars(name) + InScope(inner)
    case Extend(inner, v, _) => {v} + InScope(inner)
    case Minus(l, _) => InScope(l)
    case Group(_, vs, aggs) => SeqSet(vs) + AggregateVars(aggs)
    case Values(vs, _) => SeqSet(vs)
    case Project(_, vs) => SeqSet(vs)
    case PValues(vs, _) => SeqSet(vs)
    case Service(_, inner, _) => InScope(inner)
    case Filter(_, inner) => InScope(inner)
    case OrderBy(inner, _) => InScope(inner)
    case Distinct(inner) => InScope(inner)
    case Reduced(inner) => InScope(inner)
    case Slice(inner, _, _) => InScope(inner)
  }
}
