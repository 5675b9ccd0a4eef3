/** All variables that occur in a query, and what follows when two solutions agree on them. */
module Mentions {
  import opened Wrappers
  import opened Rdf
  import opened Algebra
  import opened Semantics
  import Scope

  function Vars(gp: GraphPattern): set<Var>
    decreases gp, 1
  {
    match gp
    case Bgp(ps) => BgpVars(ps)
    case Path(s, _, o) => TermVars(s) + TermVars(o)
    case Join(l, r) => Vars(l) + Vars(r)
    case LeftJoin(l, r, e) => Vars(l) + Vars(r) + OptionalVars(e)
    case Filter(e, inner) => ExprVars(e) + Vars(inner)
    case Union(l, r) => Vars(l) + Vars(r)
    case GraphClause(name, inner) => NameVars(name) + Vars(inner)
    case Extend(inner, v, e) => {v} + ExprVars(e) + Vars(inner)
    case Minus(l, r) => Vars(l) + Vars(r)
    case Values(vs, _) => SeqSet(vs)
    case PValues(vs, _) => SeqSet(vs)
    case OrderBy(inner, order) => Vars(inner) + OrderVars(order)
    case Project(inner, vs) => SeqSet(vs) + Vars(inner)
    case Distinct(inner) => Vars(inner)
    case Reduced(inner) => Vars(inner)
    case Slice(inner, _, _) => Vars(inner)
    case Group(inner, vs, aggs) => SeqSet(vs) + AggVars(aggs) + Vars(inner)
    case Service(name, inner, _) => NameVars(name) + Vars(inner)
  }

  function OptionalVars(e: Option<Expression>): set<Var>
    decreases e, 0
  {
    if e.None? then {} else ExprVars(e.value)
  }

  function ExprVars(e: Expression): set<Var>
    decreases e, 1
  {
    match e
    case NodeExpr(_) => {}
    case LiteralExpr(_) => {}
    case Variable(v) => {v}
    case Or(a, b) => ExprVars(a) + ExprVars(b)
    case And(a, b) => ExprVars(a) + ExprVars(b)
    case Equal(a, b) => ExprVars(a) + ExprVars(b)
    case SameTerm(a, b) => ExprVars(a) + ExprVars(b)
    case Compare(_, a, b) => ExprVars(a) + ExprVars(b)
    case In(a, es) => ExprVars(a) + ExprsVars(es)
    case Arith(_, a, b) => ExprVars(a) + ExprVars(b)
    case Sign(_, a) => ExprVars(a)
    case Not(a) => ExprVars(a)
    case Exists(p) => Vars(p)
    case Bound(v) => {v}
    case If(c, a, b) => ExprVars(c) + ExprVars(a) + ExprVars(b)
    case Coalesce(es) => ExprsVars(es)
    case FunctionCall(_, es) => ExprsVars(es)
  }

  function ExprsVars(es: seq<Expression>): set<Var>
    decreases es, 0
  {
    if es == [] then {} else ExprVars(es[0]) + ExprsVars(es[1..])
  }

  function AggVars(aggs: seq<NamedAggregate>): set<Var>
    decreases aggs, 0
  {
    if aggs == [] then {} else {aggs[0].variable} + AggregateExprVars(aggs[0].aggregate) + AggVars(aggs[1..])
  }

  function AggregateExprVars(a: AggregateExpression): set<Var>
    decreases a, 0
  {
    if a.AggregateCall? then ExprVars(a.expr) else {}
  }

  function OrderVars(os: seq<OrderExpression>): set<Var>
    decreases os, 0
  {
    if os == [] then {} else OneOrderVars(os[0]) + OrderVars(os[1..])
  }

  function OneOrderVars(o: OrderExpression): set<Var>
    decreases o, 0
  {
    ExprVars(o.expr)
  }

  lemma {:induction false} AggVarsCover(aggs: seq<NamedAggregate>)
    ensures AggregateVars(aggs) <= AggVars(aggs)
  {
    if aggs != [] {
      AggVarsCover(aggs[1..]);
      assert aggs == [aggs[0]] + aggs[1..];
    }
  }

  /** A solution binds only variables that occur in the pattern. */
  lemma {:induction false} SolutionVars(w: World, gp: GraphPattern, mu: Solution)
    requires Answers(w, gp, mu)
    ensures mu.Keys <= Vars(gp)
    decreases gp, 1
  {
    match gp {
      case Bgp(ps) =>
      case Path(s, p, o) =>
      case Values(vs, rows) =>
        var i :| 0 <= i < |rows| && mu == RowSolution(vs, rows[i]);
        Scope.RowSolutionKeys(vs, rows[i]);
      case PValues(vs, name) =>
        var rows := w.fns.table(name);
        var i :| 0 <= i < |rows| && mu == RowSolution(vs, rows[i]);
        Scope.RowSolutionKeys(vs, rows[i]);
      case Join(_, _) => CombinationSolutionVars(w, gp, mu);
      case LeftJoin(_, _, _) => CombinationSolutionVars(w, gp, mu);
      case Union(_, _) => CombinationSolutionVars(w, gp, mu);
      case Minus(_, _) => CombinationSolutionVars(w, gp, mu);
      case GraphClause(_, _) => PlaceSolutionVars(w, gp, mu);
      case Extend(_, _, _) => ClauseSolutionVars(w, gp, mu);
      case Project(_, _) => ClauseSolutionVars(w, gp, mu);
      case Group(_, _, _) => ClauseSolutionVars(w, gp, mu);
      case Service(_, _, _) => PlaceSolutionVars(w, gp, mu);
      case _ => SolutionVars(w, gp.inner, mu);
    }
  }

  lemma {:induction false} CombinationSolutionVars(w: World, gp: GraphPattern, mu: Solution)
    requires gp.Join? || gp.LeftJoin? || gp.Union? || gp.Minus?
    requires Answers(w, gp, mu)
    ensures mu.Keys <= Vars(gp)
    decreases gp, 0
  {
    match gp {
      case Join(l, r) =>
        var a, b := JoinParts(w, gp, mu);
        SolutionVars(w, l, a);
        SolutionVars(w, r, b);
      case LeftJoin(l, r, e) =>
        var matched, a, b := LeftJoinParts(w, gp, mu);
        SolutionVars(w, l, a);
        if matched { SolutionVars(w, r, b); }
      case Union(l, r) =>
        if Answers(w, l, mu) { SolutionVars(w, l, mu); } else { SolutionVars(w, r, mu); }
      case Minus(l, r) => SolutionVars(w, l, mu);
    }
  }

  lemma {:induction false} ClauseSolutionVars(w: World, gp: GraphPattern, mu: Solution)
    requires gp.Extend? || gp.Project? || gp.Group?
    requires Answers(w, gp, mu)
    ensures mu.Keys <= Vars(gp)
    decreases gp, 0
  {
    match gp {
      case Extend(inner, v, e) =>
        var a := ExtendPart(w, gp, mu);
        SolutionVars(w, inner, a);
      case Project(inner, vs) =>
      case Group(inner, vs, aggs) =>
        var key := GroupPart(w, gp, mu);
        Scope.AggregateValueKeys(w, aggs, GroupOf(w, inner, vs, key));
        AggVarsCover(aggs);
    }
  }

  // Patterns over another graph or dataset.
  lemma {:induction false} PlaceSolutionVars(w: World, gp: GraphPattern, mu: Solution)
    requires gp.GraphClause? || gp.Service?
    requires Answers(w, gp, mu)
    ensures mu.Keys <= Vars(gp)
    decreases gp, 0
  {
    if gp.GraphClause? {
      var iri, a := GraphParts(w, gp, mu);
      SolutionVars(w.(active := w.named[iri]), gp.inner, a);
    } else {
      var skipped, iri, a := ServiceParts(w, gp, mu);
      if !skipped { SolutionVars(At(w, w.fns.remote(iri).value), gp.inner, a); }
    }
  }

  ghost predicate AgreeOn(vs: set<Var>, mu: Solution, nu: Solution) {
    forall v :: v in vs ==> (v in mu <==> v in nu) && (v in mu ==> mu[v] == nu[v])
  }

  /** An expression's value depends only on the variables that occur in it. */
  lemma {:induction false} EvalDependsOnVars(w: World, e: Expression, mu: Solution, nu: Solution)
    requires AgreeOn(ExprVars(e), mu, nu)
    ensures Eval(w, e, mu) == Eval(w, e, nu)
    decreases e, 1
  {
    match e {
      case NodeExpr(_) =>
      case LiteralExpr(_) =>
      case Variable(v) =>
      case Or(_, _) => OperatorDependsOnVars(w, e, mu, nu);
      case And(_, _) => OperatorDependsOnVars(w, e, mu, nu);
      case Equal(_, _) => OperatorDependsOnVars(w, e, mu, nu);
      case SameTerm(_, _) => OperatorDependsOnVars(w, e, mu, nu);
      case Compare(_, _, _) => OperatorDependsOnVars(w, e, mu, nu);
      case In(a, es) => EvalDependsOnVars(w, a, mu, nu); EvalAllDependsOnVars(w, es, mu, nu);
      case Arith(_, _, _) => OperatorDependsOnVars(w, e, mu, nu);
      case Sign(_, a) => EvalDependsOnVars(w, a, mu, nu);
      case Not(a) => EvalDependsOnVars(w, a, mu, nu);
      case Exists(p) => ExistsDependsOnVars(w, p, mu, nu);
      case Bound(v) =>
      case If(_, _, _) => ChoiceDependsOnVars(w, e, mu, nu);
      case Coalesce(es) => EvalAllDependsOnVars(w, es, mu, nu);
      case FunctionCall(_, es) => EvalAllDependsOnVars(w, es, mu, nu);
    }
  }

  lemma ExistsDependsOnVars(w: World, p: GraphPattern, mu: Solution, nu: Solution)
    requires AgreeOn(Vars(p), mu, nu)
    ensures Eval(w, Exists(p), mu) == Eval(w, Exists(p), nu)
  {
    forall x | Answers(w, p, x) ensures Compatible(x, mu) <==> Compatible(x, nu) { SolutionVars(w, p, x); }
  }

  lemma {:induction false} ChoiceDependsOnVars(w: World, e: Expression, mu: Solution, nu: Solution)
    requires e.If? && AgreeOn(ExprVars(e), mu, nu)
    ensures Eval(w, e, mu) == Eval(w, e, nu)
    decreases e, 0
  {
    EvalDependsOnVars(w, e.cond, mu, nu);
    EvalDependsOnVars(w, e.a, mu, nu);
    EvalDependsOnVars(w, e.b, mu, nu);
  }

  lemma {:induction false} OperatorDependsOnVars(w: World, e: Expression, mu: Solution, nu: Solution)
    requires e.Or? || e.And? || e.Equal? || e.SameTerm? || e.Compare? || e.Arith?
    requires AgreeOn(ExprVars(e), mu, nu)
    ensures Eval(w, e, mu) == Eval(w, e, nu)
    decreases e, 0
  {
    EvalDependsOnVars(w, e.a, mu, nu);
    EvalDependsOnVars(w, e.b, mu, nu);
  }

  lemma {:induction false} EvalAllDependsOnVars(w: World, es: seq<Expression>, mu: Solution, nu: Solution)
    requires AgreeOn(ExprsVars(es), mu, nu)
    ensures EvalAll(w, es, mu) == EvalAll(w, es, nu)
    decreases es, 0
  {
    if es != [] {
      EvalDependsOnVars(w, es[0], mu, nu);
      EvalAllDependsOnVars(w, es[1..], mu, nu);
    }
  }
}
