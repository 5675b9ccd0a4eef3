/** The substitution lemma, by mutual induction over patterns and expressions. */
module Substitution {
  import opened Wrappers
  import opened Rdf
  import opened Algebra
  import opened Semantics
  import opened Bindings
  import opened Mentions
  import opened BindingSemantics
  import opened Restriction
  import opened ExactRestriction
  import opened GroupBindings

  /** The substitution lemma. */
  lemma {:induction false} SubstitutionLemma(w: World, gp: GraphPattern, b: BindingMap)
    requires Replaceable(gp, b) && ReplacePattern(gp, b).Ok?
    ensures Restricts(w, gp, ReplacePattern(gp, b).value, b)
    decreases gp, 1
  {
    match gp {
      case Bgp(_) => BgpSubstitution(w, gp, b);
      case Path(_, _, _) => PathSubstitution(w, gp, b);
      case Values(_, _) => ValuesSubstitution(w, gp, b);
      case PValues(_, _) => ValuesSubstitution(w, gp, b);
      case Join(_, _) => CombinationSubstitution(w, gp, b);
      case Union(_, _) => CombinationSubstitution(w, gp, b);
      case LeftJoin(_, _, _) => CombinationSubstitution(w, gp, b);
      case Minus(_, _) => CombinationSubstitution(w, gp, b);
      case Filter(_, _) => ClauseSubstitution(w, gp, b);
      case Extend(_, _, _) => ClauseSubstitution(w, gp, b);
      case GraphClause(_, _) => ClauseSubstitution(w, gp, b);
      case Service(_, _, _) => ClauseSubstitution(w, gp, b);
      case OrderBy(inner, _) => ModifierSubstitution(w, gp, b);
      case Distinct(inner) => ModifierSubstitution(w, gp, b);
      case Reduced(inner) => ModifierSubstitution(w, gp, b);
      case Group(_, _, _) => GroupSubstitution(w, gp, b);
      case _ => UnmentionedSubstitution(w, gp, b);
    }
  }

  lemma PathSubstitution(w: World, gp: GraphPattern, b: BindingMap)
    requires gp.Path? && Replaceable(gp, b) && ReplacePattern(gp, b).Ok?
    ensures Restricts(w, gp, ReplacePattern(gp, b).value, b)
  {
    PathRestricts(w, gp.subj, gp.path, gp.obj, b);
  }

  lemma BgpSubstitution(w: World, gp: GraphPattern, b: BindingMap)
    requires gp.Bgp? && ReplacePattern(gp, b).Ok?
    ensures Restricts(w, gp, ReplacePattern(gp, b).value, b)
  {
    BgpRestricts(w, gp.patterns, b);
  }

  lemma ValuesUnchanged(gp: GraphPattern, b: BindingMap)
    requires (gp.Values? || gp.PValues?) && ReplacePattern(gp, b).Ok?
    ensures FirstBound(gp.variables, b).None? && ReplacePattern(gp, b).value == gp
  {
  }

  lemma ValuesSubstitution(w: World, gp: GraphPattern, b: BindingMap)
    requires (gp.Values? || gp.PValues?) && ReplacePattern(gp, b).Ok?
    ensures Restricts(w, gp, ReplacePattern(gp, b).value, b)
  {
    ValuesUnchanged(gp, b);
    ValuesRestrict(w, gp, b);
  }

  // The other operators are replaceable only when no bound variable occurs in them.
  lemma UnmentionedSubstitution(w: World, gp: GraphPattern, b: BindingMap)
    requires Apart(Vars(gp), b) && ReplacePattern(gp, b).Ok?
    ensures Restricts(w, gp, ReplacePattern(gp, b).value, b)
  {
    Unmentioned(gp, b);
    UnmentionedRestricts(w, gp, b);
  }

  lemma {:induction false} CombinationSubstitution(w: World, gp: GraphPattern, b: BindingMap)
    requires gp.Join? || gp.Union? || gp.LeftJoin? || gp.Minus?
    requires Replaceable(gp, b) && ReplacePattern(gp, b).Ok?
    ensures Restricts(w, gp, ReplacePattern(gp, b).value, b)
    decreases gp, 0
  {
    var l, r, gp' := gp.left, gp.right, ReplacePattern(gp, b).value;
    SubstitutionLemma(w, l, b);
    if Apart(Vars(r), b) {
      UnmentionedSubstitution(w, r, b);
    } else {
      SubstitutionLemma(w, r, b);
    }
    match gp {
      case Join(_, _) => JoinRestricts(w, l, gp'.left, r, gp'.right, b);
      case Union(_, _) => UnionRestricts(w, l, gp'.left, r, gp'.right, b);
      case Minus(_, _) => MinusRestricts(w, l, gp'.left, r, gp'.right, b);
      case LeftJoin(_, _, e) =>
        OptionalReplaced(w, e, b);
        LeftJoinRestricts(w, gp, gp', b);
    }
  }

  lemma {:induction false} ClauseSubstitution(w: World, gp: GraphPattern, b: BindingMap)
    requires gp.Filter? || gp.Extend? || gp.GraphClause? || gp.Service?
    requires Replaceable(gp, b) && ReplacePattern(gp, b).Ok?
    ensures Restricts(w, gp, ReplacePattern(gp, b).value, b)
    decreases gp, 0
  {
    var gp' := ReplacePattern(gp, b).value;
    match gp {
      case Filter(e, inner) =>
        SubstitutionLemma(w, inner, b);
        ExpressionReplaced(w, e, b);
        FilterRestricts(w, e, gp'.expr, inner, gp'.inner, b);
      case Extend(inner, v, e) =>
        SubstitutionLemma(w, inner, b);
        ExpressionReplaced(w, e, b);
        ExtendRestricts(w, inner, gp'.inner, v, e, gp'.bind, b);
      case GraphClause(name, inner) =>
        forall iri | iri in w.named ensures Restricts(Within(w, iri), inner, gp'.inner, b) {
          SubstitutionLemma(Within(w, iri), inner, b);
        }
        GraphRestricts(w, name, gp'.name, inner, gp'.inner, b);
      case Service(name, inner, silent) =>
        forall iri | w.fns.remote(iri).Some? ensures Restricts(Endpoint(w, iri), inner, gp'.inner, b) {
          SubstitutionLemma(Endpoint(w, iri), inner, b);
        }
        ServiceRestricts(w, gp, gp', b);
    }
  }

  lemma {:induction false} ModifierSubstitution(w: World, gp: GraphPattern, b: BindingMap)
    requires gp.OrderBy? || gp.Distinct? || gp.Reduced?
    requires Replaceable(gp, b) && ReplacePattern(gp, b).Ok?
    ensures Restricts(w, gp, ReplacePattern(gp, b).value, b)
    decreases gp, 0
  {
    SubstitutionLemma(w, gp.inner, b);
    SameSolutionsRestrict(w, gp, ReplacePattern(gp, b).value, b);
  }

  lemma {:induction false} GroupSubstitution(w: World, gp: GraphPattern, b: BindingMap)
    requires gp.Group? && Replaceable(gp, b) && ReplacePattern(gp, b).Ok?
    ensures Restricts(w, gp, ReplacePattern(gp, b).value, b)
    decreases gp, 0
  {
    if Apart(Vars(gp), b) {
      UnmentionedSubstitution(w, gp, b);
    } else {
      SubstitutionLemma(w, gp.inner, b);
      AggregatesReplaced(w, gp.aggregates, b);
      SameAggregateVars(gp.aggregates, b);
      GroupRestricts(w, gp, ReplacePattern(gp, b).value, b);
    }
  }

  /** A replaced aggregate has the name and DISTINCT of the original, and its expression reads the bindings. */
  lemma {:induction false} AggregateReplaced(w: World, a: AggregateExpression, b: BindingMap)
    requires ReplaceableAggregate(a, b) && ReplaceAggregate(a, b).Ok?
    ensures AggregateReads(w, a, ReplaceAggregate(a, b).value, b)
    decreases a, 0
  {
    if a.AggregateCall? { ExpressionReplaced(w, a.expr, b); }
  }

  lemma {:induction false} AggregatesReplaced(w: World, aggs: seq<NamedAggregate>, b: BindingMap)
    requires ReplaceableAggregates(aggs, b) && ReplaceAggregates(aggs, b).Ok?
    ensures AllRead(w, aggs, ReplaceAggregates(aggs, b).value, b)
    decreases aggs, 0
  {
    if aggs != [] {
      AggregateReplaced(w, aggs[0].aggregate, b);
      AggregatesReplaced(w, aggs[1..], b);
      assert ReplaceAggregates(aggs, b).value[1..] == ReplaceAggregates(aggs[1..], b).value;
    }
  }

  lemma {:induction false} OptionalReplaced(w: World, e: Option<Expression>, b: BindingMap)
    requires (e.Some? ==> ReplaceableExpr(e.value, b)) && ReplaceOptional(e, b).Ok?
    ensures OptionalReads(w, e, ReplaceOptional(e, b).value, b)
    decreases e, 0
  {
    if e.Some? { ExpressionReplaced(w, e.value, b); }
  }

  /** Evaluating the replaced expression is evaluating the original with the bindings added. */
  lemma {:induction false} ExpressionReplaced(w: World, e: Expression, b: BindingMap)
    requires ReplaceableExpr(e, b) && ReplaceExpression(e, b).Ok?
    ensures ReadsBindings(w, e, ReplaceExpression(e, b).value, b)
    decreases e, 1
  {
    match e {
      case NodeExpr(_) => LeafReads(w, e, b);
      case LiteralExpr(_) => LeafReads(w, e, b);
      case Variable(_) => LeafReads(w, e, b);
      case Bound(_) => LeafReads(w, e, b);
      case Exists(p) =>
        SubstitutionLemma(w, p, b);
        ExistsReads(w, p, ReplacePattern(p, b).value, b);
      case In(_, _) => ArgumentsReplaced(w, e, b);
      case Coalesce(_) => ArgumentsReplaced(w, e, b);
      case FunctionCall(_, _) => ArgumentsReplaced(w, e, b);
      case Sign(_, x) => ExpressionReplaced(w, x, b);
      case Not(x) => ExpressionReplaced(w, x, b);
      case If(_, _, _) => ChoiceReplaced(w, e, b);
      case _ => OperatorReplaced(w, e, b);
    }
  }

  lemma LeafReads(w: World, e: Expression, b: BindingMap)
    requires (e.NodeExpr? || e.LiteralExpr? || e.Variable? || e.Bound?) && ReplaceExpression(e, b).Ok?
    ensures ReadsBindings(w, e, ReplaceExpression(e, b).value, b)
  {
  }

  lemma {:induction false} ChoiceReplaced(w: World, e: Expression, b: BindingMap)
    requires e.If? && ReplaceableExpr(e, b) && ReplaceExpression(e, b).Ok?
    ensures ReadsBindings(w, e, ReplaceExpression(e, b).value, b)
    decreases e, 0
  {
    ExpressionReplaced(w, e.cond, b);
    ExpressionReplaced(w, e.a, b);
    ExpressionReplaced(w, e.b, b);
  }

  lemma {:induction false} OperatorReplaced(w: World, e: Expression, b: BindingMap)
    requires SameOperator(e, e) && ReplaceableExpr(e, b) && ReplaceExpression(e, b).Ok?
    ensures ReadsBindings(w, e, ReplaceExpression(e, b).value, b)
    decreases e, 0
  {
    ExpressionReplaced(w, e.a, b);
    ExpressionReplaced(w, e.b, b);
    OperatorReads(w, e, ReplaceExpression(e, b).value, b);
  }

  lemma {:induction false} ArgumentsReplaced(w: World, e: Expression, b: BindingMap)
    requires e.In? || e.Coalesce? || e.FunctionCall?
    requires ReplaceableExpr(e, b) && ReplaceExpression(e, b).Ok?
    ensures ReadsBindings(w, e, ReplaceExpression(e, b).value, b)
    decreases e, 0
  {
    if e.In? { ExpressionReplaced(w, e.a, b); }
    ExpressionsReplaced(w, e.list, b);
  }

  predicate SameOperator(e: Expression, e': Expression) {
    || (e.Or? && e'.Or?) || (e.And? && e'.And?) || (e.Equal? && e'.Equal?) || (e.SameTerm? && e'.SameTerm?)
    || (e.Compare? && e'.Compare? && e.cmp == e'.cmp) || (e.Arith? && e'.Arith? && e.arith == e'.arith)
  }

  lemma OperatorReads(w: World, e: Expression, e': Expression, b: BindingMap)
    requires SameOperator(e, e') && ReadsBindings(w, e.a, e'.a, b) && ReadsBindings(w, e.b, e'.b, b)
    ensures ReadsBindings(w, e, e', b)
  {
  }

  // EXISTS looks for a solution compatible with the current one, so bound variables count as set.
  lemma ExistsReads(w: World, p: GraphPattern, p': GraphPattern, b: BindingMap)
    requires Restricts(w, p, p', b)
    ensures ReadsBindings(w, Exists(p), Exists(p'), b)
  {
    forall mu ensures Eval(w, Exists(p'), mu) == Eval(w, Exists(p), mu + Ground(b)) {
      ExistsReplaced(w, p, p', b, mu);
    }
  }

  ghost predicate Extends(w: World, p: GraphPattern, mu: Solution) {
    exists nu :: Answers(w, p, nu) && Compatible(nu, mu)
  }

  lemma ExistsReplaced(w: World, p: GraphPattern, p': GraphPattern, b: BindingMap, mu: Solution)
    requires Restricts(w, p, p', b)
    ensures Extends(w, p', mu) <==> Extends(w, p, mu + Ground(b))
  {
    if Extends(w, p', mu) {
      var nu' :| Answers(w, p', nu') && Compatible(nu', mu);
      var nu := Lift(w, p, p', b, nu');
      CompatibleOverridden(nu, b, nu', mu);
    }
    if Extends(w, p, mu + Ground(b)) {
      var nu :| Answers(w, p, nu) && Compatible(nu, mu + Ground(b));
      AgreesWithOverride(nu, mu, Ground(b));
      Lower(w, p, p', b, nu);
      CompatibleOverridden(nu, b, Without(nu, b), mu);
    }
  }

  lemma AgreesWithOverride(nu: Solution, mu: Solution, g: Solution)
    requires Compatible(nu, mu + g)
    ensures Compatible(nu, g)
  {
    forall v | v in nu && v in g ensures nu[v] == g[v] { assert v in mu + g; }
  }

  lemma CompatibleOverridden(nu: Solution, b: BindingMap, nu': Solution, mu: Solution)
    requires Drops(nu, b, nu')
    ensures Compatible(nu', mu) <==> Compatible(nu, mu + Ground(b))
  {
    if Compatible(nu', mu) {
      forall v | v in nu && v in mu + Ground(b) ensures nu[v] == (mu + Ground(b))[v] {
        if v !in b { assert v in nu'; }
      }
    }
    if Compatible(nu, mu + Ground(b)) {
      forall v | v in nu' && v in mu ensures nu'[v] == mu[v] { assert v in mu + Ground(b); }
    }
  }

  lemma {:induction false} ExpressionsReplaced(w: World, es: seq<Expression>, b: BindingMap)
    requires ReplaceableExprs(es, b) && ReplaceExpressions(es, b).Ok?
    ensures forall mu :: EvalAll(w, ReplaceExpressions(es, b).value, mu) == EvalAll(w, es, mu + Ground(b))
    decreases es, 0
  {
    if es != [] {
      ExpressionReplaced(w, es[0], b);
      ExpressionsReplaced(w, es[1..], b);
      var es' := ReplaceExpressions(es, b).value;
      assert es'[1..] == ReplaceExpressions(es[1..], b).value;
    }
  }
}
