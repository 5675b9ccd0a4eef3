/** What the static variable analyses promise about the domain of every solution. */
module Scope {
  import opened Wrappers
  import opened Rdf
  import opened Algebra
  import opened Semantics

  /** No SERVICE ?v contributes a variable that the in-scope analysis does not report. */
  predicate ServiceNamesReported(gp: GraphPattern) {
    match gp
    case Join(l, r) => ServiceNamesReported(l) && ServiceNamesReported(r)
    case LeftJoin(l, r, _) => ServiceNamesReported(l) && ServiceNamesReported(r)
    case Union(l, r) => ServiceNamesReported(l) && ServiceNamesReported(r)
    case Minus(l, _) => ServiceNamesReported(l)
    case Service(name, inner, _) => NameVars(name) <= InScope(inner) && ServiceNamesReported(inner)
    case GraphClause(_, inner) => ServiceNamesReported(inner)
    case Extend(inner, _, _) => ServiceNamesReported(inner)
    case Filter(_, inner) => ServiceNamesReported(inner)
    case OrderBy(inner, _) => ServiceNamesReported(inner)
    case Distinct(inner) => ServiceNamesReported(inner)
    case Reduced(inner) => ServiceNamesReported(inner)
    case Slice(inner, _, _) => ServiceNamesReported(inner)
    case _ => true
  }

  /** Every variable a solution binds is reported as in scope. */
  lemma {:induction false} ScopeSound(w: World, gp: GraphPattern, mu: Solution)
    requires Answers(w, gp, mu) && ServiceNamesReported(gp)
    ensures mu.Keys <= InScope(gp)
    decreases gp, 1
  {
    match gp {
      case Bgp(ps) =>
      case Path(s, p, o) =>
      case Values(vs, rows) =>
        var i :| 0 <= i < |rows| && mu == RowSolution(vs, rows[i]);
        RowSolutionKeys(vs, rows[i]);
      case PValues(vs, name) =>
        var rows := w.fns.table(name);
        var i :| 0 <= i < |rows| && mu == RowSolution(vs, rows[i]);
        RowSolutionKeys(vs, rows[i]);
      case Join(_, _) => CombinationScopeSound(w, gp, mu);
      case LeftJoin(_, _, _) => CombinationScopeSound(w, gp, mu);
      case Union(_, _) => CombinationScopeSound(w, gp, mu);
      case Minus(_, _) => CombinationScopeSound(w, gp, mu);
      case GraphClause(_, _) => PlaceScopeSound(w, gp, mu);
      case Extend(_, _, _) => ClauseScopeSound(w, gp, mu);
      case Project(_, _) => ClauseScopeSound(w, gp, mu);
      case Group(_, _, _) => ClauseScopeSound(w, gp, mu);
      case Service(_, _, _) => PlaceScopeSound(w, gp, mu);
      case _ => ScopeSound(w, gp.inner, mu);
    }
  }

  lemma {:induction false} CombinationScopeSound(w: World, gp: GraphPattern, mu: Solution)
    requires gp.Join? || gp.LeftJoin? || gp.Union? || gp.Minus?
    requires Answers(w, gp, mu) && ServiceNamesReported(gp)
    ensures mu.Keys <= InScope(gp)
    decreases gp, 0
  {
    match gp {
      case Join(l, r) =>
        var a, b := JoinParts(w, gp, mu);
        ScopeSound(w, l, a);
        ScopeSound(w, r, b);
      case LeftJoin(l, r, e) =>
        var matched, a, b := LeftJoinParts(w, gp, mu);
        ScopeSound(w, l, a);
        if matched { ScopeSound(w, r, b); }
      case Union(l, r) =>
        if Answers(w, l, mu) { ScopeSound(w, l, mu); } else { ScopeSound(w, r, mu); }
      case Minus(l, r) => ScopeSound(w, l, mu);
    }
  }

  // Patterns over another graph or dataset.
  lemma {:induction false} PlaceScopeSound(w: World, gp: GraphPattern, mu: Solution)
    requires gp.GraphClause? || gp.Service?
    requires Answers(w, gp, mu) && ServiceNamesReported(gp)
    ensures mu.Keys <= InScope(gp)
    decreases gp, 0
  {
    if gp.GraphClause? {
      var iri, a := GraphParts(w, gp, mu);
      ScopeSound(w.(active := w.named[iri]), gp.inner, a);
    } else {
      var skipped, iri, a := ServiceParts(w, gp, mu);
      if !skipped { ScopeSound(At(w, w.fns.remote(iri).value), gp.inner, a); }
    }
  }

  lemma {:induction false} ClauseScopeSound(w: World, gp: GraphPattern, mu: Solution)
    requires gp.Extend? || gp.Project? || gp.Group?
    requires Answers(w, gp, mu) && ServiceNamesReported(gp)
    ensures mu.Keys <= InScope(gp)
    decreases gp, 0
  {
    match gp {
      case Extend(inner, v, e) =>
        var a := ExtendPart(w, gp, mu);
        ScopeSound(w, inner, a);
      case Project(inner, vs) =>
      case Group(inner, vs, aggs) =>
        var key := GroupPart(w, gp, mu);
        AggregateValueKeys(w, aggs, GroupOf(w, inner, vs, key));
    }
  }

  lemma {:induction false} RowSolutionKeys(vs: seq<Var>, row: Row)
    ensures RowSolution(vs, row).Keys <= SeqSet(vs)
  {
    if vs != [] && row != [] { RowSolutionKeys(vs[1..], row[1..]); }
  }

  lemma {:induction false} AggregateValueKeys(w: World, aggs: seq<NamedAggregate>, group: iset<Solution>)
    ensures AggregateValues(w, aggs, group).Keys <= AggregateVars(aggs)
  {
    if aggs != [] {
      AggregateValueKeys(w, aggs[1..], group);
      assert aggs[0] in aggs;
      assert forall a :: a in aggs[1..] ==> a in aggs;
    }
  }

  lemma ServiceAnswers(w: World, v: Var, inner: GraphPattern, silent: bool, iri: Iri, a: Solution)
    requires w.fns.remote(iri).Some? && Answers(At(w, w.fns.remote(iri).value), inner, a)
    requires v in a ==> a[v] == NamedNode(iri)
    ensures Answers(w, Service(VarName(v), inner, silent), a + map[v := NamedNode(iri)])
  {
    assert NameMatches(VarName(v), iri);
    assert JoinsTo(a, NameSolution(VarName(v), iri), a + map[v := NamedNode(iri)]);
  }

  /**
    The analysis says nothing of the name of a SERVICE clause: when an endpoint answers, SERVICE ?v
    binds ?v, and the report covers that solution exactly when the clause's own pattern reports ?v.
   */
  lemma ServiceNameScope(w: World, v: Var, inner: GraphPattern, silent: bool, iri: Iri, a: Solution)
    requires ServiceNamesReported(inner)
    requires w.fns.remote(iri).Some? && Answers(At(w, w.fns.remote(iri).value), inner, a)
    requires v in a ==> a[v] == NamedNode(iri)
    ensures var gp, mu := Service(VarName(v), inner, silent), a + map[v := NamedNode(iri)];
      Answers(w, gp, mu) && (mu.Keys <= InScope(gp) <==> v in InScope(inner))
  {
    ServiceAnswers(w, v, inner, silent, iri, a);
    ScopeSound(At(w, w.fns.remote(iri).value), inner, a);
    assert v in (a + map[v := NamedNode(iri)]).Keys;
  }

  // ----- variables bound in every solution -----

  ghost predicate AlwaysBinds(w: World, gp: GraphPattern, v: Var) { forall a :: Answers(w, gp, a) ==> v in a }

  ghost predicate NeverBinds(w: World, gp: GraphPattern, v: Var) { forall a :: Answers(w, gp, a) ==> v !in a }

  predicate ColumnFull(rows: seq<Row>, i: nat) {
    forall r :: 0 <= r < |rows| ==> i < |rows[r]| && rows[r][i].Some?
  }

  function Certain(gp: GraphPattern): set<Var> {
    match gp
    case Bgp(ps) => BgpVars(ps)
    case Path(s, _, o) => TermVars(s) + TermVars(o)
    case Join(l, r) => Certain(l) + Certain(r)
    case LeftJoin(l, _, _) => Certain(l)
    case Union(l, r) => Certain(l) * Certain(r)
    case GraphClause(name, inner) => NameVars(name) + Certain(inner)
    case Extend(inner, v, e) =>
      Certain(inner) + (if e.NodeExpr? || e.LiteralExpr? || (e.Variable? && e.name in Certain(inner)) then {v} else {})
    case Minus(l, _) => Certain(l)
    case Group(inner, vs, _) => SeqSet(vs) * Certain(inner)
    case Values(vs, rows) => set i: nat | i < |vs| && ColumnFull(rows, i) :: vs[i]
    case Project(inner, vs) => SeqSet(vs) * Certain(inner)
    case PValues(_, _) => {}
    case Service(_, inner, silent) => if silent then {} else Certain(inner)
    case Filter(_, inner) => Certain(inner)
    case OrderBy(inner, _) => Certain(inner)
    case Distinct(inner) => Certain(inner)
    case Reduced(inner) => Certain(inner)
    case Slice(inner, _, _) => Certain(inner)
  }

  lemma {:induction false} CertainlyBound(w: World, gp: GraphPattern, mu: Solution)
    requires Answers(w, gp, mu)
    ensures Certain(gp) <= mu.Keys
    decreases gp, 1
  {
    match gp {
      case Bgp(ps) =>
      case Path(s, p, o) =>
      case Values(vs, rows) =>
        var r :| 0 <= r < |rows| && mu == RowSolution(vs, rows[r]);
        forall i: nat | i < |vs| && ColumnFull(rows, i) ensures vs[i] in mu {
          RowSolutionBinds(vs, rows[r], i);
        }
      case PValues(vs, name) =>
      case Join(_, _) => CombinationCertainlyBound(w, gp, mu);
      case LeftJoin(_, _, _) => CombinationCertainlyBound(w, gp, mu);
      case Union(_, _) => CombinationCertainlyBound(w, gp, mu);
      case Minus(_, _) => CombinationCertainlyBound(w, gp, mu);
      case GraphClause(_, _) => PlaceCertainlyBound(w, gp, mu);
      case Extend(_, _, _) => ClauseCertainlyBound(w, gp, mu);
      case Project(_, _) => ClauseCertainlyBound(w, gp, mu);
      case Group(_, _, _) => ClauseCertainlyBound(w, gp, mu);
      case Service(_, _, _) => PlaceCertainlyBound(w, gp, mu);
      case _ => CertainlyBound(w, gp.inner, mu);
    }
  }

  lemma {:induction false} CombinationCertainlyBound(w: World, gp: GraphPattern, mu: Solution)
    requires gp.Join? || gp.LeftJoin? || gp.Union? || gp.Minus?
    requires Answers(w, gp, mu)
    ensures Certain(gp) <= mu.Keys
    decreases gp, 0
  {
    match gp {
      case Join(l, r) =>
        var a, b := JoinParts(w, gp, mu);
        CertainlyBound(w, l, a);
        CertainlyBound(w, r, b);
      case LeftJoin(l, r, e) =>
        var matched, a, b := LeftJoinParts(w, gp, mu);
        CertainlyBound(w, l, a);
      case Union(l, r) =>
        if Answers(w, l, mu) { CertainlyBound(w, l, mu); } else { CertainlyBound(w, r, mu); }
      case Minus(l, r) => CertainlyBound(w, l, mu);
    }
  }

  lemma {:induction false} PlaceCertainlyBound(w: World, gp: GraphPattern, mu: Solution)
    requires gp.GraphClause? || gp.Service?
    requires Answers(w, gp, mu)
    ensures Certain(gp) <= mu.Keys
    decreases gp, 0
  {
    if gp.GraphClause? {
      var iri, a := GraphParts(w, gp, mu);
      CertainlyBound(w.(active := w.named[iri]), gp.inner, a);
    } else {
      var skipped, iri, a := ServiceParts(w, gp, mu);
      if !skipped { CertainlyBound(At(w, w.fns.remote(iri).value), gp.inner, a); }
    }
  }

  lemma {:induction false} ClauseCertainlyBound(w: World, gp: GraphPattern, mu: Solution)
    requires gp.Extend? || gp.Project? || gp.Group?
    requires Answers(w, gp, mu)
    ensures Certain(gp) <= mu.Keys
    decreases gp, 0
  {
    match gp {
      case Extend(inner, v, e) =>
        var a := ExtendPart(w, gp, mu);
        CertainlyBound(w, inner, a);
      case Project(inner, vs) =>
        var a := ProjectPart(w, gp, mu);
        CertainlyBound(w, inner, a);
      case Group(inner, vs, aggs) =>
        var key := GroupPart(w, gp, mu);
        if vs != [] {
          var a :| Answers(w, inner, a) && key == Restrict(a, SeqSet(vs));
          CertainlyBound(w, inner, a);
        }
    }
  }

  lemma {:induction false} RowSolutionBinds(vs: seq<Var>, row: Row, i: nat)
    requires i < |vs| && i < |row| && row[i].Some?
    ensures vs[i] in RowSolution(vs, row)
  {
    if i > 0 { RowSolutionBinds(vs[1..], row[1..], i - 1); }
  }
}
