/** Exactly when the constructs that are set apart in the soundness theorem lose nothing. */
module PushdownLimits {
  import opened Wrappers
  import opened Rdf
  import opened Algebra
  import opened Semantics
  import opened TypeConstraints
  import opened FilterAnalysis
  import opened Pushdowns
  import opened PushdownSoundness
  import opened Scope

  const FOREIGN: Term := BlankNode("u")

  // No constant term of a query is a blank node.
  ghost predicate GroundValues(m: ValueMap) {
    forall v :: v in m ==> FOREIGN !in m[v]
  }

  lemma {:induction false} GroundColumn(rows: seq<Row>, i: nat)
    ensures FOREIGN !in ReadColumn(rows, i).terms
  {
    if rows != [] { GroundColumn(rows[..|rows| - 1], i); }
  }

  lemma {:induction false} TableValues(vs: seq<Var>, n: nat, rows: seq<Row>)
    requires n <= |vs|
    ensures var m := AddValues(UNCONSTRAINED, vs[..n], rows, None).values;
      GroundValues(m) && forall i: nat :: i < n && ReadColumn(rows, i).terms != {} ==> vs[i] in m
  {
    if n > 0 {
      TableValues(vs, n - 1, rows);
      GroundColumn(rows, n - 1);
      assert vs[..n][..n - 1] == vs[..n - 1];
    }
  }

  // A solution of gp that leaves v unbound is lost to a foreign term under v.
  lemma ForeignTermLost(w: World, gp: GraphPattern, v: Var, mu: Solution)
    requires Answers(w, gp, mu) && v !in mu && v in Pushed(gp).values && GroundValues(Pushed(gp).values)
    ensures !NothingLost(w, gp)
  {
    var nu := mu[v := FOREIGN];
    assert Includes(nu, mu) && !Passes(Pushed(gp), nu);
  }

  lemma MixedColumn(w: World, vs: seq<Var>, rows: seq<Row>, i: nat)
    requires NoDuplicates(vs) && forall r :: 0 <= r < |rows| ==> |rows[r]| == |vs|
    requires i < |vs| && !ColumnFull(rows, i) && !ColumnUnset(rows, i)
    ensures !NothingLost(w, Values(vs, rows))
  {
    var r :| 0 <= r < |rows| && rows[r][i].None?;
    var s :| 0 <= s < |rows| && rows[s][i].Some?;
    RowBinds(vs, rows[r], i);
    CellRead(rows, s, i);
    assert vs[..|vs|] == vs;
    TableValues(vs, |vs|, rows);
    ForeignTermLost(w, Values(vs, rows), vs[i], RowSolution(vs, rows[r]));
  }

  /** VALUES loses nothing exactly when no column mixes UNDEF with terms. */
  lemma ValuesSoundExactly(w: World, vs: seq<Var>, rows: seq<Row>)
    requires NoDuplicates(vs) && forall r :: 0 <= r < |rows| ==> |rows[r]| == |vs|
    ensures NothingLost(w, Values(vs, rows)) <==> forall i :: 0 <= i < |vs| ==> ColumnFull(rows, i) || ColumnUnset(rows, i)
  {
    if forall i :: 0 <= i < |vs| ==> ColumnFull(rows, i) || ColumnUnset(rows, i) {
      forall mu, nu | Answers(w, Values(vs, rows), mu) && Includes(nu, mu) ensures Passes(Pushed(Values(vs, rows)), nu) {
        FullTablePasses(w, vs, rows, mu, nu);
      }
    } else {
      var i :| 0 <= i < |vs| && !ColumnFull(rows, i) && !ColumnUnset(rows, i);
      MixedColumn(w, vs, rows, i);
    }
  }

  lemma FullTablePasses(w: World, vs: seq<Var>, rows: seq<Row>, mu: Solution, nu: Solution)
    requires NoDuplicates(vs) && forall i :: 0 <= i < |vs| ==> ColumnFull(rows, i) || ColumnUnset(rows, i)
    requires Answers(w, Values(vs, rows), mu) && Includes(nu, mu)
    ensures Passes(Pushed(Values(vs, rows)), nu)
  {
    var r :| 0 <= r < |rows| && mu == RowSolution(vs, rows[r]);
    TableMeets(UNCONSTRAINED, vs, |vs|, rows, None, r, nu, SeqSet(vs));
    assert vs[..|vs|] == vs;
  }

  // What a triple pattern constrains admits no literal, a boolean say.
  ghost predicate NoBooleans(types: TypeMap, vs: set<Var>) {
    forall v :: v in vs ==> v in types && types[v].Valid() && !types[v].Admits(LiteralType(XsdBoolean))
  }

  lemma ConjoinedNoBooleans(types: TypeMap, vs: set<Var>, v: Var)
    requires ValidTypes(types) && NoBooleans(types, vs)
    ensures NoBooleans(Conjoined(types, v, IRI_OR_BLANK), vs + {v})
  {
    assert !CompatibleWith(IRI_OR_BLANK, LiteralType(XsdBoolean));
  }

  lemma {:induction false} PatternTypes(ps: seq<TriplePattern>)
    ensures NoBooleans(AddPatterns(UNCONSTRAINED, ps).types, ConstrainedVars(ps))
  {
    if ps != [] {
      var n := |ps| - 1;
      PatternTypes(ps[..n]);
      var t, vs := AddPatterns(UNCONSTRAINED, ps[..n]).types, ConstrainedVars(ps[..n]);
      if ps[n].subj.VarTerm? {
        ConjoinedNoBooleans(t, vs, ps[n].subj.name);
        t, vs := Conjoined(t, ps[n].subj.name, IRI_OR_BLANK), vs + {ps[n].subj.name};
      }
      if ps[n].pred.VarName? { ConjoinedNoBooleans(t, vs, ps[n].pred.name); }
    }
  }

  lemma {:induction false} NarrowAll(vs: seq<Var>)
    ensures Narrow(vs, None) == vs
  {
    if vs != [] { NarrowAll(vs[..|vs| - 1]); }
  }

  lemma SubselectPushed(ps: seq<TriplePattern>, vs: seq<Var>)
    ensures Pushed(Project(Bgp(ps), vs)) == if vs == [] then UNCONSTRAINED else AddPatterns(UNCONSTRAINED, ps)
  {
    NarrowAll(vs);
    if vs != [] { assert Pushed(Project(Bgp(ps), vs)) == AddGraphPattern(UNCONSTRAINED, Bgp(ps), Some(vs)); }
  }

  // A solution of gp that leaves v unbound is lost to a boolean under v.
  lemma BooleanLost(w: World, gp: GraphPattern, v: Var, mu: Solution)
    requires Answers(w, gp, mu) && v !in mu && NoBooleans(Pushed(gp).types, {v})
    ensures !NothingLost(w, gp)
  {
    var nu := mu[v := LiteralTerm(BoolLiteral(true))];
    BooleanExcluded(Pushed(gp), v, nu);
    assert Includes(nu, mu);
  }

  lemma BooleanExcluded(c: Constraints, v: Var, nu: Solution)
    requires NoBooleans(c.types, {v}) && v in nu && nu[v] == LiteralTerm(BoolLiteral(true))
    ensures !Passes(c, nu)
  {
    assert v in {v};
  }

  lemma HiddenVariableLost(w: World, ps: seq<TriplePattern>, vs: seq<Var>, mu: Solution, v: Var)
    requires vs != [] && Answers(w, Project(Bgp(ps), vs), mu) && v in ConstrainedVars(ps) && v !in vs
    ensures !NothingLost(w, Project(Bgp(ps), vs))
  {
    var a := ProjectPart(w, Project(Bgp(ps), vs), mu);
    SubselectPushed(ps, vs);
    PatternTypes(ps);
    BooleanLost(w, Project(Bgp(ps), vs), v, mu);
  }

  lemma ProjectedPatternsPass(w: World, ps: seq<TriplePattern>, vs: seq<Var>, mu: Solution, nu: Solution)
    requires RdfGraph(w.active) && ConstrainedVars(ps) <= SeqSet(vs)
    requires Answers(w, Project(Bgp(ps), vs), mu) && Includes(nu, mu)
    ensures Passes(AddPatterns(UNCONSTRAINED, ps), nu)
  {
    var a := ProjectPart(w, Project(Bgp(ps), vs), mu);
    var sigma :| MatchesAll(w.active, ps, a, sigma);
    forall v | v in a && v in SeqSet(vs) ensures v in nu && nu[v] == a[v] { assert v in mu; }
    PatternsMeet(w, UNCONSTRAINED, ps, a, sigma, nu, SeqSet(vs));
  }

  ghost predicate HasSolution(w: World, gp: GraphPattern) {
    exists mu :: Answers(w, gp, mu)
  }

  /** The triple patterns of a sub-select with a solution lose nothing exactly when it projects every constrained variable. */
  lemma SubselectSoundExactly(w: World, ps: seq<TriplePattern>, vs: seq<Var>)
    requires RdfGraph(w.active)
    ensures NothingLost(w, Project(Bgp(ps), vs)) <==>
      vs == [] || !HasSolution(w, Project(Bgp(ps), vs)) || ConstrainedVars(ps) <= SeqSet(vs)
  {
    var gp := Project(Bgp(ps), vs);
    SubselectPushed(ps, vs);
    if vs != [] && HasSolution(w, gp) {
      if ConstrainedVars(ps) <= SeqSet(vs) {
        forall mu, nu | Answers(w, gp, mu) && Includes(nu, mu) ensures Passes(Pushed(gp), nu) {
          ProjectedPatternsPass(w, ps, vs, mu, nu);
        }
      } else {
        var mu :| Answers(w, gp, mu);
        var v :| v in ConstrainedVars(ps) && v !in SeqSet(vs);
        HiddenVariableLost(w, ps, vs, mu, v);
      }
    }
  }

  lemma {:induction false} GroundConstants(es: seq<Expression>)
    requires ConstantTerms(es).Some?
    ensures FOREIGN !in ConstantTerms(es).value
  {
    if es != [] { GroundConstants(es[1..]); }
  }

  lemma {:induction false} GroundPushdowns(e: Expression)
    requires VariablePushdowns(e).Some?
    ensures GroundValues(VariablePushdowns(e).value)
  {
    match e {
      case Or(a, b) => GroundPushdowns(a); GroundPushdowns(b);
      case If(_, a, b) => GroundPushdowns(a); GroundPushdowns(b);
      case And(a, b) => GroundPushdowns(a); GroundPushdowns(b);
      case Equal(a, b) =>
      case In(a, es) => GroundConstants(es);
    }
  }

  // The constraints on values alone.
  function ValuesOnly(c: Constraints): Constraints { Constraints(c.values, map[]) }

  ghost predicate NoValueLost(w: World, gp: GraphPattern) {
    forall mu, nu :: Answers(w, gp, mu) && Includes(nu, mu) ==> Passes(ValuesOnly(Pushed(gp)), nu)
  }

  lemma ForeignValueLost(w: World, gp: GraphPattern, v: Var, mu: Solution)
    requires Answers(w, gp, mu) && v !in mu && v in Pushed(gp).values && GroundValues(Pushed(gp).values)
    ensures !NoValueLost(w, gp)
  {
    var nu := mu[v := FOREIGN];
    assert Includes(nu, mu) && !Passes(ValuesOnly(Pushed(gp)), nu);
  }

  function ValueKeys(e: Expression): set<Var> {
    if VariablePushdowns(e).Some? then VariablePushdowns(e).value.Keys else {}
  }

  lemma FilterInSubselectPushed(e: Expression, ps: seq<TriplePattern>, vs: seq<Var>)
    requires vs != []
    ensures Pushed(Project(Filter(e, Bgp(ps)), vs)) == AddFilter(AddPatterns(UNCONSTRAINED, ps), e, Some(vs))
    ensures var m := Pushed(Project(Filter(e, Bgp(ps)), vs)).values;
      m.Keys == ValueKeys(e) - SeqSet(vs) && GroundValues(m)
  {
    NarrowAll(vs);
    if VariablePushdowns(e).Some? { GroundPushdowns(e); }
    var before := AddGraphPattern(UNCONSTRAINED, Bgp(ps), Some(vs));
    assert before == AddPatterns(UNCONSTRAINED, ps) && before.values == map[];
    assert Pushed(Project(Filter(e, Bgp(ps)), vs)) == AddGraphPattern(UNCONSTRAINED, Filter(e, Bgp(ps)), Some(vs));
    assert Pushed(Project(Filter(e, Bgp(ps)), vs)) == AddFilter(before, e, Some(vs));
  }

  lemma ValueLost(w: World, gp: GraphPattern)
    requires NothingLost(w, gp)
    ensures NoValueLost(w, gp)
  {
  }

  /**
    The values of a filter inside a sub-select with solutions lose nothing exactly when the sub-select lists
    all their variables, and then none of them is pushed down.
   */
  lemma FilterValuesExactly(w: World, e: Expression, ps: seq<TriplePattern>, vs: seq<Var>)
    requires vs != [] && HasSolution(w, Project(Filter(e, Bgp(ps)), vs))
    ensures var gp := Project(Filter(e, Bgp(ps)), vs);
      && (NoValueLost(w, gp) <==> ValueKeys(e) <= SeqSet(vs))
      && (Pushed(gp).values == map[] <==> ValueKeys(e) <= SeqSet(vs))
      && (NothingLost(w, gp) ==> ValueKeys(e) <= SeqSet(vs))
  {
    var gp := Project(Filter(e, Bgp(ps)), vs);
    FilterInSubselectPushed(e, ps, vs);
    if NothingLost(w, gp) { ValueLost(w, gp); }
    if !(ValueKeys(e) <= SeqSet(vs)) {
      var v :| v in ValueKeys(e) && v !in SeqSet(vs);
      var mu :| Answers(w, gp, mu);
      var a := ProjectPart(w, gp, mu);
      ForeignValueLost(w, gp, v, mu);
    }
  }

  /**
    What a filter and its triple patterns hide in a sub-select does no harm: no value is known of an unlisted
    variable, each unlisted variable of the patterns loses its constraint to one of the filter, and what the
    filter alone says of an unlisted variable admits every term.
   */
  ghost predicate HiddenHarmless(e: Expression, ps: seq<TriplePattern>, vs: seq<Var>) {
    && ValueKeys(e) <= SeqSet(vs)
    && ConstrainedVars(ps) - SeqSet(vs) <= ConstrainedBy(e)
    && forall v :: v in ConstrainedBy(e) - SeqSet(vs) - ConstrainedVars(ps) ==>
         AdmitsAll(VariableTypeConstraints(e).value[v])
  }

  // A variable is constrained by the patterns or, when it is not listed, by the filter, but not by both.
  lemma HiddenTypes(e: Expression, ps: seq<TriplePattern>, vs: seq<Var>, v: Var)
    requires vs != []
    ensures v in Pushed(Project(Filter(e, Bgp(ps)), vs)).types <==>
      (v in ConstrainedVars(ps)) != (v in ConstrainedBy(e) && v !in SeqSet(vs))
    ensures var types, fromPatterns := Pushed(Project(Filter(e, Bgp(ps)), vs)).types, AddPatterns(UNCONSTRAINED, ps).types;
      v in types && v in ConstrainedVars(ps) ==> v in fromPatterns && types[v] == fromPatterns[v]
    ensures var types := Pushed(Project(Filter(e, Bgp(ps)), vs)).types;
      v in types && v !in ConstrainedVars(ps) ==> types[v] == VariableTypeConstraints(e).value[v]
  {
    FilterInSubselectPushed(e, ps, vs);
    PatternKeys(ps);
  }

  lemma {:induction false} PatternKeys(ps: seq<TriplePattern>)
    ensures AddPatterns(UNCONSTRAINED, ps).types.Keys == ConstrainedVars(ps)
  {
    if ps != [] { PatternKeys(ps[..|ps| - 1]); }
  }

  // A solution of gp that leaves v unbound is lost to a term that the constraint on v does not admit.
  lemma UnadmittedLost(w: World, gp: GraphPattern, v: Var, mu: Solution)
    requires Answers(w, gp, mu) && v !in mu && v in Pushed(gp).types && !AdmitsAll(Pushed(gp).types[v])
    ensures !NothingLost(w, gp)
  {
    var p := Pushed(gp).types[v];
    var nu := mu[v := Unadmitted(p)];
    assert Includes(nu, mu) && !Passes(Pushed(gp), nu);
  }

  // Bound or not, a variable of the patterns takes a type that they admit.
  lemma SolutionMeetsPatterns(w: World, ps: seq<TriplePattern>, a: Solution)
    requires RdfGraph(w.active) && Answers(w, Bgp(ps), a)
    ensures TakesTypes(AddPatterns(UNCONSTRAINED, ps).types, a)
  {
    var sigma :| MatchesAll(w.active, ps, a, sigma);
    PatternsMeet(w, UNCONSTRAINED, ps, a, sigma, a, ConstrainedVars(ps));
  }

  lemma FilterPart(w: World, e: Expression, ps: seq<TriplePattern>, vs: seq<Var>, mu: Solution) returns (a: Solution)
    requires Answers(w, Project(Filter(e, Bgp(ps)), vs), mu)
    ensures Answers(w, Bgp(ps), a) && mu == Restrict(a, SeqSet(vs))
  {
    a := ProjectPart(w, Project(Filter(e, Bgp(ps)), vs), mu);
  }

  lemma HarmlessTypePasses(
      w: World, e: Expression, ps: seq<TriplePattern>, vs: seq<Var>, mu: Solution, nu: Solution, v: Var)
    requires RdfGraph(w.active) && vs != [] && HiddenHarmless(e, ps, vs)
    requires Answers(w, Project(Filter(e, Bgp(ps)), vs), mu) && Includes(nu, mu)
    requires v in Pushed(Project(Filter(e, Bgp(ps)), vs)).types && v in nu
    ensures var types := Pushed(Project(Filter(e, Bgp(ps)), vs)).types; types[v].Valid() && types[v].Admits(TypeOf(nu[v]))
  {
    HiddenTypes(e, ps, vs, v);
    if v in ConstrainedVars(ps) {
      var a := FilterPart(w, e, ps, vs, mu);
      SolutionMeetsPatterns(w, ps, a);
      assert v in mu && mu[v] == a[v];
    } else {
      AdmitsAllTerms(VariableTypeConstraints(e).value[v], nu[v]);
    }
  }

  lemma HarmlessLosesNothing(w: World, e: Expression, ps: seq<TriplePattern>, vs: seq<Var>)
    requires RdfGraph(w.active) && vs != [] && HiddenHarmless(e, ps, vs)
    ensures NothingLost(w, Project(Filter(e, Bgp(ps)), vs))
  {
    var gp := Project(Filter(e, Bgp(ps)), vs);
    FilterInSubselectPushed(e, ps, vs);
    forall mu, nu | Answers(w, gp, mu) && Includes(nu, mu) ensures Passes(Pushed(gp), nu) {
      forall v | v in Pushed(gp).types && v in nu
        ensures Pushed(gp).types[v].Valid() && Pushed(gp).types[v].Admits(TypeOf(nu[v]))
      {
        HarmlessTypePasses(w, e, ps, vs, mu, nu, v);
      }
    }
  }

  lemma HiddenPatternLost(w: World, e: Expression, ps: seq<TriplePattern>, vs: seq<Var>, mu: Solution, v: Var)
    requires vs != [] && Answers(w, Project(Filter(e, Bgp(ps)), vs), mu)
    requires v in ConstrainedVars(ps) && v !in SeqSet(vs) && v !in ConstrainedBy(e)
    ensures !NothingLost(w, Project(Filter(e, Bgp(ps)), vs))
  {
    var a := FilterPart(w, e, ps, vs, mu);
    HiddenTypes(e, ps, vs, v);
    PatternTypes(ps);
    BooleanLost(w, Project(Filter(e, Bgp(ps)), vs), v, mu);
  }

  lemma HiddenFilterLost(w: World, e: Expression, ps: seq<TriplePattern>, vs: seq<Var>, mu: Solution, v: Var)
    requires vs != [] && Answers(w, Project(Filter(e, Bgp(ps)), vs), mu)
    requires v in ConstrainedBy(e) - SeqSet(vs) - ConstrainedVars(ps)
    requires !AdmitsAll(VariableTypeConstraints(e).value[v])
    ensures !NothingLost(w, Project(Filter(e, Bgp(ps)), vs))
  {
    var a := FilterPart(w, e, ps, vs, mu);
    HiddenTypes(e, ps, vs, v);
    UnadmittedLost(w, Project(Filter(e, Bgp(ps)), vs), v, mu);
  }

  lemma HarmIsDone(w: World, e: Expression, ps: seq<TriplePattern>, vs: seq<Var>, mu: Solution)
    requires vs != [] && !HiddenHarmless(e, ps, vs) && Answers(w, Project(Filter(e, Bgp(ps)), vs), mu)
    ensures !NothingLost(w, Project(Filter(e, Bgp(ps)), vs))
  {
    if !(ValueKeys(e) <= SeqSet(vs)) {
      FilterValuesExactly(w, e, ps, vs);
    } else if !(ConstrainedVars(ps) - SeqSet(vs) <= ConstrainedBy(e)) {
      var v :| v in ConstrainedVars(ps) - SeqSet(vs) && v !in ConstrainedBy(e);
      HiddenPatternLost(w, e, ps, vs, mu, v);
    } else {
      var v :| v in ConstrainedBy(e) - SeqSet(vs) - ConstrainedVars(ps) && !AdmitsAll(VariableTypeConstraints(e).value[v]);
      HiddenFilterLost(w, e, ps, vs, mu, v);
    }
  }

  /** A filter over triple patterns inside a sub-select with a solution loses nothing exactly when what it hides is harmless. */
  lemma FilterInSubselectExactly(w: World, e: Expression, ps: seq<TriplePattern>, vs: seq<Var>)
    requires RdfGraph(w.active)
    ensures var gp := Project(Filter(e, Bgp(ps)), vs);
      NothingLost(w, gp) <==> vs == [] || !HasSolution(w, gp) || HiddenHarmless(e, ps, vs)
  {
    var gp := Project(Filter(e, Bgp(ps)), vs);
    if vs == [] {
      assert Pushed(gp) == UNCONSTRAINED;
    } else if HasSolution(w, gp) {
      var mu :| Answers(w, gp, mu);
      if HiddenHarmless(e, ps, vs) { HarmlessLosesNothing(w, e, ps, vs); } else { HarmIsDone(w, e, ps, vs, mu); }
    }
  }

  // Copying what is known of ?from excludes no solution of the BIND that the constraints before it let pass.
  ghost predicate CopyLosesNothing(w: World, inner: GraphPattern, to: Var, from: Var) {
    forall mu, nu, c: Constraints ::
      Answers(w, Extend(inner, to, Variable(from)), mu) && Includes(nu, mu) && c.Valid() && Passes(c, nu) ==>
        Passes(AddBind(c, to, Variable(from)), nu)
  }

  lemma CopyPasses(c: Constraints, to: Var, from: Var, a: Solution, nu: Solution)
    requires from in a && to !in a && Includes(nu, a[to := a[from]]) && c.Valid() && Passes(c, nu)
    ensures Passes(AddBind(c, to, Variable(from)), nu)
  {
    assert nu[to] == a[from] == nu[from];
  }

  // What is known of ?from reaches ?to, although the BIND gives ?to no value.
  lemma CopyExcludes(to: Var, from: Var, a: Solution)
    returns (c: Constraints, nu: Solution)
    requires from !in a && to !in a && to != from
    ensures Includes(nu, a) && c.Valid() && Passes(c, nu) && !Passes(AddBind(c, to, Variable(from)), nu)
  {
    var t := NamedNode("t");
    c := Constraints(map[from := {t}], map[]);
    nu := a[from := t][to := FOREIGN];
    assert AddBind(c, to, Variable(from)).values[to] == {t};
  }

  lemma UnboundCopyLost(w: World, inner: GraphPattern, to: Var, from: Var, a: Solution)
    requires Answers(w, inner, a) && from !in a && to !in a && to != from
    ensures !CopyLosesNothing(w, inner, to, from)
  {
    var c, nu := CopyExcludes(to, from, a);
    UnboundCopy(w, inner, to, from, a);
  }

  lemma UnboundCopy(w: World, inner: GraphPattern, to: Var, from: Var, a: Solution)
    requires Answers(w, inner, a) && from !in a
    ensures Answers(w, Extend(inner, to, Variable(from)), a)
  {
    assert ExtendWith(to, Eval(w, Variable(from), a), a) == a;
  }

  lemma BoundCopyLosesNothing(w: World, inner: GraphPattern, to: Var, from: Var)
    requires NeverBinds(w, inner, to) && AlwaysBinds(w, inner, from)
    ensures CopyLosesNothing(w, inner, to, from)
  {
    forall mu, nu, c: Constraints |
      Answers(w, Extend(inner, to, Variable(from)), mu) && Includes(nu, mu) && c.Valid() && Passes(c, nu)
      ensures Passes(AddBind(c, to, Variable(from)), nu)
    {
      var a := ExtendPart(w, Extend(inner, to, Variable(from)), mu);
      CopyPasses(c, to, from, a, nu);
    }
  }

  /** BIND(?from AS ?to) copies constraints without loss exactly when every solution before it binds ?from. */
  lemma BindSoundExactly(w: World, inner: GraphPattern, to: Var, from: Var)
    requires to != from && NeverBinds(w, inner, to)
    ensures CopyLosesNothing(w, inner, to, from) <==> AlwaysBinds(w, inner, from)
  {
    if AlwaysBinds(w, inner, from) {
      BoundCopyLosesNothing(w, inner, to, from);
    } else {
      var a :| Answers(w, inner, a) && from !in a;
      UnboundCopyLost(w, inner, to, from, a);
    }
  }
}
