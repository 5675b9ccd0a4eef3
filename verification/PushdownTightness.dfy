/** Pushed-down constraints exclude what the walked parts of a query exclude, wherever those parts stand. */
module PushdownTightness {
  import opened Wrappers
  import opened Rdf
  import opened Algebra
  import opened TypeConstraints
  import opened FilterAnalysis
  import opened Semantics
  import opened Pushdowns
  import opened PushdownSoundness

  // ----- what a walk may touch -----

  function FilterVars(e: Expression): set<Var> {
    (if VariablePushdowns(e).Some? then VariablePushdowns(e).value.Keys else {}) + ConstrainedBy(e)
  }

  /** The variables whose constraints a pattern may set, read or take away. */
  function Touched(gp: GraphPattern): set<Var> {
    match gp
    case Bgp(ps) => ConstrainedVars(ps)
    case Join(l, r) => Touched(l) + Touched(r)
    case LeftJoin(l, _, _) => Touched(l)
    case Minus(l, _) => Touched(l)
    case Filter(e, inner) => Touched(inner) + FilterVars(e)
    case Extend(inner, v, e) => Touched(inner) + if e.Variable? then {v, e.name} else {}
    case Values(vs, _) => SeqSet(vs)
    case OrderBy(inner, _) => Touched(inner)
    case Distinct(inner) => Touched(inner)
    case Reduced(inner) => Touched(inner)
    case Slice(inner, _, _) => Touched(inner)
    case Group(inner, _, _) => Touched(inner)
    case Project(inner, _) => Touched(inner)
    case _ => {}
  }

  function Keys(c: Constraints): set<Var> { c.values.Keys + c.types.Keys }

  function Plus(c: Constraints, d: Constraints): Constraints {
    Constraints(c.values + d.values, c.types + d.types)
  }

  lemma PlusValid(c: Constraints, d: Constraints)
    requires c.Valid() && d.Valid()
    ensures Plus(c, d).Valid()
  {
  }

  // A step on d does not touch c.
  ghost predicate Beside(c: Constraints, d: Constraints, touched: set<Var>, both: Constraints, after: Constraints) {
    both == Plus(c, after) && Keys(after) <= Keys(d) + touched
  }

  lemma {:induction false} PatternsBeside(c: Constraints, d: Constraints, ps: seq<TriplePattern>)
    requires c.Valid() && d.Valid() && Keys(c) !! Keys(d) + ConstrainedVars(ps) && Plus(c, d).Valid()
    ensures Beside(c, d, ConstrainedVars(ps), AddPatterns(Plus(c, d), ps), AddPatterns(d, ps))
  {
    if ps != [] {
      var n := |ps| - 1;
      PatternsBeside(c, d, ps[..n]);
      PatternBeside(c, AddPatterns(d, ps[..n]), ps[n]);
    }
  }

  lemma UpdateBeside<T>(c: map<Var, T>, d: map<Var, T>, v: Var, x: T)
    requires v !in c
    ensures (c + d)[v := x] == c + d[v := x] && SameAt(c + d, d, v)
  {
  }

  lemma ConjoinedBeside(c: TypeMap, d: TypeMap, v: Var, ctr: ConstraintExpr)
    requires ValidTypes(c) && ValidTypes(d) && ValidTypes(c + d) && Askable(ctr) && v !in c
    ensures Conjoined(c + d, v, ctr) == c + Conjoined(d, v, ctr)
  {
    UpdateBeside(c, d, v, Conjoined(d, v, ctr)[v]);
  }

  lemma TermsBeside(c: ValueMap, d: ValueMap, v: Var, ts: set<Term>)
    requires v !in c
    ensures AddTerms(c + d, v, ts) == c + AddTerms(d, v, ts)
  {
    UpdateBeside(c, d, v, if v in d then d[v] + ts else ts);
  }

  lemma PatternBeside(c: Constraints, d: Constraints, p: TriplePattern)
    requires c.Valid() && d.Valid() && Plus(c, d).Valid()
    requires Keys(c) !! TermVars(p.subj) + NameVars(p.pred)
    ensures Beside(c, d, TermVars(p.subj) + NameVars(p.pred), AddPattern(Plus(c, d), p), AddPattern(d, p))
  {
    var t := d.types;
    if p.subj.VarTerm? {
      ConjoinedBeside(c.types, t, p.subj.name, IRI_OR_BLANK);
      t := Conjoined(t, p.subj.name, IRI_OR_BLANK);
    }
    if p.pred.VarName? { ConjoinedBeside(c.types, t, p.pred.name, IRI_OR_BLANK); }
  }

  lemma ColumnBeside(c: Constraints, d: Constraints, v: Var, rows: seq<Row>, i: nat)
    requires c.Valid() && d.Valid() && Plus(c, d).Valid() && v !in Keys(c)
    ensures Beside(c, d, {v}, AddColumn(Plus(c, d), v, rows, i), AddColumn(d, v, rows, i))
  {
    var ts := ColumnTypes(ReadColumn(rows, i));
    ColumnTypesKnown(rows, i);
    TermsBeside(c.values, d.values, v, ReadColumn(rows, i).terms);
    if ts != [] {
      AnyOfAskable(ts);
      ConjoinedBeside(c.types, d.types, v, AnyOf(ts));
    }
  }

  lemma {:induction false} TableBeside(
    c: Constraints, d: Constraints, vs: seq<Var>, rows: seq<Row>, only: Option<seq<Var>>)
    requires c.Valid() && d.Valid() && Plus(c, d).Valid() && Keys(c) !! Keys(d) + SeqSet(vs)
    ensures Beside(c, d, SeqSet(vs), AddValues(Plus(c, d), vs, rows, only), AddValues(d, vs, rows, only))
  {
    if vs != [] {
      var i := |vs| - 1;
      assert vs[i] in SeqSet(vs) && SeqSet(vs[..i]) <= SeqSet(vs);
      TableBeside(c, d, vs[..i], rows, only);
      if Allows(only, vs[i]) { ColumnBeside(c, AddValues(d, vs[..i], rows, only), vs[i], rows, i); }
    }
  }

  lemma ConjoinValuesBeside(c: ValueMap, d: ValueMap, m: ValueMap)
    requires c.Keys !! d.Keys + m.Keys
    ensures ConjoinValues(c + d, m) == c + ConjoinValues(d, m)
  {
  }

  lemma ConjoinTypesBeside(c: TypeMap, d: TypeMap, m: TypeMap)
    requires c.Keys !! d.Keys + m.Keys
    ensures ConjoinTypes(c + d, m) == c + ConjoinTypes(d, m)
  {
  }

  lemma FilterBeside(c: Constraints, d: Constraints, e: Expression, only: Option<seq<Var>>)
    requires c.Valid() && d.Valid() && Plus(c, d).Valid() && Keys(c) !! Keys(d) + FilterVars(e)
    ensures Beside(c, d, FilterVars(e), AddFilter(Plus(c, d), e, only), AddFilter(d, e, only))
  {
    FilterValuesBeside(c, d, e, only);
    FilterTypesBeside(c, d, e, only);
  }

  lemma FilterValuesBeside(c: Constraints, d: Constraints, e: Expression, only: Option<seq<Var>>)
    requires c.Valid() && d.Valid() && Plus(c, d).Valid() && c.values.Keys !! d.values.Keys + FilterVars(e)
    ensures AddFilter(Plus(c, d), e, only).values == c.values + AddFilter(d, e, only).values
    ensures AddFilter(d, e, only).values.Keys <= d.values.Keys + FilterVars(e)
  {
    if VariablePushdowns(e).Some? {
      ConjoinValuesBeside(c.values, d.values, Unlisted(VariablePushdowns(e).value, only));
    }
  }

  lemma FilterTypesBeside(c: Constraints, d: Constraints, e: Expression, only: Option<seq<Var>>)
    requires c.Valid() && d.Valid() && Plus(c, d).Valid() && c.types.Keys !! d.types.Keys + FilterVars(e)
    ensures AddFilter(Plus(c, d), e, only).types == c.types + AddFilter(d, e, only).types
    ensures AddFilter(d, e, only).types.Keys <= d.types.Keys + FilterVars(e)
  {
    if VariableTypeConstraints(e).Some? {
      ConjoinTypesBeside(c.types, d.types, Unlisted(VariableTypeConstraints(e).value, only));
    }
  }

  lemma BindBeside(c: Constraints, d: Constraints, v: Var, e: Expression)
    requires c.Valid() && d.Valid() && Plus(c, d).Valid() && (e.Variable? ==> Keys(c) !! {v, e.name})
    ensures Beside(c, d, if e.Variable? then {v, e.name} else {}, AddBind(Plus(c, d), v, e), AddBind(d, v, e))
  {
    if e.Variable? && e.name in d.values { UpdateBeside(c.values, d.values, v, d.values[e.name]); }
  }

  /** Constraints on variables that a pattern does not touch stay beside what it adds to the others. */
  lemma {:induction false} WalkBeside(c: Constraints, d: Constraints, gp: GraphPattern, only: Option<seq<Var>>)
    requires c.Valid() && d.Valid() && Keys(c) !! Keys(d) + Touched(gp) && Plus(c, d).Valid()
    ensures Beside(c, d, Touched(gp), AddGraphPattern(Plus(c, d), gp, only), AddGraphPattern(d, gp, only))
    decreases gp, 1
  {
    match gp {
      case Bgp(ps) => PatternsBeside(c, d, ps);
      case Join(l, r) =>
        WalkBeside(c, d, l, only);
        WalkBeside(c, AddGraphPattern(d, l, only), r, only);
      case Filter(_, _) => ClauseBeside(c, d, gp, only);
      case Extend(_, _, _) => ClauseBeside(c, d, gp, only);
      case Values(vs, rows) => TableBeside(c, d, vs, rows, only);
      case Group(_, _, _) => NarrowedBeside(c, d, gp, only);
      case Project(_, _) => NarrowedBeside(c, d, gp, only);
      case Union(_, _) =>
      case Path(_, _, _) =>
      case PValues(_, _) =>
      case GraphClause(_, _) =>
      case Service(_, _, _) =>
      case _ => PartBeside(c, d, gp, only);
    }
  }

  lemma {:induction false} ClauseBeside(c: Constraints, d: Constraints, gp: GraphPattern, only: Option<seq<Var>>)
    requires gp.Filter? || gp.Extend?
    requires c.Valid() && d.Valid() && Keys(c) !! Keys(d) + Touched(gp) && Plus(c, d).Valid()
    ensures Beside(c, d, Touched(gp), AddGraphPattern(Plus(c, d), gp, only), AddGraphPattern(d, gp, only))
    decreases gp, 0
  {
    WalkBeside(c, d, gp.inner, only);
    var after := AddGraphPattern(d, gp.inner, only);
    if gp.Filter? { FilterBeside(c, after, gp.expr, only); } else { BindBeside(c, after, gp.variable, gp.bind); }
  }

  lemma {:induction false} PartBeside(c: Constraints, d: Constraints, gp: GraphPattern, only: Option<seq<Var>>)
    requires WalksOnePart(gp)
    requires c.Valid() && d.Valid() && Keys(c) !! Keys(d) + Touched(gp) && Plus(c, d).Valid()
    ensures Beside(c, d, Touched(gp), AddGraphPattern(Plus(c, d), gp, only), AddGraphPattern(d, gp, only))
    decreases gp, 0
  {
    WalkBeside(c, d, if gp.LeftJoin? || gp.Minus? then gp.left else gp.inner, only);
  }

  lemma {:induction false} NarrowedBeside(c: Constraints, d: Constraints, gp: GraphPattern, only: Option<seq<Var>>)
    requires gp.Group? || gp.Project?
    requires c.Valid() && d.Valid() && Keys(c) !! Keys(d) + Touched(gp) && Plus(c, d).Valid()
    ensures Beside(c, d, Touched(gp), AddGraphPattern(Plus(c, d), gp, only), AddGraphPattern(d, gp, only))
    decreases gp, 0
  {
    if Narrow(gp.variables, only) != [] { WalkBeside(c, d, gp.inner, Some(Narrow(gp.variables, only))); }
  }

  predicate WalksOnePart(gp: GraphPattern) {
    gp.LeftJoin? || gp.Minus? || gp.OrderBy? || gp.Distinct? || gp.Reduced? || gp.Slice?
  }

  /** When the sides of a join touch different variables, a solution passes the join exactly when it passes each side. */
  lemma JoinPassesExactly(l: GraphPattern, r: GraphPattern, nu: Solution)
    requires Touched(l) !! Touched(r)
    ensures Passes(Pushed(Join(l, r)), nu) <==> Passes(Pushed(l), nu) && Passes(Pushed(r), nu)
  {
    var c := Pushed(l);
    WalkBeside(UNCONSTRAINED, UNCONSTRAINED, l, None);
    assert Plus(c, UNCONSTRAINED) == c && Plus(UNCONSTRAINED, UNCONSTRAINED) == UNCONSTRAINED;
    WalkBeside(c, UNCONSTRAINED, r, None);
    assert Pushed(Join(l, r)) == Plus(c, Pushed(r));
    PlusPasses(c, Pushed(r), nu);
  }

  lemma PlusPasses(c: Constraints, d: Constraints, nu: Solution)
    requires Keys(c) !! Keys(d)
    ensures Passes(Plus(c, d), nu) <==> Passes(c, nu) && Passes(d, nu)
  {
    forall v ensures PassesAt(Plus(c, d), nu, v) <==> PassesAt(c, nu, v) && PassesAt(d, nu, v) {
      PlusPassesAt(c, d, nu, v);
    }
    PassesEverywhere(c, nu);
    PassesEverywhere(d, nu);
    PassesEverywhere(Plus(c, d), nu);
  }

  // One variable at a time.
  ghost predicate PassesAt(c: Constraints, nu: Solution, v: Var) {
    && (v in c.values && v in nu ==> nu[v] in c.values[v])
    && (v in c.types && v in nu ==> c.types[v].Valid() && c.types[v].Admits(TypeOf(nu[v])))
  }

  lemma PassesEverywhere(c: Constraints, nu: Solution)
    ensures Passes(c, nu) <==> forall v :: PassesAt(c, nu, v)
  {
    if forall v :: PassesAt(c, nu, v) {
      forall v | v in c.values && v in nu ensures nu[v] in c.values[v] { assert PassesAt(c, nu, v); }
      forall v | v in c.types && v in nu ensures c.types[v].Valid() && c.types[v].Admits(TypeOf(nu[v])) {
        assert PassesAt(c, nu, v);
      }
    }
  }

  lemma PlusPassesAt(c: Constraints, d: Constraints, nu: Solution, v: Var)
    requires Keys(c) !! Keys(d)
    ensures PassesAt(Plus(c, d), nu, v) <==> PassesAt(c, nu, v) && PassesAt(d, nu, v)
  {
    assert v in c.types ==> v !in d.types && Plus(c, d).types[v] == c.types[v];
    assert v in d.types ==> Plus(c, d).types[v] == d.types[v];
  }
}
