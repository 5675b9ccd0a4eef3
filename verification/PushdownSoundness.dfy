/** Pushed-down constraints never exclude a solution of the query they came from. */
module PushdownSoundness {
  import opened Wrappers
  import opened Rdf
  import opened Algebra
  import opened Semantics
  import opened TypeConstraints
  import opened FilterAnalysis
  import opened Pushdowns
  import opened Scope

  /** nu meets every constraint in c. */
  ghost predicate Meets(c: Constraints, nu: Solution) {
    TakesValues(c.values, nu) && TakesTypes(c.types, nu)
  }

  // nu carries on what mu binds among the visible variables.
  ghost predicate CarriesOn(mu: Solution, nu: Solution, visible: set<Var>) {
    forall v :: v in mu && v in visible ==> v in nu && nu[v] == mu[v]
  }

  // In an RDF graph subjects are IRIs or blank nodes, and predicates are IRIs.
  ghost predicate RdfGraph(g: Graph) {
    forall t :: t in g ==> !t.subj.LiteralTerm? && t.pred.NamedNode?
  }

  function ConstrainedVars(ps: seq<TriplePattern>): set<Var> {
    if ps == [] then {}
    else ConstrainedVars(ps[..|ps| - 1]) + TermVars(ps[|ps| - 1].subj) + NameVars(ps[|ps| - 1].pred)
  }

  predicate ColumnUnset(rows: seq<Row>, i: nat) {
    forall r :: 0 <= r < |rows| ==> i >= |rows[r]| || rows[r][i].None?
  }

  predicate FilterSafe(e: Expression, only: Option<seq<Var>>, visible: set<Var>) {
    && (VariablePushdowns(e).Some? ==> Unlisted(VariablePushdowns(e).value, only).Keys <= visible)
    && (VariableTypeConstraints(e).Some? ==> Unlisted(VariableTypeConstraints(e).value, only).Keys <= visible)
  }

  predicate NoDuplicates(vs: seq<Var>) {
    forall i, j :: 0 <= i < j < |vs| ==> vs[i] != vs[j]
  }

  // BIND(?from AS ?to) after inner.
  predicate CopySafe(inner: GraphPattern, to: Var, from: Var, visible: set<Var>) {
    {to, from} <= visible && from in Certain(inner) && to !in InScope(inner) && ServiceNamesReported(inner)
  }

  /**
    Where pushing down is sound. Only variables visible outside may be constrained: the triple patterns and
    filters of a sub-select constrain hidden ones too, and a filter in a sub-select is applied to exactly the
    unlisted ones. A VALUES column must be full or empty, and BIND may copy only a variable that is
    certainly bound.
   */
  predicate PushdownSafe(gp: GraphPattern, only: Option<seq<Var>>, visible: set<Var>)
    decreases gp
  {
    match gp
    case Bgp(ps) => ConstrainedVars(ps) <= visible
    case Join(l, r) => PushdownSafe(l, only, visible) && PushdownSafe(r, only, visible)
    case LeftJoin(l, _, _) => PushdownSafe(l, only, visible)
    case Minus(l, _) => PushdownSafe(l, only, visible)
    case Filter(e, inner) => PushdownSafe(inner, only, visible) && FilterSafe(e, only, visible)
    case Extend(inner, v, e) =>
      && PushdownSafe(inner, only, visible)
      && (e.Variable? ==> CopySafe(inner, v, e.name, visible))
    case Values(vs, rows) =>
      && NoDuplicates(vs)
      && forall i :: 0 <= i < |vs| && Allows(only, vs[i]) ==>
           vs[i] in visible && (ColumnFull(rows, i) || ColumnUnset(rows, i))
    case OrderBy(inner, _) => PushdownSafe(inner, only, visible)
    case Distinct(inner) => PushdownSafe(inner, only, visible)
    case Reduced(inner) => PushdownSafe(inner, only, visible)
    case Slice(inner, _, _) => PushdownSafe(inner, only, visible)
    case Group(inner, vs, aggs) =>
      Narrow(vs, only) == [] ||
      (PushdownSafe(inner, Some(Narrow(vs, only)), visible * SeqSet(vs)) && AggregateVars(aggs) !! SeqSet(vs))
    case Project(inner, vs) =>
      Narrow(vs, only) == [] || PushdownSafe(inner, Some(Narrow(vs, only)), visible * SeqSet(vs))
    case _ => true
  }

  // The variables that a filter constrains by type.
  function FilterTyped(e: Expression, only: Option<seq<Var>>): set<Var> {
    if VariableTypeConstraints(e).Some? then Unlisted(VariableTypeConstraints(e).value, only).Keys else {}
  }

  /** Wherever a filter that is pushed down holds, its analysed equalities compare with values of the declared types. */
  ghost predicate FiltersTyped(w: World, gp: GraphPattern, only: Option<seq<Var>>)
    decreases gp
  {
    match gp
    case Join(l, r) => FiltersTyped(w, l, only) && FiltersTyped(w, r, only)
    case LeftJoin(l, _, _) => FiltersTyped(w, l, only)
    case Minus(l, _) => FiltersTyped(w, l, only)
    case Filter(e, inner) =>
      && FiltersTyped(w, inner, only)
      && forall mu :: Answers(w, gp, mu) ==> EqualitiesTyped(w, e, FilterTyped(e, only), mu)
    case Extend(inner, _, _) => FiltersTyped(w, inner, only)
    case OrderBy(inner, _) => FiltersTyped(w, inner, only)
    case Distinct(inner) => FiltersTyped(w, inner, only)
    case Reduced(inner) => FiltersTyped(w, inner, only)
    case Slice(inner, _, _) => FiltersTyped(w, inner, only)
    case Group(inner, vs, _) => Narrow(vs, only) == [] || FiltersTyped(w, inner, Some(Narrow(vs, only)))
    case Project(inner, vs) => Narrow(vs, only) == [] || FiltersTyped(w, inner, Some(Narrow(vs, only)))
    case _ => true
  }

  // The filters that are pushed down compare expressions of one kind.
  predicate FiltersBetween(gp: GraphPattern, ok: Expression -> bool) {
    match gp
    case Join(l, r) => FiltersBetween(l, ok) && FiltersBetween(r, ok)
    case LeftJoin(l, _, _) => FiltersBetween(l, ok)
    case Minus(l, _) => FiltersBetween(l, ok)
    case Filter(e, inner) => EqualitiesBetween(e, ok) && FiltersBetween(inner, ok)
    case Extend(inner, _, _) => FiltersBetween(inner, ok)
    case OrderBy(inner, _) => FiltersBetween(inner, ok)
    case Distinct(inner) => FiltersBetween(inner, ok)
    case Reduced(inner) => FiltersBetween(inner, ok)
    case Slice(inner, _, _) => FiltersBetween(inner, ok)
    case Group(inner, _, _) => FiltersBetween(inner, ok)
    case Project(inner, _) => FiltersBetween(inner, ok)
    case _ => true
  }

  /** No filter that is pushed down compares a variable with arithmetic or a function call. */
  predicate PlainFilters(gp: GraphPattern) { FiltersBetween(gp, NotComputed) }

  lemma {:induction false} FiltersBetweenTyped(w: World, gp: GraphPattern, only: Option<seq<Var>>, ok: Expression -> bool)
    requires FiltersBetween(gp, ok) && forall x, mu :: ok(x) ==> HasDeclaredType(w, x, mu)
    ensures FiltersTyped(w, gp, only)
    decreases gp
  {
    match gp {
      case Join(l, r) => FiltersBetweenTyped(w, l, only, ok); FiltersBetweenTyped(w, r, only, ok);
      case LeftJoin(l, _, _) => FiltersBetweenTyped(w, l, only, ok);
      case Minus(l, _) => FiltersBetweenTyped(w, l, only, ok);
      case Filter(e, inner) =>
        FiltersBetweenTyped(w, inner, only, ok);
        forall mu | Answers(w, gp, mu) ensures EqualitiesTyped(w, e, FilterTyped(e, only), mu) {
          EqualitiesBetweenTyped(w, e, ok, FilterTyped(e, only), mu);
        }
      case Extend(inner, _, _) => FiltersBetweenTyped(w, inner, only, ok);
      case OrderBy(inner, _) => FiltersBetweenTyped(w, inner, only, ok);
      case Distinct(inner) => FiltersBetweenTyped(w, inner, only, ok);
      case Reduced(inner) => FiltersBetweenTyped(w, inner, only, ok);
      case Slice(inner, _, _) => FiltersBetweenTyped(w, inner, only, ok);
      case Group(inner, vs, _) => FiltersBetweenTyped(w, inner, Some(Narrow(vs, only)), ok);
      case Project(inner, vs) => FiltersBetweenTyped(w, inner, Some(Narrow(vs, only)), ok);
      case _ =>
    }
  }

  /** Then nothing is assumed of the built-in functions. */
  lemma PlainFiltersTyped(w: World, gp: GraphPattern, only: Option<seq<Var>>)
    requires PlainFilters(gp)
    ensures FiltersTyped(w, gp, only)
  {
    forall x, mu | NotComputed(x) ensures HasDeclaredType(w, x, mu) { ExpressionTypeSound(w, x, mu); }
    FiltersBetweenTyped(w, gp, only, NotComputed);
  }

  // ----- one step at a time -----

  lemma ConjoinedMeets(types: TypeMap, v: Var, ctr: ConstraintExpr, nu: Solution)
    requires ValidTypes(types) && Askable(ctr) && TakesTypes(types, nu)
    requires v in nu && CompatibleWith(ctr, TypeOf(nu[v]))
    ensures TakesTypes(Conjoined(types, v, ctr), nu)
  {
  }

  lemma PatternMeets(w: World, c: Constraints, p: TriplePattern, mu: Solution, nu: Solution, visible: set<Var>)
    requires c.Valid() && Meets(c, nu) && CarriesOn(mu, nu, visible) && RdfGraph(w.active)
    requires TermVars(p.subj) + NameVars(p.pred) <= visible
    requires exists sigma :: MatchesTriple(w.active, p, mu, sigma)
    ensures Meets(AddPattern(c, p), nu)
  {
    var sigma :| MatchesTriple(w.active, p, mu, sigma);
    var t := c.types;
    if p.subj.VarTerm? {
      ConjoinedMeets(t, p.subj.name, IRI_OR_BLANK, nu);
      t := Conjoined(t, p.subj.name, IRI_OR_BLANK);
    }
    if p.pred.VarName? { ConjoinedMeets(t, p.pred.name, IRI_OR_BLANK, nu); }
  }

  lemma {:induction false} PatternsMeet(
      w: World, c: Constraints, ps: seq<TriplePattern>, mu: Solution, sigma: map<string, Term>, nu: Solution, visible: set<Var>)
    requires c.Valid() && Meets(c, nu) && CarriesOn(mu, nu, visible) && RdfGraph(w.active)
    requires ConstrainedVars(ps) <= visible && MatchesAll(w.active, ps, mu, sigma)
    ensures Meets(AddPatterns(c, ps), nu)
  {
    if ps != [] {
      var n := |ps| - 1;
      PatternsMeet(w, c, ps[..n], mu, sigma, nu, visible);
      assert MatchesTriple(w.active, ps[n], mu, sigma);
      PatternMeets(w, AddPatterns(c, ps[..n]), ps[n], mu, nu, visible);
    }
  }

  lemma FilterMeets(
      w: World, c: Constraints, e: Expression, only: Option<seq<Var>>, mu: Solution, nu: Solution, visible: set<Var>)
    requires c.Valid() && Meets(c, nu) && CarriesOn(mu, nu, visible)
    requires FilterSafe(e, only, visible) && Holds(w, e, mu) && EqualitiesTyped(w, e, FilterTyped(e, only), mu)
    ensures Meets(AddFilter(c, e, only), nu)
  {
    var values, types := VariablePushdowns(e), VariableTypeConstraints(e);
    if values.Some? {
      VariablePushdownsSound(w, e, mu);
      assert TakesValues(Unlisted(values.value, only), nu);
      ConjoinValuesExact(c.values, Unlisted(values.value, only), nu);
    }
    if types.Some? {
      TypeConstraintsSound(w, e, FilterTyped(e, only), mu);
      assert TakesTypes(Unlisted(types.value, only), nu);
      ConjoinTypesSound(c.types, Unlisted(types.value, only), nu);
    }
  }

  // What a row binds, when no variable is listed twice.
  lemma {:induction false} RowBinds(vs: seq<Var>, row: Row, i: nat)
    requires NoDuplicates(vs) && i < |vs| && i < |row|
    ensures row[i].Some? ==> vs[i] in RowSolution(vs, row) && RowSolution(vs, row)[vs[i]] == ToTerm(row[i].value)
    ensures row[i].None? ==> vs[i] !in RowSolution(vs, row)
  {
    if i > 0 {
      RowBinds(vs[1..], row[1..], i - 1);
    } else {
      RowSolutionKeys(vs[1..], row[1..]);
    }
  }

  lemma {:induction false} CellRead(rows: seq<Row>, r: nat, i: nat)
    requires r < |rows| && i < |rows[r]| && rows[r][i].Some?
    ensures ToTerm(rows[r][i].value) in ReadColumn(rows, i).terms
    ensures TypeOf(ToTerm(rows[r][i].value)) in ColumnTypes(ReadColumn(rows, i))
  {
    var n := |rows| - 1;
    if r < n {
      CellRead(rows[..n], r, i);
      CellsKept(ReadColumn(rows[..n], i), rows[n], i);
    }
  }

  lemma CellsKept(col: Column, row: Row, i: nat)
    ensures col.terms <= AddCell(col, row, i).terms
    ensures forall t :: t in ColumnTypes(col) ==> t in ColumnTypes(AddCell(col, row, i))
  {
  }

  lemma {:induction false} UnsetColumnRead(rows: seq<Row>, i: nat)
    requires ColumnUnset(rows, i)
    ensures ReadColumn(rows, i) == Column({}, [], false)
  {
    if rows != [] {
      assert ColumnUnset(rows[..|rows| - 1], i);
      UnsetColumnRead(rows[..|rows| - 1], i);
    }
  }

  lemma {:induction false} AnyOfAdmits(ts: seq<BaseType>, t: BaseType)
    requires ts != [] && NoType !in ts && t in ts
    ensures Askable(AnyOf(ts)) && CompatibleWith(AnyOf(ts), t)
  {
    AnyOfAskable(ts);
    if |ts| > 1 && ts[|ts| - 1] != t { AnyOfAdmits(ts[..|ts| - 1], t); }
  }

  lemma ColumnMeets(c: Constraints, v: Var, rows: seq<Row>, i: nat, r: nat, nu: Solution)
    requires c.Valid() && Meets(c, nu) && r < |rows|
    requires ColumnFull(rows, i) ==> v in nu && nu[v] == ToTerm(rows[r][i].value)
    requires ColumnFull(rows, i) || ColumnUnset(rows, i)
    ensures Meets(AddColumn(c, v, rows, i), nu)
  {
    if ColumnUnset(rows, i) {
      UnsetColumnRead(rows, i);
    } else {
      CellRead(rows, r, i);
      var ts := ColumnTypes(ReadColumn(rows, i));
      ColumnTypesKnown(rows, i);
      AnyOfAdmits(ts, TypeOf(nu[v]));
      ConjoinedMeets(c.types, v, AnyOf(ts), nu);
    }
  }

  lemma {:induction false} TableMeets(
      c: Constraints, all: seq<Var>, n: nat, rows: seq<Row>, only: Option<seq<Var>>, r: nat, nu: Solution, visible: set<Var>)
    requires c.Valid() && Meets(c, nu) && n <= |all| && r < |rows|
    requires PushdownSafe(Values(all, rows), only, visible) && CarriesOn(RowSolution(all, rows[r]), nu, visible)
    ensures Meets(AddValues(c, all[..n], rows, only), nu)
  {
    if n > 0 {
      TableMeets(c, all, n - 1, rows, only, r, nu, visible);
      assert all[..n][..n - 1] == all[..n - 1];
      var i := n - 1;
      if Allows(only, all[i]) {
        if ColumnFull(rows, i) { RowBinds(all, rows[r], i); }
        ColumnMeets(AddValues(c, all[..i], rows, only), all[i], rows, i, r, nu);
      }
    }
  }

  lemma CopyMeets(c: Constraints, to: Var, from: Var, a: Solution, nu: Solution, visible: set<Var>)
    requires c.Valid() && Meets(c, nu)
    requires from in a && to !in a && {to, from} <= visible
    requires CarriesOn(a[to := a[from]], nu, visible)
    ensures Meets(AddBind(c, to, Variable(from)), nu)
  {
    assert nu[to] == a[from] == nu[from];
  }

  lemma BindMeets(
      w: World, c: Constraints, inner: GraphPattern, v: Var, e: Expression, a: Solution, nu: Solution, visible: set<Var>)
    requires c.Valid() && Meets(c, nu) && Answers(w, inner, a)
    requires e.Variable? ==> CopySafe(inner, v, e.name, visible)
    requires CarriesOn(ExtendWith(v, Eval(w, e, a), a), nu, visible)
    ensures Meets(AddBind(c, v, e), nu)
  {
    if e.Variable? {
      CertainlyBound(w, inner, a);
      ScopeSound(w, inner, a);
      CopyMeets(c, v, e.name, a, nu, visible);
    }
  }

  lemma {:induction false} NarrowNonEmpty(vs: seq<Var>, only: Option<seq<Var>>)
    requires Narrow(vs, only) != []
    ensures vs != []
  {
  }

  // ----- the theorem -----

  /**
    The filters of gp are typed and pushing it down is safe, mu is a solution of gp, and nu carries it on and
    meets the constraints so far.
   */
  ghost predicate MayPush(
      w: World, gp: GraphPattern, only: Option<seq<Var>>, visible: set<Var>, c: Constraints, mu: Solution, nu: Solution)
  {
    && RdfGraph(w.active) && FiltersTyped(w, gp, only) && PushdownSafe(gp, only, visible)
    && Answers(w, gp, mu) && CarriesOn(mu, nu, visible) && c.Valid() && Meets(c, nu)
  }

  /** Whoever meets the constraints so far and carries on a solution of gp meets the constraints gp adds. */
  lemma {:induction false} PushdownSound(
      w: World, gp: GraphPattern, only: Option<seq<Var>>, visible: set<Var>, c: Constraints, mu: Solution, nu: Solution)
    requires MayPush(w, gp, only, visible, c, mu, nu)
    ensures Meets(AddGraphPattern(c, gp, only), nu)
    decreases gp, 1
  {
    match gp {
      case Bgp(_) => LeafSound(w, gp, only, visible, c, mu, nu);
      case Values(_, _) => LeafSound(w, gp, only, visible, c, mu, nu);
      case Join(_, _) => CombinationSound(w, gp, only, visible, c, mu, nu);
      case LeftJoin(_, _, _) => CombinationSound(w, gp, only, visible, c, mu, nu);
      case Minus(_, _) => CombinationSound(w, gp, only, visible, c, mu, nu);
      case Filter(_, _) => ClauseSound(w, gp, only, visible, c, mu, nu);
      case Extend(_, _, _) => ClauseSound(w, gp, only, visible, c, mu, nu);
      case Group(_, _, _) => NarrowedSound(w, gp, only, visible, c, mu, nu);
      case Project(_, _) => NarrowedSound(w, gp, only, visible, c, mu, nu);
      case OrderBy(_, _) => ModifierSound(w, gp, only, visible, c, mu, nu);
      case Distinct(_) => ModifierSound(w, gp, only, visible, c, mu, nu);
      case Reduced(_) => ModifierSound(w, gp, only, visible, c, mu, nu);
      case Slice(_, _, _) => ModifierSound(w, gp, only, visible, c, mu, nu);
      case _ =>
    }
  }

  lemma LeafSound(
      w: World, gp: GraphPattern, only: Option<seq<Var>>, visible: set<Var>, c: Constraints, mu: Solution, nu: Solution)
    requires gp.Bgp? || gp.Values?
    requires MayPush(w, gp, only, visible, c, mu, nu)
    ensures Meets(AddGraphPattern(c, gp, only), nu)
  {
    if gp.Bgp? {
      var sigma :| MatchesAll(w.active, gp.patterns, mu, sigma);
      PatternsMeet(w, c, gp.patterns, mu, sigma, nu, visible);
    } else {
      var vs, rows := gp.variables, gp.rows;
      var r :| 0 <= r < |rows| && mu == RowSolution(vs, rows[r]);
      TableMeets(c, vs, |vs|, rows, only, r, nu, visible);
      assert vs[..|vs|] == vs;
    }
  }

  lemma {:induction false} ModifierSound(
      w: World, gp: GraphPattern, only: Option<seq<Var>>, visible: set<Var>, c: Constraints, mu: Solution, nu: Solution)
    requires gp.OrderBy? || gp.Distinct? || gp.Reduced? || gp.Slice?
    requires MayPush(w, gp, only, visible, c, mu, nu)
    ensures Meets(AddGraphPattern(c, gp, only), nu)
    decreases gp, 0
  {
    PushdownSound(w, gp.inner, only, visible, c, mu, nu);
  }

  lemma {:induction false} CombinationSound(
      w: World, gp: GraphPattern, only: Option<seq<Var>>, visible: set<Var>, c: Constraints, mu: Solution, nu: Solution)
    requires gp.Join? || gp.LeftJoin? || gp.Minus?
    requires MayPush(w, gp, only, visible, c, mu, nu)
    ensures Meets(AddGraphPattern(c, gp, only), nu)
    decreases gp, 0
  {
    if gp.Join? {
      var a, b := JoinParts(w, gp, mu);
      PushdownSound(w, gp.left, only, visible, c, a, nu);
      PushdownSound(w, gp.right, only, visible, AddGraphPattern(c, gp.left, only), b, nu);
    } else if gp.LeftJoin? {
      var matched, a, b := LeftJoinParts(w, gp, mu);
      CarriesOnLeft(a, b, nu, visible, matched, mu);
      PushdownSound(w, gp.left, only, visible, c, a, nu);
    } else {
      PushdownSound(w, gp.left, only, visible, c, mu, nu);
    }
  }

  lemma {:induction false} ClauseSound(
      w: World, gp: GraphPattern, only: Option<seq<Var>>, visible: set<Var>, c: Constraints, mu: Solution, nu: Solution)
    requires gp.Filter? || gp.Extend?
    requires MayPush(w, gp, only, visible, c, mu, nu)
    ensures Meets(AddGraphPattern(c, gp, only), nu)
    decreases gp, 0
  {
    if gp.Filter? {
      PushdownSound(w, gp.inner, only, visible, c, mu, nu);
      FilterMeets(w, AddGraphPattern(c, gp.inner, only), gp.expr, only, mu, nu, visible);
    } else {
      var a := ExtendPart(w, gp, mu);
      PushdownSound(w, gp.inner, only, visible, c, a, nu);
      BindMeets(w, AddGraphPattern(c, gp.inner, only), gp.inner, gp.variable, gp.bind, a, nu, visible);
    }
  }

  lemma CarriesOnLeft(a: Solution, b: Solution, nu: Solution, visible: set<Var>, matched: bool, mu: Solution)
    requires mu == if matched then a + b else a
    requires matched ==> Compatible(a, b)
    requires CarriesOn(mu, nu, visible)
    ensures CarriesOn(a, nu, visible)
  {
    forall v | v in a && v in visible ensures v in nu && nu[v] == a[v] { assert v in mu; }
  }

  lemma {:induction false} NarrowedSound(
      w: World, gp: GraphPattern, only: Option<seq<Var>>, visible: set<Var>, c: Constraints, mu: Solution, nu: Solution)
    requires gp.Group? || gp.Project?
    requires MayPush(w, gp, only, visible, c, mu, nu)
    ensures Meets(AddGraphPattern(c, gp, only), nu)
    decreases gp, 0
  {
    var vs := gp.variables;
    if Narrow(vs, only) != [] {
      NarrowNonEmpty(vs, only);
      var a;
      if gp.Group? {
        var key := GroupPart(w, gp, mu);
        a :| Answers(w, gp.inner, a) && key == Restrict(a, SeqSet(vs));
        AggregateValueKeys(w, gp.aggregates, GroupOf(w, gp.inner, gp.variables, key));
      } else {
        a := ProjectPart(w, gp, mu);
      }
      forall v | v in a && v in visible * SeqSet(vs) ensures v in nu && nu[v] == a[v] {
        assert v in Restrict(a, SeqSet(vs));
        assert v in mu && mu[v] == a[v];
      }
      PushdownSound(w, gp.inner, Some(Narrow(vs, only)), visible * SeqSet(vs), c, a, nu);
    }
  }

  // ----- pre-filtering the other side of a join -----

  const UNCONSTRAINED: Constraints := Constraints(map[], map[])

  /** nu is not excluded: where it binds a constrained variable, the constraint is met. */
  ghost predicate Passes(c: Constraints, nu: Solution) {
    && (forall v :: v in c.values && v in nu ==> nu[v] in c.values[v])
    && (forall v :: v in c.types && v in nu ==> c.types[v].Valid() && c.types[v].Admits(TypeOf(nu[v])))
  }

  /** The constraints of a whole pattern. */
  function Pushed(gp: GraphPattern): (c: Constraints)
    ensures c.Valid()
  {
    AddGraphPattern(UNCONSTRAINED, gp, None)
  }

  ghost predicate Includes(nu: Solution, mu: Solution) { CarriesOn(mu, nu, mu.Keys) }

  /** Nothing that includes a solution of gp is excluded by the constraints of gp. */
  ghost predicate NothingLost(w: World, gp: GraphPattern) {
    forall mu, nu :: Answers(w, gp, mu) && Includes(nu, mu) ==> Passes(Pushed(gp), nu)
  }

  ghost predicate Joins(w: World, gp: GraphPattern, right: iset<Solution>, mu: Solution) {
    exists a, b :: Answers(w, gp, a) && b in right && JoinsTo(a, b, mu)
  }

  ghost function Filtered(c: Constraints, right: iset<Solution>): iset<Solution> {
    iset b | b in right && Passes(c, b)
  }

  ghost predicate JoinKept(w: World, gp: GraphPattern, right: iset<Solution>) {
    forall mu :: Joins(w, gp, Filtered(Pushed(gp), right), mu) <==> Joins(w, gp, right, mu)
  }

  lemma JoinedPasses(w: World, gp: GraphPattern, a: Solution, b: Solution, mu: Solution)
    requires NothingLost(w, gp) && Answers(w, gp, a) && JoinsTo(a, b, mu)
    ensures Passes(Pushed(gp), b)
  {
    assert Includes(mu, a);
    assert forall v :: v in b ==> v in mu && mu[v] == b[v];
  }

  lemma IncludesJoins(mu: Solution, nu: Solution)
    requires Includes(nu, mu)
    ensures JoinsTo(mu, nu, nu)
  {
    assert mu + nu == nu;
  }

  lemma FilteredAlone(w: World, gp: GraphPattern, c: Constraints, mu: Solution, nu: Solution)
    requires Joins(w, gp, Filtered(c, iset{nu}), mu)
    ensures Passes(c, nu)
  {
    var a, b :| Answers(w, gp, a) && b in Filtered(c, iset{nu}) && JoinsTo(a, b, mu);
  }

  lemma JoinAlone(w: World, gp: GraphPattern, mu: Solution, nu: Solution)
    requires Answers(w, gp, mu) && Includes(nu, mu) && JoinKept(w, gp, iset{nu})
    ensures Passes(Pushed(gp), nu)
  {
    IncludesJoins(mu, nu);
    assert Joins(w, gp, iset{nu}, nu);
    FilteredAlone(w, gp, Pushed(gp), nu, nu);
  }

  /** Filtering any right-hand solutions by the constraints keeps every join exactly when nothing is lost. */
  lemma NothingLostExactly(w: World, gp: GraphPattern)
    ensures NothingLost(w, gp) <==> forall right :: JoinKept(w, gp, right)
  {
    if NothingLost(w, gp) {
      forall right, mu | Joins(w, gp, right, mu) ensures Joins(w, gp, Filtered(Pushed(gp), right), mu) {
        var a, b :| Answers(w, gp, a) && b in right && JoinsTo(a, b, mu);
        JoinedPasses(w, gp, a, b, mu);
      }
    }
    if forall right :: JoinKept(w, gp, right) {
      forall mu, nu | Answers(w, gp, mu) && Includes(nu, mu) ensures Passes(Pushed(gp), nu) {
        JoinAlone(w, gp, mu, nu);
      }
    }
  }

  lemma SafeLosesNothing(w: World, gp: GraphPattern, visible: set<Var>)
    requires RdfGraph(w.active) && FiltersTyped(w, gp, None) && PushdownSafe(gp, None, visible)
    ensures NothingLost(w, gp)
  {
    forall mu, nu | Answers(w, gp, mu) && Includes(nu, mu) ensures Passes(Pushed(gp), nu) {
      PushdownSound(w, gp, None, visible, UNCONSTRAINED, mu, nu);
    }
  }

  /** Dropping the right-hand solutions that the constraints of the left exclude never changes the join. */
  lemma PrefilteredJoin(w: World, l: GraphPattern, r: GraphPattern, visible: set<Var>, mu: Solution)
    requires RdfGraph(w.active) && FiltersTyped(w, l, None) && PushdownSafe(l, None, visible)
    ensures Answers(w, Join(l, r), mu) <==>
      exists a, b :: Answers(w, l, a) && Answers(w, r, b) && Passes(Pushed(l), b) && JoinsTo(a, b, mu)
  {
    SafeLosesNothing(w, l, visible);
    if Answers(w, Join(l, r), mu) {
      var a, b := JoinParts(w, Join(l, r), mu);
      JoinedPasses(w, l, a, b, mu);
    }
  }

  // ----- constraints taken into a BIND or a sub-select -----

  /** Removing a variable from the constraints is forgetting what a solution binds to it. */
  lemma RemovedExactly(c: Constraints, v: Var, nu: Solution)
    ensures Passes(Removed(c, v), nu) <==> Passes(c, nu - {v})
  {
  }

  /** Limiting the constraints to some variables is looking only at what a solution binds to them. */
  lemma LimitedExactly(c: Constraints, vs: seq<Var>, nu: Solution)
    ensures Passes(Limited(c, vs), nu) <==> Passes(c, Restrict(nu, SeqSet(vs)))
  {
  }

  lemma BoundPasses(c: Constraints, v: Var, x: Value, a: Solution)
    ensures Passes(Removed(c, v), ExtendWith(v, x, a)) <==> Passes(Removed(c, v), a)
  {
    RemovedExactly(c, v, ExtendWith(v, x, a));
    RemovedExactly(c, v, a);
    assert ExtendWith(v, x, a) - {v} == a - {v};
  }

  /** The constraints left when the variable of a BIND is removed may be applied before it as well as after it. */
  lemma BindFilteredInside(w: World, inner: GraphPattern, v: Var, e: Expression, c: Constraints, nu: Solution)
    ensures Answers(w, Extend(inner, v, e), nu) && Passes(Removed(c, v), nu) <==>
      exists a :: Answers(w, inner, a) && Passes(Removed(c, v), a) && nu == ExtendWith(v, Eval(w, e, a), a)
  {
    forall a ensures Passes(Removed(c, v), ExtendWith(v, Eval(w, e, a), a)) <==> Passes(Removed(c, v), a) {
      BoundPasses(c, v, Eval(w, e, a), a);
    }
  }

  /** The rows of a sub-select that pass are those of the inner solutions that pass the limited constraints. */
  lemma ProjectFilteredInside(w: World, inner: GraphPattern, vs: seq<Var>, c: Constraints, nu: Solution)
    ensures Answers(w, Project(inner, vs), nu) && Passes(c, nu) <==>
      exists a :: Answers(w, inner, a) && Passes(Limited(c, vs), a) && nu == Restrict(a, SeqSet(vs))
  {
    forall a ensures Passes(Limited(c, vs), a) <==> Passes(c, Restrict(a, SeqSet(vs))) { LimitedExactly(c, vs, a); }
  }
}
