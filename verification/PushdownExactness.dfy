/** Exactly which solutions pass the constraints of a pattern: those that every walked part of it admits. */
module PushdownExactness {
  import opened Wrappers
  import opened Rdf
  import opened Algebra
  import opened TypeConstraints
  import opened FilterAnalysis
  import opened Semantics
  import opened Pushdowns
  import opened PushdownSoundness

  predicate AllowsAny(only: Option<seq<Var>>, vs: seq<Var>) { exists v :: v in vs && Allows(only, v) }

  // Narrowing keeps the listed variables that are allowed.
  lemma {:induction false} NarrowListed(vs: seq<Var>, only: Option<seq<Var>>)
    ensures Narrow(vs, only) != [] <==> AllowsAny(only, vs)
    ensures forall v :: v in Narrow(vs, only) <==> v in vs && Allows(only, v)
  {
    if vs != [] {
      var n := |vs| - 1;
      NarrowListed(vs[..n], only);
      assert vs == vs[..n] + [vs[n]];
    }
  }

  // ----- tables -----

  predicate InColumn(rows: seq<Row>, i: nat, x: Term) {
    exists r :: 0 <= r < |rows| && i < |rows[r]| && rows[r][i].Some? && ToTerm(rows[r][i].value) == x
  }

  // The variables of the first n columns that may be constrained and list a term.
  function TableVars(vs: seq<Var>, n: nat, rows: seq<Row>, only: Option<seq<Var>>): set<Var>
    requires n <= |vs|
  {
    set i | 0 <= i < n && Allows(only, vs[i]) && !ColumnUnset(rows, i) :: vs[i]
  }

  // Those whose term in nu is listed.
  function TableLists(vs: seq<Var>, n: nat, rows: seq<Row>, only: Option<seq<Var>>, nu: Solution): set<Var>
    requires n <= |vs|
  {
    set i | 0 <= i < n && Allows(only, vs[i]) && vs[i] in nu && InColumn(rows, i, nu[vs[i]]) :: vs[i]
  }

  lemma TableVarsNext(all: seq<Var>, i: nat, rows: seq<Row>, only: Option<seq<Var>>)
    requires i < |all|
    ensures TableVars(all, i + 1, rows, only) ==
      TableVars(all, i, rows, only) + if Allows(only, all[i]) && !ColumnUnset(rows, i) then {all[i]} else {}
  {
  }

  lemma TableListsNext(all: seq<Var>, i: nat, rows: seq<Row>, only: Option<seq<Var>>, nu: Solution)
    requires i < |all|
    ensures TableLists(all, i + 1, rows, only, nu) == TableLists(all, i, rows, only, nu)
      + if Allows(only, all[i]) && all[i] in nu && InColumn(rows, i, nu[all[i]]) then {all[i]} else {}
  {
  }

  lemma {:induction false} ColumnTerms(rows: seq<Row>, i: nat, x: Term)
    ensures x in ReadColumn(rows, i).terms <==> InColumn(rows, i, x)
  {
    if rows != [] {
      var n := |rows| - 1;
      ColumnTerms(rows[..n], i, x);
      assert rows == rows[..n] + [rows[n]];
    }
  }

  lemma ColumnEmpty(rows: seq<Row>, i: nat)
    ensures ReadColumn(rows, i).terms == {} <==> ColumnUnset(rows, i)
    ensures ReadColumn(rows, i).terms == {} <==> ColumnTypes(ReadColumn(rows, i)) == []
  {
    forall x ensures x in ReadColumn(rows, i).terms <==> InColumn(rows, i, x) { ColumnTerms(rows, i, x); }
    if !ColumnUnset(rows, i) {
      var r :| 0 <= r < |rows| && i < |rows[r]| && rows[r][i].Some?;
      CellRead(rows, r, i);
    } else {
      UnsetColumnRead(rows, i);
    }
  }

  // ----- values -----

  ghost predicate ValuePasses(m: ValueMap, nu: Solution, v: Var) { v in m && v in nu ==> nu[v] in m[v] }

  ghost predicate PassesValues(m: ValueMap, nu: Solution) { forall v :: ValuePasses(m, nu, v) }

  function FilterValued(e: Expression, only: Option<seq<Var>>): set<Var> {
    if VariablePushdowns(e).Some? then Unlisted(VariablePushdowns(e).value, only).Keys else {}
  }

  ghost predicate ListedByFilterAt(e: Expression, vs: set<Var>, nu: Solution, v: Var) {
    v in vs && VariablePushdowns(e).Some? ==> ValuePasses(VariablePushdowns(e).value, nu, v)
  }

  // The filter's values for the given variables.
  ghost predicate ListedByFilter(e: Expression, vs: set<Var>, nu: Solution) { forall v :: ListedByFilterAt(e, vs, nu, v) }

  /** The variables whose values are known after the walk, when those in keys are known before. */
  function Known(gp: GraphPattern, only: Option<seq<Var>>, keys: set<Var>): set<Var>
    decreases gp
  {
    match gp
    case Values(vs, rows) => keys + TableVars(vs, |vs|, rows, only)
    case Filter(e, inner) => Known(inner, only, keys) + FilterValued(e, only)
    case Extend(inner, v, e) =>
      var k := Known(inner, only, keys);
      if e.Variable? && e.name in k then k + {v} else k
    case Join(l, r) => Known(r, only, Known(l, only, keys))
    case LeftJoin(l, _, _) => Known(l, only, keys)
    case Minus(l, _) => Known(l, only, keys)
    case OrderBy(inner, _) => Known(inner, only, keys)
    case Distinct(inner) => Known(inner, only, keys)
    case Reduced(inner) => Known(inner, only, keys)
    case Slice(inner, _, _) => Known(inner, only, keys)
    case Group(inner, vs, _) => if AllowsAny(only, vs) then Known(inner, Some(Narrow(vs, only)), keys) else keys
    case Project(inner, vs) => if AllowsAny(only, vs) then Known(inner, Some(Narrow(vs, only)), keys) else keys
    case _ => keys
  }

  // BIND copies what is known of a variable.
  predicate Copies(gp: GraphPattern, only: Option<seq<Var>>, keys: set<Var>)
    requires gp.Extend?
  {
    gp.bind.Variable? && gp.bind.name in Known(gp.inner, only, keys)
  }

  /**
    The variables for which it no longer matters what was known before: a VALUES column that lists the term of nu
    adds it to what was known, and BIND overwrites.
   */
  function Superseded(gp: GraphPattern, only: Option<seq<Var>>, keys: set<Var>, nu: Solution): set<Var>
    decreases gp
  {
    match gp
    case Values(vs, rows) => TableLists(vs, |vs|, rows, only, nu)
    case Filter(_, inner) => Superseded(inner, only, keys, nu)
    case Extend(inner, v, _) => Superseded(inner, only, keys, nu) + if Copies(gp, only, keys) then {v} else {}
    case Join(l, r) => Superseded(l, only, keys, nu) + Superseded(r, only, Known(l, only, keys), nu)
    case LeftJoin(l, _, _) => Superseded(l, only, keys, nu)
    case Minus(l, _) => Superseded(l, only, keys, nu)
    case OrderBy(inner, _) => Superseded(inner, only, keys, nu)
    case Distinct(inner) => Superseded(inner, only, keys, nu)
    case Reduced(inner) => Superseded(inner, only, keys, nu)
    case Slice(inner, _, _) => Superseded(inner, only, keys, nu)
    case Group(inner, vs, _) =>
      if AllowsAny(only, vs) then Superseded(inner, Some(Narrow(vs, only)), keys, nu) else {}
    case Project(inner, vs) =>
      if AllowsAny(only, vs) then Superseded(inner, Some(Narrow(vs, only)), keys, nu) else {}
    case _ => {}
  }

  /**
    nu takes only terms that the VALUES tables and filters on the walked parts list, save for the variables that are
    freed by what comes later: both sides of a join, the left of OPTIONAL and MINUS, and what lies under BIND,
    modifiers, sub-selects and groups.
   */
  ghost predicate Listed(gp: GraphPattern, only: Option<seq<Var>>, keys: set<Var>, freed: set<Var>, nu: Solution)
    decreases gp
  {
    match gp
    case Values(vs, rows) =>
      forall v :: v in TableVars(vs, |vs|, rows, only) - keys - freed && v in nu ==> v in TableLists(vs, |vs|, rows, only, nu)
    case Filter(e, inner) =>
      Listed(inner, only, keys, freed, nu) && ListedByFilter(e, FilterValued(e, only) - freed, nu)
    case Extend(inner, v, e) =>
      && Listed(inner, only, keys, freed + (if Copies(gp, only, keys) then {v} else {}), nu)
      && (Copies(gp, only, keys) && v in nu && v !in freed ==> Listed(inner, only, keys, {}, map[e.name := nu[v]]))
    case Join(l, r) =>
      && Listed(l, only, keys, freed + Superseded(r, only, Known(l, only, keys), nu), nu)
      && Listed(r, only, Known(l, only, keys), freed, nu)
    case LeftJoin(l, _, _) => Listed(l, only, keys, freed, nu)
    case Minus(l, _) => Listed(l, only, keys, freed, nu)
    case OrderBy(inner, _) => Listed(inner, only, keys, freed, nu)
    case Distinct(inner) => Listed(inner, only, keys, freed, nu)
    case Reduced(inner) => Listed(inner, only, keys, freed, nu)
    case Slice(inner, _, _) => Listed(inner, only, keys, freed, nu)
    case Group(inner, vs, _) => AllowsAny(only, vs) ==> Listed(inner, Some(Narrow(vs, only)), keys, freed, nu)
    case Project(inner, vs) => AllowsAny(only, vs) ==> Listed(inner, Some(Narrow(vs, only)), keys, freed, nu)
    case _ => true
  }

  /** BIND copies only variables of which nothing was known before its own group. */
  predicate CopiesOwn(gp: GraphPattern, only: Option<seq<Var>>, keys: set<Var>)
    decreases gp
  {
    match gp
    case Filter(_, inner) => CopiesOwn(inner, only, keys)
    case Extend(inner, _, e) => CopiesOwn(inner, only, keys) && (e.Variable? ==> e.name !in keys)
    case Join(l, r) => CopiesOwn(l, only, keys) && CopiesOwn(r, only, Known(l, only, keys))
    case LeftJoin(l, _, _) => CopiesOwn(l, only, keys)
    case Minus(l, _) => CopiesOwn(l, only, keys)
    case OrderBy(inner, _) => CopiesOwn(inner, only, keys)
    case Distinct(inner) => CopiesOwn(inner, only, keys)
    case Reduced(inner) => CopiesOwn(inner, only, keys)
    case Slice(inner, _, _) => CopiesOwn(inner, only, keys)
    case Group(inner, vs, _) => AllowsAny(only, vs) ==> CopiesOwn(inner, Some(Narrow(vs, only)), keys)
    case Project(inner, vs) => AllowsAny(only, vs) ==> CopiesOwn(inner, Some(Narrow(vs, only)), keys)
    case _ => true
  }

  // One column, at one variable.
  lemma TermsPass(m: ValueMap, v: Var, rows: seq<Row>, i: nat, freed: set<Var>, nu: Solution, u: Var)
    ensures var after := AddTerms(m, v, ReadColumn(rows, i).terms);
      && after.Keys == m.Keys + (if ColumnUnset(rows, i) then {} else {v})
      && (u != v || ColumnUnset(rows, i) ==> SameAt(after, m, u))
      && (!ColumnUnset(rows, i) && v in nu && v !in freed ==>
           (ValuePasses(after - freed, nu, v) <==> (v in m && nu[v] in m[v]) || InColumn(rows, i, nu[v])))
  {
    ColumnEmpty(rows, i);
    if v in nu { ColumnTerms(rows, i, nu[v]); }
  }

  lemma {:induction false} TablePasses(
    c: Constraints, all: seq<Var>, n: nat, rows: seq<Row>, only: Option<seq<Var>>, freed: set<Var>, nu: Solution, u: Var)
    requires c.Valid() && n <= |all|
    ensures TableRead(
      c.values, AddValues(c, all[..n], rows, only).values, TableVars(all, n, rows, only),
      TableLists(all, n, rows, only, nu), freed, nu, u)
  {
    if n > 0 {
      var i := n - 1;
      TablePasses(c, all, i, rows, only, freed, nu, u);
      assert all[..n][..i] == all[..i];
      TableVarsNext(all, i, rows, only);
      TableListsNext(all, i, rows, only, nu);
      ListsWithin(all, i, rows, only, nu);
      if Allows(only, all[i]) {
        ColumnStep(
          c.values, AddValues(c, all[..i], rows, only).values, TableVars(all, i, rows, only),
          TableLists(all, i, rows, only, nu), all[i], rows, i, freed, nu, u);
      }
    }
  }

  // What columns of the given variables, of which some list the term of nu, make of one variable.
  ghost predicate TableRead(
    m: ValueMap, after: ValueMap, vs: set<Var>, listed: set<Var>, freed: set<Var>, nu: Solution, u: Var)
  {
    && after.Keys == m.Keys + vs
    && (ValuePasses(after - freed, nu, u) <==>
         ValuePasses(m - (freed + listed), nu, u) && (u in vs - m.Keys - freed && u in nu ==> u in listed))
  }

  lemma ListsWithin(all: seq<Var>, n: nat, rows: seq<Row>, only: Option<seq<Var>>, nu: Solution)
    requires n <= |all|
    ensures TableLists(all, n, rows, only, nu) <= TableVars(all, n, rows, only)
  {
  }

  lemma ColumnStep(
    m: ValueMap, before: ValueMap, vs: set<Var>, listed: set<Var>, v: Var, rows: seq<Row>, i: nat, freed: set<Var>,
    nu: Solution, u: Var)
    requires listed <= vs && TableRead(m, before, vs, listed, freed, nu, u)
    ensures TableRead(
      m, AddTerms(before, v, ReadColumn(rows, i).terms), vs + (if ColumnUnset(rows, i) then {} else {v}),
      listed + (if v in nu && InColumn(rows, i, nu[v]) then {v} else {}), freed, nu, u)
  {
    var after := AddTerms(before, v, ReadColumn(rows, i).terms);
    TermsPass(before, v, rows, i, freed, nu, u);
    if u != v || ColumnUnset(rows, i) {
      assert ValuePasses(after - freed, nu, u) <==> ValuePasses(before - freed, nu, u);
    } else if u in nu && u !in freed {
      assert u in before ==> (ValuePasses(before - freed, nu, u) <==> nu[u] in before[u]);
    }
  }

  lemma FilterValuesPass(m: ValueMap, e: Expression, only: Option<seq<Var>>, freed: set<Var>, nu: Solution)
    requires VariablePushdowns(e).Some?
    ensures PassesValues(ConjoinValues(m, Unlisted(VariablePushdowns(e).value, only)) - freed, nu) <==>
      PassesValues(m - freed, nu) && ListedByFilter(e, FilterValued(e, only) - freed, nu)
  {
    var after := ConjoinValues(m, Unlisted(VariablePushdowns(e).value, only));
    forall v ensures ValuePasses(after - freed, nu, v) <==>
      ValuePasses(m - freed, nu, v) && ListedByFilterAt(e, FilterValued(e, only) - freed, nu, v)
    {
      FilterValuesPassAt(m, e, only, freed, nu, v);
    }
  }

  lemma FilterValuesPassAt(m: ValueMap, e: Expression, only: Option<seq<Var>>, freed: set<Var>, nu: Solution, v: Var)
    requires VariablePushdowns(e).Some?
    ensures ValuePasses(ConjoinValues(m, Unlisted(VariablePushdowns(e).value, only)) - freed, nu, v) <==>
      ValuePasses(m - freed, nu, v) && ListedByFilterAt(e, FilterValued(e, only) - freed, nu, v)
  {
    ConjoinValuesAt(m, Unlisted(VariablePushdowns(e).value, only), v);
  }

  lemma CopyPassesValues(m: ValueMap, to: Var, from: Var, freed: set<Var>, nu: Solution)
    requires from in m
    ensures PassesValues(m[to := m[from]] - freed, nu) <==>
      PassesValues(m - (freed + {to}), nu) && (to in nu && to !in freed ==> nu[to] in m[from])
  {
    var after, before := m[to := m[from]] - freed, m - (freed + {to});
    forall v | v != to ensures ValuePasses(after, nu, v) <==> ValuePasses(before, nu, v) {}
    assert ValuePasses(before, nu, to);
    assert ValuePasses(after, nu, to) <==> (to in nu && to !in freed ==> nu[to] in m[from]);
  }

  lemma OneValuePasses(m: ValueMap, v: Var, x: Term)
    ensures PassesValues(m, map[v := x]) <==> (v in m ==> x in m[v])
  {
    assert ValuePasses(m, map[v := x], v) <==> (v in m ==> x in m[v]);
    forall u | u != v ensures ValuePasses(m, map[v := x], u) {}
  }

  /**
    The value constraints after a pattern pass a solution exactly when those before it do, save where they are
    superseded, and every walked part lists its terms.
   */
  lemma {:induction false} ValuesPassExactly(
    c: Constraints, gp: GraphPattern, only: Option<seq<Var>>, freed: set<Var>, nu: Solution)
    requires c.Valid() && CopiesOwn(gp, only, c.values.Keys)
    ensures AddGraphPattern(c, gp, only).values.Keys == Known(gp, only, c.values.Keys)
    ensures PassesValues(AddGraphPattern(c, gp, only).values - freed, nu) <==>
      && PassesValues(c.values - (freed + Superseded(gp, only, c.values.Keys, nu)), nu)
      && Listed(gp, only, c.values.Keys, freed, nu)
    decreases gp, 1
  {
    match gp {
      case Values(_, _) => TableWalkPassesValues(c, gp, only, freed, nu);
      case Join(_, _) => JoinPassesValues(c, gp, only, freed, nu);
      case Filter(e, inner) =>
        ValuesPassExactly(c, inner, only, freed, nu);
        if VariablePushdowns(e).Some? { FilterValuesPass(AddGraphPattern(c, inner, only).values, e, only, freed, nu); }
      case Extend(_, _, _) => BindPassesValues(c, gp, only, freed, nu);
      case Group(_, _, _) => NarrowedPassesValues(c, gp, only, freed, nu);
      case Project(_, _) => NarrowedPassesValues(c, gp, only, freed, nu);
      case Bgp(_) => assert freed + {} == freed;
      case Union(_, _) => assert freed + {} == freed;
      case Path(_, _, _) => assert freed + {} == freed;
      case PValues(_, _) => assert freed + {} == freed;
      case GraphClause(_, _) => assert freed + {} == freed;
      case Service(_, _, _) => assert freed + {} == freed;
      case _ => PartPassesValues(c, gp, only, freed, nu);
    }
  }

  predicate WalksOnePart(gp: GraphPattern) {
    gp.LeftJoin? || gp.Minus? || gp.OrderBy? || gp.Distinct? || gp.Reduced? || gp.Slice?
  }

  lemma {:induction false} PartPassesValues(
    c: Constraints, gp: GraphPattern, only: Option<seq<Var>>, freed: set<Var>, nu: Solution)
    requires WalksOnePart(gp) && c.Valid() && CopiesOwn(gp, only, c.values.Keys)
    ensures AddGraphPattern(c, gp, only).values.Keys == Known(gp, only, c.values.Keys)
    ensures PassesValues(AddGraphPattern(c, gp, only).values - freed, nu) <==>
      && PassesValues(c.values - (freed + Superseded(gp, only, c.values.Keys, nu)), nu)
      && Listed(gp, only, c.values.Keys, freed, nu)
    decreases gp, 0
  {
    ValuesPassExactly(c, if gp.LeftJoin? || gp.Minus? then gp.left else gp.inner, only, freed, nu);
  }

  lemma TableWalkPassesValues(c: Constraints, gp: GraphPattern, only: Option<seq<Var>>, freed: set<Var>, nu: Solution)
    requires gp.Values? && c.Valid()
    ensures AddGraphPattern(c, gp, only).values.Keys == Known(gp, only, c.values.Keys)
    ensures PassesValues(AddGraphPattern(c, gp, only).values - freed, nu) <==>
      && PassesValues(c.values - (freed + Superseded(gp, only, c.values.Keys, nu)), nu)
      && Listed(gp, only, c.values.Keys, freed, nu)
  {
    var vs, rows := gp.variables, gp.rows;
    var after, listed := AddGraphPattern(c, gp, only).values, TableLists(vs, |vs|, rows, only, nu);
    assert vs[..|vs|] == vs;
    TablePasses(c, vs, |vs|, rows, only, freed, nu, "");
    forall u ensures ValuePasses(after - freed, nu, u) <==>
      && ValuePasses(c.values - (freed + listed), nu, u)
      && (u in TableVars(vs, |vs|, rows, only) - c.values.Keys - freed && u in nu ==> u in listed)
    {
      TablePasses(c, vs, |vs|, rows, only, freed, nu, u);
    }
  }

  lemma {:induction false} JoinPassesValues(
    c: Constraints, gp: GraphPattern, only: Option<seq<Var>>, freed: set<Var>, nu: Solution)
    requires gp.Join? && c.Valid() && CopiesOwn(gp, only, c.values.Keys)
    ensures AddGraphPattern(c, gp, only).values.Keys == Known(gp, only, c.values.Keys)
    ensures PassesValues(AddGraphPattern(c, gp, only).values - freed, nu) <==>
      && PassesValues(c.values - (freed + Superseded(gp, only, c.values.Keys, nu)), nu)
      && Listed(gp, only, c.values.Keys, freed, nu)
    decreases gp, 0
  {
    var l, r, keys := gp.left, gp.right, c.values.Keys;
    var later := Superseded(r, only, Known(l, only, keys), nu);
    ValuesPassExactly(c, l, only, freed + later, nu);
    ValuesPassExactly(AddGraphPattern(c, l, only), r, only, freed, nu);
    assert freed + Superseded(gp, only, keys, nu) == freed + later + Superseded(l, only, keys, nu);
  }

  lemma {:induction false} BindPassesValues(
    c: Constraints, gp: GraphPattern, only: Option<seq<Var>>, freed: set<Var>, nu: Solution)
    requires gp.Extend? && c.Valid() && CopiesOwn(gp, only, c.values.Keys)
    ensures AddGraphPattern(c, gp, only).values.Keys == Known(gp, only, c.values.Keys)
    ensures PassesValues(AddGraphPattern(c, gp, only).values - freed, nu) <==>
      && PassesValues(c.values - (freed + Superseded(gp, only, c.values.Keys, nu)), nu)
      && Listed(gp, only, c.values.Keys, freed, nu)
    decreases gp, 0
  {
    var inner, v, e, keys := gp.inner, gp.variable, gp.bind, c.values.Keys;
    var before := AddGraphPattern(c, inner, only).values;
    var freed' := freed + if Copies(gp, only, keys) then {v} else {};
    ValuesPassExactly(c, inner, only, freed', nu);
    assert freed + Superseded(gp, only, keys, nu) == freed' + Superseded(inner, only, keys, nu);
    if Copies(gp, only, keys) {
      CopyPassesValues(before, v, e.name, freed, nu);
      if v in nu { CopiedPasses(c, inner, only, e.name, nu[v]); }
    } else {
      assert freed' == freed;
    }
  }

  // What is known of a variable that was not known before comes from the pattern alone.
  lemma {:induction false} CopiedPasses(c: Constraints, inner: GraphPattern, only: Option<seq<Var>>, from: Var, x: Term)
    requires c.Valid() && CopiesOwn(inner, only, c.values.Keys) && from !in c.values
    ensures var m := AddGraphPattern(c, inner, only).values;
      (from in m ==> x in m[from]) <==> Listed(inner, only, c.values.Keys, {}, map[from := x])
    decreases inner, 2
  {
    var m := AddGraphPattern(c, inner, only).values;
    ValuesPassExactly(c, inner, only, {}, map[from := x]);
    assert m - {} == m;
    OneValuePasses(m, from, x);
    OneValuePasses(c.values - ({} + Superseded(inner, only, c.values.Keys, map[from := x])), from, x);
  }

  lemma {:induction false} NarrowedPassesValues(
    c: Constraints, gp: GraphPattern, only: Option<seq<Var>>, freed: set<Var>, nu: Solution)
    requires (gp.Group? || gp.Project?) && c.Valid() && CopiesOwn(gp, only, c.values.Keys)
    ensures AddGraphPattern(c, gp, only).values.Keys == Known(gp, only, c.values.Keys)
    ensures PassesValues(AddGraphPattern(c, gp, only).values - freed, nu) <==>
      && PassesValues(c.values - (freed + Superseded(gp, only, c.values.Keys, nu)), nu)
      && Listed(gp, only, c.values.Keys, freed, nu)
    decreases gp, 0
  {
    NarrowListed(gp.variables, only);
    if AllowsAny(only, gp.variables) {
      ValuesPassExactly(c, gp.inner, Some(Narrow(gp.variables, only)), freed, nu);
    } else {
      assert freed + {} == freed;
    }
  }

  // ----- types -----

  ghost predicate TypePasses(m: TypeMap, nu: Solution, v: Var) {
    v in m && v in nu ==> m[v].Valid() && m[v].Admits(TypeOf(nu[v]))
  }

  ghost predicate PassesTypes(m: TypeMap, nu: Solution) { forall v :: TypePasses(m, nu, v) }

  // Some term of the column has a type that admits x.
  predicate TypedLikeColumn(rows: seq<Row>, i: nat, x: Term) {
    exists r :: 0 <= r < |rows| && i < |rows[r]| && rows[r][i].Some?
      && CompatibleWith(Constraint(TypeOf(ToTerm(rows[r][i].value))), TypeOf(x))
  }

  predicate TypedByColumn(nu: Solution, v: Var, rows: seq<Row>, i: nat) {
    v in nu && !ColumnUnset(rows, i) ==> TypedLikeColumn(rows, i, nu[v])
  }

  predicate TypedByTable(
    vs: seq<Var>, n: nat, rows: seq<Row>, only: Option<seq<Var>>, lost: set<Var>, nu: Solution)
    requires n <= |vs|
  {
    forall i :: 0 <= i < n && Allows(only, vs[i]) && vs[i] !in lost ==> TypedByColumn(nu, vs[i], rows, i)
  }

  predicate NoLiterals(vs: set<Var>, nu: Solution) { forall v :: v in vs && v in nu ==> !nu[v].LiteralTerm? }

  ghost predicate TypedByFilterAt(e: Expression, vs: set<Var>, nu: Solution, v: Var) {
    v in vs && VariableTypeConstraints(e).Some? ==> TypePasses(VariableTypeConstraints(e).value, nu, v)
  }

  // The filter's types for the given variables.
  ghost predicate TypedByFilter(e: Expression, vs: set<Var>, nu: Solution) { forall v :: TypedByFilterAt(e, vs, nu, v) }

  // What two filters, or a filter and something before it, say of one variable cancels out.
  function Cancelled(before: set<Var>, filtered: set<Var>): set<Var> { (before - filtered) + (filtered - before) }

  /** The variables that have a type constraint after the walk, when those in keys have one before. */
  function Typed(gp: GraphPattern, only: Option<seq<Var>>, keys: set<Var>): set<Var>
    decreases gp
  {
    match gp
    case Bgp(ps) => keys + ConstrainedVars(ps)
    case Values(vs, rows) => keys + TableVars(vs, |vs|, rows, only)
    case Filter(e, inner) => Cancelled(Typed(inner, only, keys), FilterTyped(e, only))
    case Extend(inner, _, _) => Typed(inner, only, keys)
    case Join(l, r) => Typed(r, only, Typed(l, only, keys))
    case LeftJoin(l, _, _) => Typed(l, only, keys)
    case Minus(l, _) => Typed(l, only, keys)
    case OrderBy(inner, _) => Typed(inner, only, keys)
    case Distinct(inner) => Typed(inner, only, keys)
    case Reduced(inner) => Typed(inner, only, keys)
    case Slice(inner, _, _) => Typed(inner, only, keys)
    case Group(inner, vs, _) => if AllowsAny(only, vs) then Typed(inner, Some(Narrow(vs, only)), keys) else keys
    case Project(inner, vs) => if AllowsAny(only, vs) then Typed(inner, Some(Narrow(vs, only)), keys) else keys
    case _ => keys
  }

  /** The variables that filters on the walked parts constrain: whatever constrained them before is lost. */
  function Refiltered(gp: GraphPattern, only: Option<seq<Var>>): set<Var>
    decreases gp
  {
    match gp
    case Filter(e, inner) => Refiltered(inner, only) + FilterTyped(e, only)
    case Extend(inner, _, _) => Refiltered(inner, only)
    case Join(l, r) => Refiltered(l, only) + Refiltered(r, only)
    case LeftJoin(l, _, _) => Refiltered(l, only)
    case Minus(l, _) => Refiltered(l, only)
    case OrderBy(inner, _) => Refiltered(inner, only)
    case Distinct(inner) => Refiltered(inner, only)
    case Reduced(inner) => Refiltered(inner, only)
    case Slice(inner, _, _) => Refiltered(inner, only)
    case Group(inner, vs, _) => if AllowsAny(only, vs) then Refiltered(inner, Some(Narrow(vs, only))) else {}
    case Project(inner, vs) => if AllowsAny(only, vs) then Refiltered(inner, Some(Narrow(vs, only))) else {}
    case _ => {}
  }

  /**
    nu takes terms of the types that the triple patterns, VALUES tables and filters on the walked parts admit, except
    where a later filter constrains the same variable, and where a filter constrains what was constrained before it.
   */
  ghost predicate WellTyped(gp: GraphPattern, only: Option<seq<Var>>, keys: set<Var>, lost: set<Var>, nu: Solution)
    decreases gp
  {
    match gp
    case Bgp(ps) => NoLiterals(ConstrainedVars(ps) - lost, nu)
    case Values(vs, rows) => TypedByTable(vs, |vs|, rows, only, lost, nu)
    case Filter(e, inner) =>
      && WellTyped(inner, only, keys, lost + FilterTyped(e, only), nu)
      && TypedByFilter(e, FilterTyped(e, only) - Typed(inner, only, keys) - lost, nu)
    case Extend(inner, _, _) => WellTyped(inner, only, keys, lost, nu)
    case Join(l, r) =>
      && WellTyped(l, only, keys, lost + Refiltered(r, only), nu)
      && WellTyped(r, only, Typed(l, only, keys), lost, nu)
    case LeftJoin(l, _, _) => WellTyped(l, only, keys, lost, nu)
    case Minus(l, _) => WellTyped(l, only, keys, lost, nu)
    case OrderBy(inner, _) => WellTyped(inner, only, keys, lost, nu)
    case Distinct(inner) => WellTyped(inner, only, keys, lost, nu)
    case Reduced(inner) => WellTyped(inner, only, keys, lost, nu)
    case Slice(inner, _, _) => WellTyped(inner, only, keys, lost, nu)
    case Group(inner, vs, _) => AllowsAny(only, vs) ==> WellTyped(inner, Some(Narrow(vs, only)), keys, lost, nu)
    case Project(inner, vs) => AllowsAny(only, vs) ==> WellTyped(inner, Some(Narrow(vs, only)), keys, lost, nu)
    case _ => true
  }

  lemma ConjoinedPasses(m: TypeMap, v: Var, ctr: ConstraintExpr, lost: set<Var>, nu: Solution)
    requires ValidTypes(m) && Askable(ctr)
    ensures PassesTypes(Conjoined(m, v, ctr) - lost, nu) <==>
      PassesTypes(m - lost, nu) && (v !in lost && v in nu ==> CompatibleWith(ctr, TypeOf(nu[v])))
  {
    forall u ensures TypePasses(Conjoined(m, v, ctr) - lost, nu, u) <==>
      TypePasses(m - lost, nu, u) && (u == v && v !in lost && v in nu ==> CompatibleWith(ctr, TypeOf(nu[v])))
    {
      ConjoinedPassesAt(m, v, ctr, lost, nu, u);
    }
    assert PassesTypes(Conjoined(m, v, ctr) - lost, nu) ==> TypePasses(Conjoined(m, v, ctr) - lost, nu, v);
  }

  lemma ConjoinedPassesAt(m: TypeMap, v: Var, ctr: ConstraintExpr, lost: set<Var>, nu: Solution, u: Var)
    requires ValidTypes(m) && Askable(ctr)
    ensures TypePasses(Conjoined(m, v, ctr) - lost, nu, u) <==>
      TypePasses(m - lost, nu, u) && (u == v && v !in lost && v in nu ==> CompatibleWith(ctr, TypeOf(nu[v])))
  {
    if u == v && v in m { assert Conjoined(m, v, ctr)[v] == m[v].AndCtr(ctr); }
    if u != v { assert SameAt(Conjoined(m, v, ctr), m, u); }
  }

  lemma NameAdmits(x: Term)
    ensures CompatibleWith(IRI_OR_BLANK, TypeOf(x)) <==> !x.LiteralTerm?
  {
  }

  lemma {:induction false} PatternsPassTypes(c: Constraints, ps: seq<TriplePattern>, lost: set<Var>, nu: Solution)
    requires c.Valid()
    ensures AddPatterns(c, ps).types.Keys == c.types.Keys + ConstrainedVars(ps)
    ensures PassesTypes(AddPatterns(c, ps).types - lost, nu) <==>
      PassesTypes(c.types - lost, nu) && NoLiterals(ConstrainedVars(ps) - lost, nu)
  {
    if ps != [] {
      var n := |ps| - 1;
      PatternsPassTypes(c, ps[..n], lost, nu);
      PatternPassesTypes(AddPatterns(c, ps[..n]), ps[n], lost, nu);
    }
  }

  lemma PatternPassesTypes(c: Constraints, p: TriplePattern, lost: set<Var>, nu: Solution)
    requires c.Valid()
    ensures AddPattern(c, p).types.Keys == c.types.Keys + TermVars(p.subj) + NameVars(p.pred)
    ensures PassesTypes(AddPattern(c, p).types - lost, nu) <==>
      PassesTypes(c.types - lost, nu) && NoLiterals(TermVars(p.subj) + NameVars(p.pred) - lost, nu)
  {
    var t := c.types;
    if p.subj.VarTerm? {
      ConjoinedPasses(t, p.subj.name, IRI_OR_BLANK, lost, nu);
      t := Conjoined(t, p.subj.name, IRI_OR_BLANK);
      if p.subj.name in nu { NameAdmits(nu[p.subj.name]); }
    }
    if p.pred.VarName? {
      ConjoinedPasses(t, p.pred.name, IRI_OR_BLANK, lost, nu);
      if p.pred.name in nu { NameAdmits(nu[p.pred.name]); }
    }
  }

  lemma {:induction false} AnyOfExactly(ts: seq<BaseType>, t: BaseType)
    requires ts != [] && NoType !in ts
    ensures Askable(AnyOf(ts))
    ensures CompatibleWith(AnyOf(ts), t) <==> exists k :: 0 <= k < |ts| && CompatibleWith(Constraint(ts[k]), t)
  {
    AnyOfAskable(ts);
    var n := |ts| - 1;
    if n > 0 {
      assert NoType !in ts[..n];
      AnyOfExactly(ts[..n], t);
      assert ts == ts[..n] + [ts[n]];
    }
  }

  lemma {:induction false} ColumnTypeFrom(rows: seq<Row>, i: nat, t: BaseType)
    requires t in ColumnTypes(ReadColumn(rows, i))
    ensures exists r :: 0 <= r < |rows| && i < |rows[r]| && rows[r][i].Some? && TypeOf(ToTerm(rows[r][i].value)) == t
  {
    var n := |rows| - 1;
    if t in ColumnTypes(ReadColumn(rows[..n], i)) { ColumnTypeFrom(rows[..n], i, t); }
  }

  lemma ColumnAdmits(rows: seq<Row>, i: nat, x: Term)
    requires !ColumnUnset(rows, i)
    ensures var ts := ColumnTypes(ReadColumn(rows, i));
      ts != [] && NoType !in ts && Askable(AnyOf(ts)) &&
      (CompatibleWith(AnyOf(ts), TypeOf(x)) <==> TypedLikeColumn(rows, i, x))
  {
    var ts := ColumnTypes(ReadColumn(rows, i));
    ColumnEmpty(rows, i);
    ColumnTypesKnown(rows, i);
    AnyOfExactly(ts, TypeOf(x));
    if CompatibleWith(AnyOf(ts), TypeOf(x)) {
      var k :| 0 <= k < |ts| && CompatibleWith(Constraint(ts[k]), TypeOf(x));
      ColumnTypeFrom(rows, i, ts[k]);
    }
    if TypedLikeColumn(rows, i, x) {
      var r :| 0 <= r < |rows| && i < |rows[r]| && rows[r][i].Some?
        && CompatibleWith(Constraint(TypeOf(ToTerm(rows[r][i].value))), TypeOf(x));
      CellRead(rows, r, i);
      var k :| 0 <= k < |ts| && ts[k] == TypeOf(ToTerm(rows[r][i].value));
    }
  }

  lemma ColumnPassesTypes(c: Constraints, v: Var, rows: seq<Row>, i: nat, lost: set<Var>, nu: Solution)
    requires c.Valid()
    ensures AddColumn(c, v, rows, i).types.Keys == c.types.Keys + if ColumnUnset(rows, i) then {} else {v}
    ensures PassesTypes(AddColumn(c, v, rows, i).types - lost, nu) <==>
      PassesTypes(c.types - lost, nu) && (v !in lost ==> TypedByColumn(nu, v, rows, i))
  {
    var ts := ColumnTypes(ReadColumn(rows, i));
    ColumnEmpty(rows, i);
    if !ColumnUnset(rows, i) {
      ColumnTypesKnown(rows, i);
      AnyOfAskable(ts);
      ConjoinedPasses(c.types, v, AnyOf(ts), lost, nu);
      if v in nu { ColumnAdmits(rows, i, nu[v]); }
    }
  }

  lemma TypedByNext(all: seq<Var>, i: nat, rows: seq<Row>, only: Option<seq<Var>>, lost: set<Var>, nu: Solution)
    requires i < |all|
    ensures TypedByTable(all, i + 1, rows, only, lost, nu) <==>
      && TypedByTable(all, i, rows, only, lost, nu)
      && (Allows(only, all[i]) && all[i] !in lost ==> TypedByColumn(nu, all[i], rows, i))
  {
  }

  lemma {:induction false} TablePassesTypes(
    c: Constraints, all: seq<Var>, n: nat, rows: seq<Row>, only: Option<seq<Var>>, lost: set<Var>, nu: Solution)
    requires c.Valid() && n <= |all|
    ensures AddValues(c, all[..n], rows, only).types.Keys == c.types.Keys + TableVars(all, n, rows, only)
    ensures PassesTypes(AddValues(c, all[..n], rows, only).types - lost, nu) <==>
      PassesTypes(c.types - lost, nu) && TypedByTable(all, n, rows, only, lost, nu)
  {
    if n > 0 {
      var i := n - 1;
      TablePassesTypes(c, all, i, rows, only, lost, nu);
      assert all[..n][..i] == all[..i];
      TableVarsNext(all, i, rows, only);
      TypedByNext(all, i, rows, only, lost, nu);
      if Allows(only, all[i]) {
        ColumnPassesTypes(AddValues(c, all[..i], rows, only), all[i], rows, i, lost, nu);
      }
    }
  }

  lemma FilterPassesTypes(m: TypeMap, e: Expression, only: Option<seq<Var>>, lost: set<Var>, nu: Solution)
    requires VariableTypeConstraints(e).Some?
    ensures var after := ConjoinTypes(m, Unlisted(VariableTypeConstraints(e).value, only));
      && after.Keys == Cancelled(m.Keys, FilterTyped(e, only))
      && (PassesTypes(after - lost, nu) <==>
           PassesTypes(m - (lost + FilterTyped(e, only)), nu) && TypedByFilter(e, FilterTyped(e, only) - m.Keys - lost, nu))
  {
    var u := Unlisted(VariableTypeConstraints(e).value, only);
    var after, before, vs := ConjoinTypes(m, u), m - (lost + u.Keys), u.Keys - m.Keys - lost;
    ConjoinedKeys(m, u);
    forall v ensures TypePasses(after - lost, nu, v) <==> TypePasses(before, nu, v) && TypedByFilterAt(e, vs, nu, v) {
      FilterPassesTypesAt(m, e, only, lost, nu, v);
    }
  }

  lemma ConjoinedKeys(m: TypeMap, u: TypeMap)
    ensures ConjoinTypes(m, u).Keys == Cancelled(m.Keys, u.Keys)
  {
  }

  lemma FilterPassesTypesAt(m: TypeMap, e: Expression, only: Option<seq<Var>>, lost: set<Var>, nu: Solution, v: Var)
    requires VariableTypeConstraints(e).Some?
    ensures var u := Unlisted(VariableTypeConstraints(e).value, only);
      TypePasses(ConjoinTypes(m, u) - lost, nu, v) <==>
        TypePasses(m - (lost + u.Keys), nu, v) && TypedByFilterAt(e, u.Keys - m.Keys - lost, nu, v)
  {
  }

  /**
    The type constraints after a pattern pass a solution exactly when those before it do, save what its filters
    constrain again, and every walked part admits its terms.
   */
  lemma {:induction false} TypesPassExactly(
    c: Constraints, gp: GraphPattern, only: Option<seq<Var>>, lost: set<Var>, nu: Solution)
    requires c.Valid()
    ensures AddGraphPattern(c, gp, only).types.Keys == Typed(gp, only, c.types.Keys)
    ensures PassesTypes(AddGraphPattern(c, gp, only).types - lost, nu) <==>
      PassesTypes(c.types - (lost + Refiltered(gp, only)), nu) && WellTyped(gp, only, c.types.Keys, lost, nu)
    decreases gp, 1
  {
    match gp {
      case Bgp(ps) =>
        PatternsPassTypes(c, ps, lost, nu);
        assert lost + {} == lost;
      case Values(vs, rows) =>
        TablePassesTypes(c, vs, |vs|, rows, only, lost, nu);
        assert vs[..|vs|] == vs && lost + {} == lost;
      case Join(_, _) => JoinPassesTypes(c, gp, only, lost, nu);
      case Filter(_, _) => FilterWalkPassesTypes(c, gp, only, lost, nu);
      case Group(_, _, _) => NarrowedPassesTypes(c, gp, only, lost, nu);
      case Project(_, _) => NarrowedPassesTypes(c, gp, only, lost, nu);
      case Union(_, _) => assert lost + {} == lost;
      case Path(_, _, _) => assert lost + {} == lost;
      case PValues(_, _) => assert lost + {} == lost;
      case GraphClause(_, _) => assert lost + {} == lost;
      case Service(_, _, _) => assert lost + {} == lost;
      case Extend(inner, _, _) => TypesPassExactly(c, inner, only, lost, nu);
      case _ => PartPassesTypes(c, gp, only, lost, nu);
    }
  }

  lemma {:induction false} PartPassesTypes(
    c: Constraints, gp: GraphPattern, only: Option<seq<Var>>, lost: set<Var>, nu: Solution)
    requires WalksOnePart(gp) && c.Valid()
    ensures AddGraphPattern(c, gp, only).types.Keys == Typed(gp, only, c.types.Keys)
    ensures PassesTypes(AddGraphPattern(c, gp, only).types - lost, nu) <==>
      PassesTypes(c.types - (lost + Refiltered(gp, only)), nu) && WellTyped(gp, only, c.types.Keys, lost, nu)
    decreases gp, 0
  {
    TypesPassExactly(c, if gp.LeftJoin? || gp.Minus? then gp.left else gp.inner, only, lost, nu);
  }

  lemma {:induction false} JoinPassesTypes(
    c: Constraints, gp: GraphPattern, only: Option<seq<Var>>, lost: set<Var>, nu: Solution)
    requires gp.Join? && c.Valid()
    ensures AddGraphPattern(c, gp, only).types.Keys == Typed(gp, only, c.types.Keys)
    ensures PassesTypes(AddGraphPattern(c, gp, only).types - lost, nu) <==>
      PassesTypes(c.types - (lost + Refiltered(gp, only)), nu) && WellTyped(gp, only, c.types.Keys, lost, nu)
    decreases gp, 0
  {
    var l, r := gp.left, gp.right;
    TypesPassExactly(c, l, only, lost + Refiltered(r, only), nu);
    TypesPassExactly(AddGraphPattern(c, l, only), r, only, lost, nu);
    assert lost + Refiltered(gp, only) == lost + Refiltered(r, only) + Refiltered(l, only);
  }

  lemma {:induction false} FilterWalkPassesTypes(
    c: Constraints, gp: GraphPattern, only: Option<seq<Var>>, lost: set<Var>, nu: Solution)
    requires gp.Filter? && c.Valid()
    ensures AddGraphPattern(c, gp, only).types.Keys == Typed(gp, only, c.types.Keys)
    ensures PassesTypes(AddGraphPattern(c, gp, only).types - lost, nu) <==>
      PassesTypes(c.types - (lost + Refiltered(gp, only)), nu) && WellTyped(gp, only, c.types.Keys, lost, nu)
    decreases gp, 0
  {
    var e, inner := gp.expr, gp.inner;
    TypesPassExactly(c, inner, only, lost + FilterTyped(e, only), nu);
    assert lost + Refiltered(gp, only) == lost + FilterTyped(e, only) + Refiltered(inner, only);
    if VariableTypeConstraints(e).Some? {
      FilterPassesTypes(AddGraphPattern(c, inner, only).types, e, only, lost, nu);
    } else {
      assert lost + FilterTyped(e, only) == lost;
    }
  }

  lemma {:induction false} NarrowedPassesTypes(
    c: Constraints, gp: GraphPattern, only: Option<seq<Var>>, lost: set<Var>, nu: Solution)
    requires (gp.Group? || gp.Project?) && c.Valid()
    ensures AddGraphPattern(c, gp, only).types.Keys == Typed(gp, only, c.types.Keys)
    ensures PassesTypes(AddGraphPattern(c, gp, only).types - lost, nu) <==>
      PassesTypes(c.types - (lost + Refiltered(gp, only)), nu) && WellTyped(gp, only, c.types.Keys, lost, nu)
    decreases gp, 0
  {
    NarrowListed(gp.variables, only);
    if AllowsAny(only, gp.variables) {
      TypesPassExactly(c, gp.inner, Some(Narrow(gp.variables, only)), lost, nu);
    } else {
      assert lost + {} == lost;
    }
  }

  // ----- both together -----

  /** A solution passes the constraints of a pattern exactly when every walked part lists and admits its terms. */
  lemma PassesExactly(gp: GraphPattern, nu: Solution)
    requires CopiesOwn(gp, None, {})
    ensures Passes(Pushed(gp), nu) <==> Listed(gp, None, {}, {}, nu) && WellTyped(gp, None, {}, {}, nu)
  {
    var c := Pushed(gp);
    assert UNCONSTRAINED.values.Keys == {} && UNCONSTRAINED.types.Keys == {};
    ValuesPassExactly(UNCONSTRAINED, gp, None, {}, nu);
    TypesPassExactly(UNCONSTRAINED, gp, None, {}, nu);
    assert c.types - {} == c.types && c.values - {} == c.values;
    TypesAndValues(c, nu);
    NothingPasses(nu, {} + Refiltered(gp, None));
    NothingPasses(nu, {} + Superseded(gp, None, {}, nu));
    assert PassesValues(c.values, nu) <==> Listed(gp, None, {}, {}, nu);
    assert PassesTypes(c.types, nu) <==> WellTyped(gp, None, {}, {}, nu);
  }

  lemma NothingPasses(nu: Solution, lost: set<Var>)
    ensures PassesValues(UNCONSTRAINED.values - lost, nu) && PassesTypes(UNCONSTRAINED.types - lost, nu)
  {
    assert UNCONSTRAINED.types - lost == map[] && UNCONSTRAINED.values - lost == map[];
  }

  lemma TypesAndValues(c: Constraints, nu: Solution)
    ensures Passes(c, nu) <==> PassesValues(c.values, nu) && PassesTypes(c.types, nu)
  {
    if PassesTypes(c.types, nu) && PassesValues(c.values, nu) {
      forall v | v in c.types && v in nu ensures c.types[v].Valid() && c.types[v].Admits(TypeOf(nu[v])) {
        assert TypePasses(c.types, nu, v);
      }
      forall v | v in c.values && v in nu ensures nu[v] in c.values[v] { assert ValuePasses(c.values, nu, v); }
    }
  }
}
