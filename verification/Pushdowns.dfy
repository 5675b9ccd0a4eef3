/** Constraints gathered from a query and pushed down to restrict what is read for each variable. */
module Pushdowns {
  import opened Wrappers
  import opened Rdf
  import opened Algebra
  import opened TypeConstraints
  import opened FilterAnalysis

  // ----- what each step adds, on values -----

  datatype Constraints = Constraints(values: ValueMap, types: TypeMap) {
    ghost predicate Valid() { ValidTypes(types) }
  }

  function Conjoined(types: TypeMap, v: Var, ctr: ConstraintExpr): (r: TypeMap)
    requires ValidTypes(types) && Askable(ctr)
    ensures ValidTypes(r) && r.Keys == types.Keys + {v}
  {
    types[v := if v in types then types[v].AndCtr(ctr) else SingularCtr(ctr)]
  }

  const IRI_OR_BLANK: ConstraintExpr := Either(Constraint(IriType), Constraint(BlankType))

  function AddPattern(c: Constraints, p: TriplePattern): (r: Constraints)
    requires c.Valid()
    ensures r.Valid() && r.values == c.values
  {
    var t := if p.subj.VarTerm? then Conjoined(c.types, p.subj.name, IRI_OR_BLANK) else c.types;
    c.(types := if p.pred.VarName? then Conjoined(t, p.pred.name, IRI_OR_BLANK) else t)
  }

  function AddPatterns(c: Constraints, ps: seq<TriplePattern>): (r: Constraints)
    requires c.Valid()
    ensures r.Valid() && r.values == c.values
  {
    if ps == [] then c else AddPattern(AddPatterns(c, ps[..|ps| - 1]), ps[|ps| - 1])
  }

  predicate Allows(only: Option<seq<Var>>, v: Var) {
    only.None? || v in only.value
  }

  // The variables kept when a projection or grouping narrows the listed ones.
  function Narrow(vs: seq<Var>, only: Option<seq<Var>>): seq<Var> {
    if vs == [] then []
    else if Allows(only, vs[|vs| - 1]) then Narrow(vs[..|vs| - 1], only) + [vs[|vs| - 1]]
    else Narrow(vs[..|vs| - 1], only)
  }

  // One column of a VALUES table: its terms, and their types in order of first appearance, IRI last.
  datatype Column = Column(terms: set<Term>, literals: seq<BaseType>, iri: bool)

  function AddCell(col: Column, row: Row, i: nat): Column {
    if i >= |row| || row[i].None? then col
    else
      match row[i].value
      case GroundNode(n) => col.(terms := col.terms + {NamedNode(n)}, iri := true)
      case GroundLiteral(l) =>
        var t := LiteralType(l.datatypeIri);
        col.(terms := col.terms + {LiteralTerm(l)}, literals := if t in col.literals then col.literals else col.literals + [t])
  }

  function ReadColumn(rows: seq<Row>, i: nat): Column {
    if rows == [] then Column({}, [], false) else AddCell(ReadColumn(rows[..|rows| - 1], i), rows[|rows| - 1], i)
  }

  function ColumnTypes(col: Column): seq<BaseType> {
    col.literals + (if col.iri then [IriType] else [])
  }

  // The disjunction of the listed types, folded from the left.
  function AnyOf(ts: seq<BaseType>): ConstraintExpr
    requires ts != []
  {
    if |ts| == 1 then Constraint(ts[0]) else Either(AnyOf(ts[..|ts| - 1]), Constraint(ts[|ts| - 1]))
  }

  lemma {:induction false} AnyOfAskable(ts: seq<BaseType>)
    requires ts != [] && NoType !in ts
    ensures Askable(AnyOf(ts))
  {
    assert ts[|ts| - 1] in ts;
    if |ts| > 1 {
      AnyOfAskable(ts[..|ts| - 1]);
    }
  }

  lemma {:induction false} ColumnTypesKnown(rows: seq<Row>, i: nat)
    ensures NoType !in ColumnTypes(ReadColumn(rows, i))
  {
    if rows != [] {
      var before := ReadColumn(rows[..|rows| - 1], i);
      ColumnTypesKnown(rows[..|rows| - 1], i);
      assert forall t :: t in before.literals ==> t in ColumnTypes(before);
    }
  }

  function AddColumn(c: Constraints, v: Var, rows: seq<Row>, i: nat): (r: Constraints)
    requires c.Valid()
    ensures r.Valid()
  {
    var col := ReadColumn(rows, i);
    var ts := ColumnTypes(col);
    ColumnTypesKnown(rows, i);
    if ts != [] then
      AnyOfAskable(ts);
      Constraints(AddTerms(c.values, v, col.terms), Conjoined(c.types, v, AnyOf(ts)))
    else c.(values := AddTerms(c.values, v, col.terms))
  }

  function AddTerms(values: ValueMap, v: Var, terms: set<Term>): ValueMap {
    if terms == {} then values else values[v := if v in values then values[v] + terms else terms]
  }

  function AddValues(c: Constraints, vs: seq<Var>, rows: seq<Row>, only: Option<seq<Var>>): (r: Constraints)
    requires c.Valid()
    ensures r.Valid()
    decreases |vs|
  {
    if vs == [] then c
    else
      var i := |vs| - 1;
      var before := AddValues(c, vs[..i], rows, only);
      if Allows(only, vs[i]) then AddColumn(before, vs[i], rows, i) else before
  }

  // Inside a projection the variables listed there are taken out, and the others stay.
  function Unlisted<T>(m: map<Var, T>, only: Option<seq<Var>>): map<Var, T> {
    if only.None? then m else m - SeqSet(only.value)
  }

  function AddFilter(c: Constraints, e: Expression, only: Option<seq<Var>>): (r: Constraints)
    requires c.Valid()
    ensures r.Valid()
  {
    var vs, ts := VariablePushdowns(e), VariableTypeConstraints(e);
    if ts.Some? then TypesValid(e); Constraints(
      if vs.Some? then ConjoinValues(c.values, Unlisted(vs.value, only)) else c.values,
      ConjoinTypes(c.types, Unlisted(ts.value, only)))
    else if vs.Some? then c.(values := ConjoinValues(c.values, Unlisted(vs.value, only)))
    else c
  }

  // BIND(?e AS ?v) copies the values known for ?e.
  function AddBind(c: Constraints, v: Var, e: Expression): (r: Constraints)
    requires c.Valid()
    ensures r.Valid()
  {
    if e.Variable? && e.name in c.values then c.(values := c.values[v := c.values[e.name]]) else c
  }

  function AddGraphPattern(c: Constraints, gp: GraphPattern, only: Option<seq<Var>>): (r: Constraints)
    requires c.Valid()
    ensures r.Valid()
    decreases gp
  {
    match gp
    case Bgp(ps) => AddPatterns(c, ps)
    case Join(l, r) => AddGraphPattern(AddGraphPattern(c, l, only), r, only)
    case LeftJoin(l, _, _) => AddGraphPattern(c, l, only)
    case Minus(l, _) => AddGraphPattern(c, l, only)
    case Filter(e, inner) => AddFilter(AddGraphPattern(c, inner, only), e, only)
    case Union(_, _) => c
    case Extend(inner, v, e) => AddBind(AddGraphPattern(c, inner, only), v, e)
    case Values(vs, rows) => AddValues(c, vs, rows, only)
    case OrderBy(inner, _) => AddGraphPattern(c, inner, only)
    case Distinct(inner) => AddGraphPattern(c, inner, only)
    case Reduced(inner) => AddGraphPattern(c, inner, only)
    case Slice(inner, _, _) => AddGraphPattern(c, inner, only)
    case Group(inner, vs, _) =>
      var narrowed := Narrow(vs, only);
      if narrowed != [] then AddGraphPattern(c, inner, Some(narrowed)) else c
    case Project(inner, vs) =>
      var narrowed := Narrow(vs, only);
      if narrowed != [] then AddGraphPattern(c, inner, Some(narrowed)) else c
    case _ => c
  }

  function Keep<T>(m: map<Var, T>, vs: set<Var>): map<Var, T> {
    map v | v in m && v in vs :: m[v]
  }

  /** Without what is known of v. */
  function Removed(c: Constraints, v: Var): Constraints {
    Constraints(c.values - {v}, c.types - {v})
  }

  /** Only what is known of vs. */
  function Limited(c: Constraints, vs: seq<Var>): Constraints {
    Constraints(Keep(c.values, SeqSet(vs)), Keep(c.types, SeqSet(vs)))
  }

  lemma KeepStep<T>(m: map<Var, T>, vs: set<Var>, v: Var)
    ensures Keep(m, vs + {v}) == if v in m - vs then Keep(m, vs)[v := m[v]] else Keep(m, vs)
    ensures m - (vs + {v}) == (m - vs) - {v}
  {
  }

  // ----- the object the source updates in place -----

  class Pushdowns {
    var variablesValues: ValueMap
    var variablesTypeConstraints: TypeMap

    // Every stored type constraint can be asked without aborting.
    ghost predicate Valid()
      reads this
    {
      ValidTypes(variablesTypeConstraints)
    }

    ghost function State(): Constraints
      reads this
    {
      Constraints(variablesValues, variablesTypeConstraints)
    }

    constructor ()
      ensures Valid() && State() == Constraints(map[], map[])
    {
      variablesValues, variablesTypeConstraints := map[], map[];
    }

    method RemoveVariable(v: Var)
      requires Valid()
      modifies this
      ensures Valid() && State() == Removed(old(State()), v)
    {
      variablesValues := variablesValues - {v};
      variablesTypeConstraints := variablesTypeConstraints - {v};
    }

    method LimitToVariables(vs: seq<Var>)
      requires Valid()
      modifies this
      ensures Valid() && State() == Limited(old(State()), vs)
    {
      var values: ValueMap, types: TypeMap := map[], map[];
      for i := 0 to |vs|
        invariant variablesValues == old(variablesValues) - SeqSet(vs[..i])
        invariant variablesTypeConstraints == old(variablesTypeConstraints) - SeqSet(vs[..i])
        invariant values == Keep(old(variablesValues), SeqSet(vs[..i]))
        invariant types == Keep(old(variablesTypeConstraints), SeqSet(vs[..i]))
      {
        var v := vs[i];
        assert vs[..i + 1] == vs[..i] + [v];
        assert SeqSet(vs[..i + 1]) == SeqSet(vs[..i]) + {v};
        KeepStep(old(variablesValues), SeqSet(vs[..i]), v);
        KeepStep(old(variablesTypeConstraints), SeqSet(vs[..i]), v);
        if v in variablesValues { values := values[v := variablesValues[v]]; }
        variablesValues := variablesValues - {v};
        if v in variablesTypeConstraints { types := types[v := variablesTypeConstraints[v]]; }
        variablesTypeConstraints := variablesTypeConstraints - {v};
      }
      assert vs[..|vs|] == vs;
      variablesValues, variablesTypeConstraints := values, types;
    }

    method Conjoin(v: Var, ctr: ConstraintExpr)
      requires Valid() && Askable(ctr)
      modifies this`variablesTypeConstraints
      ensures Valid()
      ensures variablesTypeConstraints == Conjoined(old(variablesTypeConstraints), v, ctr)
    {
      if v in variablesTypeConstraints {
        variablesTypeConstraints := variablesTypeConstraints[v := variablesTypeConstraints[v].AndCtr(ctr)];
      } else {
        variablesTypeConstraints := variablesTypeConstraints[v := SingularCtr(ctr)];
      }
    }

    method AddPatternsPushdowns(ps: seq<TriplePattern>)
      requires Valid()
      modifies this`variablesTypeConstraints
      ensures Valid() && State() == AddPatterns(old(State()), ps)
    {
      for i := 0 to |ps|
        invariant Valid() && State() == AddPatterns(old(State()), ps[..i])
      {
        if ps[i].subj.VarTerm? { Conjoin(ps[i].subj.name, IRI_OR_BLANK); }
        if ps[i].pred.VarName? { Conjoin(ps[i].pred.name, IRI_OR_BLANK); }
        assert ps[..i + 1][..i] == ps[..i];
      }
      assert ps[..|ps|] == ps;
    }

    method AddGraphPatternPushdowns(gp: GraphPattern)
      requires Valid()
      modifies this
      ensures Valid() && State() == AddGraphPattern(old(State()), gp, None)
    {
      AddImpl(gp, None);
    }

    method AddImpl(gp: GraphPattern, only: Option<seq<Var>>)
      requires Valid()
      modifies this
      ensures Valid() && State() == AddGraphPattern(old(State()), gp, only)
      decreases gp, 0
    {
      match gp {
        case Bgp(ps) => AddPatternsPushdowns(ps);
        case Join(l, r) =>
          AddImpl(l, only);
          AddImpl(r, only);
        case LeftJoin(l, _, _) => AddImpl(l, only);
        case Minus(l, _) => AddImpl(l, only);
        case Filter(e, inner) =>
          AddImpl(inner, only);
          AddFilterVariablePushdowns(e, only);
        case Union(_, _) =>
        case Extend(inner, v, e) =>
          AddImpl(inner, only);
          AddBindPushdowns(v, e);
        case Values(vs, rows) => AddTable(vs, rows, only);
        case OrderBy(inner, _) => AddImpl(inner, only);
        case Distinct(inner) => AddImpl(inner, only);
        case Reduced(inner) => AddImpl(inner, only);
        case Slice(inner, _, _) => AddImpl(inner, only);
        case Group(inner, vs, _) => AddNarrowed(inner, vs, only);
        case Project(inner, vs) => AddNarrowed(inner, vs, only);
        case _ =>
      }
    }

    method AddBindPushdowns(v: Var, e: Expression)
      requires Valid()
      modifies this`variablesValues
      ensures Valid() && State() == AddBind(old(State()), v, e)
    {
      if e.Variable? && e.name in variablesValues {
        variablesValues := variablesValues[v := variablesValues[e.name]];
      }
    }

    method AddNarrowed(inner: GraphPattern, vs: seq<Var>, only: Option<seq<Var>>)
      requires Valid()
      modifies this
      ensures Valid()
      ensures State() ==
        if Narrow(vs, only) != [] then AddGraphPattern(old(State()), inner, Some(Narrow(vs, only))) else old(State())
      decreases inner, 1
    {
      var narrowed: seq<Var> := [];
      for i := 0 to |vs|
        invariant narrowed == Narrow(vs[..i], only)
        invariant State() == old(State())
      {
        assert vs[..i + 1][..i] == vs[..i];
        if Allows(only, vs[i]) { narrowed := narrowed + [vs[i]]; }
      }
      assert vs[..|vs|] == vs;
      if narrowed != [] { AddImpl(inner, Some(narrowed)); }
    }

    method AddTable(vs: seq<Var>, rows: seq<Row>, only: Option<seq<Var>>)
      requires Valid()
      modifies this
      ensures Valid() && State() == AddValues(old(State()), vs, rows, only)
    {
      for i := 0 to |vs|
        invariant Valid() && State() == AddValues(old(State()), vs[..i], rows, only)
      {
        assert vs[..i + 1][..i] == vs[..i];
        if Allows(only, vs[i]) { AddTableColumn(vs[i], rows, i); }
      }
      assert vs[..|vs|] == vs;
    }

    method AddTableColumn(v: Var, rows: seq<Row>, i: nat)
      requires Valid()
      modifies this
      ensures Valid() && State() == AddColumn(old(State()), v, rows, i)
    {
      var terms: set<Term>, literals: seq<BaseType>, iri := {}, [], false;
      for r := 0 to |rows|
        invariant Column(terms, literals, iri) == ReadColumn(rows[..r], i)
        invariant State() == old(State())
      {
        assert rows[..r + 1][..r] == rows[..r];
        if i < |rows[r]| && rows[r][i].Some? {
          match rows[r][i].value {
            case GroundNode(n) =>
              terms, iri := terms + {NamedNode(n)}, true;
            case GroundLiteral(l) =>
              terms := terms + {LiteralTerm(l)};
              if LiteralType(l.datatypeIri) !in literals { literals := literals + [LiteralType(l.datatypeIri)]; }
          }
        }
      }
      assert rows[..|rows|] == rows;
      if terms != {} {
        variablesValues := variablesValues[v := if v in variablesValues then variablesValues[v] + terms else terms];
      }
      var types := if iri then literals + [IriType] else literals;
      assert types == ColumnTypes(ReadColumn(rows, i));
      if types != [] {
        var ctr := Constraint(types[0]);
        for k := 1 to |types|
          invariant ctr == AnyOf(types[..k])
        {
          assert types[..k + 1][..k] == types[..k];
          ctr := Either(ctr, Constraint(types[k]));
        }
        assert types[..|types|] == types;
        ColumnTypesKnown(rows, i);
        AnyOfAskable(types);
        Conjoin(v, ctr);
      }
    }

    method AddFilterVariablePushdowns(e: Expression, only: Option<seq<Var>>)
      requires Valid()
      modifies this
      ensures Valid() && State() == AddFilter(old(State()), e, only)
    {
      var values := VariablePushdowns(e);
      if values.Some? {
        variablesValues := Conjunction(variablesValues, Unlisted(values.value, only));
      }
      var types := VariableTypeConstraints(e);
      if types.Some? {
        TypesValid(e);
        variablesTypeConstraints := ConjunctionVariableType(variablesTypeConstraints, Unlisted(types.value, only));
      }
    }
  }
}
