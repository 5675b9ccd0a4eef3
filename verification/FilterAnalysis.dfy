/** What a filter condition says about its variables when it holds. */
module FilterAnalysis {
  import opened Wrappers
  import opened Rdf
  import opened Algebra
  import opened Subtypes
  import opened TypeConstraints
  import opened Semantics

  type ValueMap = map<Var, set<Term>>

  // Values that a variable may take; kept from both sides where both know it.
  function ConjoinValues(left: ValueMap, right: ValueMap): ValueMap {
    map k | k in left.Keys + right.Keys ::
      if k in left && k in right then left[k] * right[k] else if k in left then left[k] else right[k]
  }

  function TakeValues(r: ValueMap, rest: ValueMap, others: ValueMap, k: Var): ValueMap
    requires k in rest
  {
    r[k := if k in others then rest[k] * others[k] else rest[k]]
  }

  lemma ConjoinValuesAt(l: ValueMap, r: ValueMap, v: Var)
    ensures v in ConjoinValues(l, r) <==> v in l || v in r
    ensures v in l && v in r ==> ConjoinValues(l, r)[v] == l[v] * r[v]
    ensures v in l && v !in r ==> ConjoinValues(l, r)[v] == l[v]
    ensures v !in l && v in r ==> ConjoinValues(l, r)[v] == r[v]
  {
  }

  lemma TakeValuesAt(r: ValueMap, rest: ValueMap, others: ValueMap, k: Var, v: Var)
    requires k in rest && r.Keys !! rest.Keys + others.Keys
    ensures SameAt(
      TakeValues(r, rest, others, k) + ConjoinValues(rest - {k}, others - {k}), r + ConjoinValues(rest, others), v)
  {
    ConjoinValuesAt(rest, others, v);
    ConjoinValuesAt(rest - {k}, others - {k}, v);
  }

  lemma TakeValuesStep(r: ValueMap, rest: ValueMap, others: ValueMap, k: Var)
    requires k in rest && r.Keys !! rest.Keys + others.Keys
    ensures TakeValues(r, rest, others, k) + ConjoinValues(rest - {k}, others - {k}) == r + ConjoinValues(rest, others)
    ensures TakeValues(r, rest, others, k).Keys !! (rest - {k}).Keys + (others - {k}).Keys
  {
    var a := TakeValues(r, rest, others, k) + ConjoinValues(rest - {k}, others - {k});
    var b := r + ConjoinValues(rest, others);
    forall v ensures SameAt(a, b, v) { TakeValuesAt(r, rest, others, k, v); }
    SameMaps(a, b);
  }

  method Conjunction(left: ValueMap, right: ValueMap) returns (r: ValueMap)
    ensures r == ConjoinValues(left, right)
  {
    var rest, others := left, right;
    r := map[];
    while rest.Keys != {}
      invariant r + ConjoinValues(rest, others) == ConjoinValues(left, right)
      invariant r.Keys !! rest.Keys + others.Keys
      decreases rest.Keys
    {
      var k :| k in rest.Keys;
      TakeValuesStep(r, rest, others, k);
      r := r[k := if k in others then rest[k] * others[k] else rest[k]];
      rest, others := rest - {k}, others - {k};
    }
    assert ConjoinValues(rest, others) == others;
    r := r + others;
  }

  function UniteValues(left: ValueMap, right: ValueMap): ValueMap {
    map k | k in left && k in right :: left[k] + right[k]
  }

  function UniteTypes(left: TypeMap, right: TypeMap): TypeMap {
    map k | k in left && k in right ::
      if left[k].e.Some? && right[k].e.Some? then left[k].OrOther(right[k]) else left[k]
  }

  function ConstantTerm(e: Expression): Option<Term> {
    match e
    case NodeExpr(n) => Some(NamedNode(n))
    case LiteralExpr(l) => Some(LiteralTerm(l))
    case _ => None
  }

  function ConstantTerms(es: seq<Expression>): Option<set<Term>> {
    if es == [] then Some({})
    else
      var t := ConstantTerm(es[0]);
      if t.None? then None
      else
        var rest := ConstantTerms(es[1..]);
        if rest.None? then None else Some({t.value} + rest.value)
  }

  function VariablePushdowns(e: Expression): Option<ValueMap> {
    match e
    case Or(a, b) =>
      var l, r := VariablePushdowns(a), VariablePushdowns(b);
      if l.Some? && r.Some? then Some(UniteValues(l.value, r.value)) else None
    case If(_, a, b) =>
      var l, r := VariablePushdowns(a), VariablePushdowns(b);
      if l.Some? && r.Some? then Some(UniteValues(l.value, r.value)) else None
    case And(a, b) =>
      var l, r := VariablePushdowns(a), VariablePushdowns(b);
      if l.Some? && r.Some? then Some(ConjoinValues(l.value, r.value)) else None
    case Equal(a, b) =>
      if a.Variable? then
        var t := ConstantTerm(b);
        if t.Some? then Some(map[a.name := {t.value}]) else None
      else if b.Variable? then
        var t := ConstantTerm(a);
        if t.Some? then Some(map[b.name := {t.value}]) else None
      else None
    case In(a, es) =>
      if a.Variable? then
        var ts := ConstantTerms(es);
        if ts.Some? then Some(map[a.name := ts.value]) else None
      else None
    case _ => None
  }

  function OneArgument(es: seq<Expression>, t: BaseType): Option<TypeMap> {
    if |es| == 1 && es[0].Variable? then Some(map[es[0].name := Singular(t)]) else None
  }

  function VariableTypeConstraints(e: Expression): Option<TypeMap> {
    match e
    case Or(a, b) =>
      var l, r := VariableTypeConstraints(a), VariableTypeConstraints(b);
      if l.Some? && r.Some? then Some(UniteTypes(l.value, r.value)) else None
    case If(_, a, b) =>
      var l, r := VariableTypeConstraints(a), VariableTypeConstraints(b);
      if l.Some? && r.Some? then Some(UniteTypes(l.value, r.value)) else None
    case And(a, b) =>
      var l, r := VariableTypeConstraints(a), VariableTypeConstraints(b);
      if l.Some? && r.Some? then Some(ConjoinTypes(l.value, r.value)) else None
    case Equal(a, b) =>
      var l, r := EqualVariableType(a, b), EqualVariableType(b, a);
      if l.Some? then Some(map[l.value.0 := Singular(l.value.1)])
      else if r.Some? then Some(map[r.value.0 := Singular(r.value.1)])
      else None
    case FunctionCall(f, es) =>
      (match f
       case IsIri => OneArgument(es, IriType)
       case IsBlank => OneArgument(es, BlankType)
       case IsLiteral => OneArgument(es, LiteralType(RdfsLiteral))
       case _ => None)
    case _ => None
  }

  // ----- soundness -----

  /** mu binds every variable of m to one of its terms. */
  ghost predicate TakesValues(m: ValueMap, mu: Solution) {
    forall v :: v in m ==> v in mu && mu[v] in m[v]
  }

  /** mu binds every variable of m to a term of an admitted type, and m can be asked. */
  ghost predicate TakesTypes(m: TypeMap, mu: Solution) {
    forall v :: v in m ==> m[v].Valid() && v in mu && m[v].Admits(TypeOf(mu[v]))
  }

  lemma TruthOfBool(fns: Interpretation, b: Option<bool>)
    ensures Truth(fns, FromBool(b)) == b
  {
    assert |BoolLiteral(true).lexical| != |BoolLiteral(false).lexical|;
  }

  // Whatever holds of a disjunction or a conditional holds because one of the two branches does.
  lemma BranchHolds(w: World, e: Expression, mu: Solution)
    requires (e.Or? || e.If?) && Holds(w, e, mu)
    ensures Holds(w, e.a, mu) || Holds(w, e.b, mu)
  {
    if e.Or? {
      TruthOfBool(w.fns, OrTable(Truth(w.fns, Eval(w, e.a, mu)), Truth(w.fns, Eval(w, e.b, mu))));
    }
  }

  lemma BothHold(w: World, e: Expression, mu: Solution)
    requires e.And? && Holds(w, e, mu)
    ensures Holds(w, e.a, mu) && Holds(w, e.b, mu)
  {
    TruthOfBool(w.fns, AndTable(Truth(w.fns, Eval(w, e.a, mu)), Truth(w.fns, Eval(w, e.b, mu))));
  }

  lemma EqualHolds(w: World, e: Expression, mu: Solution)
    requires e.Equal? && Holds(w, e, mu)
    ensures Eval(w, e.a, mu).Some? && Eval(w, e.a, mu) == Eval(w, e.b, mu)
  {
    TruthOfBool(w.fns, EqualTerms(Eval(w, e.a, mu), Eval(w, e.b, mu)));
  }

  lemma {:induction false} InHolds(w: World, x: Value, es: seq<Expression>, mu: Solution)
    requires InTable(x, EvalAll(w, es, mu)) == Some(true) && ConstantTerms(es).Some?
    ensures x.Some? && x.value in ConstantTerms(es).value
  {
    var vs := EvalAll(w, es, mu);
    assert vs[0] == Eval(w, es[0], mu) && vs[1..] == EvalAll(w, es[1..], mu);
    if EqualTerms(x, vs[0]) != Some(true) { InHolds(w, x, es[1..], mu); }
  }

  /** Conjunction keeps every fact of both sides. */
  lemma ConjoinValuesExact(l: ValueMap, r: ValueMap, mu: Solution)
    ensures TakesValues(ConjoinValues(l, r), mu) <==> TakesValues(l, mu) && TakesValues(r, mu)
  {
    var c := ConjoinValues(l, r);
    if TakesValues(c, mu) {
      forall v | v in l ensures v in mu && mu[v] in l[v] { assert v in c; }
      forall v | v in r ensures v in mu && mu[v] in r[v] { assert v in c; }
    }
  }

  lemma UniteValuesSound(l: ValueMap, r: ValueMap, mu: Solution)
    requires TakesValues(l, mu) || TakesValues(r, mu)
    ensures TakesValues(UniteValues(l, r), mu)
  {
  }

  /** A condition that holds binds each listed variable to one of the listed terms. */
  lemma {:induction false} VariablePushdownsSound(w: World, e: Expression, mu: Solution)
    requires Holds(w, e, mu) && VariablePushdowns(e).Some?
    ensures TakesValues(VariablePushdowns(e).value, mu)
    decreases e
  {
    match e {
      case Or(a, b) => BranchValues(w, e, mu);
      case If(_, a, b) => BranchValues(w, e, mu);
      case And(a, b) =>
        BothHold(w, e, mu);
        VariablePushdownsSound(w, a, mu);
        VariablePushdownsSound(w, b, mu);
        ConjoinValuesExact(VariablePushdowns(a).value, VariablePushdowns(b).value, mu);
      case Equal(a, b) => EqualHolds(w, e, mu);
      case In(a, es) =>
        TruthOfBool(w.fns, InTable(Eval(w, a, mu), EvalAll(w, es, mu)));
        InHolds(w, Eval(w, a, mu), es, mu);
    }
  }

  lemma {:induction false} BranchValues(w: World, e: Expression, mu: Solution)
    requires (e.Or? || e.If?) && Holds(w, e, mu) && VariablePushdowns(e).Some?
    ensures TakesValues(VariablePushdowns(e).value, mu)
    decreases e, 0
  {
    BranchHolds(w, e, mu);
    if Holds(w, e.a, mu) { VariablePushdownsSound(w, e.a, mu); } else { VariablePushdownsSound(w, e.b, mu); }
    UniteValuesSound(VariablePushdowns(e.a).value, VariablePushdowns(e.b).value, mu);
  }

  predicate IsArithmetic(e: Expression) { e.Arith? || e.Sign? }

  // Expressions whose type the analysis declares rather than knows.
  predicate IsComputed(e: Expression) {
    IsArithmetic(e) || (e.FunctionCall? && e.func !in {IsIri, IsBlank, IsLiteral})
  }

  /** The value of e, if it has one, is of the type that the analysis declares for e. */
  ghost predicate HasDeclaredType(w: World, e: Expression, mu: Solution) {
    ExpressionType(e).Some? && Eval(w, e, mu).Some? ==>
      CompatibleWith(Constraint(ExpressionType(e).value), TypeOf(Eval(w, e, mu).value))
  }

  function ConstrainedBy(e: Expression): set<Var> {
    if VariableTypeConstraints(e).Some? then VariableTypeConstraints(e).value.Keys else {}
  }

  /**
    Each equality that the condition needs and whose constraint on one of vs is kept compares with a value
    of the declared type. A conjunction keeps what one side alone constrains; of a disjunction or a
    conditional, one branch that holds is enough.
   */
  ghost predicate EqualitiesTyped(w: World, e: Expression, vs: set<Var>, mu: Solution) {
    match e
    case Or(a, b) =>
      || (Holds(w, a, mu) && EqualitiesTyped(w, a, vs * ConstrainedBy(b), mu))
      || (Holds(w, b, mu) && EqualitiesTyped(w, b, vs * ConstrainedBy(a), mu))
    case If(_, a, b) =>
      || (Holds(w, a, mu) && EqualitiesTyped(w, a, vs * ConstrainedBy(b), mu))
      || (Holds(w, b, mu) && EqualitiesTyped(w, b, vs * ConstrainedBy(a), mu))
    case And(a, b) => EqualitiesTyped(w, a, vs - ConstrainedBy(b), mu) && EqualitiesTyped(w, b, vs - ConstrainedBy(a), mu)
    case Equal(a, b) =>
      if EqualVariableType(a, b).Some? then a.name in vs ==> HasDeclaredType(w, b, mu)
      else if EqualVariableType(b, a).Some? then b.name in vs ==> HasDeclaredType(w, a, mu)
      else true
    case _ => true
  }

  // The analysed equalities are between expressions of one kind.
  predicate EqualitiesBetween(e: Expression, ok: Expression -> bool) {
    match e
    case Or(a, b) => EqualitiesBetween(a, ok) && EqualitiesBetween(b, ok)
    case If(_, a, b) => EqualitiesBetween(a, ok) && EqualitiesBetween(b, ok)
    case And(a, b) => EqualitiesBetween(a, ok) && EqualitiesBetween(b, ok)
    case Equal(a, b) => ok(a) && ok(b)
    case _ => true
  }

  predicate NotComputed(e: Expression) { !IsComputed(e) }

  /** No analysed equality compares with arithmetic or a function call. */
  predicate PlainEqualities(e: Expression) { EqualitiesBetween(e, NotComputed) }

  /** The value of a constant, a condition or a type test has the type that the analysis gives it. */
  lemma ExpressionTypeSound(w: World, e: Expression, mu: Solution)
    requires !IsComputed(e)
    ensures HasDeclaredType(w, e, mu)
  {
  }

  lemma {:induction false} EqualitiesBetweenTyped(
    w: World, e: Expression, ok: Expression -> bool, vs: set<Var>, mu: Solution)
    requires EqualitiesBetween(e, ok) && Holds(w, e, mu) && forall x :: ok(x) ==> HasDeclaredType(w, x, mu)
    ensures EqualitiesTyped(w, e, vs, mu)
    decreases e, 1
  {
    match e {
      case Or(a, b) => BranchesBetweenTyped(w, e, ok, vs, mu);
      case If(_, a, b) => BranchesBetweenTyped(w, e, ok, vs, mu);
      case And(a, b) =>
        BothHold(w, e, mu);
        EqualitiesBetweenTyped(w, a, ok, vs - ConstrainedBy(b), mu);
        EqualitiesBetweenTyped(w, b, ok, vs - ConstrainedBy(a), mu);
      case _ =>
    }
  }

  lemma {:induction false} BranchesBetweenTyped(
    w: World, e: Expression, ok: Expression -> bool, vs: set<Var>, mu: Solution)
    requires e.Or? || e.If?
    requires EqualitiesBetween(e, ok) && Holds(w, e, mu) && forall x :: ok(x) ==> HasDeclaredType(w, x, mu)
    ensures EqualitiesTyped(w, e, vs, mu)
    decreases e, 0
  {
    BranchHolds(w, e, mu);
    if Holds(w, e.a, mu) {
      EqualitiesBetweenTyped(w, e.a, ok, vs * ConstrainedBy(e.b), mu);
    } else {
      EqualitiesBetweenTyped(w, e.b, ok, vs * ConstrainedBy(e.a), mu);
    }
  }

  /** Equalities with constants, conditions and type tests need no assumption about functions. */
  lemma PlainEqualitiesTyped(w: World, e: Expression, vs: set<Var>, mu: Solution)
    requires PlainEqualities(e) && Holds(w, e, mu)
    ensures EqualitiesTyped(w, e, vs, mu)
  {
    forall x | NotComputed(x) ensures HasDeclaredType(w, x, mu) { ExpressionTypeSound(w, x, mu); }
    EqualitiesBetweenTyped(w, e, NotComputed, vs, mu);
  }

  lemma {:induction false} TypesValid(e: Expression)
    requires VariableTypeConstraints(e).Some?
    ensures ValidTypes(VariableTypeConstraints(e).value)
  {
    match e {
      case Or(a, b) => TypesValid(a); TypesValid(b);
      case If(_, a, b) => TypesValid(a); TypesValid(b);
      case And(a, b) => TypesValid(a); TypesValid(b);
      case Equal(a, b) =>
      case FunctionCall(f, es) =>
    }
  }

  // mu binds the variables among vs that m constrains to terms of admitted types.
  ghost predicate TakesTypesOf(m: TypeMap, vs: set<Var>, mu: Solution) {
    forall v :: v in m && v in vs ==> m[v].Valid() && v in mu && m[v].Admits(TypeOf(mu[v]))
  }

  /** The conjunction says what each side says of the variables that it alone constrains, and nothing else. */
  lemma ConjoinTypesExact(l: TypeMap, r: TypeMap, vs: set<Var>, mu: Solution)
    ensures TakesTypesOf(ConjoinTypes(l, r), vs, mu) <==> TakesTypesOf(l, vs - r.Keys, mu) && TakesTypesOf(r, vs - l.Keys, mu)
  {
    var c := ConjoinTypes(l, r);
    forall v | v in l && v in vs - r.Keys ensures v in c && c[v] == l[v] {}
    forall v | v in r && v in vs - l.Keys ensures v in c && c[v] == r[v] {}
  }

  lemma ConjoinTypesSound(l: TypeMap, r: TypeMap, mu: Solution)
    requires TakesTypes(l, mu) && TakesTypes(r, mu)
    ensures TakesTypes(ConjoinTypes(l, r), mu)
  {
    ConjoinTypesExact(l, r, l.Keys + r.Keys, mu);
  }

  lemma UniteTypesOfSound(l: TypeMap, r: TypeMap, vs: set<Var>, mu: Solution)
    requires ValidTypes(l) && ValidTypes(r)
    requires TakesTypesOf(l, vs * r.Keys, mu) || TakesTypesOf(r, vs * l.Keys, mu)
    ensures TakesTypesOf(UniteTypes(l, r), vs, mu)
  {
  }

  /** A condition that holds binds each constrained variable among vs to a term of an admitted type. */
  lemma {:induction false} TypeConstraintsSound(w: World, e: Expression, vs: set<Var>, mu: Solution)
    requires Holds(w, e, mu) && VariableTypeConstraints(e).Some? && EqualitiesTyped(w, e, vs, mu)
    ensures TakesTypesOf(VariableTypeConstraints(e).value, vs, mu)
    decreases e, 1
  {
    match e {
      case Or(a, b) => BranchTypes(w, e, vs, mu);
      case If(_, a, b) => BranchTypes(w, e, vs, mu);
      case And(a, b) =>
        BothHold(w, e, mu);
        TypeConstraintsSound(w, a, vs - ConstrainedBy(b), mu);
        TypeConstraintsSound(w, b, vs - ConstrainedBy(a), mu);
        ConjoinTypesExact(VariableTypeConstraints(a).value, VariableTypeConstraints(b).value, vs, mu);
      case Equal(a, b) => EqualHolds(w, e, mu);
      case FunctionCall(f, es) => TypeTestSound(w, e, mu);
    }
  }

  lemma {:induction false} BranchTypes(w: World, e: Expression, vs: set<Var>, mu: Solution)
    requires (e.Or? || e.If?) && EqualitiesTyped(w, e, vs, mu) && VariableTypeConstraints(e).Some?
    ensures TakesTypesOf(VariableTypeConstraints(e).value, vs, mu)
    decreases e, 0
  {
    var l, r := VariableTypeConstraints(e.a).value, VariableTypeConstraints(e.b).value;
    if Holds(w, e.a, mu) && EqualitiesTyped(w, e.a, vs * r.Keys, mu) {
      TypeConstraintsSound(w, e.a, vs * r.Keys, mu);
    } else {
      TypeConstraintsSound(w, e.b, vs * l.Keys, mu);
    }
    TypesValid(e.a);
    TypesValid(e.b);
    UniteTypesOfSound(l, r, vs, mu);
  }

  /**
    The constraints of a disjunction or a conditional reject a solution exactly when it leaves a variable unbound
    that both branches constrain, or binds it to a term that neither branch admits.
   */
  lemma BranchesRejectExactly(e: Expression, mu: Solution)
    requires (e.Or? || e.If?) && VariableTypeConstraints(e).Some?
    ensures var l, r := VariableTypeConstraints(e.a).value, VariableTypeConstraints(e.b).value;
      !TakesTypes(VariableTypeConstraints(e).value, mu) <==>
      exists v :: v in l && v in r && (v !in mu || !(AdmitsAt(l, v, mu[v]) || AdmitsAt(r, v, mu[v])))
  {
    TypesValid(e.a);
    TypesValid(e.b);
    var l, r := VariableTypeConstraints(e.a).value, VariableTypeConstraints(e.b).value;
    var m := VariableTypeConstraints(e).value;
    assert m == UniteTypes(l, r);
    forall v | v in m
      ensures v in l && v in r && m[v].Valid()
      ensures v in mu ==> (m[v].Admits(TypeOf(mu[v])) <==> AdmitsAt(l, v, mu[v]) || AdmitsAt(r, v, mu[v]))
    {
    }
  }

  ghost predicate AdmitsAt(m: TypeMap, v: Var, t: Term) {
    v in m && m[v].Valid() && m[v].Admits(TypeOf(t))
  }

  lemma TypeTestSound(w: World, e: Expression, mu: Solution)
    requires e.FunctionCall? && e.func in {IsIri, IsBlank, IsLiteral}
    requires Holds(w, e, mu) && VariableTypeConstraints(e).Some?
    ensures TakesTypes(VariableTypeConstraints(e).value, mu)
  {
    var v := e.list[0].name;
    assert EvalAll(w, e.list, mu) == [Eval(w, e.list[0], mu)];
    TruthOfBool(w.fns, Some(true));
    TruthOfBool(w.fns, Some(false));
  }

  /** For an equality with a computed value that holds, the constraint is met exactly when the value has its declared type. */
  lemma ComputedEquality(w: World, v: Var, x: Expression, mu: Solution)
    requires ExpressionType(x).Some?
    ensures Holds(w, Equal(Variable(v), x), mu) ==>
      (TakesTypes(VariableTypeConstraints(Equal(Variable(v), x)).value, mu) <==> HasDeclaredType(w, x, mu))
    ensures Holds(w, Equal(x, Variable(v)), mu) ==>
      (TakesTypes(VariableTypeConstraints(Equal(x, Variable(v))).value, mu) <==> HasDeclaredType(w, x, mu))
  {
    var m := map[v := Singular(ExpressionType(x).value)];
    assert VariableTypeConstraints(Equal(Variable(v), x)) == Some(m) == VariableTypeConstraints(Equal(x, Variable(v)));
    if Holds(w, Equal(Variable(v), x), mu) { EqualHolds(w, Equal(Variable(v), x), mu); }
    if Holds(w, Equal(x, Variable(v)), mu) { EqualHolds(w, Equal(x, Variable(v)), mu); }
  }

  /** ?v = f(...) is type-checked soundly exactly when the function returns a term of its declared type. */
  lemma FunctionEquality(w: World, v: Var, f: Function, args: seq<Expression>, mu: Solution)
    requires FunctionType(f).Some? && f !in {IsIri, IsBlank, IsLiteral}
    requires Holds(w, Equal(Variable(v), FunctionCall(f, args)), mu)
    ensures var x := w.fns.call(f, EvalAll(w, args, mu));
      x.Some? && (TakesTypes(VariableTypeConstraints(Equal(Variable(v), FunctionCall(f, args))).value, mu) <==>
        CompatibleWith(Constraint(FunctionType(f).value), TypeOf(x.value)))
  {
    EqualHolds(w, Equal(Variable(v), FunctionCall(f, args)), mu);
    assert Eval(w, FunctionCall(f, args), mu) == w.fns.call(f, EvalAll(w, args, mu));
    ComputedEquality(w, v, FunctionCall(f, args), mu);
  }

  const LANG_STRING: DatatypeIri := OtherDatatype("http://www.w3.org/1999/02/22-rdf-syntax-ns#langString")
  const AB_EN: Literal := Literal("ab", LANG_STRING, "en")
  const A_EN: Literal := Literal("a", LANG_STRING, "en")
  const B: Literal := Literal("b", XsdString, "")

  lemma TwoArguments(w: World, a: Expression, b: Expression, mu: Solution)
    ensures EvalAll(w, [a, b], mu) == [Eval(w, a, mu), Eval(w, b, mu)]
  {
    assert [a, b][1..] == [b] && [b][1..] == [];
  }

  /** STRBEFORE keeps the language of its argument, so its value is no xsd:string and is rejected. */
  lemma StrBeforeRejected(w: World)
    requires w.fns.call(StrBefore, [Some(LiteralTerm(AB_EN)), Some(LiteralTerm(B))]) == Some(LiteralTerm(A_EN))
    ensures var e := Equal(Variable("x"), FunctionCall(StrBefore, [LiteralExpr(AB_EN), LiteralExpr(B)]));
      var mu := map["x" := LiteralTerm(A_EN)];
      Holds(w, e, mu) && !TakesTypes(VariableTypeConstraints(e).value, mu)
  {
    var args := [LiteralExpr(AB_EN), LiteralExpr(B)];
    var x := FunctionCall(StrBefore, args);
    var mu: Solution := map["x" := LiteralTerm(A_EN)];
    TwoArguments(w, LiteralExpr(AB_EN), LiteralExpr(B), mu);
    assert Eval(w, x, mu) == Some(LiteralTerm(A_EN));
    TruthOfBool(w.fns, EqualTerms(Eval(w, Variable("x"), mu), Eval(w, x, mu)));
    FunctionEquality(w, "x", StrBefore, args, mu);
  }

  /** ?v = arithmetic is type-checked soundly exactly when the arithmetic value is an owl:real. */
  lemma ArithmeticEquality(w: World, v: Var, e: Expression, mu: Solution)
    requires IsArithmetic(e) && Holds(w, Equal(Variable(v), e), mu)
    ensures var x := Eval(w, e, mu);
      x.Some? && (TakesTypes(VariableTypeConstraints(Equal(Variable(v), e)).value, mu) <==>
        x.value.LiteralTerm? && IsLiteralSubtype(x.value.literal.datatypeIri, OwlReal))
  {
    EqualHolds(w, Equal(Variable(v), e), mu);
    ComputedEquality(w, v, e, mu);
  }

  /** A double is no owl:real, so a sum of doubles is rejected although the condition holds. */
  lemma DoubleSumRejected(w: World, d: Literal)
    requires d.datatypeIri == XsdDouble
    requires w.fns.arith(Add, LiteralTerm(d), LiteralTerm(d)) == Some(LiteralTerm(d))
    ensures var e, mu := Equal(Variable("x"), Arith(Add, LiteralExpr(d), LiteralExpr(d))), map["x" := LiteralTerm(d)];
      Holds(w, e, mu) && !TakesTypes(VariableTypeConstraints(e).value, mu)
  {
    var a := Arith(Add, LiteralExpr(d), LiteralExpr(d));
    var mu: Solution := map["x" := LiteralTerm(d)];
    assert Eval(w, a, mu) == Some(LiteralTerm(d));
    TruthOfBool(w.fns, EqualTerms(Eval(w, Variable("x"), mu), Eval(w, a, mu)));
    ArithmeticEquality(w, "x", a, mu);
    SubtypeIsAncestor(XsdDouble, OwlReal);
  }
}
