/** Exactly what the analysis reads off a condition: from which conditions, and which solutions it leaves. */
module FilterExactness {
  import opened Wrappers
  import opened Rdf
  import opened Algebra
  import opened Subtypes
  import opened TypeConstraints
  import opened Semantics
  import opened FilterAnalysis

  // The conditions that a condition is put together from, where the analysis looks.
  function Parts(e: Expression): set<Expression> {
    match e
    case Or(a, b) => Parts(a) + Parts(b)
    case And(a, b) => Parts(a) + Parts(b)
    case If(_, a, b) => Parts(a) + Parts(b)
    case _ => {e}
  }

  // ----- listed terms -----

  predicate IsConstant(e: Expression) { e.NodeExpr? || e.LiteralExpr? }

  predicate ComparesConstants(e: Expression, v: Var) {
    match e
    case Equal(a, b) => (a == Variable(v) && IsConstant(b)) || (b == Variable(v) && IsConstant(a))
    case In(a, es) => a == Variable(v) && forall x :: x in es ==> IsConstant(x)
    case _ => false
  }

  ghost predicate ListsOne(e: Expression) { exists v :: ComparesConstants(e, v) }

  lemma {:induction false} ConstantsListed(es: seq<Expression>)
    ensures ConstantTerms(es).Some? <==> forall x :: x in es ==> IsConstant(x)
  {
    if es != [] {
      ConstantsListed(es[1..]);
      assert es[0] in es && forall x :: x in es <==> x == es[0] || x in es[1..];
    }
  }

  lemma OneListed(e: Expression)
    requires !e.Or? && !e.And? && !e.If?
    ensures VariablePushdowns(e).Some? <==> ListsOne(e)
    ensures forall v :: ComparesConstants(e, v) ==> VariablePushdowns(e).Some? && VariablePushdowns(e).value.Keys == {v}
  {
    if e.In? { ConstantsListed(e.list); }
    if VariablePushdowns(e).Some? {
      var v := if e.In? || e.a.Variable? then e.a.name else e.b.name;
      assert ComparesConstants(e, v);
    }
  }

  /** Terms are read off exactly the conditions of which every part compares one variable with constants. */
  lemma {:induction false} ValuesReadExactly(e: Expression)
    ensures VariablePushdowns(e).Some? <==> forall p :: p in Parts(e) ==> ListsOne(p)
  {
    match e {
      case Or(a, b) => ValuesReadExactly(a); ValuesReadExactly(b);
      case And(a, b) => ValuesReadExactly(a); ValuesReadExactly(b);
      case If(_, a, b) => ValuesReadExactly(a); ValuesReadExactly(b);
      case _ => OneListed(e);
    }
  }

  /** A conjunction says what both sides say; a disjunction or conditional what both branches speak of. */
  lemma CombinedValues(e: Expression, mu: Solution)
    requires (e.And? || e.Or? || e.If?) && VariablePushdowns(e).Some?
    ensures var l, r := VariablePushdowns(e.a).value, VariablePushdowns(e.b).value;
      TakesValues(VariablePushdowns(e).value, mu) <==>
        if e.And? then TakesValues(l, mu) && TakesValues(r, mu)
        else forall v :: v in l && v in r ==> v in mu && (mu[v] in l[v] || mu[v] in r[v])
  {
    var l, r := VariablePushdowns(e.a).value, VariablePushdowns(e.b).value;
    if e.And? {
      ConjoinValuesExact(l, r, mu);
    } else {
      var m := UniteValues(l, r);
      assert forall v :: v in m <==> v in l && v in r;
    }
  }

  // A condition on one variable: comparisons with constants, joined by AND and OR.
  predicate OnlyCompares(e: Expression, v: Var) {
    match e
    case Or(a, b) => OnlyCompares(a, v) && OnlyCompares(b, v)
    case And(a, b) => OnlyCompares(a, v) && OnlyCompares(b, v)
    case _ => ComparesConstants(e, v)
  }

  lemma ConstantValue(w: World, e: Expression, mu: Solution)
    requires IsConstant(e)
    ensures Eval(w, e, mu) == ConstantTerm(e) && ConstantTerm(e).Some?
  {
  }

  lemma {:induction false} InExactly(w: World, x: Value, es: seq<Expression>, mu: Solution)
    requires forall e :: e in es ==> IsConstant(e)
    ensures ConstantTerms(es).Some?
    ensures InTable(x, EvalAll(w, es, mu)) == Some(true) <==> x.Some? && x.value in ConstantTerms(es).value
  {
    if es != [] {
      ConstantValue(w, es[0], mu);
      InExactly(w, x, es[1..], mu);
      var vs := EvalAll(w, es, mu);
      assert vs[0] == Eval(w, es[0], mu) && vs[1..] == EvalAll(w, es[1..], mu);
    }
  }

  lemma ComparisonExactly(w: World, e: Expression, v: Var, mu: Solution)
    requires ComparesConstants(e, v)
    ensures VariablePushdowns(e).Some? && VariablePushdowns(e).value.Keys == {v}
    ensures Holds(w, e, mu) <==> TakesValues(VariablePushdowns(e).value, mu)
  {
    OneListed(e);
    match e {
      case Equal(a, b) =>
        ConstantValue(w, if IsConstant(b) then b else a, mu);
        TruthOfBool(w.fns, EqualTerms(Eval(w, a, mu), Eval(w, b, mu)));
      case In(a, es) =>
        InExactly(w, Eval(w, a, mu), es, mu);
        TruthOfBool(w.fns, InTable(Eval(w, a, mu), EvalAll(w, es, mu)));
    }
  }

  /** Of a condition that only compares one variable with constants, the listed terms are exactly those that meet it. */
  lemma {:induction false} ComparisonsExactly(w: World, e: Expression, v: Var, mu: Solution)
    requires OnlyCompares(e, v)
    ensures VariablePushdowns(e).Some? && VariablePushdowns(e).value.Keys == {v}
    ensures Holds(w, e, mu) <==> TakesValues(VariablePushdowns(e).value, mu)
  {
    match e {
      case Or(a, b) =>
        ComparisonsExactly(w, a, v, mu);
        ComparisonsExactly(w, b, v, mu);
        TruthOfBool(w.fns, OrTable(Truth(w.fns, Eval(w, a, mu)), Truth(w.fns, Eval(w, b, mu))));
        CombinedValues(e, mu);
      case And(a, b) =>
        ComparisonsExactly(w, a, v, mu);
        ComparisonsExactly(w, b, v, mu);
        TruthOfBool(w.fns, AndTable(Truth(w.fns, Eval(w, a, mu)), Truth(w.fns, Eval(w, b, mu))));
        CombinedValues(e, mu);
      case _ => ComparisonExactly(w, e, v, mu);
    }
  }

  // ----- types -----

  predicate IsCondition(e: Expression) {
    || e.Or? || e.And? || e.Not? || e.Equal? || e.SameTerm? || e.Compare? || e.In? || e.Exists? || e.Bound?
  }

  // Variables, conditionals and COALESCE have no type of their own.
  predicate HasType(e: Expression) {
    IsConstant(e) || IsCondition(e) || IsArithmetic(e) || (e.FunctionCall? && FunctionType(e.func).Some?)
  }

  predicate TestsType(e: Expression) {
    match e
    case Equal(a, b) => (a.Variable? && HasType(b)) || (b.Variable? && HasType(a))
    case FunctionCall(f, es) => f in {IsIri, IsBlank, IsLiteral} && |es| == 1 && es[0].Variable?
    case _ => false
  }

  lemma TypeKnown(e: Expression)
    ensures ExpressionType(e).Some? <==> HasType(e)
  {
  }

  lemma OneTyped(e: Expression)
    requires !e.Or? && !e.And? && !e.If?
    ensures VariableTypeConstraints(e).Some? <==> TestsType(e)
  {
    if e.Equal? {
      TypeKnown(e.a);
      TypeKnown(e.b);
    }
  }

  /** Types are read off exactly the conditions of which every part is an equality with a type, or a type test. */
  lemma {:induction false} TypesReadExactly(e: Expression)
    ensures VariableTypeConstraints(e).Some? <==> forall p :: p in Parts(e) ==> TestsType(p)
  {
    match e {
      case Or(a, b) => TypesReadExactly(a); TypesReadExactly(b);
      case And(a, b) => TypesReadExactly(a); TypesReadExactly(b);
      case If(_, a, b) => TypesReadExactly(a); TypesReadExactly(b);
      case _ => OneTyped(e);
    }
  }

  predicate PassesTest(f: Function, t: Term) {
    if f == IsIri then t.NamedNode? else if f == IsBlank then t.BlankNode? else t.LiteralTerm?
  }

  /** A type test holds exactly when its constraint is met. */
  lemma TypeTestExactly(w: World, f: Function, v: Var, mu: Solution)
    requires f in {IsIri, IsBlank, IsLiteral}
    ensures var e := FunctionCall(f, [Variable(v)]);
      && VariableTypeConstraints(e).Some?
      && (Holds(w, e, mu) <==> TakesTypes(VariableTypeConstraints(e).value, mu))
      && (Holds(w, e, mu) <==> v in mu && PassesTest(f, mu[v]))
  {
    TestValue(w, f, v, mu);
    TestAdmits(f, v, mu);
  }

  lemma TestValue(w: World, f: Function, v: Var, mu: Solution)
    requires f in {IsIri, IsBlank, IsLiteral}
    ensures Holds(w, FunctionCall(f, [Variable(v)]), mu) <==> v in mu && PassesTest(f, mu[v])
  {
    var e := FunctionCall(f, [Variable(v)]);
    assert EvalAll(w, e.list, mu) == [Eval(w, Variable(v), mu)] by { assert e.list[1..] == []; }
    TruthOfBool(w.fns, Some(true));
    TruthOfBool(w.fns, Some(false));
  }

  lemma TestAdmits(f: Function, v: Var, mu: Solution)
    requires f in {IsIri, IsBlank, IsLiteral}
    ensures var m := VariableTypeConstraints(FunctionCall(f, [Variable(v)]));
      m.Some? && (TakesTypes(m.value, mu) <==> v in mu && PassesTest(f, mu[v]))
  {
    if v in mu && mu[v].LiteralTerm? {
      TopOfAll(mu[v].literal.datatypeIri);
      SubtypeIsAncestor(mu[v].literal.datatypeIri, RdfsLiteral);
    }
  }

  /** A conjunction says of each variable what one side alone says of it. */
  lemma ConjoinedTypes(a: Expression, b: Expression, vs: set<Var>, mu: Solution)
    requires VariableTypeConstraints(And(a, b)).Some?
    ensures TakesTypesOf(VariableTypeConstraints(And(a, b)).value, vs, mu) <==>
      && TakesTypesOf(VariableTypeConstraints(a).value, vs - ConstrainedBy(b), mu)
      && TakesTypesOf(VariableTypeConstraints(b).value, vs - ConstrainedBy(a), mu)
  {
    ConjoinTypesExact(VariableTypeConstraints(a).value, VariableTypeConstraints(b).value, vs, mu);
  }

  // What an equality with an expression of a type of its own admits, in plain terms.
  predicate EqualAdmits(x: Expression, t: Term) {
    match x
    case NodeExpr(_) => t.NamedNode?
    case LiteralExpr(l) => t.LiteralTerm? && IsLiteralSubtype(t.literal.datatypeIri, l.datatypeIri)
    case _ => t.LiteralTerm? && IsLiteralSubtype(t.literal.datatypeIri, if IsArithmetic(x) then OwlReal else XsdBoolean)
  }

  /**
    An equality with a constant, a condition or arithmetic constrains its variable, either way round, to IRIs or to
    literals of the datatype and its subtypes.
   */
  lemma EqualityExactly(v: Var, x: Expression, mu: Solution)
    requires IsConstant(x) || IsCondition(x) || IsArithmetic(x)
    ensures VariableTypeConstraints(Equal(Variable(v), x)) == VariableTypeConstraints(Equal(x, Variable(v)))
    ensures VariableTypeConstraints(Equal(Variable(v), x)).Some?
    ensures TakesTypes(VariableTypeConstraints(Equal(Variable(v), x)).value, mu) <==> v in mu && EqualAdmits(x, mu[v])
  {
    TypeKnown(x);
    var m := map[v := Singular(ExpressionType(x).value)];
    assert VariableTypeConstraints(Equal(Variable(v), x)) == Some(m) == VariableTypeConstraints(Equal(x, Variable(v)));
  }
}
