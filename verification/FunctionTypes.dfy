/** What calls return, as the evaluator has it, against the types that the analysis declares for them. */
module FunctionTypes {
  import opened Wrappers
  import opened Rdf
  import opened Algebra
  import opened Subtypes
  import opened TypeConstraints
  import opened Semantics
  import opened FilterAnalysis
  import opened PushdownSoundness

  predicate IsOf(t: Term, d: DatatypeIri) { t.LiteralTerm? && t.literal.datatypeIri == d }

  const DATE_PARTS: set<Function> := {Year, Month, Day, Hours, Minutes, Seconds}
  const TESTS: set<Function> := {Contains, Regex, LangMatches, StrStarts, StrEnds, IsIri, IsBlank, IsLiteral, IsNumeric}

  // The datatypes that a call named after them casts to.
  const CASTS: set<DatatypeIri> :=
    {XsdInt, XsdLong, XsdInteger, XsdBoolean, XsdUnsignedLong, XsdUnsignedInt, XsdUnsignedShort, XsdUnsignedByte,
     XsdByte, XsdShort, XsdDecimal, XsdDouble, XsdFloat, XsdString, XsdDateTime, XsdDuration}

  /**
    What a call may return: date parts are unsigned ints, tests are booleans, STRBEFORE and STRAFTER keep the
    language of their argument, and a cast gives its datatype.
   */
  predicate MayReturn(f: Function, t: Term) {
    if f in DATE_PARTS then IsOf(t, XsdUnsignedInt)
    else if f in TESTS then IsOf(t, XsdBoolean)
    else if f == Str then IsOf(t, XsdString)
    else if f in {StrBefore, StrAfter} then IsOf(t, XsdString) || IsOf(t, LANG_STRING)
    else if f in {Datatype, IriFn} then t.NamedNode?
    else if f == BNode then t.BlankNode?
    else if f.Custom? && f.cast in CASTS then IsOf(t, f.cast)
    else true
  }

  ghost predicate ReturnsAsEvaluated(fns: Interpretation) {
    forall f, vs :: fns.call(f, vs).Some? ==> MayReturn(f, fns.call(f, vs).value)
  }

  // What a constraint to the declared type of a call admits: the terms it may return, or literals of a subtype.
  predicate MayEqual(f: Function, t: Term) {
    if f in DATE_PARTS then t.LiteralTerm? && IsLiteralSubtype(t.literal.datatypeIri, XsdUnsignedInt)
    else if f in TESTS then IsOf(t, XsdBoolean)
    else if f in {Str, StrBefore, StrAfter} then IsOf(t, XsdString)
    else if f in {Datatype, IriFn} then t.NamedNode?
    else if f == BNode then t.BlankNode?
    else f.Custom? && t.LiteralTerm? && IsLiteralSubtype(t.literal.datatypeIri, f.cast)
  }

  lemma NoSubtypes(d: DatatypeIri)
    ensures IsLiteralSubtype(d, XsdBoolean) <==> d == XsdBoolean
    ensures IsLiteralSubtype(d, XsdString) <==> d == XsdString
  {
    SubtypeIsAncestor(d, XsdBoolean);
    SubtypeIsAncestor(d, XsdString);
  }

  const UNDECLARED_CASTS: set<DatatypeIri> := {XsdByte, XsdShort, XsdDateTime, XsdDuration}

  // A type is declared for every function of the model, and for casts save these four.
  lemma Declared(f: Function)
    ensures FunctionType(f).Some? <==> !f.OtherBuiltin? && (f.Custom? ==> f.cast in CASTS - UNDECLARED_CASTS)
    ensures FunctionType(f).Some? ==> FunctionType(f).value != NoType
  {
  }

  // The types of what is no cast.
  lemma DeclaredType(f: Function)
    requires !f.Custom? && !f.OtherBuiltin?
    ensures FunctionType(f).value ==
      if f in DATE_PARTS then LiteralType(XsdUnsignedInt)
      else if f in TESTS then LiteralType(XsdBoolean)
      else if f in {Str, StrBefore, StrAfter} then LiteralType(XsdString)
      else if f == BNode then BlankType
      else IriType
  {
  }

  /** The declared type of a function admits exactly the terms that a call may equal. */
  lemma DeclaredExactly(f: Function, t: Term)
    requires FunctionType(f).Some?
    ensures FunctionType(f).value != NoType
    ensures CompatibleWith(Constraint(FunctionType(f).value), TypeOf(t)) <==> MayEqual(f, t)
  {
    Declared(f);
    if t.LiteralTerm? { NoSubtypes(t.literal.datatypeIri); }
    if !f.Custom? { DeclaredType(f); }
  }

  lemma ReturnsWithin(f: Function, t: Term)
    requires FunctionType(f).Some? && MayReturn(f, t)
    ensures MayEqual(f, t) <==> !(f in {StrBefore, StrAfter} && IsOf(t, LANG_STRING))
  {
    if t.LiteralTerm? { SubtypePartialOrder(t.literal.datatypeIri, t.literal.datatypeIri, t.literal.datatypeIri); }
  }

  // A call of a type test is evaluated by the semantics itself.
  lemma CallReturns(w: World, f: Function, args: seq<Expression>, mu: Solution)
    requires ReturnsAsEvaluated(w.fns) && Eval(w, FunctionCall(f, args), mu).Some?
    ensures MayReturn(f, Eval(w, FunctionCall(f, args), mu).value)
  {
    assert Eval(w, FunctionCall(f, args), mu) == CallFunction(w.fns, f, EvalAll(w, args, mu));
  }

  /**
    As the evaluator has it, an equality with a call that holds keeps its solution exactly when the value is no
    language string that STRBEFORE or STRAFTER returned.
   */
  lemma CallEquality(w: World, v: Var, f: Function, args: seq<Expression>, mu: Solution)
    requires ReturnsAsEvaluated(w.fns) && FunctionType(f).Some?
    requires Holds(w, Equal(Variable(v), FunctionCall(f, args)), mu)
    ensures v in mu
    ensures TakesTypes(VariableTypeConstraints(Equal(Variable(v), FunctionCall(f, args))).value, mu) <==>
      !(f in {StrBefore, StrAfter} && IsOf(mu[v], LANG_STRING))
  {
    var x := FunctionCall(f, args);
    EqualHolds(w, Equal(Variable(v), x), mu);
    CallReturns(w, f, args, mu);
    ReturnsWithin(f, mu[v]);
    DeclaredExactly(f, mu[v]);
    ComputedEquality(w, v, x, mu);
  }

  // Neither arithmetic, whose values may be doubles, nor a call that may return a language string.
  predicate WellDeclared(e: Expression) {
    !IsArithmetic(e) && (e.FunctionCall? ==> e.func !in {StrBefore, StrAfter})
  }

  lemma WellDeclaredTyped(w: World, e: Expression, mu: Solution)
    requires ReturnsAsEvaluated(w.fns) && WellDeclared(e)
    ensures HasDeclaredType(w, e, mu)
  {
    if e.FunctionCall? {
      if Eval(w, e, mu).Some? && FunctionType(e.func).Some? {
        CallReturns(w, e.func, e.list, mu);
        ReturnsWithin(e.func, Eval(w, e, mu).value);
        DeclaredExactly(e.func, Eval(w, e, mu).value);
      }
    } else {
      ExpressionTypeSound(w, e, mu);
    }
  }

  /** So filters whose equalities avoid arithmetic, STRBEFORE and STRAFTER may be pushed down. */
  lemma EvaluatedFiltersTyped(w: World, gp: GraphPattern, only: Option<seq<Var>>)
    requires ReturnsAsEvaluated(w.fns) && FiltersBetween(gp, WellDeclared)
    ensures FiltersTyped(w, gp, only)
  {
    forall x, mu | WellDeclared(x) ensures HasDeclaredType(w, x, mu) { WellDeclaredTyped(w, x, mu); }
    FiltersBetweenTyped(w, gp, only, WellDeclared);
  }
}
