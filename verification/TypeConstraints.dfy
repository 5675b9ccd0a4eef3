/** Type constraints on variables: which base types a variable may still take. */
module TypeConstraints {
  import opened Wrappers
  import opened Rdf
  import opened Algebra
  import opened Subtypes

  datatype BaseType = IriType | BlankType | LiteralType(of: DatatypeIri) | NoType

  datatype ConstraintExpr =
    | Bottom
    | Top
    | Constraint(base: BaseType)
    | Both(left: ConstraintExpr, right: ConstraintExpr)
    | Either(left: ConstraintExpr, right: ConstraintExpr)

  // Constraining to NoType is an invalid state: asking such a constraint aborts the program.
  predicate Askable(e: ConstraintExpr) {
    match e
    case Bottom => true
    case Top => true
    case Constraint(t) => t != NoType
    case Both(l, r) => Askable(l) && Askable(r)
    case Either(l, r) => Askable(l) && Askable(r)
  }

  predicate CompatibleWith(e: ConstraintExpr, t: BaseType)
    requires Askable(e)
  {
    match e
    case Bottom => false
    case Top => true
    case Constraint(c) =>
      (match c
       case IriType => t == IriType
       case BlankType => t == BlankType
       case LiteralType(of) => t.LiteralType? && IsLiteralSubtype(t.of, of))
    case Both(l, r) => CompatibleWith(l, t) && CompatibleWith(r, t)
    case Either(l, r) => CompatibleWith(l, t) || CompatibleWith(r, t)
  }

  function TypeOf(t: Term): BaseType {
    match t
    case NamedNode(_) => IriType
    case BlankNode(_) => BlankType
    case LiteralTerm(l) => LiteralType(l.datatypeIri)
  }

  /** A constraint that admits a datatype admits all its subtypes. */
  lemma {:induction false} CompatibleWithSubtype(e: ConstraintExpr, s: DatatypeIri, t: DatatypeIri)
    requires Askable(e) && IsLiteralSubtype(s, t) && CompatibleWith(e, LiteralType(t))
    ensures CompatibleWith(e, LiteralType(s))
  {
    match e {
      case Bottom =>
      case Top =>
      case Constraint(c) => SubtypePartialOrder(s, t, c.of);
      case Both(l, r) =>
        CompatibleWithSubtype(l, s, t);
        CompatibleWithSubtype(r, s, t);
      case Either(l, r) =>
        if CompatibleWith(l, LiteralType(t)) {
          CompatibleWithSubtype(l, s, t);
        } else {
          CompatibleWithSubtype(r, s, t);
        }
    }
  }

  datatype PossibleTypes = PossibleTypes(e: Option<ConstraintExpr>) {
    predicate Valid() { e.Some? && Askable(e.value) }

    predicate Admits(t: BaseType)
      requires Valid()
    {
      CompatibleWith(e.value, t)
    }

    function AndCtr(ctr: ConstraintExpr): PossibleTypes
      requires e.Some?
    {
      PossibleTypes(Some(Both(e.value, ctr)))
    }

    function OrOther(other: PossibleTypes): PossibleTypes
      requires e.Some? && other.e.Some?
    {
      PossibleTypes(Some(Either(e.value, other.e.value)))
    }
  }

  // IRIs, blank nodes and, with rdfs:Literal, all literals.
  predicate AdmitsAll(p: PossibleTypes) {
    p.Valid() && p.Admits(IriType) && p.Admits(BlankType) && p.Admits(LiteralType(RdfsLiteral))
  }

  /** What these three types are admitted by admits every term. */
  lemma AdmitsAllTerms(p: PossibleTypes, t: Term)
    requires AdmitsAll(p)
    ensures p.Admits(TypeOf(t))
  {
    if t.LiteralTerm? {
      var d := t.literal.datatypeIri;
      TopOfAll(d);
      SubtypeIsAncestor(d, RdfsLiteral);
      CompatibleWithSubtype(p.e.value, d, RdfsLiteral);
    }
  }

  // A term that is not admitted.
  function Unadmitted(p: PossibleTypes): (t: Term)
    requires p.Valid() && !AdmitsAll(p)
    ensures !p.Admits(TypeOf(t))
  {
    if !p.Admits(IriType) then NamedNode("")
    else if !p.Admits(BlankType) then BlankNode("")
    else LiteralTerm(Literal("", RdfsLiteral, ""))
  }

  function SingularCtr(ctr: ConstraintExpr): PossibleTypes { PossibleTypes(Some(ctr)) }

  function Singular(t: BaseType): PossibleTypes { SingularCtr(Constraint(t)) }

  type TypeMap = map<Var, PossibleTypes>

  ghost predicate ValidTypes(m: TypeMap) {
    forall k :: k in m ==> m[k].Valid()
  }

  // A variable constrained on both sides loses both constraints: the combination is built but not kept.
  function ConjoinTypes(left: TypeMap, right: TypeMap): TypeMap {
    map k | k in left.Keys + right.Keys && !(k in left && k in right) :: if k in left then left[k] else right[k]
  }

  // What the loop does with one variable.
  function TakeType(r: TypeMap, rest: TypeMap, others: TypeMap, k: Var): TypeMap
    requires k in rest
  {
    if k in others then r else r[k := rest[k]]
  }

  predicate SameAt<T(==)>(a: map<Var, T>, b: map<Var, T>, v: Var) {
    (v in a <==> v in b) && (v in a ==> a[v] == b[v])
  }

  lemma SameMaps<T>(a: map<Var, T>, b: map<Var, T>)
    requires forall v :: SameAt(a, b, v)
    ensures a == b
  {
    assert forall v :: v in a <==> v in b by {
      forall v ensures v in a <==> v in b { assert SameAt(a, b, v); }
    }
    forall v | v in a ensures a[v] == b[v] { assert SameAt(a, b, v); }
  }

  lemma TakeTypeAt(r: TypeMap, rest: TypeMap, others: TypeMap, k: Var, v: Var)
    requires k in rest && r.Keys !! rest.Keys + others.Keys
    ensures SameAt(
      TakeType(r, rest, others, k) + ConjoinTypes(rest - {k}, others - {k}), r + ConjoinTypes(rest, others), v)
  {
  }

  lemma TakeTypeStep(r: TypeMap, rest: TypeMap, others: TypeMap, k: Var)
    requires k in rest && r.Keys !! rest.Keys + others.Keys
    ensures TakeType(r, rest, others, k) + ConjoinTypes(rest - {k}, others - {k}) == r + ConjoinTypes(rest, others)
    ensures TakeType(r, rest, others, k).Keys !! (rest - {k}).Keys + (others - {k}).Keys
  {
    var a, b := TakeType(r, rest, others, k) + ConjoinTypes(rest - {k}, others - {k}), r + ConjoinTypes(rest, others);
    forall v ensures SameAt(a, b, v) { TakeTypeAt(r, rest, others, k, v); }
    SameMaps(a, b);
  }

  method ConjunctionVariableType(left: TypeMap, right: TypeMap) returns (r: TypeMap)
    ensures r == ConjoinTypes(left, right)
  {
    var rest, others := left, right;
    r := map[];
    while rest.Keys != {}
      invariant r + ConjoinTypes(rest, others) == ConjoinTypes(left, right)
      invariant r.Keys !! rest.Keys + others.Keys
      decreases rest.Keys
    {
      var k :| k in rest.Keys;
      TakeTypeStep(r, rest, others, k);
      if k !in others { r := r[k := rest[k]]; }
      rest, others := rest - {k}, others - {k};
    }
    assert ConjoinTypes(rest, others) == others;
    r := r + others;
  }

  function EqualVariableType(a: Expression, b: Expression): Option<(Var, BaseType)> {
    if a.Variable? then
      var t := ExpressionType(b);
      if t.Some? then Some((a.name, t.value)) else None
    else None
  }

  function FunctionType(f: Function): Option<BaseType> {
    match f
    case Str => Some(LiteralType(XsdString))
    case StrBefore => Some(LiteralType(XsdString))
    case StrAfter => Some(LiteralType(XsdString))
    case Datatype => Some(IriType)
    case IriFn => Some(IriType)
    case BNode => Some(BlankType)
    case Contains => Some(LiteralType(XsdBoolean))
    case Regex => Some(LiteralType(XsdBoolean))
    case LangMatches => Some(LiteralType(XsdBoolean))
    case StrStarts => Some(LiteralType(XsdBoolean))
    case StrEnds => Some(LiteralType(XsdBoolean))
    case IsIri => Some(LiteralType(XsdBoolean))
    case IsBlank => Some(LiteralType(XsdBoolean))
    case IsLiteral => Some(LiteralType(XsdBoolean))
    case IsNumeric => Some(LiteralType(XsdBoolean))
    case Year => Some(LiteralType(XsdUnsignedInt))
    case Month => Some(LiteralType(XsdUnsignedInt))
    case Day => Some(LiteralType(XsdUnsignedInt))
    case Hours => Some(LiteralType(XsdUnsignedInt))
    case Minutes => Some(LiteralType(XsdUnsignedInt))
    case Seconds => Some(LiteralType(XsdUnsignedInt))
    case Custom(d) =>
      if d in {XsdInt, XsdLong, XsdInteger, XsdBoolean, XsdUnsignedLong, XsdUnsignedInt, XsdUnsignedShort,
               XsdUnsignedByte, XsdDecimal, XsdDouble, XsdFloat, XsdString}
      then Some(LiteralType(d)) else None
    case OtherBuiltin(_) => None
  }

  function ExpressionType(e: Expression): Option<BaseType> {
    match e
    case NodeExpr(_) => Some(IriType)
    case LiteralExpr(l) => Some(LiteralType(l.datatypeIri))
    case Or(_, _) => Some(LiteralType(XsdBoolean))
    case And(_, _) => Some(LiteralType(XsdBoolean))
    case Equal(_, _) => Some(LiteralType(XsdBoolean))
    case SameTerm(_, _) => Some(LiteralType(XsdBoolean))
    case Compare(_, _, _) => Some(LiteralType(XsdBoolean))
    case In(_, _) => Some(LiteralType(XsdBoolean))
    case Not(_) => Some(LiteralType(XsdBoolean))
    case Exists(_) => Some(LiteralType(XsdBoolean))
    case Bound(_) => Some(LiteralType(XsdBoolean))
    case Arith(_, _, _) => Some(LiteralType(OwlReal))
    case Sign(_, _) => Some(LiteralType(OwlReal))
    case FunctionCall(f, _) => FunctionType(f)
    case Variable(_) => None
    case If(_, _, _) => None
    case Coalesce(_) => None
  }
}
