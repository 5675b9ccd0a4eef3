/** The subtype relation on literal datatypes. */
module Subtypes {
  import opened Rdf
  import opened Trees

  /** s is a literal subtype of t. */
  predicate IsLiteralSubtype(s: DatatypeIri, t: DatatypeIri) {
    if s == t || t == RdfsLiteral then true
    else
      match t
      case OwlReal => OwlRealSubtype(s)
      case OwlRational => OwlRationalSubtype(s)
      case XsdDecimal => XsdDecimalSubtype(s)
      case XsdDouble => XsdDoubleSubtype(s)
      case XsdInteger => XsdIntegerSubtype(s)
      case XsdLong => XsdLongSubtype(s)
      case XsdInt => XsdIntSubtype(s)
      case XsdShort => XsdShortSubtype(s)
      case XsdNonNegativeInteger => XsdNonNegativeIntegerSubtype(s)
      case XsdPositiveInteger => XsdPositiveIntegerSubtype(s)
      case XsdUnsignedLong => XsdUnsignedLongSubtype(s)
      case XsdUnsignedInt => XsdUnsignedIntSubtype(s)
      case XsdUnsignedShort => XsdUnsignedShortSubtype(s)
      case XsdNonPositiveInteger => XsdNonPositiveIntegerSubtype(s)
      case XsdDuration => s == XsdYearMonthDuration || s == XsdDayTimeDuration
      case XsdDateTime => s == XsdDateTimeStamp
      case _ => false
  }

  predicate OwlRealSubtype(s: DatatypeIri) { s == OwlRational || OwlRationalSubtype(s) }

  predicate OwlRationalSubtype(s: DatatypeIri) { s == XsdDecimal || XsdDecimalSubtype(s) }

  predicate XsdDecimalSubtype(s: DatatypeIri) { s == XsdInteger || XsdIntegerSubtype(s) }

  predicate XsdDoubleSubtype(s: DatatypeIri) { s == XsdFloat }

  predicate XsdIntegerSubtype(s: DatatypeIri) {
    || s == XsdLong || s == XsdNonNegativeInteger || s == XsdNonPositiveInteger
    || XsdLongSubtype(s) || XsdNonNegativeIntegerSubtype(s) || XsdNonPositiveIntegerSubtype(s)
  }

  predicate XsdNonPositiveIntegerSubtype(s: DatatypeIri) { s == XsdNegativeInteger }

  predicate XsdNonNegativeIntegerSubtype(s: DatatypeIri) { s == XsdPositiveInteger || XsdPositiveIntegerSubtype(s) }

  predicate XsdPositiveIntegerSubtype(s: DatatypeIri) { s == XsdUnsignedLong || XsdUnsignedLongSubtype(s) }

  predicate XsdUnsignedLongSubtype(s: DatatypeIri) { s == XsdUnsignedInt || XsdUnsignedIntSubtype(s) }

  predicate XsdUnsignedIntSubtype(s: DatatypeIri) { s == XsdUnsignedShort || XsdUnsignedShortSubtype(s) }

  predicate XsdUnsignedShortSubtype(s: DatatypeIri) { s == XsdUnsignedByte }

  predicate XsdLongSubtype(s: DatatypeIri) { s == XsdInt || XsdIntSubtype(s) }

  predicate XsdIntSubtype(s: DatatypeIri) { s == XsdShort || XsdShortSubtype(s) }

  predicate XsdShortSubtype(s: DatatypeIri) { s == XsdByte }

  // The immediate supertype of each datatype below owl:real, and its distance from the top.
  function Parent(s: DatatypeIri): DatatypeIri {
    match s
    case OwlRational => OwlReal
    case XsdDecimal => OwlRational
    case XsdInteger => XsdDecimal
    case XsdLong => XsdInteger
    case XsdInt => XsdLong
    case XsdShort => XsdInt
    case XsdByte => XsdShort
    case XsdNonNegativeInteger => XsdInteger
    case XsdPositiveInteger => XsdNonNegativeInteger
    case XsdUnsignedLong => XsdPositiveInteger
    case XsdUnsignedInt => XsdUnsignedLong
    case XsdUnsignedShort => XsdUnsignedInt
    case XsdUnsignedByte => XsdUnsignedShort
    case XsdNonPositiveInteger => XsdInteger
    case XsdNegativeInteger => XsdNonPositiveInteger
    case XsdFloat => XsdDouble
    case XsdYearMonthDuration => XsdDuration
    case XsdDayTimeDuration => XsdDuration
    case XsdDateTimeStamp => XsdDateTime
    case _ => RdfsLiteral
  }

  function Depth(s: DatatypeIri): nat {
    match s
    case RdfsLiteral => 0
    case OwlRational => 2
    case XsdDecimal => 3
    case XsdInteger => 4
    case XsdLong => 5
    case XsdInt => 6
    case XsdShort => 7
    case XsdByte => 8
    case XsdNonNegativeInteger => 5
    case XsdPositiveInteger => 6
    case XsdUnsignedLong => 7
    case XsdUnsignedInt => 8
    case XsdUnsignedShort => 9
    case XsdUnsignedByte => 10
    case XsdNonPositiveInteger => 5
    case XsdNegativeInteger => 6
    case XsdFloat => 2
    case XsdYearMonthDuration => 2
    case XsdDayTimeDuration => 2
    case XsdDateTimeStamp => 2
    case _ => 1
  }

  ghost function Datatypes(): (tree: Tree<DatatypeIri>)
    ensures Rooted(tree)
  {
    Tree(Parent, Depth, RdfsLiteral)
  }

  /** An independent definition: t is s or an ancestor of s in the datatype tree. */
  ghost predicate IsAncestor(s: DatatypeIri, t: DatatypeIri) { Reaches(Datatypes(), s, t) }

  ghost predicate IsUnder(s: DatatypeIri, t: DatatypeIri) { Under(Datatypes(), s, t) }

  // ----- each helper decides what lies below its datatype -----

  lemma XsdShortUnder(s: DatatypeIri)
    ensures XsdShortSubtype(s) <==> IsUnder(s, XsdShort)
  {
    NoChild(Datatypes(), s, XsdByte);
    OneChild(Datatypes(), s, XsdShort, XsdByte);
  }

  lemma XsdIntUnder(s: DatatypeIri)
    ensures XsdIntSubtype(s) <==> IsUnder(s, XsdInt)
  {
    XsdShortUnder(s);
    OneChild(Datatypes(), s, XsdInt, XsdShort);
  }

  lemma XsdLongUnder(s: DatatypeIri)
    ensures XsdLongSubtype(s) <==> IsUnder(s, XsdLong)
  {
    XsdIntUnder(s);
    OneChild(Datatypes(), s, XsdLong, XsdInt);
  }

  lemma XsdUnsignedShortUnder(s: DatatypeIri)
    ensures XsdUnsignedShortSubtype(s) <==> IsUnder(s, XsdUnsignedShort)
  {
    NoChild(Datatypes(), s, XsdUnsignedByte);
    OneChild(Datatypes(), s, XsdUnsignedShort, XsdUnsignedByte);
  }

  lemma XsdUnsignedIntUnder(s: DatatypeIri)
    ensures XsdUnsignedIntSubtype(s) <==> IsUnder(s, XsdUnsignedInt)
  {
    XsdUnsignedShortUnder(s);
    OneChild(Datatypes(), s, XsdUnsignedInt, XsdUnsignedShort);
  }

  lemma XsdUnsignedLongUnder(s: DatatypeIri)
    ensures XsdUnsignedLongSubtype(s) <==> IsUnder(s, XsdUnsignedLong)
  {
    XsdUnsignedIntUnder(s);
    OneChild(Datatypes(), s, XsdUnsignedLong, XsdUnsignedInt);
  }

  lemma XsdPositiveIntegerUnder(s: DatatypeIri)
    ensures XsdPositiveIntegerSubtype(s) <==> IsUnder(s, XsdPositiveInteger)
  {
    XsdUnsignedLongUnder(s);
    OneChild(Datatypes(), s, XsdPositiveInteger, XsdUnsignedLong);
  }

  lemma XsdNonNegativeIntegerUnder(s: DatatypeIri)
    ensures XsdNonNegativeIntegerSubtype(s) <==> IsUnder(s, XsdNonNegativeInteger)
  {
    XsdPositiveIntegerUnder(s);
    OneChild(Datatypes(), s, XsdNonNegativeInteger, XsdPositiveInteger);
  }

  lemma XsdNonPositiveIntegerUnder(s: DatatypeIri)
    ensures XsdNonPositiveIntegerSubtype(s) <==> IsUnder(s, XsdNonPositiveInteger)
  {
    NoChild(Datatypes(), s, XsdNegativeInteger);
    OneChild(Datatypes(), s, XsdNonPositiveInteger, XsdNegativeInteger);
  }

  lemma IntegerChildren(s: DatatypeIri)
    ensures IsUnder(s, XsdInteger) <==>
      || s == XsdLong || s == XsdNonNegativeInteger || s == XsdNonPositiveInteger
      || IsUnder(s, XsdLong) || IsUnder(s, XsdNonNegativeInteger) || IsUnder(s, XsdNonPositiveInteger)
  {
    Children(Datatypes(), s, XsdInteger, XsdLong, XsdNonNegativeInteger, XsdNonPositiveInteger);
  }

  // The helper for integers, from whether s lies below each of its children.
  lemma IntegerHelper(s: DatatypeIri, long: bool, nonNegative: bool, nonPositive: bool)
    requires XsdLongSubtype(s) == long && XsdNonNegativeIntegerSubtype(s) == nonNegative
    requires XsdNonPositiveIntegerSubtype(s) == nonPositive
    ensures XsdIntegerSubtype(s) <==>
      s == XsdLong || s == XsdNonNegativeInteger || s == XsdNonPositiveInteger || long || nonNegative || nonPositive
  {
  }

  lemma XsdIntegerUnder(s: DatatypeIri)
    ensures XsdIntegerSubtype(s) <==> IsUnder(s, XsdInteger)
  {
    XsdLongUnder(s);
    XsdNonNegativeIntegerUnder(s);
    XsdNonPositiveIntegerUnder(s);
    IntegerHelper(s, IsUnder(s, XsdLong), IsUnder(s, XsdNonNegativeInteger), IsUnder(s, XsdNonPositiveInteger));
    IntegerChildren(s);
  }

  lemma XsdDecimalUnder(s: DatatypeIri)
    ensures XsdDecimalSubtype(s) <==> IsUnder(s, XsdDecimal)
  {
    XsdIntegerUnder(s);
    OneChild(Datatypes(), s, XsdDecimal, XsdInteger);
  }

  lemma OwlRationalUnder(s: DatatypeIri)
    ensures OwlRationalSubtype(s) <==> IsUnder(s, OwlRational)
  {
    XsdDecimalUnder(s);
    OneChild(Datatypes(), s, OwlRational, XsdDecimal);
  }

  lemma OwlRealUnder(s: DatatypeIri)
    ensures OwlRealSubtype(s) <==> IsUnder(s, OwlReal)
  {
    OwlRationalUnder(s);
    OneChild(Datatypes(), s, OwlReal, OwlRational);
  }

  lemma XsdDoubleUnder(s: DatatypeIri)
    ensures XsdDoubleSubtype(s) <==> IsUnder(s, XsdDouble)
  {
    NoChild(Datatypes(), s, XsdFloat);
    OneChild(Datatypes(), s, XsdDouble, XsdFloat);
  }

  lemma DateTimeUnder(s: DatatypeIri)
    ensures s == XsdDateTimeStamp <==> IsUnder(s, XsdDateTime)
  {
    NoChild(Datatypes(), s, XsdDateTimeStamp);
    OneChild(Datatypes(), s, XsdDateTime, XsdDateTimeStamp);
  }

  lemma DurationUnder(s: DatatypeIri)
    ensures s == XsdYearMonthDuration || s == XsdDayTimeDuration <==> IsUnder(s, XsdDuration)
  {
    NoChild(Datatypes(), s, XsdYearMonthDuration);
    NoChild(Datatypes(), s, XsdDayTimeDuration);
    Children(Datatypes(), s, XsdDuration, XsdYearMonthDuration, XsdDayTimeDuration, XsdDayTimeDuration);
  }

  predicate SignedInteger(t: DatatypeIri) {
    t.XsdInteger? || t.XsdLong? || t.XsdInt? || t.XsdShort? || t.XsdNonPositiveInteger?
  }

  predicate UnsignedInteger(t: DatatypeIri) {
    t.XsdNonNegativeInteger? || t.XsdPositiveInteger? || t.XsdUnsignedLong? || t.XsdUnsignedInt? || t.XsdUnsignedShort?
  }

  predicate HasOtherChildren(t: DatatypeIri) {
    || t.RdfsLiteral? || t.OwlReal? || t.OwlRational? || t.XsdDecimal? || t.XsdDouble? || t.XsdDuration? || t.XsdDateTime?
  }

  lemma SignedSubtypes(s: DatatypeIri, t: DatatypeIri)
    requires s != t && SignedInteger(t)
    ensures IsLiteralSubtype(s, t) <==> IsUnder(s, t)
  {
    match t {
      case XsdInteger => XsdIntegerUnder(s);
      case XsdLong => XsdLongUnder(s);
      case XsdInt => XsdIntUnder(s);
      case XsdShort => XsdShortUnder(s);
      case XsdNonPositiveInteger => XsdNonPositiveIntegerUnder(s);
    }
  }

  lemma UnsignedSubtypes(s: DatatypeIri, t: DatatypeIri)
    requires s != t && UnsignedInteger(t)
    ensures IsLiteralSubtype(s, t) <==> IsUnder(s, t)
  {
    match t {
      case XsdNonNegativeInteger => XsdNonNegativeIntegerUnder(s);
      case XsdPositiveInteger => XsdPositiveIntegerUnder(s);
      case XsdUnsignedLong => XsdUnsignedLongUnder(s);
      case XsdUnsignedInt => XsdUnsignedIntUnder(s);
      case XsdUnsignedShort => XsdUnsignedShortUnder(s);
    }
  }

  lemma OtherSubtypes(s: DatatypeIri, t: DatatypeIri)
    requires s != t && t != RdfsLiteral && HasOtherChildren(t)
    ensures IsLiteralSubtype(s, t) <==> IsUnder(s, t)
  {
    match t {
      case OwlReal => OwlRealUnder(s);
      case OwlRational => OwlRationalUnder(s);
      case XsdDecimal => XsdDecimalUnder(s);
      case XsdDouble => XsdDoubleUnder(s);
      case XsdDuration => DurationUnder(s);
      case XsdDateTime => DateTimeUnder(s);
    }
  }

  lemma ParentHasChildren(d: DatatypeIri)
    requires d != RdfsLiteral
    ensures SignedInteger(Parent(d)) || UnsignedInteger(Parent(d)) || HasOtherChildren(Parent(d))
  {
  }

  lemma LeafSubtypes(s: DatatypeIri, t: DatatypeIri)
    requires s != t && !SignedInteger(t) && !UnsignedInteger(t) && !HasOtherChildren(t)
    ensures !IsLiteralSubtype(s, t) && !IsUnder(s, t)
  {
    forall d | d != RdfsLiteral ensures Parent(d) != t { ParentHasChildren(d); }
    NoChild(Datatypes(), s, t);
  }

  lemma StrictSubtypes(s: DatatypeIri, t: DatatypeIri)
    requires s != t && t != RdfsLiteral
    ensures IsLiteralSubtype(s, t) <==> IsUnder(s, t)
  {
    if SignedInteger(t) {
      SignedSubtypes(s, t);
    } else if UnsignedInteger(t) {
      UnsignedSubtypes(s, t);
    } else if HasOtherChildren(t) {
      OtherSubtypes(s, t);
    } else {
      LeafSubtypes(s, t);
    }
  }

  lemma StrictAncestors(s: DatatypeIri, t: DatatypeIri, subtype: bool)
    requires s != t && (IsUnder(s, t) <==> subtype)
    ensures IsAncestor(s, t) <==> subtype
  {
    ReachesIsUnder(Datatypes(), s, t, subtype);
  }

  lemma TopOfAll(s: DatatypeIri)
    ensures IsAncestor(s, RdfsLiteral) && IsAncestor(s, s)
  {
    ReachesRoot(Datatypes(), s);
  }

  /** The chain of helpers decides ancestry in the datatype tree. */
  lemma SubtypeIsAncestor(s: DatatypeIri, t: DatatypeIri)
    ensures IsLiteralSubtype(s, t) <==> IsAncestor(s, t)
  {
    var subtype := IsLiteralSubtype(s, t);
    if s == t || t == RdfsLiteral {
      TopOfAll(s);
    } else {
      StrictSubtypes(s, t);
      StrictAncestors(s, t, subtype);
    }
  }

  /** The relation is a partial order. */
  lemma SubtypePartialOrder(s: DatatypeIri, t: DatatypeIri, u: DatatypeIri)
    ensures IsLiteralSubtype(s, s)
    ensures IsLiteralSubtype(s, t) && IsLiteralSubtype(t, u) ==> IsLiteralSubtype(s, u)
    ensures IsLiteralSubtype(s, t) && IsLiteralSubtype(t, s) ==> s == t
  {
    SubtypeIsAncestor(s, t);
    SubtypeIsAncestor(t, u);
    SubtypeIsAncestor(s, u);
    SubtypeIsAncestor(t, s);
    ReachesOrder(Datatypes(), s, t, u);
  }
}
