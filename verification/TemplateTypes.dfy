/** The type of a template parameter, and how it changes when a template is used by another. */
module TemplateTypes {
  import opened Wrappers
  import opened FiniteSets
  import opened Rdf
  import opened StottrAst
  import opened Subtypes
  import opened TextOrder

  // How IRIs name the datatypes that the subtype relation knows.
  type DatatypeNames = Iri -> DatatypeIri

  const RDFS_RESOURCE: Iri := "http://www.w3.org/2000/01/rdf-schema#Resource"
  const OTTR_BLANK_NODE: Iri := "http://ns.ottr.xyz/0.4/BlankNode"

  predicate NamesIri(i: Iri) {
    || i == "http://ns.ottr.xyz/0.4/IRI"
    || i == "http://www.w3.org/2002/07/owl#Class"
    || i == "http://www.w3.org/2002/07/owl#NamedIndividual"
    || i == "http://www.w3.org/2002/07/owl#ObjectProperty"
    || i == "http://www.w3.org/2002/07/owl#DatatypeProperty"
    || i == "http://www.w3.org/2002/07/owl#AnnotationProperty"
    || i == "http://www.w3.org/2000/01/rdf-schema#Class"
    || i == "http://www.w3.org/2000/01/rdf-schema#Datatype"
  }

  predicate PossiblyLiteral(i: Iri) { i != OTTR_BLANK_NODE && !NamesIri(i) }

  predicate IsIri(t: PType) { t.Basic? && NamesIri(t.iri) }

  predicate IsLiteralSubtypeExt(names: DatatypeNames, s: Iri, t: Iri) {
    PossiblyLiteral(s) && PossiblyLiteral(t) && IsLiteralSubtype(names(s), names(t))
  }

  datatype TemplateError =
    | TemplateNotFound(template: Iri, called: Iri)
    | InconsistentNumberOfArguments(template: Iri, called: Iri, given: nat, expected: nat)
    | IncompatibleTypes(template: Iri, variable: Var, left: PType, right: PType)

  // ----- the order on types -----

  function Codes(s: string): Symbols { seq(|s|, i requires 0 <= i < |s| => s[i] as int) }

  function Variant(t: PType): nat {
    match t
    case NoType => 0
    case Basic(_) => 1
    case Lub(_) => 2
    case ListOf(_) => 3
    case NonEmptyListOf(_) => 4
  }

  function CompareTypes(a: PType, b: PType): Ordering {
    if Variant(a) != Variant(b) then if Variant(a) < Variant(b) then Less else Greater
    else
      match a
      case NoType => Equal
      case Basic(i) => Compare(Codes(i), Codes(b.iri))
      case Lub(u) => CompareTypes(u, b.inner)
      case ListOf(u) => CompareTypes(u, b.inner)
      case NonEmptyListOf(u) => CompareTypes(u, b.inner)
  }

  // The left one when they are equal.
  function Min(a: PType, b: PType): PType { if CompareTypes(a, b) == Greater then b else a }

  // ----- the type of two uses -----

  function LubOf(names: DatatypeNames, template: Iri, v: Var, left: PType, right: PType): Result<PType, TemplateError> {
    if left == right || (IsIri(left) && IsIri(right)) then Ok(Min(left, right))
    else if left.Basic? && right.Basic? then
      if || left.iri == RDFS_RESOURCE || right.iri == RDFS_RESOURCE
         || IsLiteralSubtypeExt(names, left.iri, right.iri) || IsLiteralSubtypeExt(names, right.iri, left.iri)
      then Ok(Min(left, right))
      else Err(IncompatibleTypes(template, v, left, right))
    else if left.NonEmptyListOf? && right == Basic(RDFS_RESOURCE) then Ok(left)
    else if left.NonEmptyListOf? && (right.ListOf? || right.NonEmptyListOf?) then
      var inner :- LubOf(names, template, v, left.inner, right.inner);
      Ok(NonEmptyListOf(inner))
    else if left.ListOf? && right == Basic(RDFS_RESOURCE) then Ok(left)
    else if left.ListOf? && right.NonEmptyListOf? then
      var inner :- LubOf(names, template, v, left.inner, right.inner);
      Ok(NonEmptyListOf(inner))
    else if left.ListOf? && right.ListOf? then
      var inner :- LubOf(names, template, v, left.inner, right.inner);
      Ok(ListOf(inner))
    else Err(IncompatibleTypes(template, v, left, right))
  }

  // The parameter after a use that asks for a type, and whether it changed.
  function LubUpdate(names: DatatypeNames, template: Iri, v: Var, p: Parameter, right: PType)
    : Result<(Parameter, bool), TemplateError>
  {
    if p.ptype.None? then Ok((p.(ptype := Some(right)), true))
    else if p.ptype.value != right then
      var t :- LubOf(names, template, v, p.ptype.value, right);
      if p.ptype.value != t then Ok((p.(ptype := Some(t)), true)) else Ok((p, false))
    else Ok((p, false))
  }

  lemma {:induction false} LubErrors(names: DatatypeNames, template: Iri, v: Var, left: PType, right: PType)
    requires LubOf(names, template, v, left, right).Err?
    ensures LubOf(names, template, v, left, right).error.IncompatibleTypes?
    decreases left
  {
    if (left.ListOf? || left.NonEmptyListOf?) && (right.ListOf? || right.NonEmptyListOf?) {
      LubErrors(names, template, v, left.inner, right.inner);
    }
  }

  // The only error of an update is that the types do not combine.
  lemma UpdateErrors(names: DatatypeNames, template: Iri, v: Var, p: Parameter, right: PType)
    ensures LubUpdate(names, template, v, p, right).Err? ==> LubUpdate(names, template, v, p, right).error.IncompatibleTypes?
  {
    if p.ptype.Some? && LubOf(names, template, v, p.ptype.value, right).Err? {
      LubErrors(names, template, v, p.ptype.value, right);
    }
  }

  // ----- measures -----

  // Layers that can still become non-empty lists.
  function ListLayers(t: PType): nat {
    match t
    case ListOf(u) => 1 + ListLayers(u)
    case NonEmptyListOf(u) => ListLayers(u)
    case _ => 0
  }

  function TypeDepth(t: PType): nat {
    match t
    case ListOf(u) => 1 + TypeDepth(u)
    case NonEmptyListOf(u) => 1 + TypeDepth(u)
    case _ => 0
  }

  // The name inside the list layers, when there is one.
  function BaseNames(t: PType): set<Iri> {
    match t
    case Basic(i) => {i}
    case ListOf(u) => BaseNames(u)
    case NonEmptyListOf(u) => BaseNames(u)
    case _ => {}
  }

  predicate NameBelow(a: Iri, b: Iri) { Below(Codes(a), Codes(b)) }

  // How many of the names come before one.
  function NameRank(all: set<Iri>, i: Iri): nat { |SmallerNames(all, i)| }

  function SmallerNames(all: set<Iri>, i: Iri): set<Iri> { set n | n in all && NameBelow(n, i) }

  function TypeRank(all: set<Iri>, t: PType): nat {
    match t
    case Basic(i) => NameRank(all, i)
    case ListOf(u) => TypeRank(all, u)
    case NonEmptyListOf(u) => TypeRank(all, u)
    case _ => 0
  }

  function TypeWeight(all: set<Iri>, t: PType): nat { ListLayers(t) + TypeRank(all, t) }

  lemma CodesInjective(a: string, b: string)
    ensures Codes(a) == Codes(b) <==> a == b
  {
    if Codes(a) == Codes(b) {
      assert |a| == |Codes(a)| == |b|;
      forall i | 0 <= i < |a| ensures a[i] == b[i] { assert Codes(a)[i] == Codes(b)[i]; }
    }
  }

  lemma SmallerRank(all: set<Iri>, a: Iri, b: Iri)
    requires a in all && NameBelow(a, b)
    ensures NameRank(all, a) < NameRank(all, b)
  {
    forall n | n in SmallerNames(all, a) ensures n in SmallerNames(all, b) {
      BelowTransitive(Codes(n), Codes(a), Codes(b));
    }
    TotalOrder(Codes(a), Codes(a), Codes(a));
    assert a in SmallerNames(all, b) && a !in SmallerNames(all, a);
    SubsetSize(SmallerNames(all, a), SmallerNames(all, b));
  }

  // The smaller of two names is the first one, or ranks lower.
  lemma MinOfBasics(all: set<Iri>, a: Iri, b: Iri)
    requires a in all && b in all
    ensures var m := Min(Basic(a), Basic(b));
      m == Basic(a) || (m == Basic(b) && a != b && NameRank(all, b) < NameRank(all, a))
  {
    CodesInjective(a, b);
    CompareEqual(Codes(a), Codes(b));
    CompareFlips(Codes(b), Codes(a));
    if CompareTypes(Basic(a), Basic(b)) == Greater { SmallerRank(all, b, a); }
  }

  lemma {:induction false} CompareSame(t: PType)
    ensures CompareTypes(t, t) == Equal
  {
    match t {
      case NoType =>
      case Basic(i) => CompareEqual(Codes(i), Codes(i));
      case Lub(u) => CompareSame(u);
      case ListOf(u) => CompareSame(u);
      case NonEmptyListOf(u) => CompareSame(u);
    }
  }

  /** Combining types keeps the list depth and invents no name; the result is the left type or weighs less. */
  lemma {:induction false} LubDescends(names: DatatypeNames, template: Iri, v: Var, all: set<Iri>, left: PType, right: PType)
    requires BaseNames(left) <= all && BaseNames(right) <= all
    requires LubOf(names, template, v, left, right).Ok?
    ensures var t := LubOf(names, template, v, left, right).value;
      && TypeDepth(t) == TypeDepth(left)
      && BaseNames(t) <= all
      && ListLayers(t) <= ListLayers(left) && TypeRank(all, t) <= TypeRank(all, left)
      && (t == left || TypeWeight(all, t) < TypeWeight(all, left))
    decreases left
  {
    if left == right {
      CompareSame(left);
    } else if left.Basic? && right.Basic? {
      MinOfBasics(all, left.iri, right.iri);
    } else if (left.ListOf? || left.NonEmptyListOf?) && (right.ListOf? || right.NonEmptyListOf?) {
      LubDescends(names, template, v, all, left.inner, right.inner);
    }
  }

  lemma BasicAbsorbs(names: DatatypeNames, template: Iri, v: Var, left: PType, right: PType)
    requires left.Basic? && right.Basic? && LubOf(names, template, v, left, right).Ok?
    ensures var t := LubOf(names, template, v, left, right).value;
      LubOf(names, template, v, t, right) == Ok(t)
  {
    CompareSame(left);
    CompareSame(right);
  }

  lemma ListAbsorbs(names: DatatypeNames, template: Iri, v: Var, left: PType, right: PType, inner: PType)
    requires (left.ListOf? || left.NonEmptyListOf?) && (right.ListOf? || right.NonEmptyListOf?) && left != right
    requires LubOf(names, template, v, left.inner, right.inner) == Ok(inner)
    requires LubOf(names, template, v, inner, right.inner) == Ok(inner)
    ensures var t := LubOf(names, template, v, left, right).value;
      LubOf(names, template, v, t, right) == Ok(t)
  {
    CompareSame(right);
  }

  /** A second use that asks for the same type changes nothing. */
  lemma {:induction false} LubAbsorbs(names: DatatypeNames, template: Iri, v: Var, left: PType, right: PType)
    requires LubOf(names, template, v, left, right).Ok?
    ensures var t := LubOf(names, template, v, left, right).value;
      LubOf(names, template, v, t, right) == Ok(t)
    decreases left
  {
    if left == right {
      CompareSame(left);
    } else if left.Basic? && right.Basic? {
      BasicAbsorbs(names, template, v, left, right);
    } else if (left.ListOf? || left.NonEmptyListOf?) && (right.ListOf? || right.NonEmptyListOf?) {
      var inner := LubOf(names, template, v, left.inner, right.inner).value;
      LubAbsorbs(names, template, v, left.inner, right.inner);
      ListAbsorbs(names, template, v, left, right, inner);
    }
  }

  /** Repeating an update is a no-op. */
  lemma UpdateAbsorbs(names: DatatypeNames, template: Iri, v: Var, p: Parameter, right: PType)
    requires LubUpdate(names, template, v, p, right).Ok?
    ensures var q := LubUpdate(names, template, v, p, right).value.0;
      LubUpdate(names, template, v, q, right) == Ok((q, false))
  {
    if p.ptype.Some? && p.ptype.value != right { LubAbsorbs(names, template, v, p.ptype.value, right); }
  }

  predicate IsList(t: PType) { t.ListOf? || t.NonEmptyListOf? }

  // Inside equally many list layers, a list meets rdfs:Resource.
  predicate ListMeetsResource(left: PType, right: PType)
    decreases left
  {
    if IsList(left) && IsList(right) then ListMeetsResource(left.inner, right.inner)
    else (IsList(left) && right == Basic(RDFS_RESOURCE)) || (left == Basic(RDFS_RESOURCE) && IsList(right))
  }

  // Both orders combine to the same type, or neither combines.
  predicate CombineAlike(names: DatatypeNames, template: Iri, v: Var, left: PType, right: PType) {
    var a, b := LubOf(names, template, v, left, right), LubOf(names, template, v, right, left);
    (a.Ok? <==> b.Ok?) && (a.Ok? ==> a.value == b.value)
  }

  lemma MinSymmetric(a: Iri, b: Iri)
    ensures Min(Basic(a), Basic(b)) == Min(Basic(b), Basic(a))
  {
    CodesInjective(a, b);
    CompareEqual(Codes(a), Codes(b));
    CompareFlips(Codes(a), Codes(b));
    CompareFlips(Codes(b), Codes(a));
  }

  /** The combination is symmetric exactly when no list meets rdfs:Resource, which it absorbs on its right only. */
  lemma {:induction false} LubSymmetricExactly(names: DatatypeNames, template: Iri, v: Var, left: PType, right: PType)
    ensures CombineAlike(names, template, v, left, right) <==> !ListMeetsResource(left, right)
    decreases left
  {
    if left == right {
      SameNeverMeets(left);
    } else if left.Basic? && right.Basic? {
      MinSymmetric(left.iri, right.iri);
    } else if IsList(left) && IsList(right) {
      LubSymmetricExactly(names, template, v, left.inner, right.inner);
      ListsCombineAlike(names, template, v, left, right);
    }
  }

  lemma ListsCombineAlike(names: DatatypeNames, template: Iri, v: Var, left: PType, right: PType)
    requires IsList(left) && IsList(right) && left != right
    ensures CombineAlike(names, template, v, left, right) <==> CombineAlike(names, template, v, left.inner, right.inner)
  {
  }

  lemma {:induction false} SameNeverMeets(t: PType)
    ensures !ListMeetsResource(t, t)
  {
    if IsList(t) { SameNeverMeets(t.inner); }
  }

  /** Of two related names the combination is the supertype exactly when the supertype comes first in string order. */
  lemma LubIsSupertypeExactly(names: DatatypeNames, template: Iri, v: Var, s: Iri, t: Iri)
    requires s != t && IsLiteralSubtypeExt(names, s, t)
    ensures LubOf(names, template, v, Basic(s), Basic(t)) == Ok(Basic(t)) <==> NameBelow(t, s)
    ensures LubOf(names, template, v, Basic(s), Basic(t)) == Ok(Basic(s)) <==> NameBelow(s, t)
  {
    CodesInjective(s, t);
    CompareEqual(Codes(s), Codes(t));
    CompareFlips(Codes(s), Codes(t));
    CompareFlips(Codes(t), Codes(s));
  }

  // ----- exactly which types combine, and to what -----

  // The list layers from the outside in: whether each is a non-empty list.
  function Layers(t: PType): seq<bool> {
    match t
    case ListOf(u) => [false] + Layers(u)
    case NonEmptyListOf(u) => [true] + Layers(u)
    case _ => []
  }

  // What is inside the list layers.
  function Core(t: PType): PType { if IsList(t) then Core(t.inner) else t }

  function Wrapped(layers: seq<bool>, core: PType): PType {
    if layers == [] then core
    else if layers[0] then NonEmptyListOf(Wrapped(layers[1..], core)) else ListOf(Wrapped(layers[1..], core))
  }

  // Without its outer k layers.
  function Inside(t: PType, k: nat): PType
    requires k <= |Layers(t)|
  {
    if k == 0 then t else Inside(t.inner, k - 1)
  }

  predicate CoresCombine(names: DatatypeNames, l: PType, r: PType) {
    l == r || (IsIri(l) && IsIri(r)) ||
    (l.Basic? && r.Basic? &&
      (RDFS_RESOURCE in {l.iri, r.iri} || IsLiteralSubtypeExt(names, l.iri, r.iri) || IsLiteralSubtypeExt(names, r.iri, l.iri)))
  }

  /** At equal depth the cores must combine; rdfs:Resource combines with any list on its left, and nothing else does. */
  predicate Combines(names: DatatypeNames, left: PType, right: PType) {
    if |Layers(left)| == |Layers(right)| then CoresCombine(names, Core(left), Core(right))
    else |Layers(left)| > |Layers(right)| && Core(right) == Basic(RDFS_RESOURCE)
  }

  // A layer is non-empty when either side says so, as far as the right one goes.
  function JoinedLayers(l: seq<bool>, r: seq<bool>): seq<bool>
    requires |l| >= |r|
  {
    seq(|l|, k requires 0 <= k < |l| => l[k] || (k < |r| && r[k]))
  }

  function JoinedCore(left: PType, right: PType): PType {
    if |Layers(left)| == |Layers(right)| && Core(right).Basic? && Core(left).Basic?
      && NameBelow(Core(right).iri, Core(left).iri)
    then Core(right) else Core(left)
  }

  lemma {:induction false} WrappedAgain(t: PType)
    ensures Wrapped(Layers(t), Core(t)) == t
  {
    if IsList(t) { WrappedAgain(t.inner); }
  }

  lemma LeafLub(names: DatatypeNames, template: Iri, v: Var, left: PType, right: PType)
    requires !IsList(left)
    ensures LubOf(names, template, v, left, right).Ok? <==> Combines(names, left, right)
    ensures Combines(names, left, right) ==> LubOf(names, template, v, left, right) == Ok(JoinedCore(left, right))
    ensures !Combines(names, left, right) ==>
      LubOf(names, template, v, left, right) == Err(IncompatibleTypes(template, v, left, right))
  {
    if left.Basic? && right.Basic? {
      CodesInjective(left.iri, right.iri);
      CompareEqual(Codes(left.iri), Codes(right.iri));
      CompareFlips(Codes(left.iri), Codes(right.iri));
      CompareFlips(Codes(right.iri), Codes(left.iri));
    }
  }

  lemma OuterLayer(left: PType, right: PType)
    requires IsList(left) && IsList(right) && |Layers(left)| >= |Layers(right)|
    ensures Wrapped(JoinedLayers(Layers(left), Layers(right)), JoinedCore(left, right)) ==
      var inner := Wrapped(JoinedLayers(Layers(left.inner), Layers(right.inner)), JoinedCore(left.inner, right.inner));
      if left.NonEmptyListOf? || right.NonEmptyListOf? then NonEmptyListOf(inner) else ListOf(inner)
  {
    SameCores(left, right);
    OuterWrapped(Layers(left), Layers(right), JoinedCore(left, right));
  }

  lemma SameCores(left: PType, right: PType)
    requires IsList(left) && IsList(right)
    ensures JoinedCore(left, right) == JoinedCore(left.inner, right.inner)
    ensures Layers(left) == [left.NonEmptyListOf?] + Layers(left.inner)
    ensures Layers(right) == [right.NonEmptyListOf?] + Layers(right.inner)
  {
  }

  lemma OuterWrapped(l: seq<bool>, r: seq<bool>, core: PType)
    requires |l| >= |r| > 0
    ensures Wrapped(JoinedLayers(l, r), core) ==
      var inner := Wrapped(JoinedLayers(l[1..], r[1..]), core);
      if l[0] || r[0] then NonEmptyListOf(inner) else ListOf(inner)
  {
    assert JoinedLayers(l, r)[1..] == JoinedLayers(l[1..], r[1..]);
  }

  lemma {:induction false} SameLayers(t: PType)
    ensures JoinedLayers(Layers(t), Layers(t)) == Layers(t) && JoinedLayers(Layers(t), []) == Layers(t)
  {
  }

  /**
    Types combine exactly when their cores and depths allow it; the result has the layers of the left one, non-empty
    where either is, around the smaller core; an error names the parts that do not combine.
   */
  lemma {:induction false} LubExactly(names: DatatypeNames, template: Iri, v: Var, left: PType, right: PType)
    ensures LubOf(names, template, v, left, right).Ok? <==> Combines(names, left, right)
    ensures Combines(names, left, right) ==> |Layers(left)| >= |Layers(right)|
    ensures Combines(names, left, right) ==>
      LubOf(names, template, v, left, right)
        == Ok(Wrapped(JoinedLayers(Layers(left), Layers(right)), JoinedCore(left, right)))
    ensures !Combines(names, left, right) ==>
      var k := if |Layers(left)| < |Layers(right)| then |Layers(left)| else |Layers(right)|;
      LubOf(names, template, v, left, right) == Err(IncompatibleTypes(template, v, Inside(left, k), Inside(right, k)))
    decreases left
  {
    if left == right {
      EqualLub(names, template, v, left);
    } else if !IsList(left) {
      LeafLub(names, template, v, left, right);
    } else if IsList(right) {
      LubExactly(names, template, v, left.inner, right.inner);
      ListsLub(names, template, v, left, right);
      if Combines(names, left, right) { OuterLayer(left, right); }
    } else {
      WrappedAgain(left);
      SameLayers(left);
    }
  }

  // Two lists combine as what is in them does.
  lemma ListsLub(names: DatatypeNames, template: Iri, v: Var, left: PType, right: PType)
    requires IsList(left) && IsList(right) && left != right
    ensures Combines(names, left, right) <==> Combines(names, left.inner, right.inner)
    ensures var inner := LubOf(names, template, v, left.inner, right.inner);
      LubOf(names, template, v, left, right) ==
        if inner.Err? then Err(inner.error)
        else if left.NonEmptyListOf? || right.NonEmptyListOf? then Ok(NonEmptyListOf(inner.value))
        else Ok(ListOf(inner.value))
  {
  }

  // The type after a use: the one that is asked for, when there was none.
  function JoinedType(p: Parameter, right: PType): PType
    requires p.ptype.Some? ==> |Layers(p.ptype.value)| >= |Layers(right)|
  {
    if p.ptype.None? then right
    else Wrapped(JoinedLayers(Layers(p.ptype.value), Layers(right)), JoinedCore(p.ptype.value, right))
  }

  /** A use gives the parameter the joined type, fails exactly when the types do not combine, and tells a change. */
  lemma UpdateExactly(names: DatatypeNames, template: Iri, v: Var, p: Parameter, right: PType)
    ensures var r := LubUpdate(names, template, v, p, right);
      && (r.Ok? <==> p.ptype.None? || Combines(names, p.ptype.value, right))
      && (r.Ok? ==>
           && (p.ptype.Some? ==> |Layers(p.ptype.value)| >= |Layers(right)|)
           && r.value.0 == p.(ptype := Some(JoinedType(p, right))) && (r.value.1 <==> r.value.0 != p))
  {
    if p.ptype.Some? { LubExactly(names, template, v, p.ptype.value, right); }
  }

  lemma EqualLub(names: DatatypeNames, template: Iri, v: Var, t: PType)
    ensures LubOf(names, template, v, t, t) == Ok(t) && Combines(names, t, t)
    ensures Wrapped(JoinedLayers(Layers(t), Layers(t)), JoinedCore(t, t)) == t
  {
    WrappedAgain(t);
    SameLayers(t);
    CompareSame(t);
    if Core(t).Basic? { NotBelowItself(Core(t).iri); }
  }

  lemma NotBelowItself(i: Iri)
    ensures !NameBelow(i, i)
  {
    CompareFlips(Codes(i), Codes(i));
  }
}
