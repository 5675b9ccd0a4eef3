/** What values a template type admits, and what that says of the types that inference gives. */
module TemplateMeaning {
  import opened Wrappers
  import opened Rdf
  import opened StottrAst
  import opened TemplateTypes
  import opened TemplateInference

  // What a parameter may be given.
  datatype Given = One(term: Term) | Many(items: seq<Given>)

  // Which terms a basic type has.
  type Members = (Iri, Term) -> bool

  /** rdfs:Resource admits everything; lists have elements of the inner type. */
  predicate Admits(basic: Members, t: PType, x: Given) {
    match t
    case NoType => false
    case Basic(i) => i == RDFS_RESOURCE || (x.One? && basic(i, x.term))
    case Lub(u) => Admits(basic, u, x)
    case ListOf(u) => x.Many? && forall y :: y in x.items ==> Admits(basic, u, y)
    case NonEmptyListOf(u) => x.Many? && x.items != [] && forall y :: y in x.items ==> Admits(basic, u, y)
  }

  /** A list that is expanded hands its elements to the parameter one by one; only an optional one may get none. */
  predicate Suits(basic: Members, expand: bool, other: Parameter, x: Given)
    requires other.ptype.Some?
  {
    if !expand then Admits(basic, other.ptype.value, x)
    else x.Many? && (forall y :: y in x.items ==> Admits(basic, other.ptype.value, y)) && (x.items == [] ==> other.optional)
  }

  /** The type that a use asks for admits exactly what suits the parameter that it is handed to. */
  lemma RequiredExactly(basic: Members, expand: bool, other: Parameter, x: Given)
    requires other.ptype.Some?
    ensures Admits(basic, Required(expand, other), x) <==> Suits(basic, expand, other, x)
  {
  }

  // The layers of one type continue in, or are those of, the other, around one core; rdfs:Resource leaves all open.
  predicate SameCore(left: PType, right: PType) {
    |Layers(left)| == |Layers(right)| ==> Core(left) == Core(right)
  }

  /** Types with one core combine to what both admit. */
  lemma {:induction false} CombinedAdmitsBoth(
    names: DatatypeNames, template: Iri, v: Var, basic: Members, left: PType, right: PType, x: Given)
    requires LubOf(names, template, v, left, right).Ok? && SameCore(left, right)
    ensures Admits(basic, LubOf(names, template, v, left, right).value, x) <==>
      Admits(basic, left, x) && Admits(basic, right, x)
    decreases left
  {
    LubExactly(names, template, v, left, right);
    if IsList(left) && IsList(right) && left != right {
      if x.Many? {
        forall y | y in x.items
          ensures Admits(basic, LubOf(names, template, v, left.inner, right.inner).value, y) <==>
            Admits(basic, left.inner, y) && Admits(basic, right.inner, y)
        {
          CombinedAdmitsBoth(names, template, v, basic, left.inner, right.inner, y);
        }
      }
    } else if left == right {
      CompareSame(left);
    }
  }
}
