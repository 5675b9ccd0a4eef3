/** The stOTTR syntax tree: types, parameters, terms, arguments and instances. */
module StottrAst {
  import opened Wrappers
  import opened Rdf

  datatype PType =
    | NoType
    | Basic(iri: Iri)
    | Lub(inner: PType)
    | ListOf(inner: PType)
    | NonEmptyListOf(inner: PType)

  datatype ConstantTerm =
    | IriConstant(iri: Iri)
    | BlankConstant(id: string)
    | LiteralConstant(literal: Literal)
    | NoConstant

  datatype Constant = ConstantTerm(term: ConstantTerm) | ConstantList(items: seq<Constant>)

  datatype StottrTerm =
    | Variable(name: Var)
    | ConstantValue(constant: Constant)
    | TermList(items: seq<StottrTerm>)

  datatype ListExpander = Cross | ZipMin | ZipMax

  datatype Argument = Argument(listExpand: bool, term: StottrTerm)

  datatype Instance = Instance(expander: Option<ListExpander>, template: Iri, arguments: seq<Argument>)

  datatype Parameter = Parameter(
    optional: bool, nonBlank: bool, ptype: Option<PType>, variable: Var, default_: Option<Constant>)
}
