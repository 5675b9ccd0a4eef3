/** RDF terms, triples and graphs, and solutions (partial maps from variable names to terms). */
module Rdf {
  type Iri = string
  type Var = string

  // The datatype IRIs the subtype relation and the type analysis name; OtherDatatype is for any other IRI. Nothing is
  // proved from its IRI being another one, so what is said of all datatypes holds for every way to name them.
  datatype DatatypeIri =
    | RdfsLiteral | OwlReal | OwlRational
    | XsdBoolean | XsdString
    | XsdDecimal | XsdDouble | XsdFloat
    | XsdInteger | XsdLong | XsdInt | XsdShort | XsdByte
    | XsdNonNegativeInteger | XsdPositiveInteger
    | XsdUnsignedLong | XsdUnsignedInt | XsdUnsignedShort | XsdUnsignedByte
    | XsdNonPositiveInteger | XsdNegativeInteger
    | XsdDuration | XsdYearMonthDuration | XsdDayTimeDuration
    | XsdDateTime | XsdDateTimeStamp
    | OtherDatatype(iri: Iri)

  datatype Literal = Literal(lexical: string, datatypeIri: DatatypeIri, language: string)

  datatype Term =
    | NamedNode(iri: Iri)
    | BlankNode(id: string)
    | LiteralTerm(literal: Literal)

  // What a caller may substitute for a variable: never a blank node.
  datatype GroundTerm =
    | GroundNode(iri: Iri)
    | GroundLiteral(literal: Literal)

  function ToTerm(t: GroundTerm): Term {
    match t
    case GroundNode(n) => NamedNode(n)
    case GroundLiteral(l) => LiteralTerm(l)
  }

  function BoolLiteral(b: bool): Literal {
    Literal(if b then "true" else "false", XsdBoolean, "")
  }

  datatype Triple = Triple(subj: Term, pred: Term, obj: Term)

  type Graph = set<Triple>

  function Nodes(g: Graph): set<Term> {
    (set t | t in g :: t.subj) + (set t | t in g :: t.obj)
  }

  type Solution = map<Var, Term>

  ghost predicate Compatible(a: Solution, b: Solution) {
    forall v :: v in a && v in b ==> a[v] == b[v]
  }

  function Restrict(mu: Solution, vs: set<Var>): Solution {
    map v | v in mu && v in vs :: mu[v]
  }
}
