/** Texts as tokens, shared by the path and the stOTTR grammars. */
module Tokens {
  import opened Rdf

  // Blanks are kept: a question mark directly before a word starts a variable.
  datatype Token =
    | IriToken(iri: Iri)
    | LiteralToken(literal: Literal)
    | BlankToken(id: string)
    | Word(chars: string)
    | Blank
    | Open | Close | Caret | Slash | Bar | Star | Plus | Question | Bang
    | Comma | Less | Greater | Dollar | Equals | Expand

  datatype Text = End | Then(token: Token, tail: Text)

  // What a rule read, and what is left.
  datatype Parsed<T> = Fail | Read(value: T, rest: Text)

  const RDF_TYPE: Iri := "http://www.w3.org/1999/02/22-rdf-syntax-ns#type"

  function Len(ts: Text): nat {
    if ts.End? then 0 else 1 + Len(ts.tail)
  }

  function Skip(ts: Text): (r: Text)
    ensures Len(r) <= Len(ts)
  {
    if ts.Then? && ts.token.Blank? then Skip(ts.tail) else ts
  }

  lemma {:induction false} SkipTwice(ts: Text)
    ensures Skip(Skip(ts)) == Skip(ts)
  {
    if ts.Then? && ts.token.Blank? { SkipTwice(ts.tail); }
  }

  predicate Starts(ts: Text, t: Token) { ts.Then? && ts.token == t }
}
