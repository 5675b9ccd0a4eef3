/** stOTTR as it may be written: keywords in any case, variables with either mark, and blanks between tokens. */
module StottrSpelling {
  import opened Wrappers
  import opened Rdf
  import opened StottrAst
  import opened Tokens
  import opened StottrSyntax
  import opened StottrDeclarations

  function Gap(n: nat, k: Text): Text { if n == 0 then k else Then(Blank, Gap(n - 1, k)) }

  lemma {:induction false} GapSkipped(n: nat, k: Text)
    ensures Skip(Gap(n, k)) == Skip(k)
  {
    if n > 0 { GapSkipped(n - 1, k); }
  }

  lemma {:induction false} Blanks(ts: Text) returns (n: nat)
    ensures ts == Gap(n, Skip(ts))
  {
    if ts.Then? && ts.token.Blank? {
      var m := Blanks(ts.tail);
      n := m + 1;
    } else {
      n := 0;
    }
  }

  // ----- words -----

  lemma OneLetter(w: string)
    ensures Fold(w) == "a" <==> w == "a" || w == "A"
  {
    if Fold(w) == "a" {
      assert |Fold(w)| == |w| == 1 && Fold(w)[0] == Lower(w[0]) == 'a';
      assert w == [w[0]];
    }
    if w == "a" || w == "A" { assert Fold(w) == [Lower(w[0])]; }
  }

  // The constant that a word stands for.
  function WordConstant(w: string): Option<ConstantTerm> {
    if w == "true" then Some(LiteralConstant(BoolLiteral(true)))
    else if w == "false" then Some(LiteralConstant(BoolLiteral(false)))
    else if w == "a" || w == "A" then Some(IriConstant(RDF_TYPE))
    else None
  }

  /** Of all words, only true, false and the letter a in either case are terms: two booleans and rdf:type. */
  lemma WordsRead(w: string, k: Text)
    ensures ParseTerm(Then(Word(w), k)) ==
      if WordConstant(w).Some? then Read(ConstantValue(ConstantTerm(WordConstant(w).value)), k) else Fail
  {
    OneLetter(w);
    assert ParseConstantList(Then(Word(w), k)).Fail? && ParseTermList(Then(Word(w), k)).Fail?;
  }

  /** A variable may be marked by a question mark or a dollar sign. */
  lemma VariablesRead(mark: Token, v: Var, k: Text)
    requires mark == Question || mark == Dollar
    ensures ParseTerm(Then(mark, Then(Word(v), k))) == Read(Variable(v), k)
  {
  }

  /** An expanded argument may have any number of blanks before its term. */
  lemma ExpandedRead(n: nat, t: StottrTerm, k: Text)
    ensures ParseArgument(Then(Expand, Gap(n, PrintTerm(t, k)))) == Outcome(NormalArgument(Argument(true, t)), k)
  {
    GapSkipped(n, PrintTerm(t, k));
    TermStarts(t, k);
    TermRoundTrip(t, k);
  }

  predicate SpellsExpander(w: string, e: ListExpander) { Fold(w) == Fold(ExpanderWord(e)) }

  /** An expander is read exactly from its keyword in any case, blanks and a bar. */
  lemma ExpandersRead(ts: Text, e: ListExpander, k: Text)
    ensures ParseExpander(ts) == Read(e, k) <==>
      exists w, n :: SpellsExpander(w, e) && ts == Then(Word(w), Gap(n, Then(Bar, k)))
  {
    ExpanderKeywords();
    assert Fold("zipMax") != "zipmin" && Fold("zipMin") != "cross" && Fold("zipMax") != "cross";
    if ParseExpander(ts) == Read(e, k) {
      var n := Blanks(ts.tail);
      assert SpellsExpander(ts.token.chars, e) && ts == Then(Word(ts.token.chars), Gap(n, Then(Bar, k)));
    }
    if exists w, n :: SpellsExpander(w, e) && ts == Then(Word(w), Gap(n, Then(Bar, k))) {
      var w, n :| SpellsExpander(w, e) && ts == Then(Word(w), Gap(n, Then(Bar, k)));
      GapSkipped(n, Then(Bar, k));
      assert Skip(Then(Bar, k)) == Then(Bar, k);
    }
  }

  // ----- types -----

  datatype TypeTree =
    | NameType(iri: Iri)
    | TypeOf(word: string, before: nat, open: nat, inner: TypeTree, close: nat)

  function TypeText(t: TypeTree, k: Text): Text {
    match t
    case NameType(i) => Then(IriToken(i), k)
    case TypeOf(w, before, open, u, close) =>
      Then(Word(w), Gap(before, Then(Less, Gap(open, TypeText(u, Gap(close, Then(Greater, k)))))))
  }

  // The type that a tree stands for, when its words are keywords in some case.
  function TypeValue(t: TypeTree): Option<PType> {
    match t
    case NameType(i) => Some(Basic(i))
    case TypeOf(w, _, _, u, _) =>
      var inner := TypeValue(u);
      if inner.None? then None
      else if Fold(w) == Fold("List") then Some(ListOf(inner.value))
      else if Fold(w) == Fold("NEList") then Some(NonEmptyListOf(inner.value))
      else if Fold(w) == Fold("LUB") then Some(Lub(inner.value))
      else None
  }

  lemma TypeTextStarts(t: TypeTree, k: Text)
    ensures Skip(TypeText(t, k)) == TypeText(t, k)
  {
  }

  lemma {:induction false} TypesRead(t: TypeTree, k: Text)
    requires TypeValue(t).Some?
    ensures ParseType(TypeText(t, k)) == Read(TypeValue(t).value, k)
  {
    if t.TypeOf? {
      var end := Gap(t.close, Then(Greater, k));
      var inner := TypeText(t.inner, end);
      TypesRead(t.inner, end);
      TypeTextStarts(t.inner, end);
      GapSkipped(t.close, Then(Greater, k));
      GapSkipped(t.open, inner);
      GapSkipped(t.before, Then(Less, Gap(t.open, inner)));
      TypeArgument(Gap(t.before, Then(Less, Gap(t.open, inner))), Gap(t.open, inner), TypeValue(t.inner).value, end, k);
      KeywordRead(t, Gap(t.before, Then(Less, Gap(t.open, inner))), k);
    }
  }

  lemma KeywordRead(t: TypeTree, ts: Text, k: Text)
    requires t.TypeOf? && TypeValue(t).Some? && ParseTypeArgument(ts) == Read(TypeValue(t.inner).value, k)
    ensures ParseType(Then(Word(t.word), ts)) == Read(TypeValue(t).value, k)
  {
    TypeKeywords();
  }

  lemma TypeArgument(ts: Text, inner: Text, u: PType, rest: Text, k: Text)
    requires Skip(ts) == Then(Less, inner) && ParseType(Skip(inner)) == Read(u, rest) && Skip(rest) == Then(Greater, k)
    ensures ParseTypeArgument(ts) == Read(u, k)
  {
  }

  lemma {:induction false} TypesDerived(ts: Text) returns (t: TypeTree)
    requires ParseType(ts).Read?
    ensures TypeValue(t) == Some(ParseType(ts).value) && ts == TypeText(t, ParseType(ts).rest)
    decreases Len(ts)
  {
    TypeKeywords();
    if ParseIri(ts).Read? {
      t := NameType(ts.token.iri);
    } else {
      var open := Skip(ts.tail);
      var u := ParseType(Skip(open.tail));
      var inner := TypesDerived(Skip(open.tail));
      var before := Blanks(ts.tail);
      var after := Blanks(open.tail);
      var close := Blanks(u.rest);
      t := TypeOf(ts.token.chars, before, after, inner, close);
    }
  }

  /** A type is read exactly from its keywords in any case, with any blanks between the tokens. */
  lemma TypesReadExactly(ts: Text, p: PType, k: Text)
    ensures ParseType(ts) == Read(p, k) <==> exists t :: TypeValue(t) == Some(p) && ts == TypeText(t, k)
  {
    if ParseType(ts) == Read(p, k) { var t := TypesDerived(ts); }
    if exists t :: TypeValue(t) == Some(p) && ts == TypeText(t, k) {
      var t :| TypeValue(t) == Some(p) && ts == TypeText(t, k);
      TypesRead(t, k);
    }
  }

  // ----- parameters -----

  // Marks before a question mark, whatever comes after it.
  lemma MarkedNotPlain(n: nat, p: Parameter, k: Text)
    ensures ParseNonOptional(Then(Bang, Gap(n, Then(Question, PrintDeclared(p, k))))).Fail?
  {
    var rest := Then(Question, PrintDeclared(p, k));
    GapSkipped(n, rest);
    assert Skip(rest) == rest && ParseType(rest).Fail? && ParseVar(rest).Fail?;
    SkipTwice(Gap(n, rest));
  }

  /** The marks of an optional parameter that is no blank node may also come in the other order, with blanks between. */
  lemma ReversedMarksRead(n: nat, p: Parameter, k: Text)
    requires p.optional && p.nonBlank && CompleteParameter(p) && EndsParameter(k)
    ensures ReadsParameter(ParseParameter(Then(Bang, Gap(n, Then(Question, PrintDeclared(p, k))))), p, k)
  {
    var rest := Then(Question, PrintDeclared(p, k));
    MarkedNotPlain(n, p, k);
    GapSkipped(n, rest);
    DeclaredRead(p, k);
    assert Skip(rest) == rest;
  }
}
