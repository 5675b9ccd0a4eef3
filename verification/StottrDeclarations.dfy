/** Instances, types and parameters of stOTTR: printing and parsing back. */
module StottrDeclarations {
  import opened Wrappers
  import opened Rdf
  import opened StottrAst
  import opened Tokens
  import opened StottrSyntax

  // ----- the normal form prints like the term -----

  lemma {:induction false} ConstantPrintsSame(t: StottrTerm, k: Text)
    requires AsConstant(t).Some?
    ensures PrintConstant(AsConstant(t).value, k) == PrintTerm(t, k)
    decreases t, 1
  {
    if t.TermList? { ConstantsPrintSame(t.items, Then(Close, k)); }
  }

  lemma {:induction false} ConstantsPrintSame(ts: seq<StottrTerm>, k: Text)
    requires AsConstants(ts).Some?
    ensures PrintConstants(AsConstants(ts).value, k) == PrintTerms(ts, k)
    decreases ts, 0
  {
    if ts != [] {
      var cs := AsConstants(ts).value;
      assert cs[1..] == AsConstants(ts[1..]).value;
      ConstantPrintsSame(ts[0], AfterFirst(ts, k));
      ConstantsPrintSame(ts[1..], k);
    }
  }

  lemma {:induction false} NormalPrintsSame(t: StottrTerm, k: Text)
    requires Normal(t).Some?
    ensures PrintTerm(Normal(t).value, k) == PrintTerm(t, k)
    decreases t, 1
  {
    if AsConstant(t).Some? {
      ConstantPrintsSame(t, k);
    } else if t.TermList? {
      NormalsPrintSame(t.items, Then(Close, k));
    }
  }

  lemma {:induction false} NormalsPrintSame(ts: seq<StottrTerm>, k: Text)
    requires Normals(ts).Some?
    ensures PrintTerms(Normals(ts).value, k) == PrintTerms(ts, k)
    decreases ts, 0
  {
    if ts != [] {
      var ns := Normals(ts).value;
      assert ns[1..] == Normals(ts[1..]).value;
      NormalPrintsSame(ts[0], AfterFirst(ts, k));
      NormalsPrintSame(ts[1..], k);
    }
  }

  /** Normal forms are final, and are read back exactly as they are. */
  lemma NormalIsFinal(t: StottrTerm, k: Text)
    requires Normal(t).Some?
    ensures Normal(Normal(t).value) == Normal(t)
    ensures ParseTerm(PrintTerm(Normal(t).value, k)) == Read(Normal(t).value, k)
  {
    NormalPrintsSame(t, k);
    TermRoundTrip(t, k);
    TermRoundTrip(Normal(t).value, k);
  }

  // ----- arguments and instances -----

  function PrintArgument(a: Argument, k: Text): Text {
    if a.listExpand then Then(Expand, Then(Blank, PrintTerm(a.term, k))) else PrintTerm(a.term, k)
  }

  function PrintArguments(args: seq<Argument>, k: Text): Text {
    if args == [] then k
    else if |args| == 1 then PrintArgument(args[0], k)
    else PrintArgument(args[0], Then(Comma, Then(Blank, PrintArguments(args[1..], k))))
  }

  function ExpanderWord(e: ListExpander): string {
    match e
    case Cross => "cross"
    case ZipMin => "zipMin"
    case ZipMax => "zipMax"
  }

  function PrintInstance(i: Instance, k: Text): Text {
    var body := Then(IriToken(i.template), Then(Open, PrintArguments(i.arguments, Then(Close, k))));
    if i.expander.Some? then Then(Word(ExpanderWord(i.expander.value)), Then(Blank, Then(Bar, Then(Blank, body)))) else body
  }

  function ParseArgument(ts: Text): (r: Parsed<Argument>)
    ensures r.Read? ==> Len(r.rest) < Len(ts)
  {
    var expand := Starts(ts, Expand);
    var t := ParseTerm(Skip(if expand then ts.tail else ts));
    if t.Read? then Read(Argument(expand, t.value), t.rest) else Fail
  }

  function ParseArguments(ts: Text): (r: Parsed<seq<Argument>>)
    ensures r.Read? && Len(r.rest) <= Len(ts)
  {
    var first := ParseArgument(ts);
    if first.Fail? then Read([], ts) else MoreArguments([first.value], first.rest)
  }

  function MoreArguments(args: seq<Argument>, ts: Text): (r: Parsed<seq<Argument>>)
    ensures r.Read? && Len(r.rest) <= Len(ts)
    decreases Len(ts)
  {
    var sep := Skip(ts);
    if !Starts(sep, Comma) then Read(args, ts)
    else
      var next := ParseArgument(Skip(sep.tail));
      if next.Fail? then Read(args, ts) else MoreArguments(args + [next.value], next.rest)
  }

  function ParseExpander(ts: Text): (r: Parsed<ListExpander>)
    ensures r.Read? ==> Len(r.rest) < Len(ts)
  {
    if ts.Then? && Starts(Skip(ts.tail), Bar) then
      var rest := Skip(ts.tail).tail;
      if StartsWord(ts, "cross") then Read(Cross, rest)
      else if StartsWord(ts, "zipmin") then Read(ZipMin, rest)
      else if StartsWord(ts, "zipmax") then Read(ZipMax, rest)
      else Fail
    else Fail
  }

  function ParseIri(ts: Text): (r: Parsed<Iri>)
    ensures r.Read? ==> Len(r.rest) < Len(ts)
  {
    if ts.Then? && ts.token.IriToken? then Read(ts.token.iri, ts.tail) else Fail
  }

  // The template name and its parenthesised arguments, after the optional expander.
  function ParseApplication(expander: Option<ListExpander>, ts: Text): Parsed<Instance> {
    var iri := ParseIri(ts);
    if iri.Fail? || !Starts(Skip(iri.rest), Open) then Fail
    else
      var args := ParseArguments(Skip(Skip(iri.rest).tail));
      if Starts(Skip(args.rest), Close) then
        Read(Instance(expander, iri.value, args.value), Skip(args.rest).tail)
      else Fail
  }

  function ParseInstance(ts: Text): Parsed<Instance> {
    var e := ParseExpander(ts);
    if e.Read? then ParseApplication(Some(e.value), Skip(e.rest)) else ParseApplication(None, Skip(ts))
  }

  function NormalArgument(a: Argument): Option<Argument> {
    var n := Normal(a.term);
    if n.Some? then Some(a.(term := n.value)) else None
  }

  function NormalArguments(args: seq<Argument>): (r: Option<seq<Argument>>)
    ensures r.Some? ==> |r.value| == |args|
  {
    if args == [] then Some([])
    else
      var a, rest := NormalArgument(args[0]), NormalArguments(args[1..]);
      if a.Some? && rest.Some? then Some([a.value] + rest.value) else None
  }

  function NormalInstance(i: Instance): Option<Instance> {
    var args := NormalArguments(i.arguments);
    if args.Some? then Some(i.(arguments := args.value)) else None
  }

  /** Parsing a printed argument returns it with its term in normal form. */
  lemma ArgumentRoundTrip(a: Argument, k: Text)
    ensures ParseArgument(PrintArgument(a, k)) == Outcome(NormalArgument(a), k)
    ensures StartsItem(PrintArgument(a, k)) && Skip(PrintArgument(a, k)) == PrintArgument(a, k)
  {
    TermStarts(a.term, k);
    TermRoundTrip(a.term, k);
    var text := PrintTerm(a.term, k);
    assert Skip(Then(Blank, text)) == Skip(text);
    assert PrintTerm(a.term, k).token != Expand;
  }

  function AfterFirstArgument(args: seq<Argument>, k: Text): Text
    requires args != []
  {
    if |args| == 1 then k else Then(Comma, Then(Blank, PrintArguments(args[1..], k)))
  }

  // One more argument after a comma and a blank, when there is one to be read.
  lemma ArgumentTaken(before: seq<Argument>, ts: Text, a: Option<Argument>, rest: Text)
    requires Skip(ts) == ts && ParseArgument(ts) == Outcome(a, rest)
    ensures MoreArguments(before, Then(Comma, Then(Blank, ts))) ==
      if a.Some? then MoreArguments(before + [a.value], rest) else Read(before, Then(Comma, Then(Blank, ts)))
  {
    assert Skip(Then(Blank, ts)) == Skip(ts);
  }

  lemma {:induction false} MoreArgumentsRead(before: seq<Argument>, args: seq<Argument>, k: Text)
    ensures var text := if args == [] then Then(Close, k) else Then(Comma, Then(Blank, PrintArguments(args, Then(Close, k))));
      ReadsItems(MoreArguments(before, text), before, NormalArguments(args), k)
    decreases |args|
  {
    if args == [] {
      assert before + [] == before;
    } else {
      var text, rest := PrintArguments(args, Then(Close, k)), AfterFirstArgument(args, Then(Close, k));
      ArgumentRoundTrip(args[0], rest);
      var a := NormalArgument(args[0]);
      ArgumentTaken(before, text, a, rest);
      if a.Some? {
        MoreArgumentsRead(before + [a.value], args[1..], k);
        ReadsItemsMore(MoreArguments(before + [a.value], rest), before, a.value, NormalArguments(args[1..]), k);
      }
    }
  }

  lemma ArgumentsRead(args: seq<Argument>, k: Text)
    ensures var text := PrintArguments(args, Then(Close, k));
      Skip(text) == text && ReadsItems(ParseArguments(text), [], NormalArguments(args), k)
  {
    var text := PrintArguments(args, Then(Close, k));
    if args == [] {
      NoTermAtClose(k);
      assert ParseArgument(text).Fail?;
    } else {
      ArgumentRoundTrip(args[0], AfterFirstArgument(args, Then(Close, k)));
      var a := NormalArgument(args[0]);
      if a.Some? {
        MoreArgumentsRead([a.value], args[1..], k);
        if NormalArguments(args).Some? {
          assert [] + NormalArguments(args).value == [a.value] + NormalArguments(args[1..]).value;
        }
      }
    }
  }

  lemma ExpanderKeywords()
    ensures Fold("cross") == "cross" && Fold("zipMin") == "zipmin" && Fold("zipMax") == "zipmax"
    ensures |"cross"| != |"zipmin"| && "zipmin"[4] != "zipmax"[4]
  {
  }

  lemma ExpanderRead(e: ListExpander, k: Text)
    ensures ParseExpander(Then(Word(ExpanderWord(e)), Then(Blank, Then(Bar, k)))) == Read(e, k)
  {
    ExpanderKeywords();
    var rest := Then(Bar, k);
    assert Skip(Then(Blank, rest)) == Skip(rest) == rest;
    assert Fold("zipMax") != "zipmin" && Fold("zipMin") != "cross" && Fold("zipMax") != "cross";
  }

  // A template name and a text that is read as arguments, or not, up to a closing parenthesis.
  lemma ApplicationText(expander: Option<ListExpander>, iri: Iri, ts: Text, args: Option<seq<Argument>>, k: Text)
    requires Skip(ts) == ts && ReadsItems(ParseArguments(ts), [], args, k)
    ensures ParseApplication(expander, Then(IriToken(iri), Then(Open, ts))) ==
      if args.Some? then Read(Instance(expander, iri, args.value), k) else Fail
  {
    assert args.Some? ==> [] + args.value == args.value;
  }

  lemma ApplicationRead(i: Instance, k: Text)
    ensures var body := Then(IriToken(i.template), Then(Open, PrintArguments(i.arguments, Then(Close, k))));
      ParseApplication(i.expander, body) == Outcome(NormalInstance(i), k)
  {
    ArgumentsRead(i.arguments, k);
    ApplicationText(i.expander, i.template, PrintArguments(i.arguments, Then(Close, k)), NormalArguments(i.arguments), k);
  }

  /** Parsing a printed instance returns it with its arguments in normal form, and fails when a constant is missing. */
  lemma InstanceRoundTrip(i: Instance, k: Text)
    ensures ParseInstance(PrintInstance(i, k)) == Outcome(NormalInstance(i), k)
  {
    var body := Then(IriToken(i.template), Then(Open, PrintArguments(i.arguments, Then(Close, k))));
    ApplicationRead(i, k);
    assert Skip(body) == body;
    if i.expander.Some? {
      ExpanderRead(i.expander.value, Then(Blank, body));
      assert Skip(Then(Blank, body)) == Skip(body);
    }
  }

  // ----- types -----

  function PrintType(t: PType, k: Text): Text {
    match t
    case NoType => k
    case Basic(i) => Then(IriToken(i), k)
    case Lub(u) => Then(Word("LUB"), Then(Less, PrintType(u, Then(Greater, k))))
    case ListOf(u) => Then(Word("List"), Then(Less, PrintType(u, Then(Greater, k))))
    case NonEmptyListOf(u) => Then(Word("NEList"), Then(Less, PrintType(u, Then(Greater, k))))
  }

  function ParseType(ts: Text): (r: Parsed<PType>)
    ensures r.Read? ==> Len(r.rest) < Len(ts)
    decreases Len(ts), 1
  {
    var iri := ParseIri(ts);
    if iri.Read? then Read(Basic(iri.value), iri.rest)
    else if StartsWord(ts, "list") then
      var u := ParseTypeArgument(ts.tail);
      if u.Read? then Read(ListOf(u.value), u.rest) else Fail
    else if StartsWord(ts, "nelist") then
      var u := ParseTypeArgument(ts.tail);
      if u.Read? then Read(NonEmptyListOf(u.value), u.rest) else Fail
    else if StartsWord(ts, "lub") then
      var u := ParseTypeArgument(ts.tail);
      if u.Read? then Read(Lub(u.value), u.rest) else Fail
    else Fail
  }

  function ParseTypeArgument(ts: Text): (r: Parsed<PType>)
    ensures r.Read? ==> Len(r.rest) < Len(ts)
    decreases Len(ts), 2
  {
    var open := Skip(ts);
    if !Starts(open, Less) then Fail
    else
      var u := ParseType(Skip(open.tail));
      if u.Read? && Starts(Skip(u.rest), Greater) then Read(u.value, Skip(u.rest).tail) else Fail
  }

  predicate CompleteType(t: PType) {
    match t
    case NoType => false
    case Basic(_) => true
    case Lub(u) => CompleteType(u)
    case ListOf(u) => CompleteType(u)
    case NonEmptyListOf(u) => CompleteType(u)
  }

  lemma TypeKeywords()
    ensures Fold("List") == "list" && Fold("NEList") == "nelist" && Fold("LUB") == "lub"
    ensures |"list"| != |"nelist"| && |"list"| != |"lub"| && |"nelist"| != |"lub"|
  {
  }

  // A blank inside a printed type would be skipped; there is none at its start.
  lemma TypeStarts(t: PType, k: Text)
    requires t != NoType
    ensures Skip(PrintType(t, k)) == PrintType(t, k)
  {
  }

  /** A printed type is read back exactly, and fails when a type inside it is missing. */
  lemma {:induction false} TypeRoundTrip(t: PType, k: Text)
    requires t != NoType
    ensures ParseType(PrintType(t, k)) == (if CompleteType(t) then Read(t, k) else Fail)
    decreases t, 0
  {
    TypeKeywords();
    match t {
      case Basic(_) =>
      case Lub(u) => TypeArgumentRead(u, k);
      case ListOf(u) => TypeArgumentRead(u, k);
      case NonEmptyListOf(u) => TypeArgumentRead(u, k);
    }
  }

  lemma {:induction false} TypeArgumentRead(u: PType, k: Text)
    ensures ParseTypeArgument(Then(Less, PrintType(u, Then(Greater, k)))) == (if CompleteType(u) then Read(u, k) else Fail)
    decreases u, 1
  {
    if u != NoType {
      TypeStarts(u, Then(Greater, k));
      TypeRoundTrip(u, Then(Greater, k));
    }
  }

  // ----- parameters -----

  function PrintParameter(p: Parameter, k: Text): Text {
    var rest := Then(Question, Then(Word(p.variable), PrintDefault(p.default_, k)));
    var typed := if p.ptype.Some? then Then(Blank, PrintType(p.ptype.value, Then(Blank, rest))) else rest;
    var marked := if p.nonBlank then Then(Bang, typed) else typed;
    if p.optional then Then(Question, marked) else marked
  }

  function PrintDefault(d: Option<Constant>, k: Text): Text {
    if d.Some? then Then(Blank, Then(Equals, Then(Blank, PrintConstant(d.value, k)))) else k
  }

  // Everything after the marks: an optional type, the variable, an optional default.
  function ParseDeclared(ts: Text): Parsed<Parameter> {
    var t := ParseType(Skip(ts));
    var v := ParseVar(Skip(if t.Read? then t.rest else Skip(ts)));
    if v.Fail? then Fail
    else
      var d := ParseDefault(Skip(v.rest));
      Read(
        Parameter(false, false, if t.Read? then Some(t.value) else None, v.value, if d.Read? then Some(d.value) else None),
        if d.Read? then d.rest else Skip(v.rest))
  }

  function ParseDefault(ts: Text): Parsed<Constant> {
    if Starts(ts, Equals) then ParseConstant(Skip(ts.tail)) else Fail
  }

  function Marked(r: Parsed<Parameter>, optional: bool, nonBlank: bool): Parsed<Parameter> {
    if r.Read? then Read(r.value.(optional := optional, nonBlank := nonBlank), r.rest) else Fail
  }

  function ParseNonOptional(ts: Text): Parsed<Parameter> {
    var bang := Starts(ts, Bang);
    Marked(ParseDeclared(if bang then ts.tail else ts), false, bang)
  }

  function ParseOptional(ts: Text): Parsed<Parameter> {
    if !Starts(ts, Question) then Fail
    else
      var rest := Skip(ts.tail);
      var bang := Starts(rest, Bang);
      Marked(ParseDeclared(if bang then rest.tail else rest), true, bang)
  }

  function ParseOptionalReversed(ts: Text): Parsed<Parameter> {
    var bang := Starts(ts, Bang);
    var rest := Skip(if bang then ts.tail else ts);
    if !Starts(rest, Question) then Fail
    else Marked(ParseDeclared(rest.tail), true, bang)
  }

  function ParseParameter(ts: Text): Parsed<Parameter> {
    var a := ParseNonOptional(ts);
    if a.Read? then a
    else
      var b := ParseOptional(ts);
      if b.Read? then b else ParseOptionalReversed(ts)
  }

  predicate CompleteParameter(p: Parameter) {
    && (p.ptype.Some? ==> CompleteType(p.ptype.value))
    && (p.default_.Some? ==> Complete(p.default_.value))
  }

  // The parameter is read, and k is left up to blanks.
  predicate ReadsParameter(r: Parsed<Parameter>, p: Parameter, k: Text) {
    r.Read? && r.value == p && Skip(r.rest) == Skip(k)
  }

  // No default value follows.
  predicate EndsParameter(k: Text) { !Starts(Skip(k), Equals) }

  lemma SkipBlank(ts: Text)
    ensures Skip(Then(Blank, ts)) == Skip(ts)
  {
  }

  lemma DefaultRead(d: Option<Constant>, k: Text)
    requires EndsParameter(k)
    ensures d.None? || !Complete(d.value) ==> ParseDefault(Skip(PrintDefault(d, k))).Fail?
    ensures d.Some? && Complete(d.value) ==> ParseDefault(Skip(PrintDefault(d, k))) == Read(d.value, k)
  {
    if d.Some? {
      var text := PrintConstant(d.value, k);
      ConstantRead(ConstantValue(d.value), k);
      ConstantStarts(d.value, k);
      assert Skip(Then(Blank, text)) == Skip(text) == text;
      assert Skip(Then(Blank, Then(Equals, Then(Blank, text)))) == Then(Equals, Then(Blank, text));
    }
  }

  // The declaration as printed after the marks.
  function PrintDeclared(p: Parameter, k: Text): Text {
    PrintParameter(p.(optional := false, nonBlank := false), k)
  }

  function Plain(p: Parameter): Parameter { p.(optional := false, nonBlank := false) }

  lemma VariableRead(v: Var, d: Option<Constant>, k: Text)
    ensures var text := Then(Question, Then(Word(v), PrintDefault(d, k)));
      ParseType(text).Fail? && Skip(text) == text && ParseVar(text) == Read(v, PrintDefault(d, k))
  {
  }

  lemma DeclaredRead(p: Parameter, k: Text)
    requires EndsParameter(k)
    ensures CompleteParameter(p) ==> ReadsParameter(ParseDeclared(PrintDeclared(p, k)), Plain(p), k)
    ensures !CompleteParameter(p) ==> ParseDeclared(PrintDeclared(p, k)).Read? ==>
      ParseDeclared(PrintDeclared(p, k)).value != Plain(p)
  {
    var rest := Then(Question, Then(Word(p.variable), PrintDefault(p.default_, k)));
    VariableRead(p.variable, p.default_, k);
    DefaultRead(p.default_, k);
    SkipTwice(k);
    SkipBlank(rest);
    if p.ptype.Some? {
      var t := p.ptype.value;
      var typed := PrintType(t, Then(Blank, rest));
      SkipBlank(typed);
      if t == NoType {
        assert Skip(Then(Blank, typed)) == rest;
      } else {
        TypeStarts(t, Then(Blank, rest));
        TypeRoundTrip(t, Then(Blank, rest));
      }
    }
  }

  lemma NonOptionalFails(p: Parameter, k: Text)
    requires p.optional
    ensures ParseNonOptional(PrintParameter(p, k)).Fail?
  {
    var ts := PrintParameter(p, k);
    assert ParseType(ts).Fail? && ParseVar(ts).Fail?;
  }

  /** A printed parameter is read back exactly when none of its types and constants is missing. */
  lemma ParameterRoundTrip(p: Parameter, k: Text)
    requires EndsParameter(k)
    ensures ReadsParameter(ParseParameter(PrintParameter(p, k)), p, k) <==> CompleteParameter(p)
  {
    var ts := PrintParameter(p, k);
    DeclaredRead(p, k);
    if p.optional {
      NonOptionalFails(p, k);
      OptionalRead(p, k);
    } else {
      NonOptionalRead(p, k);
    }
  }

  lemma NonOptionalRead(p: Parameter, k: Text)
    requires !p.optional
    ensures ParseNonOptional(PrintParameter(p, k)) == Marked(ParseDeclared(PrintDeclared(p, k)), false, p.nonBlank)
    ensures ParseNonOptional(PrintParameter(p, k)).Fail? ==>
      ParseParameter(PrintParameter(p, k)).Fail? || ParseParameter(PrintParameter(p, k)).value.optional
  {
    TypeTokens(p, k);
  }

  // The printed declaration does not start with an exclamation mark.
  lemma TypeTokens(p: Parameter, k: Text)
    ensures !Starts(PrintDeclared(p, k), Bang) && !Starts(Skip(PrintDeclared(p, k)), Bang)
  {
    if p.ptype.Some? {
      var rest := Then(Blank, Then(Question, Then(Word(p.variable), PrintDefault(p.default_, k))));
      SkipBlank(PrintType(p.ptype.value, rest));
      if p.ptype.value != NoType { TypeStarts(p.ptype.value, rest); }
    }
  }

  lemma OptionalRead(p: Parameter, k: Text)
    requires p.optional
    ensures var d, ts := PrintDeclared(p, k), PrintParameter(p, k);
      ParseOptional(ts) == Marked(ParseDeclared(if p.nonBlank then d else Skip(d)), true, p.nonBlank)
    ensures ParseDeclared(Skip(PrintDeclared(p, k))) == ParseDeclared(PrintDeclared(p, k))
    ensures ParseOptional(PrintParameter(p, k)).Fail? ==>
      ParseOptionalReversed(PrintParameter(p, k)).Fail? || ParseOptionalReversed(PrintParameter(p, k)).value != p
  {
    TypeTokens(p, k);
    SkipTwice(PrintDeclared(p, k));
  }
}
