/** The grammar of stOTTR terms and instances as trees: exactly what the parser reads, with any blanks. */
module StottrGrammar {
  import opened Wrappers
  import opened Rdf
  import opened StottrAst
  import opened Tokens
  import opened StottrSyntax
  import opened StottrDeclarations
  import opened StottrSpelling

  // ----- trees -----

  datatype TermTree =
    | VarTree(mark: Token, name: Var)
    | ConstTree(token: Token)
    | EmptyTree(gap: nat)
    | ListTree(open: nat, first: TermTree, more: MoreTree)

  // The end of a list, or a comma with the gaps around it and the next item.
  datatype MoreTree = Done(gap: nat) | Next(before: nat, after: nat, term: TermTree, more: MoreTree)

  function TokenConstant(t: Token): Option<ConstantTerm> {
    match t
    case IriToken(i) => Some(IriConstant(i))
    case LiteralToken(l) => Some(LiteralConstant(l))
    case BlankToken(b) => Some(BlankConstant(b))
    case Word(w) => WordConstant(w)
    case _ => None
  }

  predicate Derived(t: TermTree) {
    match t
    case VarTree(mark, _) => mark == Question || mark == Dollar
    case ConstTree(token) => TokenConstant(token).Some?
    case EmptyTree(_) => true
    case ListTree(_, first, more) => Derived(first) && AllDerived(more)
  }

  predicate AllDerived(more: MoreTree) {
    more.Next? ==> Derived(more.term) && AllDerived(more.more)
  }

  function TermText(t: TermTree, k: Text): Text {
    match t
    case VarTree(mark, v) => Then(mark, Then(Word(v), k))
    case ConstTree(token) => Then(token, k)
    case EmptyTree(gap) => Then(Open, Gap(gap, Then(Close, k)))
    case ListTree(open, first, more) => Then(Open, Gap(open, TermText(first, MoreText(more, k))))
  }

  function MoreText(more: MoreTree, k: Text): Text {
    match more
    case Done(gap) => Gap(gap, Then(Close, k))
    case Next(before, after, term, rest) => Gap(before, Then(Comma, Gap(after, TermText(term, MoreText(rest, k)))))
  }

  // ----- what a tree stands for: a constant where it has no variable -----

  function ConstantOf(t: TermTree): Option<Constant>
    requires Derived(t)
  {
    match t
    case VarTree(_, _) => None
    case ConstTree(token) => Some(ConstantTerm(TokenConstant(token).value))
    case EmptyTree(_) => Some(ConstantList([]))
    case ListTree(_, first, more) =>
      var c, cs := ConstantOf(first), ConstantsOf(more);
      if c.Some? && cs.Some? then Some(ConstantList([c.value] + cs.value)) else None
  }

  function ConstantsOf(more: MoreTree): Option<seq<Constant>>
    requires AllDerived(more)
  {
    if more.Done? then Some([])
    else
      var c, cs := ConstantOf(more.term), ConstantsOf(more.more);
      if c.Some? && cs.Some? then Some([c.value] + cs.value) else None
  }

  function ValueOf(t: TermTree): StottrTerm
    requires Derived(t)
  {
    var c := ConstantOf(t);
    if c.Some? then ConstantValue(c.value)
    else
      match t
      case VarTree(_, v) => Variable(v)
      case ListTree(_, first, more) => TermList([ValueOf(first)] + ValuesOf(more))
  }

  function ValuesOf(more: MoreTree): seq<StottrTerm>
    requires AllDerived(more)
  {
    if more.Done? then [] else [ValueOf(more.term)] + ValuesOf(more.more)
  }

  // ----- gaps -----

  lemma TextStarts(t: TermTree, k: Text)
    requires Derived(t)
    ensures TermText(t, k).Then? && TermText(t, k).token !in {Blank, Close, Comma, Expand}
    ensures Skip(TermText(t, k)) == TermText(t, k)
  {
  }

  lemma AfterGap(n: nat, t: TermTree, k: Text)
    requires Derived(t)
    ensures Skip(Gap(n, TermText(t, k))) == TermText(t, k)
  {
    GapSkipped(n, TermText(t, k));
    TextStarts(t, k);
  }

  lemma TokenAfter(n: nat, d: Token, k: Text)
    requires d != Blank
    ensures Skip(Gap(n, Then(d, k))) == Then(d, k)
  {
    GapSkipped(n, Then(d, k));
  }

  // ----- constants are read as constants, and nothing else is -----

  // The rest of a list is read up to its closing parenthesis, or reading stops before it.
  predicate ReadsList<T(==)>(r: Parsed<seq<T>>, before: seq<T>, items: Option<seq<T>>, k: Text) {
    r.Read? && (if items.Some? then r.value == before + items.value && Skip(r.rest) == Then(Close, k)
                else !Starts(Skip(r.rest), Close))
  }

  lemma ConstantToken(token: Token, k: Text)
    requires TokenConstant(token).Some?
    ensures ParseConstant(Then(token, k)) == Read(ConstantTerm(TokenConstant(token).value), k)
  {
    if token.Word? { OneLetter(token.chars); }
    assert ParseConstantList(Then(token, k)).Fail?;
  }

  lemma NothingListed(gap: nat, k: Text)
    ensures ParseConstantList(Then(Open, Gap(gap, Then(Close, k)))) == Read([], k)
  {
    TokenAfter(gap, Close, k);
    NoConstantAtClose(k);
    assert ParseConstants(Then(Close, k)) == Read([], Then(Close, k));
  }

  // A list whose first item starts at ts.
  lemma ListStarts(ts: Text, inside: Text, c: Constant, rest: Text, items: Option<seq<Constant>>, k: Text)
    requires Skip(ts) == inside && ParseConstant(inside) == Read(c, rest)
    requires ReadsList(MoreConstants([c], rest), [c], items, k)
    ensures ParseConstantList(Then(Open, ts)) == if items.Some? then Read([c] + items.value, k) else Fail
  {
  }

  lemma ListFails(ts: Text, inside: Text)
    requires Skip(ts) == inside && ParseConstant(inside).Fail? && !Starts(Skip(inside), Close)
    ensures ParseConstantList(Then(Open, ts)).Fail?
  {
  }

  lemma {:induction false} ConstantReads(t: TermTree, k: Text)
    requires Derived(t)
    ensures ParseConstant(TermText(t, k)) == if ConstantOf(t).Some? then Read(ConstantOf(t).value, k) else Fail
    decreases t
  {
    match t {
      case VarTree(_, _) =>
      case ConstTree(token) => ConstantToken(token, k);
      case EmptyTree(gap) => NothingListed(gap, k);
      case ListTree(open, first, more) =>
        var rest := MoreText(more, k);
        var inside := TermText(first, rest);
        ConstantReads(first, rest);
        AfterGap(open, first, rest);
        TextStarts(first, rest);
        if ConstantOf(first).Some? {
          MoreConstantsRead([ConstantOf(first).value], more, k);
          ListStarts(Gap(open, inside), inside, ConstantOf(first).value, rest, ConstantsOf(more), k);
        } else {
          ListFails(Gap(open, inside), inside);
        }
    }
  }

  // One more item after a comma.
  lemma ConstantTaken(before: seq<Constant>, ts: Text, sep: Text, c: Constant, rest: Text)
    requires Skip(ts) == Then(Comma, sep) && ParseConstant(Skip(sep)) == Read(c, rest)
    ensures MoreConstants(before, ts) == MoreConstants(before + [c], rest)
  {
  }

  lemma ReadsListMore<T>(r: Parsed<seq<T>>, before: seq<T>, first: T, items: Option<seq<T>>, k: Text)
    requires ReadsList(r, before + [first], items, k)
    ensures ReadsList(r, before, if items.Some? then Some([first] + items.value) else None, k)
  {
    if items.Some? { assert before + [first] + items.value == before + ([first] + items.value); }
  }

  lemma {:induction false} MoreConstantsRead(before: seq<Constant>, more: MoreTree, k: Text)
    requires AllDerived(more)
    ensures ReadsList(MoreConstants(before, MoreText(more, k)), before, ConstantsOf(more), k)
    decreases more
  {
    match more {
      case Done(gap) =>
        TokenAfter(gap, Close, k);
        assert before + [] == before;
      case Next(b, a, term, others) =>
        var rest := MoreText(others, k);
        var sep := Gap(a, TermText(term, rest));
        TokenAfter(b, Comma, sep);
        AfterGap(a, term, rest);
        ConstantReads(term, rest);
        var c := ConstantOf(term);
        if c.Some? {
          MoreConstantsRead(before + [c.value], others, k);
          ConstantTaken(before, MoreText(more, k), sep, c.value, rest);
          ReadsListMore(MoreConstants(before + [c.value], rest), before, c.value, ConstantsOf(others), k);
        }
    }
  }

  // ----- terms -----

  lemma TermListStarts(ts: Text, inside: Text, v: StottrTerm, rest: Text, vs: seq<StottrTerm>, k: Text)
    requires Skip(ts) == inside && ParseTerm(inside) == Read(v, rest)
    requires ReadsList(MoreTerms([v], rest), [v], Some(vs), k)
    requires ParseConstant(Then(Open, ts)).Fail?
    ensures ParseTerm(Then(Open, ts)) == Read(TermList([v] + vs), k)
  {
    assert ParseTermList(Then(Open, ts)) == Read([v] + vs, k);
  }

  lemma {:induction false} TermReads(t: TermTree, k: Text)
    requires Derived(t)
    ensures ParseTerm(TermText(t, k)) == Read(ValueOf(t), k)
    decreases t
  {
    ConstantReads(t, k);
    if t.ListTree? && ConstantOf(t).None? {
      var rest := MoreText(t.more, k);
      var inside := TermText(t.first, rest);
      TermReads(t.first, rest);
      AfterGap(t.open, t.first, rest);
      MoreTermsRead([ValueOf(t.first)], t.more, k);
      TermListStarts(Gap(t.open, inside), inside, ValueOf(t.first), rest, ValuesOf(t.more), k);
    }
  }

  lemma TermTaken(before: seq<StottrTerm>, ts: Text, sep: Text, v: StottrTerm, rest: Text)
    requires Skip(ts) == Then(Comma, sep) && ParseTerm(Skip(sep)) == Read(v, rest)
    ensures MoreTerms(before, ts) == MoreTerms(before + [v], rest)
  {
  }

  lemma {:induction false} MoreTermsRead(before: seq<StottrTerm>, more: MoreTree, k: Text)
    requires AllDerived(more)
    ensures ReadsList(MoreTerms(before, MoreText(more, k)), before, Some(ValuesOf(more)), k)
    decreases more
  {
    match more {
      case Done(gap) =>
        TokenAfter(gap, Close, k);
        assert before + [] == before;
      case Next(b, a, term, others) =>
        var rest := MoreText(others, k);
        var sep := Gap(a, TermText(term, rest));
        TokenAfter(b, Comma, sep);
        AfterGap(a, term, rest);
        TermReads(term, rest);
        MoreTermsRead(before + [ValueOf(term)], others, k);
        TermTaken(before, MoreText(more, k), sep, ValueOf(term), rest);
        ReadsListMore(MoreTerms(before + [ValueOf(term)], rest), before, ValueOf(term), Some(ValuesOf(others)), k);
    }
  }

  // ----- whatever is read is derived -----

  lemma {:induction false} ConstantDerived(ts: Text) returns (t: TermTree)
    requires ParseConstant(ts).Read?
    ensures Derived(t) && ts == TermText(t, ParseConstant(ts).rest) && ConstantOf(t) == Some(ParseConstant(ts).value)
    decreases Len(ts), 1
  {
    if ParseConstantList(ts).Read? {
      t := ConstantListDerived(ts);
    } else {
      t := ConstTree(ts.token);
      if ts.token.Word? { OneLetter(ts.token.chars); }
    }
  }

  lemma {:induction false} ConstantListDerived(ts: Text) returns (t: TermTree)
    requires ParseConstantList(ts).Read?
    ensures Derived(t) && ts == TermText(t, ParseConstantList(ts).rest)
    ensures ConstantOf(t) == Some(ConstantList(ParseConstantList(ts).value))
    decreases Len(ts), 0
  {
    var inside := Skip(ts.tail);
    var open := Blanks(ts.tail);
    if ParseConstant(inside).Fail? {
      SkipTwice(ts.tail);
      t := EmptyTree(open);
    } else {
      var one := ParseConstant(inside);
      var first := ConstantDerived(inside);
      var more := MoreConstantsDerived([one.value], one.rest);
      t := ListTree(open, first, more);
    }
  }

  lemma Regrouped<T>(before: seq<T>, x: T, rest: seq<T>)
    ensures before + [x] + rest == before + ([x] + rest)
  {
  }

  lemma ConstantsEnd(before: seq<Constant>, ts: Text)
    requires Starts(Skip(ts), Comma) ==> ParseConstant(Skip(Skip(ts).tail)).Fail?
    ensures MoreConstants(before, ts) == Read(before, ts)
  {
  }

  // The rest of a list that is closed.
  lemma {:induction false} MoreConstantsDerived(before: seq<Constant>, ts: Text) returns (more: MoreTree)
    requires Starts(Skip(MoreConstants(before, ts).rest), Close)
    ensures AllDerived(more) && ConstantsOf(more).Some?
    ensures ts == MoreText(more, Skip(MoreConstants(before, ts).rest).tail)
    ensures MoreConstants(before, ts).value == before + ConstantsOf(more).value
    decreases Len(ts), 0
  {
    var sep := Skip(ts);
    var b := Blanks(ts);
    if Starts(sep, Comma) && ParseConstant(Skip(sep.tail)).Read? {
      var next := ParseConstant(Skip(sep.tail));
      var a := Blanks(sep.tail);
      var term := ConstantDerived(Skip(sep.tail));
      ConstantTaken(before, ts, sep.tail, next.value, next.rest);
      var rest := MoreConstantsDerived(before + [next.value], next.rest);
      more := Next(b, a, term, rest);
      Regrouped(before, next.value, ConstantsOf(rest).value);
    } else {
      more := Done(b);
      ConstantsEnd(before, ts);
      assert before + [] == before;
    }
  }

  lemma {:induction false} TermDerived(ts: Text) returns (t: TermTree)
    requires ParseTerm(ts).Read?
    ensures Derived(t) && ts == TermText(t, ParseTerm(ts).rest) && ValueOf(t) == ParseTerm(ts).value
    decreases Len(ts), 1
  {
    if ParseVar(ts).Read? {
      t := VarTree(ts.token, ts.tail.token.chars);
    } else if ParseConstant(ts).Read? {
      t := ConstantDerived(ts);
    } else {
      t := TermListDerived(ts);
    }
  }

  // An empty list is a constant.
  lemma NotEmpty(ts: Text)
    requires ParseTermList(ts).Read? && ParseConstant(ts).Fail?
    ensures ParseTerm(Skip(ts.tail)).Read?
  {
    if ParseTerm(Skip(ts.tail)).Fail? {
      var gap := Blanks(ts.tail);
      SkipTwice(ts.tail);
      NothingListed(gap, Skip(ts.tail).tail);
    }
  }

  lemma {:induction false} TermListDerived(ts: Text) returns (t: TermTree)
    requires ParseTermList(ts).Read? && ParseConstant(ts).Fail?
    ensures Derived(t) && ts == TermText(t, ParseTermList(ts).rest)
    ensures ValueOf(t) == TermList(ParseTermList(ts).value)
    decreases Len(ts), 0
  {
    NotEmpty(ts);
    var inside := Skip(ts.tail);
    var open := Blanks(ts.tail);
    var one := ParseTerm(inside);
    var first := TermDerived(inside);
    var more := MoreTermsDerived([one.value], one.rest);
    t := ListTree(open, first, more);
    ConstantReads(t, ParseTermList(ts).rest);
  }

  lemma TermsEnd(before: seq<StottrTerm>, ts: Text)
    requires Starts(Skip(ts), Comma) ==> ParseTerm(Skip(Skip(ts).tail)).Fail?
    ensures MoreTerms(before, ts) == Read(before, ts)
  {
  }

  lemma {:induction false} MoreTermsDerived(before: seq<StottrTerm>, ts: Text) returns (more: MoreTree)
    requires Starts(Skip(MoreTerms(before, ts).rest), Close)
    ensures AllDerived(more) && ts == MoreText(more, Skip(MoreTerms(before, ts).rest).tail)
    ensures MoreTerms(before, ts).value == before + ValuesOf(more)
    decreases Len(ts), 0
  {
    var sep := Skip(ts);
    var b := Blanks(ts);
    if Starts(sep, Comma) && ParseTerm(Skip(sep.tail)).Read? {
      var next := ParseTerm(Skip(sep.tail));
      var a := Blanks(sep.tail);
      var term := TermDerived(Skip(sep.tail));
      TermTaken(before, ts, sep.tail, next.value, next.rest);
      var rest := MoreTermsDerived(before + [next.value], next.rest);
      more := Next(b, a, term, rest);
      Regrouped(before, next.value, ValuesOf(rest));
    } else {
      more := Done(b);
      TermsEnd(before, ts);
      assert before + [] == before;
    }
  }

  ghost predicate Derives(ts: Text, v: StottrTerm, k: Text) {
    exists t :: Derived(t) && ValueOf(t) == v && ts == TermText(t, k)
  }

  /** A term is read exactly from what the grammar derives: lists nested in any way, with any blanks. */
  lemma TermReadsExactly(ts: Text, v: StottrTerm, k: Text)
    ensures ParseTerm(ts) == Read(v, k) <==> Derives(ts, v, k)
  {
    if ParseTerm(ts) == Read(v, k) { var t := TermDerived(ts); }
    if Derives(ts, v, k) {
      var t :| Derived(t) && ValueOf(t) == v && ts == TermText(t, k);
      TermReads(t, k);
    }
  }

  // ----- arguments -----

  // An argument with the blanks before its term.
  datatype ArgTree = ArgTree(expand: bool, gap: nat, term: TermTree)

  datatype MoreArgs = ArgsDone(gap: nat) | NextArg(before: nat, after: nat, arg: ArgTree, more: MoreArgs)

  function ArgText(a: ArgTree, k: Text): Text {
    var term := Gap(a.gap, TermText(a.term, k));
    if a.expand then Then(Expand, term) else term
  }

  function MoreArgsText(more: MoreArgs, k: Text): Text {
    match more
    case ArgsDone(gap) => Gap(gap, Then(Close, k))
    case NextArg(before, after, arg, rest) => Gap(before, Then(Comma, Gap(after, ArgText(arg, MoreArgsText(rest, k)))))
  }

  predicate ArgsDerived(more: MoreArgs) { more.NextArg? ==> Derived(more.arg.term) && ArgsDerived(more.more) }

  function ArgOf(a: ArgTree): Argument
    requires Derived(a.term)
  {
    Argument(a.expand, ValueOf(a.term))
  }

  function ArgsOf(more: MoreArgs): seq<Argument>
    requires ArgsDerived(more)
  {
    if more.ArgsDone? then [] else [ArgOf(more.arg)] + ArgsOf(more.more)
  }

  lemma ArgReads(n: nat, a: ArgTree, k: Text)
    requires Derived(a.term)
    ensures ParseArgument(Skip(Gap(n, ArgText(a, k)))) == Read(ArgOf(a), k)
  {
    GapSkipped(n, ArgText(a, k));
    AfterGap(a.gap, a.term, k);
    TextStarts(a.term, k);
    TermReads(a.term, k);
  }

  lemma ArgTaken(before: seq<Argument>, ts: Text, sep: Text, a: Argument, rest: Text)
    requires Skip(ts) == Then(Comma, sep) && ParseArgument(Skip(sep)) == Read(a, rest)
    ensures MoreArguments(before, ts) == MoreArguments(before + [a], rest)
  {
  }

  lemma {:induction false} MoreArgsRead(before: seq<Argument>, more: MoreArgs, k: Text)
    requires ArgsDerived(more)
    ensures ReadsList(MoreArguments(before, MoreArgsText(more, k)), before, Some(ArgsOf(more)), k)
    decreases more
  {
    match more {
      case ArgsDone(gap) =>
        TokenAfter(gap, Close, k);
        assert before + [] == before;
      case NextArg(b, a, arg, others) =>
        var rest := MoreArgsText(others, k);
        var sep := Gap(a, ArgText(arg, rest));
        TokenAfter(b, Comma, sep);
        ArgReads(a, arg, rest);
        MoreArgsRead(before + [ArgOf(arg)], others, k);
        ArgTaken(before, MoreArgsText(more, k), sep, ArgOf(arg), rest);
        ReadsListMore(MoreArguments(before + [ArgOf(arg)], rest), before, ArgOf(arg), Some(ArgsOf(others)), k);
    }
  }

  // An argument that starts right away.
  lemma ArgDerived(ts: Text) returns (a: ArgTree)
    requires ParseArgument(ts).Read?
    ensures Derived(a.term) && ts == ArgText(a, ParseArgument(ts).rest) && ArgOf(a) == ParseArgument(ts).value
  {
    var rest := if Starts(ts, Expand) then ts.tail else ts;
    var gap := Blanks(rest);
    var term := TermDerived(Skip(rest));
    a := ArgTree(Starts(ts, Expand), gap, term);
  }

  lemma ArgsEnd(before: seq<Argument>, ts: Text)
    requires Starts(Skip(ts), Comma) ==> ParseArgument(Skip(Skip(ts).tail)).Fail?
    ensures MoreArguments(before, ts) == Read(before, ts)
  {
  }

  lemma {:induction false} MoreArgsDerived(before: seq<Argument>, ts: Text) returns (more: MoreArgs)
    requires Starts(Skip(MoreArguments(before, ts).rest), Close)
    ensures ArgsDerived(more) && ts == MoreArgsText(more, Skip(MoreArguments(before, ts).rest).tail)
    ensures MoreArguments(before, ts).value == before + ArgsOf(more)
    decreases Len(ts)
  {
    var sep := Skip(ts);
    var b := Blanks(ts);
    if Starts(sep, Comma) && ParseArgument(Skip(sep.tail)).Read? {
      var next := ParseArgument(Skip(sep.tail));
      var a := Blanks(sep.tail);
      var arg := ArgDerived(Skip(sep.tail));
      ArgTaken(before, ts, sep.tail, next.value, next.rest);
      var rest := MoreArgsDerived(before + [next.value], next.rest);
      more := NextArg(b, a, arg, rest);
      Regrouped(before, next.value, ArgsOf(rest));
    } else {
      more := ArgsDone(b);
      ArgsEnd(before, ts);
      assert before + [] == before;
    }
  }

  // ----- argument lists and instances -----

  datatype ArgList = NoArgs(gap: nat) | SomeArgs(open: nat, first: ArgTree, more: MoreArgs)

  function ArgListText(args: ArgList, k: Text): Text {
    match args
    case NoArgs(gap) => Gap(gap, Then(Close, k))
    case SomeArgs(open, first, more) => Gap(open, ArgText(first, MoreArgsText(more, k)))
  }

  predicate ListDerived(args: ArgList) { args.SomeArgs? ==> Derived(args.first.term) && ArgsDerived(args.more) }

  function ListOf(args: ArgList): seq<Argument>
    requires ListDerived(args)
  {
    if args.NoArgs? then [] else [ArgOf(args.first)] + ArgsOf(args.more)
  }

  lemma ArgListReads(args: ArgList, k: Text)
    requires ListDerived(args)
    ensures ReadsList(ParseArguments(Skip(ArgListText(args, k))), [], Some(ListOf(args)), k)
  {
    match args {
      case NoArgs(gap) =>
        TokenAfter(gap, Close, k);
        NoTermAtClose(k);
        assert ParseArgument(Then(Close, k)).Fail?;
      case SomeArgs(open, first, more) =>
        var rest := MoreArgsText(more, k);
        ArgReads(open, first, rest);
        MoreArgsRead([ArgOf(first)], more, k);
        assert ParseArguments(Skip(ArgListText(args, k))) == MoreArguments([ArgOf(first)], rest);
    }
  }

  lemma ArgListDerived(ts: Text) returns (args: ArgList)
    requires Starts(Skip(ParseArguments(Skip(ts)).rest), Close)
    ensures ListDerived(args) && ListOf(args) == ParseArguments(Skip(ts)).value
    ensures ts == ArgListText(args, Skip(ParseArguments(Skip(ts)).rest).tail)
  {
    var open := Blanks(ts);
    var one := ParseArgument(Skip(ts));
    if one.Fail? {
      SkipTwice(ts);
      args := NoArgs(open);
    } else {
      var first := ArgDerived(Skip(ts));
      var more := MoreArgsDerived([one.value], one.rest);
      args := SomeArgs(open, first, more);
    }
  }

  // A template name and its arguments.
  datatype CallTree = CallTree(before: nat, iri: Iri, gap: nat, args: ArgList)

  function CallText(c: CallTree, k: Text): Text {
    Gap(c.before, Then(IriToken(c.iri), Gap(c.gap, Then(Open, ArgListText(c.args, k)))))
  }

  lemma CallReads(e: Option<ListExpander>, c: CallTree, k: Text)
    requires ListDerived(c.args)
    ensures ParseApplication(e, Skip(CallText(c, k))) == Read(Instance(e, c.iri, ListOf(c.args)), k)
  {
    var args := ArgListText(c.args, k);
    TokenAfter(c.before, IriToken(c.iri), Gap(c.gap, Then(Open, args)));
    TokenAfter(c.gap, Open, args);
    ArgListReads(c.args, k);
    Applied(e, c.iri, Gap(c.gap, Then(Open, args)), args, ListOf(c.args), k);
  }

  lemma Applied(e: Option<ListExpander>, iri: Iri, ts: Text, inner: Text, args: seq<Argument>, k: Text)
    requires Skip(ts) == Then(Open, inner) && ReadsList(ParseArguments(Skip(inner)), [], Some(args), k)
    ensures ParseApplication(e, Then(IriToken(iri), ts)) == Read(Instance(e, iri, args), k)
  {
    assert [] + args == args;
  }

  lemma CallDerived(e: Option<ListExpander>, ts: Text) returns (c: CallTree)
    requires ParseApplication(e, Skip(ts)).Read?
    ensures ListDerived(c.args) && ts == CallText(c, ParseApplication(e, Skip(ts)).rest)
    ensures ParseApplication(e, Skip(ts)).value == Instance(e, c.iri, ListOf(c.args))
  {
    var before := Blanks(ts);
    var iri := Skip(ts);
    var gap := Blanks(iri.tail);
    var args := ArgListDerived(Skip(iri.tail).tail);
    c := CallTree(before, iri.token.iri, gap, args);
  }

  // An instance with an expander keyword, or without.
  datatype InstanceTree = Bare(call: CallTree) | Expanded(word: string, gap: nat, call: CallTree)

  function InstanceText(i: InstanceTree, k: Text): Text {
    match i
    case Bare(c) => CallText(c, k)
    case Expanded(w, gap, c) => Then(Word(w), Gap(gap, Then(Bar, CallText(c, k))))
  }

  ghost predicate Denotes(i: InstanceTree, v: Instance) {
    && ListDerived(i.call.args) && v.template == i.call.iri && v.arguments == ListOf(i.call.args)
    && match i
       case Bare(_) => v.expander.None?
       case Expanded(w, _, _) => v.expander.Some? && SpellsExpander(w, v.expander.value)
  }

  lemma BareIsNoExpander(c: CallTree, k: Text)
    ensures ParseExpander(CallText(c, k)).Fail?
  {
    var rest := Gap(c.gap, Then(Open, ArgListText(c.args, k)));
    TokenAfter(c.gap, Open, ArgListText(c.args, k));
    if c.before > 0 { TokenAfter(c.before - 1, IriToken(c.iri), rest); }
  }

  lemma ExpandedReads(w: string, gap: nat, e: ListExpander, call: Text, v: Instance, k: Text)
    requires SpellsExpander(w, e) && ParseApplication(Some(e), Skip(call)) == Read(v, k)
    ensures ParseInstance(Then(Word(w), Gap(gap, Then(Bar, call)))) == Read(v, k)
  {
    ExpandersRead(Then(Word(w), Gap(gap, Then(Bar, call))), e, call);
  }

  lemma BareReads(call: Text, v: Instance, k: Text)
    requires ParseExpander(call).Fail? && ParseApplication(None, Skip(call)) == Read(v, k)
    ensures ParseInstance(call) == Read(v, k)
  {
  }

  lemma InstanceReads(i: InstanceTree, v: Instance, k: Text)
    requires Denotes(i, v)
    ensures ParseInstance(InstanceText(i, k)) == Read(v, k)
  {
    match i {
      case Bare(c) =>
        BareIsNoExpander(c, k);
        CallReads(None, c, k);
        BareReads(CallText(c, k), v, k);
      case Expanded(w, gap, c) =>
        CallReads(v.expander, c, k);
        ExpandedReads(w, gap, v.expander.value, CallText(c, k), v, k);
    }
  }

  lemma InstanceDerived(ts: Text) returns (i: InstanceTree)
    requires ParseInstance(ts).Read?
    ensures Denotes(i, ParseInstance(ts).value) && ts == InstanceText(i, ParseInstance(ts).rest)
  {
    var e := ParseExpander(ts);
    if e.Read? {
      ExpandersRead(ts, e.value, e.rest);
      var w, n :| SpellsExpander(w, e.value) && ts == Then(Word(w), Gap(n, Then(Bar, e.rest)));
      var c := CallDerived(Some(e.value), e.rest);
      i := Expanded(w, n, c);
    } else {
      var c := CallDerived(None, ts);
      i := Bare(c);
    }
  }

  /** An instance is read exactly from what the grammar derives, with any blanks and keywords in any case. */
  lemma InstanceReadsExactly(ts: Text, v: Instance, k: Text)
    ensures ParseInstance(ts) == Read(v, k) <==> exists i :: Denotes(i, v) && ts == InstanceText(i, k)
  {
    if ParseInstance(ts) == Read(v, k) { var i := InstanceDerived(ts); }
    if exists i :: Denotes(i, v) && ts == InstanceText(i, k) {
      var i :| Denotes(i, v) && ts == InstanceText(i, k);
      InstanceReads(i, v, k);
    }
  }

  // ----- parameters -----

  datatype DefaultTree = DefaultTree(before: nat, after: nat, term: TermTree)

  // A type with the blanks after it, a variable, and a default value.
  datatype DeclaredTree = DeclaredTree(
    before: nat, ptype: Option<(TypeTree, nat)>, mark: Token, name: Var, default_: Option<DefaultTree>)

  function DefaultText(d: Option<DefaultTree>, k: Text): Text {
    if d.None? then k else Gap(d.value.before, Then(Equals, Gap(d.value.after, TermText(d.value.term, k))))
  }

  function VariableText(d: DeclaredTree, k: Text): Text { Then(d.mark, Then(Word(d.name), DefaultText(d.default_, k))) }

  function DeclaredText(d: DeclaredTree, k: Text): Text {
    var v := VariableText(d, k);
    Gap(d.before, if d.ptype.Some? then TypeText(d.ptype.value.0, Gap(d.ptype.value.1, v)) else v)
  }

  predicate DeclaredWell(d: DeclaredTree) {
    && (d.mark == Question || d.mark == Dollar) && (d.ptype.Some? ==> TypeValue(d.ptype.value.0).Some?)
    && (d.default_.Some? ==> Derived(d.default_.value.term) && ConstantOf(d.default_.value.term).Some?)
  }

  function DeclaredOf(d: DeclaredTree): Parameter
    requires DeclaredWell(d)
  {
    Parameter(
      false, false, if d.ptype.Some? then TypeValue(d.ptype.value.0) else None, d.name,
      if d.default_.Some? then ConstantOf(d.default_.value.term) else None)
  }

  lemma DefaultReads(d: Option<DefaultTree>, k: Text)
    requires d.Some? ==> Derived(d.value.term) && ConstantOf(d.value.term).Some?
    requires EndsParameter(k)
    ensures ParseDefault(Skip(DefaultText(d, k))) ==
      if d.Some? then Read(ConstantOf(d.value.term).value, k) else Fail
  {
    if d.Some? {
      TokenAfter(d.value.before, Equals, Gap(d.value.after, TermText(d.value.term, k)));
      AfterGap(d.value.after, d.value.term, k);
      ConstantReads(d.value.term, k);
    }
  }

  lemma VariableStarts(d: DeclaredTree, k: Text)
    requires DeclaredWell(d)
    ensures var v := VariableText(d, k);
      Skip(v) == v && ParseType(v).Fail? && ParseVar(v) == Read(d.name, DefaultText(d.default_, k))
  {
  }

  lemma DeclaredReads(d: DeclaredTree, k: Text)
    requires DeclaredWell(d) && EndsParameter(k)
    ensures ReadsParameter(ParseDeclared(DeclaredText(d, k)), DeclaredOf(d), k)
  {
    var v := VariableText(d, k);
    VariableStarts(d, k);
    DefaultReads(d.default_, k);
    SkipTwice(k);
    if d.ptype.Some? {
      var (t, n) := d.ptype.value;
      GapSkipped(d.before, TypeText(t, Gap(n, v)));
      TypeTextStarts(t, Gap(n, v));
      TypesRead(t, Gap(n, v));
      GapSkipped(n, v);
    } else {
      GapSkipped(d.before, v);
    }
  }

  /** A parameter without marks, or with the mark against blank nodes, is read as it is declared, with any blanks. */
  lemma PlainParameterReads(bang: bool, d: DeclaredTree, k: Text)
    requires DeclaredWell(d) && EndsParameter(k)
    ensures var ts := DeclaredText(d, k);
      !Starts(ts, Bang) && ReadsParameter(
        ParseParameter(if bang then Then(Bang, ts) else ts), DeclaredOf(d).(nonBlank := bang), k)
  {
    DeclaredReads(d, k);
    NoBang(d, k);
  }

  lemma NoBang(d: DeclaredTree, k: Text)
    requires DeclaredWell(d)
    ensures !Starts(DeclaredText(d, k), Bang) && !Starts(Skip(DeclaredText(d, k)), Bang)
  {
    var v := VariableText(d, k);
    if d.ptype.Some? {
      GapSkipped(d.before, TypeText(d.ptype.value.0, Gap(d.ptype.value.1, v)));
      TypeTextStarts(d.ptype.value.0, Gap(d.ptype.value.1, v));
    } else {
      GapSkipped(d.before, v);
    }
  }

  // A question mark that no word follows at once is no variable.
  lemma QuestionIsMark(ts: Text)
    requires ts.Then? ==> !ts.token.Word?
    ensures ParseNonOptional(Then(Question, ts)).Fail?
  {
    assert Skip(Then(Question, ts)) == Then(Question, ts);
    assert ParseType(Then(Question, ts)).Fail? && ParseVar(Then(Question, ts)).Fail?;
  }

  /** An optional parameter is read as it is declared, unless a type keyword directly follows its question mark. */
  lemma OptionalParameterReads(gap: nat, bang: bool, d: DeclaredTree, k: Text)
    requires DeclaredWell(d) && EndsParameter(k)
    requires gap == 0 && !bang && d.before == 0 && d.ptype.Some? ==> d.ptype.value.0.NameType?
    ensures var ts := DeclaredText(d, k);
      ReadsParameter(
        ParseParameter(Then(Question, Gap(gap, if bang then Then(Bang, ts) else ts))),
        DeclaredOf(d).(optional := true, nonBlank := bang), k)
  {
    var ts := DeclaredText(d, k);
    var rest := if bang then Then(Bang, ts) else ts;
    QuestionIsMark(Gap(gap, rest));
    DeclaredReads(d, k);
    GapSkipped(gap, rest);
    NoBang(d, k);
    SkippedDeclared(ts);
  }

  lemma SkippedDeclared(ts: Text)
    ensures ParseDeclared(Skip(ts)) == ParseDeclared(ts)
  {
    SkipTwice(ts);
  }

  /** A type keyword directly after the question mark is taken for the name of a variable. */
  lemma KeywordTakenForVariable(w: string, ts: Text)
    requires EndsParameter(ts)
    ensures ParseParameter(Then(Question, Then(Word(w), ts))) == Read(Parameter(false, false, None, w, None), Skip(ts))
  {
    assert ParseType(Then(Question, Then(Word(w), ts))).Fail?;
    assert Skip(Then(Question, Then(Word(w), ts))) == Then(Question, Then(Word(w), ts));
    assert ParseVar(Then(Question, Then(Word(w), ts))) == Read(w, ts);
    SkipTwice(ts);
    assert ParseDeclared(Then(Question, Then(Word(w), ts))) == Read(Parameter(false, false, None, w, None), Skip(ts));
  }
}
