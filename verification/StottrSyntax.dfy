/** Printing stOTTR terms, instances, types and parameters, and parsing them by ordered choice. */
module StottrSyntax {
  import opened Wrappers
  import opened Rdf
  import opened StottrAst
  import opened Tokens

  // Keywords are matched whatever their case.
  function Lower(c: char): char { if 'A' <= c <= 'Z' then c - 'A' + 'a' else c }

  function Fold(s: string): string { seq(|s|, i requires 0 <= i < |s| => Lower(s[i])) }

  predicate StartsWord(ts: Text, keyword: string) {
    ts.Then? && ts.token.Word? && Fold(ts.token.chars) == keyword
  }

  // ----- constants -----

  function PrintConstantTerm(c: ConstantTerm, k: Text): Text {
    match c
    case IriConstant(i) => Then(IriToken(i), k)
    case BlankConstant(b) => Then(BlankToken(b), k)
    case LiteralConstant(l) => Then(LiteralToken(l), k)
    case NoConstant => Then(Word("none"), k)
  }

  function PrintConstant(c: Constant, k: Text): Text
    decreases c, 1
  {
    match c
    case ConstantTerm(t) => PrintConstantTerm(t, k)
    case ConstantList(cs) => Then(Open, PrintConstants(cs, Then(Close, k)))
  }

  function PrintConstants(cs: seq<Constant>, k: Text): Text
    decreases cs, 0
  {
    if cs == [] then k
    else if |cs| == 1 then PrintConstant(cs[0], k)
    else PrintConstant(cs[0], Then(Comma, Then(Blank, PrintConstants(cs[1..], k))))
  }

  function ParseConstantTerm(ts: Text): (r: Parsed<ConstantTerm>)
    ensures r.Read? ==> Len(r.rest) < Len(ts)
  {
    if ts.End? then Fail
    else
      match ts.token
      case IriToken(i) => Read(IriConstant(i), ts.tail)
      case LiteralToken(l) => Read(LiteralConstant(l), ts.tail)
      case BlankToken(b) => Read(BlankConstant(b), ts.tail)
      case Word(w) =>
        if w == "true" || w == "false" then Read(LiteralConstant(Literal(w, XsdBoolean, "")), ts.tail)
        else if Fold(w) == "a" then Read(IriConstant(RDF_TYPE), ts.tail)
        else Fail
      case _ => Fail
  }

  function ParseConstant(ts: Text): (r: Parsed<Constant>)
    ensures r.Read? ==> Len(r.rest) < Len(ts)
    decreases Len(ts), 1
  {
    var list := ParseConstantList(ts);
    if list.Read? then Read(ConstantList(list.value), list.rest)
    else
      var term := ParseConstantTerm(ts);
      if term.Read? then Read(ConstantTerm(term.value), term.rest) else Fail
  }

  function ParseConstantList(ts: Text): (r: Parsed<seq<Constant>>)
    ensures r.Read? ==> Len(r.rest) < Len(ts)
    decreases Len(ts), 0
  {
    if !Starts(ts, Open) then Fail
    else
      var items := ParseConstants(Skip(ts.tail));
      if Starts(Skip(items.rest), Close) then Read(items.value, Skip(items.rest).tail) else Fail
  }

  function ParseConstants(ts: Text): (r: Parsed<seq<Constant>>)
    ensures r.Read? && Len(r.rest) <= Len(ts)
    decreases Len(ts), 2
  {
    var first := ParseConstant(ts);
    if first.Fail? then Read([], ts) else MoreConstants([first.value], first.rest)
  }

  // A comma that no item follows is left unread, together with the blanks before it.
  function MoreConstants(cs: seq<Constant>, ts: Text): (r: Parsed<seq<Constant>>)
    ensures r.Read? && Len(r.rest) <= Len(ts)
    decreases Len(ts), 2
  {
    var sep := Skip(ts);
    if !Starts(sep, Comma) then Read(cs, ts)
    else
      var next := ParseConstant(Skip(sep.tail));
      if next.Fail? then Read(cs, ts) else MoreConstants(cs + [next.value], next.rest)
  }

  // ----- terms: variable, then constant, then list -----

  function PrintTerm(t: StottrTerm, k: Text): Text
    decreases t, 1
  {
    match t
    case Variable(v) => Then(Question, Then(Word(v), k))
    case ConstantValue(c) => PrintConstant(c, k)
    case TermList(ts) => Then(Open, PrintTerms(ts, Then(Close, k)))
  }

  function PrintTerms(ts: seq<StottrTerm>, k: Text): Text
    decreases ts, 0
  {
    if ts == [] then k
    else if |ts| == 1 then PrintTerm(ts[0], k)
    else PrintTerm(ts[0], Then(Comma, Then(Blank, PrintTerms(ts[1..], k))))
  }

  function ParseVar(ts: Text): (r: Parsed<Var>)
    ensures r.Read? ==> Len(r.rest) < Len(ts)
  {
    if (Starts(ts, Question) || Starts(ts, Dollar)) && ts.tail.Then? && ts.tail.token.Word?
    then Read(ts.tail.token.chars, ts.tail.tail) else Fail
  }

  function ParseTerm(ts: Text): (r: Parsed<StottrTerm>)
    ensures r.Read? ==> Len(r.rest) < Len(ts)
    decreases Len(ts), 1
  {
    var v := ParseVar(ts);
    if v.Read? then Read(Variable(v.value), v.rest)
    else
      var c := ParseConstant(ts);
      if c.Read? then Read(ConstantValue(c.value), c.rest)
      else
        var l := ParseTermList(ts);
        if l.Read? then Read(TermList(l.value), l.rest) else Fail
  }

  function ParseTermList(ts: Text): (r: Parsed<seq<StottrTerm>>)
    ensures r.Read? ==> Len(r.rest) < Len(ts)
    decreases Len(ts), 0
  {
    if !Starts(ts, Open) then Fail
    else
      var items := ParseTerms(Skip(ts.tail));
      if Starts(Skip(items.rest), Close) then Read(items.value, Skip(items.rest).tail) else Fail
  }

  function ParseTerms(ts: Text): (r: Parsed<seq<StottrTerm>>)
    ensures r.Read? && Len(r.rest) <= Len(ts)
    decreases Len(ts), 2
  {
    var first := ParseTerm(ts);
    if first.Fail? then Read([], ts) else MoreTerms([first.value], first.rest)
  }

  function MoreTerms(items: seq<StottrTerm>, ts: Text): (r: Parsed<seq<StottrTerm>>)
    ensures r.Read? && Len(r.rest) <= Len(ts)
    decreases Len(ts), 2
  {
    var sep := Skip(ts);
    if !Starts(sep, Comma) then Read(items, ts)
    else
      var next := ParseTerm(Skip(sep.tail));
      if next.Fail? then Read(items, ts) else MoreTerms(items + [next.value], next.rest)
  }

  // ----- what a printed term is read as -----

  // The constant that a term amounts to, when it has no variable and no missing constant.
  function AsConstant(t: StottrTerm): Option<Constant>
    decreases t, 1
  {
    match t
    case Variable(_) => None
    case ConstantValue(c) => if Complete(c) then Some(c) else None
    case TermList(ts) =>
      var cs := AsConstants(ts);
      if cs.Some? then Some(ConstantList(cs.value)) else None
  }

  function AsConstants(ts: seq<StottrTerm>): (r: Option<seq<Constant>>)
    ensures r.Some? ==> |r.value| == |ts|
    decreases ts, 0
  {
    if ts == [] then Some([])
    else
      var c, rest := AsConstant(ts[0]), AsConstants(ts[1..]);
      if c.Some? && rest.Some? then Some([c.value] + rest.value) else None
  }

  predicate Complete(c: Constant)
    decreases c, 1
  {
    match c
    case ConstantTerm(t) => !t.NoConstant?
    case ConstantList(cs) => AllComplete(cs)
  }

  predicate AllComplete(cs: seq<Constant>)
    decreases cs, 0
  {
    cs == [] || (Complete(cs[0]) && AllComplete(cs[1..]))
  }

  /** The normal form of a term: an all-constant list becomes a constant list. Missing constants have none. */
  function Normal(t: StottrTerm): Option<StottrTerm>
    decreases t, 1
  {
    var c := AsConstant(t);
    if c.Some? then Some(ConstantValue(c.value))
    else
      match t
      case Variable(_) => Some(t)
      case ConstantValue(_) => None
      case TermList(ts) =>
        var ns := Normals(ts);
        if ns.Some? then Some(TermList(ns.value)) else None
  }

  function Normals(ts: seq<StottrTerm>): (r: Option<seq<StottrTerm>>)
    ensures r.Some? ==> |r.value| == |ts|
    decreases ts, 0
  {
    if ts == [] then Some([])
    else
      var n, rest := Normal(ts[0]), Normals(ts[1..]);
      if n.Some? && rest.Some? then Some([n.value] + rest.value) else None
  }

  // ----- constants round trip -----

  function Outcome<T>(v: Option<T>, k: Text): Parsed<T> {
    if v.Some? then Read(v.value, k) else Fail
  }

  // Printed terms do not start with a blank, a comma or a closing parenthesis.
  predicate StartsItem(ts: Text) {
    ts.Then? && ts.token !in {Blank, Comma, Close}
  }

  lemma ConstantStarts(c: Constant, k: Text)
    ensures StartsItem(PrintConstant(c, k))
  {
  }

  lemma TermStarts(t: StottrTerm, k: Text)
    ensures StartsItem(PrintTerm(t, k)) && Skip(PrintTerm(t, k)) == PrintTerm(t, k)
  {
    if t.ConstantValue? { ConstantStarts(t.constant, k); }
  }

  lemma NoneIsNoConstant(k: Text)
    ensures ParseConstant(Then(Word("none"), k)).Fail?
  {
    assert |Fold("none")| != |"a"|;
  }

  lemma ConstantTermRead(t: ConstantTerm, k: Text)
    ensures ParseConstant(PrintConstantTerm(t, k)) ==
      (if t.NoConstant? then Fail else Read(ConstantTerm(t), k))
  {
    if t.NoConstant? { NoneIsNoConstant(k); }
  }

  // Nothing is read at a closing parenthesis.
  lemma NoConstantAtClose(k: Text)
    ensures ParseConstant(Then(Close, k)).Fail? && ParseConstants(Then(Close, k)) == Read([], Then(Close, k))
  {
    assert ParseConstantTerm(Then(Close, k)).Fail? && ParseConstantList(Then(Close, k)).Fail?;
    assert ParseConstant(Then(Close, k)).Fail?;
  }

  lemma NoTermAtClose(k: Text)
    ensures ParseTerm(Then(Close, k)).Fail? && ParseTerms(Then(Close, k)) == Read([], Then(Close, k))
  {
    NoConstantAtClose(k);
    assert ParseVar(Then(Close, k)).Fail? && ParseTermList(Then(Close, k)).Fail?;
    assert ParseTerm(Then(Close, k)).Fail?;
  }

  // The two printers agree on lists of constants.
  function Wrap(cs: seq<Constant>): seq<StottrTerm> {
    if cs == [] then [] else [ConstantValue(cs[0])] + Wrap(cs[1..])
  }

  lemma {:induction false} WrapPrints(cs: seq<Constant>, k: Text)
    ensures PrintTerms(Wrap(cs), k) == PrintConstants(cs, k)
  {
    if |cs| > 1 {
      assert Wrap(cs)[1..] == Wrap(cs[1..]);
      assert Wrap(cs[1..]) == [ConstantValue(cs[1])] + Wrap(cs[1..][1..]);
      WrapPrints(cs[1..], k);
    }
  }

  lemma {:induction false} WrapConstants(cs: seq<Constant>)
    ensures AsConstants(Wrap(cs)) == if AllComplete(cs) then Some(cs) else None
  {
    if cs != [] {
      assert Wrap(cs)[1..] == Wrap(cs[1..]);
      WrapConstants(cs[1..]);
      assert cs == [cs[0]] + cs[1..];
    }
  }

  // What a list of printed items is read as by the constant rule, up to its closing parenthesis.
  predicate ReadsItems<T(==)>(r: Parsed<seq<T>>, before: seq<T>, items: Option<seq<T>>, k: Text) {
    if items.Some? then r == Read(before + items.value, Then(Close, k))
    else r.Read? && !Starts(Skip(r.rest), Close)
  }

  // One more item in front.
  lemma ReadsItemsMore<T>(r: Parsed<seq<T>>, before: seq<T>, first: T, items: Option<seq<T>>, k: Text)
    requires ReadsItems(r, before + [first], items, k)
    ensures ReadsItems(r, before, if items.Some? then Some([first] + items.value) else None, k)
  {
    if items.Some? { assert before + ([first] + items.value) == before + [first] + items.value; }
  }

  function Size(t: StottrTerm): nat
    decreases t, 1
  {
    match t
    case Variable(_) => 1
    case ConstantValue(c) => ConstantSize(c)
    case TermList(ts) => 1 + Sizes(ts)
  }

  function Sizes(ts: seq<StottrTerm>): nat
    decreases ts, 0
  {
    if ts == [] then 0 else 1 + Size(ts[0]) + Sizes(ts[1..])
  }

  function ConstantSize(c: Constant): nat
    decreases c, 1
  {
    if c.ConstantTerm? then 1 else 1 + ConstantSizes(c.items)
  }

  function ConstantSizes(cs: seq<Constant>): nat
    decreases cs, 0
  {
    if cs == [] then 0 else 1 + ConstantSize(cs[0]) + ConstantSizes(cs[1..])
  }

  lemma {:induction false} WrapSize(cs: seq<Constant>)
    ensures Sizes(Wrap(cs)) == ConstantSizes(cs)
  {
    if cs != [] {
      assert Wrap(cs)[1..] == Wrap(cs[1..]);
      WrapSize(cs[1..]);
    }
  }

  /** The constant rule reads a printed term exactly when the term amounts to a constant. */
  lemma {:induction false} ConstantRead(t: StottrTerm, k: Text)
    ensures ParseConstant(PrintTerm(t, k)) == Outcome(AsConstant(t), k)
    decreases Size(t), 1
  {
    match t {
      case Variable(_) =>
      case ConstantValue(c) =>
        if c.ConstantTerm? {
          ConstantTermRead(c.term, k);
        } else {
          WrapPrints(c.items, Then(Close, k));
          WrapConstants(c.items);
          WrapSize(c.items);
          ConstantListRead(Wrap(c.items), k);
        }
      case TermList(ts) => ConstantListRead(ts, k);
    }
  }

  lemma {:induction false} ConstantListRead(ts: seq<StottrTerm>, k: Text)
    ensures ParseConstant(Then(Open, PrintTerms(ts, Then(Close, k)))) ==
      (if AsConstants(ts).Some? then Read(ConstantList(AsConstants(ts).value), k) else Fail)
    decreases Sizes(ts), 1
  {
    var inside := PrintTerms(ts, Then(Close, k));
    if ts == [] {
      NoConstantAtClose(k);
    } else {
      ItemsStart(ts, Then(Close, k));
      ConstantItemsRead(ts, k);
      assert AsConstants(ts).Some? ==> [] + AsConstants(ts).value == AsConstants(ts).value;
    }
  }

  lemma ItemsStart(ts: seq<StottrTerm>, k: Text)
    requires ts != []
    ensures StartsItem(PrintTerms(ts, k)) && Skip(PrintTerms(ts, k)) == PrintTerms(ts, k)
  {
    TermStarts(ts[0], if |ts| == 1 then k else Then(Comma, Then(Blank, PrintTerms(ts[1..], k))));
  }

  // What follows the first of the printed items.
  function AfterFirst(ts: seq<StottrTerm>, k: Text): Text
    requires ts != []
  {
    if |ts| == 1 then k else Then(Comma, Then(Blank, PrintTerms(ts[1..], k)))
  }

  lemma {:induction false} ConstantItemsRead(ts: seq<StottrTerm>, k: Text)
    requires ts != []
    ensures ReadsItems(ParseConstants(PrintTerms(ts, Then(Close, k))), [], AsConstants(ts), k)
    decreases Sizes(ts), 0
  {
    var rest := AfterFirst(ts, Then(Close, k));
    ConstantRead(ts[0], rest);
    ItemsStart(ts, Then(Close, k));
    var c := AsConstant(ts[0]);
    if c.Some? {
      MoreConstantsRead([c.value], ts[1..], k);
      assert AsConstants(ts).Some? ==> [] + AsConstants(ts).value == [c.value] + AsConstants(ts[1..]).value;
    }
  }

  // The items after the first: a comma, a blank and the next item, or the closing parenthesis.
  lemma {:induction false} MoreConstantsRead(before: seq<Constant>, ts: seq<StottrTerm>, k: Text)
    ensures var text := if ts == [] then Then(Close, k) else Then(Comma, Then(Blank, PrintTerms(ts, Then(Close, k))));
      ReadsItems(MoreConstants(before, text), before, AsConstants(ts), k)
    decreases Sizes(ts), 0
  {
    if ts == [] {
      assert before + [] == before;
    } else {
      var items := PrintTerms(ts, Then(Close, k));
      var rest := AfterFirst(ts, Then(Close, k));
      ItemsStart(ts, Then(Close, k));
      assert Skip(Then(Blank, items)) == Skip(items) == items;
      ConstantRead(ts[0], rest);
      var c := AsConstant(ts[0]);
      if c.Some? {
        MoreConstantsRead(before + [c.value], ts[1..], k);
        if AsConstants(ts).Some? {
          assert before + AsConstants(ts).value == before + [c.value] + AsConstants(ts[1..]).value;
        }
      }
    }
  }

  // ----- terms round trip -----

  /** Parsing a printed term returns its normal form, and fails when a constant is missing. */
  lemma {:induction false} TermRoundTrip(t: StottrTerm, k: Text)
    ensures ParseTerm(PrintTerm(t, k)) == Outcome(Normal(t), k)
    decreases Size(t), 1
  {
    ConstantRead(t, k);
    match t {
      case Variable(_) =>
      case ConstantValue(c) =>
        if c.ConstantList? && !Complete(c) {
          WrapPrints(c.items, Then(Close, k));
          WrapConstants(c.items);
          WrapSize(c.items);
          TermListRead(Wrap(c.items), k);
          WrapNormals(c.items);
        }
      case TermList(ts) =>
        TermListRead(ts, k);
    }
  }

  // A list with a missing constant has no normal form.
  lemma {:induction false} WrapNormals(cs: seq<Constant>)
    requires !AllComplete(cs)
    ensures Normals(Wrap(cs)).None?
  {
    assert Wrap(cs)[1..] == Wrap(cs[1..]);
    if Complete(cs[0]) { WrapNormals(cs[1..]); }
  }

  lemma {:induction false} TermListRead(ts: seq<StottrTerm>, k: Text)
    ensures ParseTermList(Then(Open, PrintTerms(ts, Then(Close, k)))) == Outcome(Normals(ts), k)
    decreases Sizes(ts), 1
  {
    var inside := PrintTerms(ts, Then(Close, k));
    if ts == [] {
      NoTermAtClose(k);
    } else {
      ItemsStart(ts, Then(Close, k));
      TermItemsRead(ts, k);
      assert Normals(ts).Some? ==> [] + Normals(ts).value == Normals(ts).value;
    }
  }

  lemma {:induction false} TermItemsRead(ts: seq<StottrTerm>, k: Text)
    requires ts != []
    ensures ReadsItems(ParseTerms(PrintTerms(ts, Then(Close, k))), [], Normals(ts), k)
    decreases Sizes(ts), 0
  {
    var rest := AfterFirst(ts, Then(Close, k));
    TermRoundTrip(ts[0], rest);
    ItemsStart(ts, Then(Close, k));
    var n := Normal(ts[0]);
    if n.Some? {
      MoreTermsRead([n.value], ts[1..], k);
      assert Normals(ts).Some? ==> [] + Normals(ts).value == [n.value] + Normals(ts[1..]).value;
    }
  }

  lemma {:induction false} MoreTermsRead(before: seq<StottrTerm>, ts: seq<StottrTerm>, k: Text)
    ensures var text := if ts == [] then Then(Close, k) else Then(Comma, Then(Blank, PrintTerms(ts, Then(Close, k))));
      ReadsItems(MoreTerms(before, text), before, Normals(ts), k)
    decreases Sizes(ts), 0
  {
    if ts == [] {
      assert before + [] == before;
    } else {
      var items := PrintTerms(ts, Then(Close, k));
      var rest := AfterFirst(ts, Then(Close, k));
      ItemsStart(ts, Then(Close, k));
      assert Skip(Then(Blank, items)) == Skip(items) == items;
      TermRoundTrip(ts[0], rest);
      var n := Normal(ts[0]);
      if n.Some? {
        MoreTermsRead(before + [n.value], ts[1..], k);
        if Normals(ts).Some? {
          assert before + Normals(ts).value == before + [n.value] + Normals(ts[1..]).value;
        }
      }
    }
  }
}
