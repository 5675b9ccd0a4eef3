/** Printing property paths and parsing them back, section 19.8 of SPARQL 1.1 Query. */
module PathSyntax {
  import opened Wrappers
  import opened Rdf
  import opened Algebra
  import opened Tokens

  // ----- printing: the text of p, and then k -----

  function PrintIris(ns: seq<Iri>, k: Text): Text {
    if ns == [] then k
    else if |ns| == 1 then Then(IriToken(ns[0]), k)
    else Then(IriToken(ns[0]), Then(Blank, Then(Bar, Then(Blank, PrintIris(ns[1..], k)))))
  }

  function Print(p: PropertyPath, k: Text): Text {
    match p
    case PathNode(n) => Then(IriToken(n), k)
    case Reverse(q) => Then(Caret, Then(Open, Print(q, Then(Close, k))))
    case Sequence(a, b) => Then(Open, Print(a, Then(Blank, Then(Slash, Then(Blank, Print(b, Then(Close, k)))))))
    case Alternative(a, b) => Then(Open, Print(a, Then(Blank, Then(Bar, Then(Blank, Print(b, Then(Close, k)))))))
    case ZeroOrMore(q) => Then(Open, Print(q, Then(Close, Then(Star, k))))
    case OneOrMore(q) => Then(Open, Print(q, Then(Close, Then(Plus, k))))
    case ZeroOrOne(q) => Then(Open, Print(q, Then(Close, Then(Question, k))))
    case NegatedPropertySet(ns) => Then(Bang, Then(Open, PrintIris(ns, Then(Close, k))))
  }

  // ----- parsing: ordered choice, each rule returning what it read and what is left -----

  function ParsePath(ts: Text): (r: Parsed<PropertyPath>)
    ensures r.Read? ==> Len(r.rest) < Len(ts)
    decreases Len(ts), 4
  {
    var first := ParseSequence(ts);
    if first.Fail? then Fail else MoreAlternatives(first.value, Skip(first.rest))
  }

  // Further alternatives; a bar that no alternative follows is left unread.
  function MoreAlternatives(a: PropertyPath, ts: Text): (r: Parsed<PropertyPath>)
    ensures r.Read? && Len(r.rest) <= Len(ts)
    decreases Len(ts), 5
  {
    if !Starts(ts, Bar) then Read(a, ts)
    else
      var next := ParseSequence(Skip(ts.tail));
      if next.Fail? then Read(a, ts) else MoreAlternatives(Alternative(a, next.value), Skip(next.rest))
  }

  function ParseSequence(ts: Text): (r: Parsed<PropertyPath>)
    ensures r.Read? ==> Len(r.rest) < Len(ts)
    decreases Len(ts), 3
  {
    var first := ParseEltOrInverse(ts);
    if first.Fail? then Fail else MoreSteps(first.value, Skip(first.rest))
  }

  function MoreSteps(a: PropertyPath, ts: Text): (r: Parsed<PropertyPath>)
    ensures r.Read? && Len(r.rest) <= Len(ts)
    decreases Len(ts), 4
  {
    if !Starts(ts, Slash) then Read(a, ts)
    else
      var next := ParseEltOrInverse(Skip(ts.tail));
      if next.Fail? then Read(a, ts) else MoreSteps(Sequence(a, next.value), Skip(next.rest))
  }

  function ParseEltOrInverse(ts: Text): (r: Parsed<PropertyPath>)
    ensures r.Read? ==> Len(r.rest) < Len(ts)
    decreases Len(ts), 2
  {
    if Starts(ts, Caret) then
      var p := ParseElt(Skip(ts.tail));
      if p.Read? then Read(Reverse(p.value), p.rest) else ParseElt(ts)
    else ParseElt(ts)
  }

  function ParseElt(ts: Text): (r: Parsed<PropertyPath>)
    ensures r.Read? ==> Len(r.rest) < Len(ts)
    decreases Len(ts), 1
  {
    var p := ParsePrimary(ts);
    if p.Fail? then Fail
    else
      var rest := Skip(p.rest);
      if Starts(rest, Star) then Read(ZeroOrMore(p.value), rest.tail)
      else if Starts(rest, Plus) then Read(OneOrMore(p.value), rest.tail)
      else if StartsOptional(rest) then Read(ZeroOrOne(p.value), rest.tail)
      else Read(p.value, rest)
  }

  predicate StartsAWord(ts: Text) { ts.Then? && ts.token.Word? }

  // A question mark that does not start a variable.
  predicate StartsOptional(ts: Text) {
    Starts(ts, Question) && !StartsAWord(ts.tail)
  }

  function ParseIri(ts: Text): (r: Parsed<Iri>)
    ensures r.Read? ==> Len(r.rest) < Len(ts)
  {
    if ts.Then? && ts.token.IriToken? then Read(ts.token.iri, ts.tail)
    else if Starts(ts, Word("a")) then Read(RDF_TYPE, ts.tail)
    else Fail
  }

  function ParsePrimary(ts: Text): (r: Parsed<PropertyPath>)
    ensures r.Read? ==> Len(r.rest) < Len(ts)
    decreases Len(ts), 0
  {
    var iri := ParseIri(ts);
    if iri.Read? then Read(PathNode(iri.value), iri.rest)
    else if Starts(ts, Bang) then ParseNegatedSet(Skip(ts.tail))
    else if Starts(ts, Open) then
      var p := ParsePath(Skip(ts.tail));
      if p.Read? && Starts(Skip(p.rest), Close) then Read(p.value, Skip(p.rest).tail) else Fail
    else Fail
  }

  datatype OneInSet = Direct(iri: Iri) | Inverse(iri: Iri)

  function ParseOneInSet(ts: Text): (r: Parsed<OneInSet>)
    ensures r.Read? ==> Len(r.rest) < Len(ts)
  {
    if Starts(ts, Caret) then
      var i := ParseIri(Skip(ts.tail));
      if i.Read? then Read(Inverse(i.value), i.rest) else Fail
    else
      var i := ParseIri(ts);
      if i.Read? then Read(Direct(i.value), i.rest) else Fail
  }

  function MoreInSet(items: seq<OneInSet>, ts: Text): (r: Parsed<seq<OneInSet>>)
    ensures r.Read? && Len(r.rest) <= Len(ts)
    decreases Len(ts)
  {
    if !Starts(ts, Bar) then Read(items, ts)
    else
      var next := ParseOneInSet(Skip(ts.tail));
      if next.Fail? then Read(items, ts) else MoreInSet(items + [next.value], Skip(next.rest))
  }

  function Directs(items: seq<OneInSet>): seq<Iri> {
    if items == [] then []
    else Directs(items[..|items| - 1]) + (if items[|items| - 1].Direct? then [items[|items| - 1].iri] else [])
  }

  function Inverses(items: seq<OneInSet>): seq<Iri> {
    if items == [] then []
    else Inverses(items[..|items| - 1]) + (if items[|items| - 1].Inverse? then [items[|items| - 1].iri] else [])
  }

  function SetOf(items: seq<OneInSet>): PropertyPath {
    var direct, inverse := Directs(items), Inverses(items);
    if inverse == [] then NegatedPropertySet(direct)
    else if direct == [] then Reverse(NegatedPropertySet(inverse))
    else Alternative(NegatedPropertySet(direct), Reverse(NegatedPropertySet(inverse)))
  }

  function ParseNegatedSet(ts: Text): (r: Parsed<PropertyPath>)
    ensures r.Read? ==> Len(r.rest) < Len(ts)
  {
    var group := ParseSetGroup(ts);
    if group.Read? then group
    else
      var one := ParseOneInSet(ts);
      if one.Read? then Read(SetOf([one.value]), one.rest) else Fail
  }

  function ParseSetGroup(ts: Text): (r: Parsed<PropertyPath>)
    ensures r.Read? ==> Len(r.rest) < Len(ts)
  {
    if !Starts(ts, Open) then Fail
    else
      var first := ParseOneInSet(Skip(ts.tail));
      if first.Fail? then Fail
      else
        var all := MoreInSet([first.value], Skip(first.rest));
        if Starts(all.rest, Close) then Read(SetOf(all.value), all.rest.tail) else Fail
  }

  // ----- the round trip -----

  predicate NonEmptySets(p: PropertyPath) {
    match p
    case PathNode(_) => true
    case Reverse(q) => NonEmptySets(q)
    case Sequence(a, b) => NonEmptySets(a) && NonEmptySets(b)
    case Alternative(a, b) => NonEmptySets(a) && NonEmptySets(b)
    case ZeroOrMore(q) => NonEmptySets(q)
    case OneOrMore(q) => NonEmptySets(q)
    case ZeroOrOne(q) => NonEmptySets(q)
    case NegatedPropertySet(ns) => ns != []
  }

  // What follows cannot be taken for a closure operator, nor for the name of a variable after a
  // question mark; a variable can follow, also without a blank.
  predicate NoOperator(k: Text) {
    && !Starts(Skip(k), Star) && !Starts(Skip(k), Plus) && !StartsOptional(Skip(k))
    && !StartsAWord(k)
  }

  // A step read from r leaves k, up to blanks.
  predicate Leaves(r: Parsed<PropertyPath>, p: PropertyPath, k: Text) {
    r.Read? && r.value == p && Skip(r.rest) == Skip(k)
  }

  // A printed path does not start with a blank.
  lemma PrintedStart(p: PropertyPath, k: Text)
    ensures Skip(Print(p, k)) == Print(p, k)
    ensures Print(p, k).Then? && Print(p, k).token != Blank
  {
  }

  lemma {:induction false} DirectItems(items: seq<OneInSet>, ns: seq<Iri>)
    requires |items| == |ns| && forall i :: 0 <= i < |ns| ==> items[i] == Direct(ns[i])
    ensures Directs(items) == ns && Inverses(items) == []
  {
    if items != [] {
      var k := |items| - 1;
      DirectItems(items[..k], ns[..k]);
      assert ns == ns[..k] + [ns[k]];
    }
  }

  function AllDirect(ns: seq<Iri>): seq<OneInSet> {
    seq(|ns|, i requires 0 <= i < |ns| => Direct(ns[i]))
  }

  lemma {:induction false} SetItemsRead(items: seq<OneInSet>, ns: seq<Iri>, k: Text)
    requires ns != []
    ensures MoreInSet(items, Then(Bar, Then(Blank, PrintIris(ns, Then(Close, k))))) ==
      Read(items + AllDirect(ns), Then(Close, k))
    decreases |ns|
  {
    var more := items + [Direct(ns[0])];
    var ts := PrintIris(ns, Then(Close, k));
    assert Skip(Then(Blank, ts)) == Skip(ts) == ts;
    if |ns| == 1 {
      assert more == items + AllDirect(ns);
      assert MoreInSet(more, Then(Close, k)) == Read(more, Then(Close, k));
    } else {
      SetItemsRead(more, ns[1..], k);
      assert more + AllDirect(ns[1..]) == items + AllDirect(ns);
      var next := Then(Bar, Then(Blank, PrintIris(ns[1..], Then(Close, k))));
      assert ts == Then(IriToken(ns[0]), Then(Blank, next));
      assert Skip(Then(Blank, next)) == Skip(next) == next;
    }
  }

  // A group whose items are read up to its closing parenthesis.
  lemma SetGroupRead(ts: Text, first: OneInSet, rest: Text, items: seq<OneInSet>, k: Text)
    requires Skip(ts) == ts && ParseOneInSet(ts) == Read(first, rest)
    requires MoreInSet([first], Skip(rest)) == Read(items, Then(Close, k))
    ensures ParseNegatedSet(Then(Open, ts)) == Read(SetOf(items), k)
  {
    assert ParseSetGroup(Then(Open, ts)) == Read(SetOf(items), k);
  }

  // What follows the first IRI of a set.
  function AfterFirst(ns: seq<Iri>, k: Text): Text
    requires ns != []
  {
    if |ns| == 1 then Then(Close, k) else Then(Blank, Then(Bar, Then(Blank, PrintIris(ns[1..], Then(Close, k)))))
  }

  lemma FirstRead(ns: seq<Iri>, k: Text)
    requires ns != []
    ensures var ts := PrintIris(ns, Then(Close, k));
      Skip(ts) == ts && ParseOneInSet(ts) == Read(Direct(ns[0]), AfterFirst(ns, k))
  {
  }

  lemma NegatedSetReads(ns: seq<Iri>, k: Text)
    requires ns != []
    ensures ParseNegatedSet(Then(Open, PrintIris(ns, Then(Close, k)))) == Read(NegatedPropertySet(ns), k)
  {
    var items := AllDirect(ns);
    FirstRead(ns, k);
    DirectItems(items, ns);
    assert [Direct(ns[0])] + AllDirect(ns[1..]) == items;
    if |ns| == 1 {
      assert items == [Direct(ns[0])];
      assert MoreInSet(items, Then(Close, k)) == Read(items, Then(Close, k));
    } else {
      SetItemsRead([Direct(ns[0])], ns[1..], k);
      assert Skip(AfterFirst(ns, k)) == AfterFirst(ns, k).tail;
    }
    SetGroupRead(PrintIris(ns, Then(Close, k)), Direct(ns[0]), AfterFirst(ns, k), items, k);
  }

  // ----- parenthesised parts -----

  // One unfolding of each rule.

  lemma SequenceStarts(ts: Text, a: PropertyPath, k: Text)
    requires Leaves(ParseEltOrInverse(ts), a, k)
    ensures ParseSequence(ts) == MoreSteps(a, Skip(k))
  {
  }

  lemma StepsEnd(a: PropertyPath, ts: Text)
    requires !Starts(ts, Slash)
    ensures MoreSteps(a, ts) == Read(a, ts)
  {
  }

  lemma StepTaken(a: PropertyPath, ts: Text, b: PropertyPath, k: Text)
    requires Leaves(ParseEltOrInverse(Skip(ts)), b, k)
    ensures MoreSteps(a, Then(Slash, ts)) == MoreSteps(Sequence(a, b), Skip(k))
  {
  }

  lemma PathStarts(ts: Text, a: PropertyPath, k: Text)
    requires ParseSequence(ts) == Read(a, k)
    ensures ParsePath(ts) == MoreAlternatives(a, Skip(k))
  {
  }

  lemma AlternativesEnd(a: PropertyPath, ts: Text)
    requires !Starts(ts, Bar)
    ensures MoreAlternatives(a, ts) == Read(a, ts)
  {
  }

  lemma AlternativeTaken(a: PropertyPath, ts: Text, b: PropertyPath, k: Text)
    requires ParseSequence(Skip(ts)) == Read(b, k)
    ensures MoreAlternatives(a, Then(Bar, ts)) == MoreAlternatives(Alternative(a, b), Skip(k))
  {
  }

  lemma GroupRead(ts: Text, p: PropertyPath, k: Text)
    requires Skip(ts) == ts && ParsePath(ts) == Read(p, Then(Close, k))
    ensures ParsePrimary(Then(Open, ts)) == Read(p, k)
  {
    CloseFollows(k);
  }

  lemma SinglePathReads(q: PropertyPath, k: Text)
    requires Leaves(ParseEltOrInverse(Print(q, Then(Close, k))), q, Then(Close, k))
    ensures ParsePrimary(Then(Open, Print(q, Then(Close, k)))) == Read(q, k)
  {
    var ts, end := Print(q, Then(Close, k)), Then(Close, k);
    PrintedStart(q, end);
    CloseFollows(k);
    SequenceStarts(ts, q, end);
    StepsEnd(q, end);
    PathStarts(ts, q, end);
    AlternativesEnd(q, end);
    GroupRead(ts, q, k);
  }

  lemma BlankSkipped(ts: Text)
    ensures Skip(Then(Blank, ts)) == Skip(ts)
  {
  }

  // The second step, after the slash and a blank.
  lemma SecondStep(a: PropertyPath, last: Text, b: PropertyPath, k: Text)
    requires Leaves(ParseEltOrInverse(last), b, Then(Close, k)) && Skip(last) == last
    ensures MoreSteps(a, Then(Slash, Then(Blank, last))) == Read(Sequence(a, b), Then(Close, k))
  {
    CloseFollows(k);
    BlankSkipped(last);
    StepTaken(a, Then(Blank, last), b, Then(Close, k));
    StepsEnd(Sequence(a, b), Then(Close, k));
  }

  // Two steps in parentheses.
  lemma SequenceGroup(ts: Text, a: PropertyPath, last: Text, b: PropertyPath, k: Text)
    requires Skip(ts) == ts && Skip(last) == last && Leaves(ParseEltOrInverse(last), b, Then(Close, k))
    requires Leaves(ParseEltOrInverse(ts), a, Then(Blank, Then(Slash, Then(Blank, last))))
    ensures ParsePrimary(Then(Open, ts)) == Read(Sequence(a, b), k)
  {
    var next := Then(Slash, Then(Blank, last));
    BlankSkipped(next);
    SequenceStarts(ts, a, Then(Blank, next));
    SecondStep(a, last, b, k);
    CloseFollows(k);
    PathStarts(ts, Sequence(a, b), Then(Close, k));
    AlternativesEnd(Sequence(a, b), Then(Close, k));
    GroupRead(ts, Sequence(a, b), k);
  }

  lemma SequenceReads(a: PropertyPath, b: PropertyPath, k: Text)
    requires Leaves(ParseEltOrInverse(Print(b, Then(Close, k))), b, Then(Close, k))
    requires var rest := Then(Blank, Then(Slash, Then(Blank, Print(b, Then(Close, k)))));
      Leaves(ParseEltOrInverse(Print(a, rest)), a, rest)
    ensures ParsePrimary(Print(Sequence(a, b), k)) == Read(Sequence(a, b), k)
  {
    var last := Print(b, Then(Close, k));
    var rest := Then(Blank, Then(Slash, Then(Blank, last)));
    PrintedStart(b, Then(Close, k));
    PrintedStart(a, rest);
    SequenceGroup(Print(a, rest), a, last, b, k);
  }

  // The second alternative, after the bar and a blank.
  lemma SecondAlternative(a: PropertyPath, last: Text, b: PropertyPath, k: Text)
    requires Leaves(ParseEltOrInverse(last), b, Then(Close, k)) && Skip(last) == last
    ensures MoreAlternatives(a, Then(Bar, Then(Blank, last))) == Read(Alternative(a, b), Then(Close, k))
  {
    var end := Then(Close, k);
    CloseFollows(k);
    BlankSkipped(last);
    SequenceStarts(last, b, end);
    StepsEnd(b, end);
    AlternativeTaken(a, Then(Blank, last), b, end);
    AlternativesEnd(Alternative(a, b), end);
  }

  // The first alternative, up to the bar.
  lemma FirstAlternative(ts: Text, a: PropertyPath, next: Text)
    requires Starts(next, Bar) && Leaves(ParseEltOrInverse(ts), a, Then(Blank, next))
    ensures ParsePath(ts) == MoreAlternatives(a, next)
  {
    BlankSkipped(next);
    assert Skip(next) == next;
    SequenceStarts(ts, a, Then(Blank, next));
    StepsEnd(a, next);
    PathStarts(ts, a, next);
  }

  // Two alternatives in parentheses.
  lemma AlternativeGroup(ts: Text, a: PropertyPath, last: Text, b: PropertyPath, k: Text)
    requires Skip(ts) == ts && Skip(last) == last && Leaves(ParseEltOrInverse(last), b, Then(Close, k))
    requires Leaves(ParseEltOrInverse(ts), a, Then(Blank, Then(Bar, Then(Blank, last))))
    ensures ParsePrimary(Then(Open, ts)) == Read(Alternative(a, b), k)
  {
    SecondAlternative(a, last, b, k);
    FirstAlternative(ts, a, Then(Bar, Then(Blank, last)));
    GroupRead(ts, Alternative(a, b), k);
  }

  lemma AlternativeReads(a: PropertyPath, b: PropertyPath, k: Text)
    requires Leaves(ParseEltOrInverse(Print(b, Then(Close, k))), b, Then(Close, k))
    requires var rest := Then(Blank, Then(Bar, Then(Blank, Print(b, Then(Close, k)))));
      Leaves(ParseEltOrInverse(Print(a, rest)), a, rest)
    ensures ParsePrimary(Print(Alternative(a, b), k)) == Read(Alternative(a, b), k)
  {
    var last := Print(b, Then(Close, k));
    PrintedStart(b, Then(Close, k));
    var rest := Then(Blank, Then(Bar, Then(Blank, last)));
    PrintedStart(a, rest);
    AlternativeGroup(Print(a, rest), a, last, b, k);
    PrintedAlternative(a, b, k);
    SameText(Print(Alternative(a, b), k), Then(Open, Print(a, rest)), Alternative(a, b), k);
  }

  lemma PrintedAlternative(a: PropertyPath, b: PropertyPath, k: Text)
    ensures Print(Alternative(a, b), k) == Then(Open, Print(a, Then(Blank, Then(Bar, Then(Blank, Print(b, Then(Close, k)))))))
  {
  }

  lemma SameText(x: Text, y: Text, p: PropertyPath, k: Text)
    requires x == y && ParsePrimary(y) == Read(p, k)
    ensures ParsePrimary(x) == Read(p, k)
  {
  }

  lemma CloseFollows(k: Text)
    ensures Skip(Then(Close, k)) == Then(Close, k) && NoOperator(Then(Close, k))
  {
  }

  lemma SeparatorFollows(op: Token, rest: Text)
    requires op == Slash || op == Bar
    ensures NoOperator(Then(Blank, Then(op, rest)))
  {
    assert Skip(Then(Blank, Then(op, rest))) == Skip(Then(op, rest)) == Then(op, rest);
  }

  /** A printed step is read back, up to the blanks after it. */
  lemma {:induction false} StepRoundTrip(p: PropertyPath, k: Text)
    requires NonEmptySets(p) && NoOperator(k)
    ensures Leaves(ParseEltOrInverse(Print(p, k)), p, k)
    decreases p, 1
  {
    SkipTwice(k);
    match p {
      case PathNode(n) => PrimaryStep(p, k);
      case NegatedPropertySet(ns) =>
        NegatedSetReads(ns, k);
        BangRead(Then(Open, PrintIris(ns, Then(Close, k))), p, k);
        PrimaryStep(p, k);
      case Reverse(q) =>
        GroupRoundTrip(q, k);
        InverseStep(q, k);
      case ZeroOrMore(q) =>
        GroupRoundTrip(q, Then(Star, k));
        ClosureStep(p, k);
      case OneOrMore(q) =>
        GroupRoundTrip(q, Then(Plus, k));
        ClosureStep(p, k);
      case ZeroOrOne(q) =>
        GroupRoundTrip(q, Then(Question, k));
        ClosureStep(p, k);
      case Sequence(a, b) =>
        PartsRoundTrip(p, a, b, Slash, k);
        SequenceReads(a, b, k);
        PrimaryStep(p, k);
      case Alternative(a, b) =>
        PartsRoundTrip(p, a, b, Bar, k);
        AlternativeReads(a, b, k);
        PrimaryStep(p, k);
    }
  }

  lemma BangRead(ts: Text, p: PropertyPath, k: Text)
    requires Starts(ts, Open) && ParseNegatedSet(ts) == Read(p, k)
    ensures ParsePrimary(Then(Bang, ts)) == Read(p, k)
  {
    assert Skip(ts) == ts;
  }

  // A primary that no operator follows is a step.
  lemma StepFromPrimary(ts: Text, p: PropertyPath, k: Text)
    requires ParsePrimary(ts) == Read(p, k) && NoOperator(k)
    ensures ParseElt(ts) == Read(p, Skip(k))
    ensures !Starts(ts, Caret) ==> ParseEltOrInverse(ts) == Read(p, Skip(k))
  {
  }

  lemma PrimaryStep(p: PropertyPath, k: Text)
    requires !Starts(Print(p, k), Caret) && ParsePrimary(Print(p, k)) == Read(p, k) && NoOperator(k)
    ensures Leaves(ParseEltOrInverse(Print(p, k)), p, k)
  {
    StepFromPrimary(Print(p, k), p, k);
    SkipTwice(k);
  }

  lemma InverseStep(q: PropertyPath, k: Text)
    requires ParsePrimary(Then(Open, Print(q, Then(Close, k)))) == Read(q, k) && NoOperator(k)
    ensures Leaves(ParseEltOrInverse(Print(Reverse(q), k)), Reverse(q), k)
  {
    var ts := Then(Open, Print(q, Then(Close, k)));
    StepFromPrimary(ts, q, k);
    SkipTwice(k);
    assert Skip(ts) == ts;
  }

  function Operator(p: PropertyPath): Token
    requires p.ZeroOrMore? || p.OneOrMore? || p.ZeroOrOne?
  {
    if p.ZeroOrMore? then Star else if p.OneOrMore? then Plus else Question
  }

  lemma ClosureStep(p: PropertyPath, k: Text)
    requires p.ZeroOrMore? || p.OneOrMore? || p.ZeroOrOne?
    requires ParsePrimary(Print(p, k)) == Read(p.path, Then(Operator(p), k)) && NoOperator(k)
    ensures ParseEltOrInverse(Print(p, k)) == Read(p, k)
  {
    assert Skip(Then(Operator(p), k)) == Then(Operator(p), k);
  }

  lemma {:induction false} PartsRoundTrip(p: PropertyPath, a: PropertyPath, b: PropertyPath, op: Token, k: Text)
    requires (p == Sequence(a, b) && op == Slash) || (p == Alternative(a, b) && op == Bar)
    requires NonEmptySets(a) && NonEmptySets(b)
    ensures Leaves(ParseEltOrInverse(Print(b, Then(Close, k))), b, Then(Close, k))
    ensures var rest := Then(Blank, Then(op, Then(Blank, Print(b, Then(Close, k)))));
      Leaves(ParseEltOrInverse(Print(a, rest)), a, rest)
    decreases p, 0
  {
    CloseFollows(k);
    StepRoundTrip(b, Then(Close, k));
    var rest := Then(Blank, Then(op, Then(Blank, Print(b, Then(Close, k)))));
    SeparatorFollows(op, rest.tail.tail);
    StepRoundTrip(a, rest);
  }

  lemma {:induction false} GroupRoundTrip(q: PropertyPath, k: Text)
    requires NonEmptySets(q)
    ensures ParsePrimary(Then(Open, Print(q, Then(Close, k)))) == Read(q, k)
    decreases q, 2
  {
    CloseFollows(k);
    StepRoundTrip(q, Then(Close, k));
    SinglePathReads(q, k);
  }

  // ----- an empty negated property set cannot be read back -----

  lemma EmptyGroupFails(k: Text)
    ensures ParseNegatedSet(Then(Open, Then(Close, k))).Fail?
  {
    assert Skip(Then(Close, k)) == Then(Close, k);
  }

  lemma BangFails(ts: Text)
    requires Starts(ts, Open) && ParseNegatedSet(ts).Fail?
    ensures ParsePrimary(Then(Bang, ts)).Fail?
  {
    assert Skip(ts) == ts;
  }

  lemma EmptySetFails(k: Text)
    ensures ParsePrimary(Print(NegatedPropertySet([]), k)).Fail?
  {
    EmptyGroupFails(k);
    BangFails(Then(Open, Then(Close, k)));
  }

  // A printed path without a leading caret is a primary or nothing.
  lemma PrimaryFails(p: PropertyPath, k: Text)
    requires ParsePrimary(Print(p, k)).Fail? && !p.Reverse?
    ensures ParseEltOrInverse(Print(p, k)).Fail?
  {
  }

  lemma SequenceFails(ts: Text)
    requires ParseEltOrInverse(ts).Fail?
    ensures ParseSequence(ts).Fail? && ParsePath(ts).Fail?
  {
    assert ParseSequence(ts).Fail?;
  }

  lemma InnerFails(q: PropertyPath, k: Text)
    requires ParseEltOrInverse(Print(q, k)).Fail?
    ensures ParsePrimary(Then(Open, Print(q, k))).Fail?
  {
    PrintedStart(q, k);
    SequenceFails(Print(q, k));
  }

  // A caret before what is no primary.
  lemma CaretFails(ts: Text)
    requires Starts(ts, Open) && ParsePrimary(ts).Fail?
    ensures ParseEltOrInverse(Then(Caret, ts)).Fail?
  {
    assert Skip(ts) == ts && ParseElt(ts).Fail?;
    assert ParsePrimary(Then(Caret, ts)).Fail?;
    assert ParseElt(Then(Caret, ts)).Fail?;
  }

  // The first part is read, the separator is left, and no closing parenthesis follows.
  lemma SecondPartFails(a: PropertyPath, b: PropertyPath, op: Token, k: Text)
    requires op == Slash || op == Bar
    requires ParseEltOrInverse(Print(b, Then(Close, k))).Fail?
    requires var rest := Then(Blank, Then(op, Then(Blank, Print(b, Then(Close, k)))));
      Leaves(ParseEltOrInverse(Print(a, rest)), a, rest)
    ensures ParsePrimary(Then(Open, Print(a, Then(Blank, Then(op, Then(Blank, Print(b, Then(Close, k)))))))).Fail?
  {
    var last := Print(b, Then(Close, k));
    var next := Then(op, Then(Blank, last));
    var ts := Print(a, Then(Blank, next));
    PrintedStart(b, Then(Close, k));
    PrintedStart(a, Then(Blank, next));
    BlankSkipped(last);
    BlankSkipped(next);
    SequenceFails(last);
    SequenceStarts(ts, a, Then(Blank, next));
    NoSecondStep(a, Then(Blank, last), op);
    PathStarts(ts, a, next);
    NoSecondAlternative(a, Then(Blank, last), op);
    NotClosed(ts, a, next);
  }

  // A separator that no step follows is left unread.
  lemma NoSecondStep(a: PropertyPath, ts: Text, op: Token)
    requires op != Slash || ParseEltOrInverse(Skip(ts)).Fail?
    ensures MoreSteps(a, Then(op, ts)) == Read(a, Then(op, ts))
  {
  }

  lemma NoSecondAlternative(a: PropertyPath, ts: Text, op: Token)
    requires op != Bar || ParseSequence(Skip(ts)).Fail?
    ensures MoreAlternatives(a, Then(op, ts)) == Read(a, Then(op, ts))
  {
  }

  lemma NotClosed(ts: Text, a: PropertyPath, rest: Text)
    requires Skip(ts) == ts && ParsePath(ts) == Read(a, rest) && !Starts(Skip(rest), Close)
    ensures ParsePrimary(Then(Open, ts)).Fail?
  {
  }

  lemma {:induction false} StepFails(p: PropertyPath, k: Text)
    requires !NonEmptySets(p)
    ensures ParseEltOrInverse(Print(p, k)).Fail?
    decreases p, 1
  {
    match p {
      case NegatedPropertySet(ns) => EmptySetFails(k);
      case Reverse(q) =>
        StepFails(q, Then(Close, k));
        InnerFails(q, Then(Close, k));
        CaretFails(Then(Open, Print(q, Then(Close, k))));
      case ZeroOrMore(q) => ClosureFails(p, k);
      case OneOrMore(q) => ClosureFails(p, k);
      case ZeroOrOne(q) => ClosureFails(p, k);
      case Sequence(a, b) => PartFails(p, a, b, Slash, k);
      case Alternative(a, b) => PartFails(p, a, b, Bar, k);
    }
  }

  lemma {:induction false} ClosureFails(p: PropertyPath, k: Text)
    requires p.ZeroOrMore? || p.OneOrMore? || p.ZeroOrOne?
    requires !NonEmptySets(p)
    ensures ParseEltOrInverse(Print(p, k)).Fail?
    decreases p, 0
  {
    StepFails(p.path, Then(Close, Then(Operator(p), k)));
    InnerFails(p.path, Then(Close, Then(Operator(p), k)));
    PrimaryFails(p, k);
  }

  lemma {:induction false} PartFails(p: PropertyPath, a: PropertyPath, b: PropertyPath, op: Token, k: Text)
    requires (p == Sequence(a, b) && op == Slash) || (p == Alternative(a, b) && op == Bar)
    requires !NonEmptySets(a) || !NonEmptySets(b)
    ensures ParseEltOrInverse(Print(p, k)).Fail?
    decreases p, 0
  {
    var rest := Then(Blank, Then(op, Then(Blank, Print(b, Then(Close, k)))));
    if !NonEmptySets(a) {
      StepFails(a, rest);
      InnerFails(a, rest);
    } else {
      SeparatorFollows(op, rest.tail.tail);
      StepRoundTrip(a, rest);
      StepFails(b, Then(Close, k));
      SecondPartFails(a, b, op, k);
    }
    PrimaryFails(p, k);
  }

  // ----- whole paths -----

  // No further step or alternative follows either.
  predicate EndsPath(k: Text) {
    NoOperator(k) && !Starts(Skip(k), Slash) && !Starts(Skip(k), Bar)
  }

  /** Parsing the printed path returns the path and what follows it: exactly when no negated set is empty. */
  lemma PathRoundTrip(p: PropertyPath, k: Text)
    requires EndsPath(k)
    ensures ParsePath(Print(p, k)) == Read(p, Skip(k)) <==> NonEmptySets(p)
    ensures ParsePath(Print(p, k)).Fail? <==> !NonEmptySets(p)
  {
    if NonEmptySets(p) {
      StepRoundTrip(p, k);
      SkipTwice(k);
      SequenceStarts(Print(p, k), p, k);
      StepsEnd(p, Skip(k));
      PathStarts(Print(p, k), p, Skip(k));
      AlternativesEnd(p, Skip(k));
    } else {
      StepFails(p, k);
      SequenceFails(Print(p, k));
    }
  }

  /** In a triple the path is followed by a blank and its object, possibly a variable. */
  lemma PathBeforeVariable(p: PropertyPath, name: string, k: Text)
    requires NonEmptySets(p)
    ensures ParsePath(Print(p, Then(Blank, Then(Question, Then(Word(name), k))))) ==
      Read(p, Then(Question, Then(Word(name), k)))
  {
    var object_ := Then(Question, Then(Word(name), k));
    assert Skip(Then(Blank, object_)) == Skip(object_) == object_;
    PathRoundTrip(p, Then(Blank, object_));
  }
}
