/**
  The grammar of property paths, section 19.8 of SPARQL 1.1 Query, as trees: the parser reads exactly what it derives,
  with or without parentheses, and as the tree groups it.
 */
module PathGrammar {
  import opened Wrappers
  import opened Rdf
  import opened Algebra
  import opened PathSemantics
  import opened Tokens
  import opened PathSyntax

  // ----- trees; a gap is a number of blanks -----

  datatype Name = Spelled(iri: Iri) | TypeKeyword

  // One item of a negated set, with the gaps before and after it.
  datatype Item = Item(before: nat, inverse: bool, gap: nat, name: Name, after: nat)

  datatype Closure = Stars | Pluses | Optional

  datatype Tree =
    | NameTree(name: Name)
    | NotOne(gap: nat, item: Item)
    | NotAny(gap: nat, first: Item, more: seq<Item>)
    | Parens(before: nat, path: Tree, after: nat)
    | Closed(primary: Tree, gap: nat, op: Closure)
    | Inverted(gap: nat, elt: Tree)
    | Steps(left: Tree, before: nat, after: nat, right: Tree)
    | Choice(left: Tree, before: nat, after: nat, right: Tree)

  // 0 for a primary, 1 for an element, 2 for an element or inverse, 3 for a sequence, 4 for a path.
  function Level(t: Tree): nat {
    match t
    case Closed(_, _, _) => 1
    case Inverted(_, _) => 2
    case Steps(_, _, _, _) => 3
    case Choice(_, _, _, _) => 4
    case _ => 0
  }

  /** Operators bind as the grammar says; sequences and alternatives group from the left. */
  predicate Derived(t: Tree) {
    match t
    case NameTree(_) => true
    case NotOne(_, item) => item.before == 0 && item.after == 0
    case NotAny(_, _, _) => true
    case Parens(_, p, _) => Derived(p)
    case Closed(p, _, _) => Derived(p) && Level(p) == 0
    case Inverted(_, e) => Derived(e) && Level(e) <= 1
    case Steps(l, _, _, r) => Derived(l) && Derived(r) && Level(l) <= 3 && Level(r) <= 2
    case Choice(l, _, _, r) => Derived(l) && Derived(r) && Level(r) <= 3
  }

  // ----- the text of a tree, and then k -----

  function Gap(n: nat, k: Text): Text { if n == 0 then k else Then(Blank, Gap(n - 1, k)) }

  function NameToken(n: Name): Token {
    match n
    case Spelled(iri) => IriToken(iri)
    case TypeKeyword => Word("a")
  }

  function ItemText(i: Item, k: Text): Text {
    var name := Then(NameToken(i.name), Gap(i.after, k));
    Gap(i.before, if i.inverse then Then(Caret, Gap(i.gap, name)) else name)
  }

  function MoreText(items: seq<Item>, k: Text): Text {
    if items == [] then k else Then(Bar, ItemText(items[0], MoreText(items[1..], k)))
  }

  function OpToken(op: Closure): Token {
    match op
    case Stars => Star
    case Pluses => Plus
    case Optional => Question
  }

  function TreeText(t: Tree, k: Text): Text {
    match t
    case NameTree(n) => Then(NameToken(n), k)
    case NotOne(gap, item) => Then(Bang, Gap(gap, ItemText(item, k)))
    case NotAny(gap, first, more) => Then(Bang, Gap(gap, Then(Open, ItemText(first, MoreText(more, Then(Close, k))))))
    case Parens(before, p, after) => Then(Open, Gap(before, TreeText(p, Gap(after, Then(Close, k)))))
    case Closed(p, gap, op) => TreeText(p, Gap(gap, Then(OpToken(op), k)))
    case Inverted(gap, e) => Then(Caret, Gap(gap, TreeText(e, k)))
    case Steps(l, before, after, r) => TreeText(l, Gap(before, Then(Slash, Gap(after, TreeText(r, k)))))
    case Choice(l, before, after, r) => TreeText(l, Gap(before, Then(Bar, Gap(after, TreeText(r, k)))))
  }

  // ----- the path of a tree -----

  function NameIri(n: Name): Iri { if n.Spelled? then n.iri else RDF_TYPE }

  function ItemValue(i: Item): OneInSet { if i.inverse then Inverse(NameIri(i.name)) else Direct(NameIri(i.name)) }

  function ItemValues(items: seq<Item>): seq<OneInSet> {
    seq(|items|, i requires 0 <= i < |items| => ItemValue(items[i]))
  }

  function Value(t: Tree): PropertyPath {
    match t
    case NameTree(n) => PathNode(NameIri(n))
    case NotOne(_, item) => SetOf([ItemValue(item)])
    case NotAny(_, first, more) => SetOf(ItemValues([first] + more))
    case Parens(_, p, _) => Value(p)
    case Closed(p, _, op) =>
      (match op
       case Stars => ZeroOrMore(Value(p))
       case Pluses => OneOrMore(Value(p))
       case Optional => ZeroOrOne(Value(p)))
    case Inverted(_, e) => Reverse(Value(e))
    case Steps(l, _, _, r) => Sequence(Value(l), Value(r))
    case Choice(l, _, _, r) => Alternative(Value(l), Value(r))
  }

  // ----- gaps -----

  lemma {:induction false} GapSkipped(n: nat, k: Text)
    ensures Skip(Gap(n, k)) == Skip(k)
  {
    if n > 0 { GapSkipped(n - 1, k); }
  }

  // A delimiter after a gap.
  lemma {:induction false} DelimiterFollows(n: nat, d: Token, k: Text)
    requires d == Slash || d == Bar || d == Close
    ensures Skip(Gap(n, Then(d, k))) == Then(d, k) && NoOperator(Gap(n, Then(d, k)))
  {
    GapSkipped(n, Then(d, k));
  }

  lemma TreeStarts(t: Tree, k: Text)
    ensures Skip(TreeText(t, k)) == TreeText(t, k)
    ensures TreeText(t, k).Then? && TreeText(t, k).token != Blank
  {
  }

  lemma AfterGap(n: nat, t: Tree, k: Text)
    ensures Skip(Gap(n, TreeText(t, k))) == TreeText(t, k)
  {
    GapSkipped(n, TreeText(t, k));
    TreeStarts(t, k);
  }

  // ----- reading what the grammar derives -----

  lemma NameRead(n: Name, k: Text)
    ensures ParseIri(Then(NameToken(n), k)) == Read(NameIri(n), k)
  {
  }

  lemma ItemRead(i: Item, k: Text)
    ensures ParseOneInSet(Skip(ItemText(i, k))) == Read(ItemValue(i), Gap(i.after, k))
  {
    var name := Then(NameToken(i.name), Gap(i.after, k));
    var text := if i.inverse then Then(Caret, Gap(i.gap, name)) else name;
    NameRead(i.name, Gap(i.after, k));
    GapSkipped(i.before, text);
    GapSkipped(i.gap, name);
    assert Skip(text) == text;
  }

  lemma FirstValue(items: seq<Item>)
    requires items != []
    ensures ItemValues(items) == [ItemValue(items[0])] + ItemValues(items[1..])
  {
  }

  lemma NextItem(read: seq<OneInSet>, ts: Text, one: OneInSet, rest: Text)
    requires ParseOneInSet(Skip(ts)) == Read(one, rest)
    ensures MoreInSet(read, Then(Bar, ts)) == MoreInSet(read + [one], Skip(rest))
  {
  }

  lemma {:induction false} ItemsRead(read: seq<OneInSet>, items: seq<Item>, k: Text)
    ensures MoreInSet(read, MoreText(items, Then(Close, k))) == Read(read + ItemValues(items), Then(Close, k))
    decreases |items|
  {
    if items == [] {
      assert read + ItemValues(items) == read;
    } else {
      var rest := MoreText(items[1..], Then(Close, k));
      ItemRead(items[0], rest);
      GapSkipped(items[0].after, rest);
      assert Skip(rest) == rest;
      NextItem(read, ItemText(items[0], rest), ItemValue(items[0]), Gap(items[0].after, rest));
      ItemsRead(read + [ItemValue(items[0])], items[1..], k);
      FirstValue(items);
      assert read + [ItemValue(items[0])] + ItemValues(items[1..]) == read + ItemValues(items);
    }
  }

  lemma SetRead(first: Item, more: seq<Item>, k: Text)
    ensures ParseNegatedSet(Then(Open, ItemText(first, MoreText(more, Then(Close, k)))))
      == Read(SetOf(ItemValues([first] + more)), k)
  {
    var rest := MoreText(more, Then(Close, k));
    ItemRead(first, rest);
    GapSkipped(first.after, rest);
    assert Skip(rest) == rest;
    ItemsRead([ItemValue(first)], more, k);
    assert ([first] + more)[1..] == more;
    FirstValue([first] + more);
    ListRead(ItemText(first, rest), ItemValue(first), Gap(first.after, rest), ItemValues([first] + more), k);
  }

  lemma ListRead(ts: Text, first: OneInSet, rest: Text, items: seq<OneInSet>, k: Text)
    requires ParseOneInSet(Skip(ts)) == Read(first, rest) && MoreInSet([first], Skip(rest)) == Read(items, Then(Close, k))
    ensures ParseNegatedSet(Then(Open, ts)) == Read(SetOf(items), k)
  {
    assert ParseSetGroup(Then(Open, ts)) == Read(SetOf(items), k);
  }

  lemma OneRead(item: Item, k: Text)
    requires item.before == 0 && item.after == 0
    ensures ParseNegatedSet(ItemText(item, k)) == Read(SetOf([ItemValue(item)]), k)
    ensures Skip(ItemText(item, k)) == ItemText(item, k)
  {
    ItemRead(item, k);
    assert Skip(ItemText(item, k)) == ItemText(item, k);
    assert ParseSetGroup(ItemText(item, k)).Fail?;
  }

  lemma BangPrimary(gap: nat, group: Text, p: PropertyPath, k: Text)
    requires Skip(group) == group && ParseNegatedSet(group) == Read(p, k)
    ensures ParsePrimary(Then(Bang, Gap(gap, group))) == Read(p, k)
  {
    GapSkipped(gap, group);
  }

  lemma GroupPrimary(before: nat, inner: Text, p: PropertyPath, k: Text)
    requires Skip(inner) == inner && ParsePath(inner) == Read(p, Then(Close, k))
    ensures ParsePrimary(Then(Open, Gap(before, inner))) == Read(p, k)
  {
    GapSkipped(before, inner);
    assert Skip(Then(Close, k)) == Then(Close, k);
  }

  /** A primary is read as its tree says, whatever follows. */
  lemma {:induction false} PrimaryReads(t: Tree, k: Text)
    requires Derived(t) && Level(t) == 0
    ensures ParsePrimary(TreeText(t, k)) == Read(Value(t), k)
    decreases t, 0
  {
    match t {
      case NameTree(n) => NameRead(n, k);
      case NotOne(gap, item) =>
        OneRead(item, k);
        BangPrimary(gap, ItemText(item, k), Value(t), k);
      case NotAny(gap, first, more) =>
        var group := Then(Open, ItemText(first, MoreText(more, Then(Close, k))));
        SetRead(first, more, k);
        assert Skip(group) == group;
        BangPrimary(gap, group, Value(t), k);
      case Parens(before, p, after) =>
        var end := Gap(after, Then(Close, k));
        DelimiterFollows(after, Close, k);
        PathReads(p, end);
        TreeStarts(p, end);
        GroupPrimary(before, TreeText(p, end), Value(p), k);
    }
  }

  lemma ClosureRead(ts: Text, p: PropertyPath, gap: nat, op: Closure, k: Text)
    requires ParsePrimary(ts) == Read(p, Gap(gap, Then(OpToken(op), k))) && !StartsAWord(k)
    ensures ParseElt(ts) == Read(match op case Stars => ZeroOrMore(p) case Pluses => OneOrMore(p) case Optional => ZeroOrOne(p), k)
  {
    GapSkipped(gap, Then(OpToken(op), k));
    assert Skip(Then(OpToken(op), k)) == Then(OpToken(op), k);
  }

  lemma {:induction false} EltReads(t: Tree, k: Text)
    requires Derived(t) && Level(t) <= 1 && NoOperator(k)
    ensures Leaves(ParseElt(TreeText(t, k)), Value(t), k)
    ensures !Starts(TreeText(t, k), Caret)
    decreases t, 1
  {
    SkipTwice(k);
    if t.Closed? {
      var rest := Gap(t.gap, Then(OpToken(t.op), k));
      PrimaryReads(t.primary, rest);
      ClosureRead(TreeText(t.primary, rest), Value(t.primary), t.gap, t.op, k);
      PrimaryStarts(t.primary, rest);
    } else {
      PrimaryReads(t, k);
      StepFromPrimary(TreeText(t, k), Value(t), k);
    }
  }

  lemma PrimaryStarts(t: Tree, k: Text)
    requires Level(t) == 0
    ensures !Starts(TreeText(t, k), Caret)
  {
  }

  lemma InverseRead(gap: nat, elt: Text, p: PropertyPath, k: Text)
    requires Skip(elt) == elt && Leaves(ParseElt(elt), p, k)
    ensures Leaves(ParseEltOrInverse(Then(Caret, Gap(gap, elt))), Reverse(p), k)
  {
    GapSkipped(gap, elt);
  }

  lemma {:induction false} StepReads(t: Tree, k: Text)
    requires Derived(t) && Level(t) <= 2 && NoOperator(k)
    ensures Leaves(ParseEltOrInverse(TreeText(t, k)), Value(t), k)
    decreases t, 2
  {
    if t.Inverted? {
      EltReads(t.elt, k);
      TreeStarts(t.elt, k);
      InverseRead(t.gap, TreeText(t.elt, k), Value(t.elt), k);
    } else {
      EltReads(t, k);
    }
  }

  // A sequence is read up to its last step, and goes on from there.
  lemma {:induction false} SequenceReadsOn(t: Tree, k: Text)
    requires Derived(t) && Level(t) <= 3 && NoOperator(k)
    ensures ParseSequence(TreeText(t, k)) == MoreSteps(Value(t), Skip(k))
    decreases t, 3
  {
    if t.Steps? {
      var last := Gap(t.after, TreeText(t.right, k));
      DelimiterFollows(t.before, Slash, last);
      SequenceReadsOn(t.left, Gap(t.before, Then(Slash, last)));
      AfterGap(t.after, t.right, k);
      StepReads(t.right, k);
      StepTaken(Value(t.left), last, Value(t.right), k);
    } else {
      StepReads(t, k);
      SequenceStarts(TreeText(t, k), Value(t), k);
    }
  }

  lemma {:induction false} PathReadsOn(t: Tree, k: Text)
    requires Derived(t) && NoOperator(k) && !Starts(Skip(k), Slash)
    ensures ParsePath(TreeText(t, k)) == MoreAlternatives(Value(t), Skip(k))
    decreases t, 4
  {
    SkipTwice(k);
    if t.Choice? {
      var last := Gap(t.after, TreeText(t.right, k));
      DelimiterFollows(t.before, Bar, last);
      PathReadsOn(t.left, Gap(t.before, Then(Bar, last)));
      AfterGap(t.after, t.right, k);
      SequenceReadsOn(t.right, k);
      StepsEnd(Value(t.right), Skip(k));
      AlternativeTaken(Value(t.left), last, Value(t.right), Skip(k));
    } else {
      SequenceReadsOn(t, k);
      StepsEnd(Value(t), Skip(k));
      PathStarts(TreeText(t, k), Value(t), Skip(k));
    }
  }

  // What follows does not carry a path on.
  predicate EndsPath(k: Text) { NoOperator(k) && !Starts(Skip(k), Slash) && !Starts(Skip(k), Bar) }

  /** Whatever the grammar derives is read as the tree groups it, when what follows does not carry it on. */
  lemma {:induction false} PathReads(t: Tree, k: Text)
    requires Derived(t) && EndsPath(k)
    ensures ParsePath(TreeText(t, k)) == Read(Value(t), Skip(k))
    decreases t, 5
  {
    PathReadsOn(t, k);
    AlternativesEnd(Value(t), Skip(k));
  }

  // ----- whatever is read is derived -----

  lemma {:induction false} Blanks(ts: Text) returns (n: nat)
    ensures ts == Gap(n, Skip(ts))
  {
    if ts.Then? && ts.token.Blank? {
      var m := Blanks(ts.tail);
      n := m + 1;
    } else {
      n := 0;
    }
  }

  lemma NameDerived(ts: Text) returns (n: Name)
    requires ParseIri(ts).Read?
    ensures ts == Then(NameToken(n), ParseIri(ts).rest) && NameIri(n) == ParseIri(ts).value
  {
    n := if ts.token.IriToken? then Spelled(ts.token.iri) else TypeKeyword;
  }

  lemma ItemDerived(ts: Text) returns (i: Item)
    requires ParseOneInSet(ts).Read?
    ensures i.before == 0 && i.after == 0
    ensures ts == ItemText(i, ParseOneInSet(ts).rest) && ItemValue(i) == ParseOneInSet(ts).value
  {
    if Starts(ts, Caret) {
      var gap := Blanks(ts.tail);
      var n := NameDerived(Skip(ts.tail));
      i := Item(0, true, gap, n, 0);
    } else {
      var n := NameDerived(ts);
      i := Item(0, false, 0, n, 0);
    }
  }

  // An item with the blanks around it.
  lemma SpacedItem(ts: Text) returns (i: Item)
    requires ParseOneInSet(Skip(ts)).Read?
    ensures ts == ItemText(i, Skip(ParseOneInSet(Skip(ts)).rest)) && ItemValue(i) == ParseOneInSet(Skip(ts)).value
  {
    var bare := ItemDerived(Skip(ts));
    var before := Blanks(ts);
    var after := Blanks(ParseOneInSet(Skip(ts)).rest);
    i := bare.(before := before, after := after);
  }

  lemma {:induction false} ItemsDerived(read: seq<OneInSet>, ts: Text) returns (items: seq<Item>)
    ensures ts == MoreText(items, MoreInSet(read, ts).rest)
    ensures MoreInSet(read, ts).value == read + ItemValues(items)
    decreases Len(ts)
  {
    items := [];
    if Starts(ts, Bar) && ParseOneInSet(Skip(ts.tail)).Read? {
      var next := ParseOneInSet(Skip(ts.tail));
      var i := SpacedItem(ts.tail);
      var more := ItemsDerived(read + [next.value], Skip(next.rest));
      NextItem(read, ts.tail, next.value, next.rest);
      items := [i] + more;
      assert items[1..] == more;
      FirstValue(items);
      assert read + [next.value] + ItemValues(more) == read + ItemValues(items);
    } else {
      assert read + ItemValues(items) == read;
    }
  }

  lemma SetDerived(gap: nat, ts: Text) returns (t: Tree)
    requires ParseNegatedSet(ts).Read?
    ensures Derived(t) && Level(t) == 0
    ensures Then(Bang, Gap(gap, ts)) == TreeText(t, ParseNegatedSet(ts).rest) && Value(t) == ParseNegatedSet(ts).value
  {
    if ParseSetGroup(ts).Read? {
      var one := ParseOneInSet(Skip(ts.tail));
      var first := SpacedItem(ts.tail);
      var more := ItemsDerived([one.value], Skip(one.rest));
      t := NotAny(gap, first, more);
      assert ([first] + more)[1..] == more;
      FirstValue([first] + more);
    } else {
      var item := ItemDerived(ts);
      t := NotOne(gap, item);
    }
  }

  lemma {:induction false} PrimaryDerived(ts: Text) returns (t: Tree)
    requires ParsePrimary(ts).Read?
    ensures Derived(t) && Level(t) == 0
    ensures ts == TreeText(t, ParsePrimary(ts).rest) && Value(t) == ParsePrimary(ts).value
    decreases Len(ts), 0
  {
    if ParseIri(ts).Read? {
      var n := NameDerived(ts);
      t := NameTree(n);
    } else if Starts(ts, Bang) {
      var gap := Blanks(ts.tail);
      t := SetDerived(gap, Skip(ts.tail));
    } else {
      var before := Blanks(ts.tail);
      var p, k := PathDerived(Skip(ts.tail));
      var after := Blanks(k);
      SkipTwice(k);
      t := Parens(before, p, after);
    }
  }

  lemma {:induction false} EltDerived(ts: Text) returns (t: Tree, k: Text)
    requires ParseElt(ts).Read?
    ensures Derived(t) && Level(t) <= 1 && Len(k) < Len(ts)
    ensures ts == TreeText(t, k) && Value(t) == ParseElt(ts).value && Skip(ParseElt(ts).rest) == Skip(k)
    decreases Len(ts), 1
  {
    var p := ParsePrimary(ts);
    var primary := PrimaryDerived(ts);
    var gap := Blanks(p.rest);
    var rest := Skip(p.rest);
    SkipTwice(p.rest);
    if Starts(rest, Star) {
      t, k := Closed(primary, gap, Stars), rest.tail;
    } else if Starts(rest, Plus) {
      t, k := Closed(primary, gap, Pluses), rest.tail;
    } else if StartsOptional(rest) {
      t, k := Closed(primary, gap, Optional), rest.tail;
    } else {
      t, k := primary, p.rest;
    }
  }

  lemma {:induction false} StepDerived(ts: Text) returns (t: Tree, k: Text)
    requires ParseEltOrInverse(ts).Read?
    ensures Derived(t) && Level(t) <= 2 && Len(k) < Len(ts)
    ensures ts == TreeText(t, k) && Value(t) == ParseEltOrInverse(ts).value && Skip(ParseEltOrInverse(ts).rest) == Skip(k)
    decreases Len(ts), 2
  {
    if Starts(ts, Caret) && ParseElt(Skip(ts.tail)).Read? {
      var gap := Blanks(ts.tail);
      var e;
      e, k := EltDerived(Skip(ts.tail));
      t := Inverted(gap, e);
    } else {
      t, k := EltDerived(ts);
    }
  }

  // A sequence so far, and the steps that follow.
  lemma {:induction false} StepsDerived(ts: Text, t0: Tree, k0: Text) returns (t: Tree, k: Text)
    requires Derived(t0) && Level(t0) <= 3 && ts == TreeText(t0, k0) && Len(k0) < Len(ts)
    ensures Derived(t) && Level(t) <= 3 && ts == TreeText(t, k) && Len(k) < Len(ts)
    ensures var r := MoreSteps(Value(t0), Skip(k0)); Value(t) == r.value && Skip(r.rest) == Skip(k)
    decreases Len(k0), 3
  {
    t, k := t0, k0;
    SkipTwice(k0);
    if Starts(Skip(k0), Slash) {
      var tail := Skip(k0).tail;
      if ParseEltOrInverse(Skip(tail)).Read? {
        var before := Blanks(k0);
        var after := Blanks(tail);
        var step, k1 := StepDerived(Skip(tail));
        StepTaken(Value(t0), tail, Value(step), k1);
        t, k := StepsDerived(ts, Steps(t0, before, after, step), k1);
      }
    }
  }

  lemma {:induction false} SequenceDerived(ts: Text) returns (t: Tree, k: Text)
    requires ParseSequence(ts).Read?
    ensures Derived(t) && Level(t) <= 3 && ts == TreeText(t, k) && Len(k) < Len(ts)
    ensures Value(t) == ParseSequence(ts).value && Skip(ParseSequence(ts).rest) == Skip(k)
    decreases Len(ts), 4
  {
    var first, k0 := StepDerived(ts);
    SequenceStarts(ts, Value(first), k0);
    t, k := StepsDerived(ts, first, k0);
  }

  // A path so far, and the alternatives that follow.
  lemma {:induction false} AlternativesDerived(ts: Text, t0: Tree, k0: Text) returns (t: Tree, k: Text)
    requires Derived(t0) && ts == TreeText(t0, k0) && Len(k0) < Len(ts)
    ensures Derived(t) && ts == TreeText(t, k) && Len(k) < Len(ts)
    ensures MoreAlternatives(Value(t0), Skip(k0)) == Read(Value(t), Skip(k))
    decreases Len(k0), 5
  {
    t, k := t0, k0;
    if Starts(Skip(k0), Bar) {
      var tail := Skip(k0).tail;
      if ParseSequence(Skip(tail)).Read? {
        var before := Blanks(k0);
        var after := Blanks(tail);
        var next, k1 := SequenceDerived(Skip(tail));
        t, k := AlternativesDerived(ts, Choice(t0, before, after, next), k1);
      }
    }
  }

  /** Whatever is read as a path is derived by the grammar, up to the blanks after it. */
  lemma {:induction false} PathDerived(ts: Text) returns (t: Tree, k: Text)
    requires ParsePath(ts).Read?
    ensures Derived(t) && ts == TreeText(t, k) && ParsePath(ts) == Read(Value(t), Skip(k))
    decreases Len(ts), 6
  {
    var first, k0 := SequenceDerived(ts);
    t, k := AlternativesDerived(ts, first, k0);
  }

  lemma {:induction false} BlanksEnd(n: nat)
    ensures Skip(Gap(n, End)) == End && EndsPath(Gap(n, End))
  {
    GapSkipped(n, End);
  }

  ghost predicate Derives(ts: Text, p: PropertyPath) {
    exists t: Tree, n: nat :: Derived(t) && Value(t) == p && ts == TreeText(t, Gap(n, End))
  }

  /** A whole text is read as a path exactly when the grammar derives it as that path. */
  lemma ReadsExactly(ts: Text, p: PropertyPath)
    ensures ParsePath(ts) == Read(p, End) <==> Derives(ts, p)
  {
    if ParsePath(ts) == Read(p, End) {
      var t, k := PathDerived(ts);
      var n := Blanks(k);
    }
    if Derives(ts, p) {
      var t: Tree, n: nat :| Derived(t) && Value(t) == p && ts == TreeText(t, Gap(n, End));
      BlanksEnd(n);
      PathReads(t, Gap(n, End));
    }
  }

  // ----- negated sets -----

  // A step forwards over a property that is not listed.
  ghost predicate StepOutside(g: Graph, x: Term, y: Term, ns: set<Iri>) {
    exists n: Iri :: n !in ns && Triple(x, NamedNode(n), y) in g
  }

  function Listed(items: seq<OneInSet>, inverse: bool): set<Iri> {
    set i | i in items && i.Inverse? == inverse :: i.iri
  }

  lemma {:induction false} SidesListed(items: seq<OneInSet>)
    ensures (set n | n in Directs(items)) == Listed(items, false)
    ensures (set n | n in Inverses(items)) == Listed(items, true)
  {
    if items != [] {
      var k := |items| - 1;
      SidesListed(items[..k]);
      assert items == items[..k] + [items[k]];
      forall n ensures n in Directs(items) <==> n in Listed(items, false) { SideNext(items, k, n); }
      forall n ensures n in Inverses(items) <==> n in Listed(items, true) { SideNext(items, k, n); }
    }
  }

  lemma SideNext(items: seq<OneInSet>, k: nat, n: Iri)
    requires k == |items| - 1
    ensures n in Listed(items, false) <==> n in Listed(items[..k], false) || items[k] == Direct(n)
    ensures n in Listed(items, true) <==> n in Listed(items[..k], true) || items[k] == Inverse(n)
  {
    assert items == items[..k] + [items[k]];
    assert n in Listed(items, false) <==> Direct(n) in items;
    assert n in Listed(items, true) <==> Inverse(n) in items;
    assert n in Listed(items[..k], false) <==> Direct(n) in items[..k];
    assert n in Listed(items[..k], true) <==> Inverse(n) in items[..k];
  }

  /**
    A negated set connects two terms by a step forwards over a property that it does not list, if it lists any, or by
    a step backwards over one that it does not list as inverse, if it lists any as inverse.
   */
  lemma SetMeaning(g: Graph, items: seq<OneInSet>, x: Term, y: Term, xTerm: bool, yTerm: bool)
    requires items != []
    ensures Connects(g, SetOf(items), x, y, xTerm, yTerm) <==>
      || (Listed(items, false) != {} && StepOutside(g, x, y, Listed(items, false)))
      || (Listed(items, true) != {} && StepOutside(g, y, x, Listed(items, true)))
  {
    SidesListed(items);
    var direct, inverse := Directs(items), Inverses(items);
    assert direct == [] <==> Listed(items, false) == {} by { if direct != [] { assert direct[0] in Listed(items, false); } }
    assert inverse == [] <==> Listed(items, true) == {} by { if inverse != [] { assert inverse[0] in Listed(items, true); } }
    assert items[0] in items;
    OneSide(g, direct, x, y, xTerm, yTerm);
    OneSide(g, inverse, y, x, yTerm, xTerm);
  }

  lemma OneSide(g: Graph, ns: seq<Iri>, x: Term, y: Term, xTerm: bool, yTerm: bool)
    ensures Connects(g, NegatedPropertySet(ns), x, y, xTerm, yTerm) <==> StepOutside(g, x, y, set n | n in ns)
  {
    assert forall n :: n in (set m | m in ns) <==> n in ns;
  }
}
