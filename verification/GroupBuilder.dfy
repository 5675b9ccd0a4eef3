/** How the parser turns the triples and paths of a group into one pattern. */
module GroupBuilder {
  import opened Wrappers
  import opened Rdf
  import opened Algebra
  import opened PathSemantics
  import opened Semantics
  import opened PathCounts
  import opened GroupCounts

  datatype TripleOrPath =
    | TripleItem(triple: TriplePattern)
    | PathItem(subj: TermPattern, path: PropertyPath, obj: TermPattern)

  function ItemPattern(item: TripleOrPath): GraphPattern {
    match item
    case TripleItem(t) => Bgp([t])
    case PathItem(s, p, o) => Path(s, p, o)
  }

  /** Joins two patterns, dropping empty basic graph patterns and merging adjacent ones. */
  function NewJoin(l: GraphPattern, r: GraphPattern): GraphPattern {
    if l.Bgp? && l.patterns == [] then r
    else if r.Bgp? && r.patterns == [] then l
    else if l.Bgp? && r.Bgp? then Bgp(l.patterns + r.patterns)
    else Join(l, r)
  }

  // Left to right; no element at all is the empty basic graph pattern.
  function JoinElements(es: seq<GraphPattern>): GraphPattern {
    if es == [] then Bgp([]) else NewJoin(JoinElements(es[..|es| - 1]), es[|es| - 1])
  }

  // The finished elements, and the triples of the basic graph pattern still open.
  datatype Progress = Progress(elements: seq<GraphPattern>, open: seq<TriplePattern>)

  function Flush(p: Progress): seq<GraphPattern> {
    if p.open == [] then p.elements else p.elements + [Bgp(p.open)]
  }

  function Advance(p: Progress, item: TripleOrPath): Progress {
    match item
    case TripleItem(t) => p.(open := p.open + [t])
    case PathItem(s, q, o) => Progress(Flush(p) + [Path(s, q, o)], [])
  }

  function AdvanceAll(items: seq<TripleOrPath>): Progress {
    if items == [] then Progress([], []) else Advance(AdvanceAll(items[..|items| - 1]), items[|items| - 1])
  }

  function Built(items: seq<TripleOrPath>): GraphPattern {
    JoinElements(Flush(AdvanceAll(items)))
  }

  method BuildBgp(items: seq<TripleOrPath>) returns (gp: GraphPattern)
    ensures gp == Built(items)
  {
    var bgp: seq<TriplePattern>, elements: seq<GraphPattern> := [], [];
    for i := 0 to |items|
      invariant Progress(elements, bgp) == AdvanceAll(items[..i])
    {
      assert items[..i + 1][..i] == items[..i];
      match items[i] {
        case TripleItem(t) => bgp := bgp + [t];
        case PathItem(s, p, o) =>
          if bgp != [] {
            elements := elements + [Bgp(bgp)];
            bgp := [];
          }
          elements := elements + [Path(s, p, o)];
      }
    }
    assert items[..|items|] == items;
    if bgp != [] { elements := elements + [Bgp(bgp)]; }
    gp := Bgp([]);
    for i := 0 to |elements|
      invariant gp == JoinElements(elements[..i])
    {
      assert elements[..i + 1][..i] == elements[..i];
      gp := NewJoin(gp, elements[i]);
    }
    assert elements[..|elements|] == elements;
  }

  // ----- building preserves multiplicities -----

  /** The same solutions, each as often. */
  ghost predicate SameSolutions(g: Graph, n: PathCount, x: GraphPattern, y: GraphPattern) {
    && Joinable(x) && Joinable(y) && InScope(x) == InScope(y)
    && forall mu :: Count(g, n, x, mu) == Count(g, n, y, mu)
  }

  lemma JoinSame(g: Graph, n: PathCount, l: GraphPattern, l': GraphPattern, r: GraphPattern, r': GraphPattern)
    requires SameSolutions(g, n, l, l') && SameSolutions(g, n, r, r')
    ensures SameSolutions(g, n, Join(l, r), Join(l', r'))
  {
  }

  lemma RestrictTwice(mu: Solution, vs: set<Var>, us: set<Var>)
    requires us <= vs
    ensures Restrict(Restrict(mu, vs), us) == Restrict(mu, us)
    ensures mu.Keys <= vs ==> Restrict(mu, vs) == mu
    ensures vs <= mu.Keys ==> Restrict(mu, vs).Keys == vs
  {
  }

  lemma CountJoin(g: Graph, n: PathCount, l: GraphPattern, r: GraphPattern, mu: Solution)
    requires Joinable(l) && Joinable(r) && mu.Keys == InScope(l) + InScope(r)
    ensures Count(g, n, Join(l, r), mu) ==
      Count(g, n, l, Restrict(mu, InScope(l))) * Count(g, n, r, Restrict(mu, InScope(r)))
  {
  }

  lemma AssociativeAt(g: Graph, n: PathCount, a: GraphPattern, b: GraphPattern, c: GraphPattern, mu: Solution)
    requires Joinable(a) && Joinable(b) && Joinable(c) && mu.Keys == InScope(a) + InScope(b) + InScope(c)
    ensures Count(g, n, Join(Join(a, b), c), mu) == Count(g, n, Join(a, Join(b, c)), mu)
  {
    var va, vb, vc := InScope(a), InScope(b), InScope(c);
    RestrictTwice(mu, va + vb, va);
    RestrictTwice(mu, va + vb, vb);
    RestrictTwice(mu, vb + vc, vb);
    RestrictTwice(mu, vb + vc, vc);
    CountJoin(g, n, Join(a, b), c, mu);
    CountJoin(g, n, a, b, Restrict(mu, va + vb));
    CountJoin(g, n, a, Join(b, c), mu);
    CountJoin(g, n, b, c, Restrict(mu, vb + vc));
    ProductAssociative(
      Count(g, n, a, Restrict(mu, va)), Count(g, n, b, Restrict(mu, vb)), Count(g, n, c, Restrict(mu, vc)));
  }

  lemma ProductAssociative(x: nat, y: nat, z: nat)
    ensures (x * y) * z == x * (y * z)
  {
  }

  lemma JoinAssociative(g: Graph, n: PathCount, a: GraphPattern, b: GraphPattern, c: GraphPattern)
    requires Joinable(a) && Joinable(b) && Joinable(c)
    ensures SameSolutions(g, n, Join(Join(a, b), c), Join(a, Join(b, c)))
  {
    forall mu ensures Count(g, n, Join(Join(a, b), c), mu) == Count(g, n, Join(a, Join(b, c)), mu) {
      if mu.Keys == InScope(a) + InScope(b) + InScope(c) { AssociativeAt(g, n, a, b, c, mu); }
    }
  }

  lemma {:induction false} CountElsewhere(g: Graph, n: PathCount, gp: GraphPattern, mu: Solution)
    requires Joinable(gp) && mu.Keys != InScope(gp)
    ensures Count(g, n, gp, mu) == 0
  {
  }

  lemma JoinEmptyAt(g: Graph, n: PathCount, gp: GraphPattern, mu: Solution)
    requires Joinable(gp) && mu.Keys == InScope(gp)
    ensures Count(g, n, Join(Bgp([]), gp), mu) == Count(g, n, gp, mu) == Count(g, n, Join(gp, Bgp([])), mu)
  {
    assert Restrict(mu, InScope(gp)) == mu && Restrict(mu, {}) == map[];
    assert InScope(Bgp([])) == {} && InScope(Join(Bgp([]), gp)) == InScope(gp) == InScope(Join(gp, Bgp([])));
    assert Count(g, n, Bgp([]), map[]) == 1;
  }

  lemma JoinEmpty(g: Graph, n: PathCount, gp: GraphPattern)
    requires Joinable(gp)
    ensures SameSolutions(g, n, Join(Bgp([]), gp), gp) && SameSolutions(g, n, Join(gp, Bgp([])), gp)
  {
    forall mu ensures Count(g, n, Join(Bgp([]), gp), mu) == Count(g, n, gp, mu) == Count(g, n, Join(gp, Bgp([])), mu) {
      if mu.Keys == InScope(gp) {
        JoinEmptyAt(g, n, gp, mu);
      } else {
        CountElsewhere(g, n, gp, mu);
        CountElsewhere(g, n, Join(Bgp([]), gp), mu);
        CountElsewhere(g, n, Join(gp, Bgp([])), mu);
      }
    }
  }

  lemma {:induction false} BgpVarsConcat(p: seq<TriplePattern>, q: seq<TriplePattern>)
    ensures BgpVars(p + q) == BgpVars(p) + BgpVars(q)
  {
    if p == [] {
      assert p + q == q;
    } else {
      assert (p + q)[1..] == p[1..] + q;
      BgpVarsConcat(p[1..], q);
    }
  }

  lemma {:induction false} MemberVars(ps: seq<TriplePattern>, i: nat)
    requires i < |ps|
    ensures TripleVars(ps[i]) <= BgpVars(ps)
  {
    if i > 0 { MemberVars(ps[1..], i - 1); }
  }

  lemma MatchesRestricted(g: Graph, ps: seq<TriplePattern>, mu: Solution)
    requires BgpVars(ps) <= mu.Keys
    ensures MatchesAll(g, ps, Restrict(mu, BgpVars(ps)), map[]) <==> MatchesAll(g, ps, mu, map[])
  {
    forall i | 0 <= i < |ps|
      ensures MatchesTriple(g, ps[i], Restrict(mu, BgpVars(ps)), map[]) <==> MatchesTriple(g, ps[i], mu, map[])
    {
      MemberVars(ps, i);
    }
  }

  lemma MatchesConcat(g: Graph, p: seq<TriplePattern>, q: seq<TriplePattern>, mu: Solution)
    ensures MatchesAll(g, p + q, mu, map[]) <==> MatchesAll(g, p, mu, map[]) && MatchesAll(g, q, mu, map[])
  {
    if MatchesAll(g, p + q, mu, map[]) {
      forall i | 0 <= i < |p| ensures MatchesTriple(g, p[i], mu, map[]) { assert p[i] == (p + q)[i]; }
      forall i | 0 <= i < |q| ensures MatchesTriple(g, q[i], mu, map[]) { assert q[i] == (p + q)[|p| + i]; }
    }
  }

  lemma MergedAt(g: Graph, n: PathCount, p: seq<TriplePattern>, q: seq<TriplePattern>, mu: Solution)
    requires Joinable(Bgp(p)) && Joinable(Bgp(q)) && Joinable(Bgp(p + q)) && mu.Keys == BgpVars(p) + BgpVars(q)
    ensures Count(g, n, Bgp(p + q), mu) == Count(g, n, Join(Bgp(p), Bgp(q)), mu)
  {
    BgpVarsConcat(p, q);
    MatchesConcat(g, p, q, mu);
    MatchesRestricted(g, p, mu);
    MatchesRestricted(g, q, mu);
    RestrictTwice(mu, BgpVars(p), {});
    RestrictTwice(mu, BgpVars(q), {});
    CountJoin(g, n, Bgp(p), Bgp(q), mu);
    var x, y := Count(g, n, Bgp(p), Restrict(mu, BgpVars(p))), Count(g, n, Bgp(q), Restrict(mu, BgpVars(q)));
    assert x in {0, 1} && y in {0, 1};
    assert x * y == if x == 1 then y else 0;
  }

  /** Two basic graph patterns merged are the two joined. */
  lemma MergedBgps(g: Graph, n: PathCount, p: seq<TriplePattern>, q: seq<TriplePattern>)
    requires Joinable(Bgp(p)) && Joinable(Bgp(q))
    ensures SameSolutions(g, n, Bgp(p + q), Join(Bgp(p), Bgp(q)))
  {
    BgpVarsConcat(p, q);
    forall mu ensures Count(g, n, Bgp(p + q), mu) == Count(g, n, Join(Bgp(p), Bgp(q)), mu) {
      if mu.Keys == BgpVars(p) + BgpVars(q) { MergedAt(g, n, p, q, mu); }
    }
  }

  lemma NewJoinSame(g: Graph, n: PathCount, l: GraphPattern, r: GraphPattern)
    requires Joinable(l) && Joinable(r)
    ensures SameSolutions(g, n, NewJoin(l, r), Join(l, r))
  {
    if l == Bgp([]) {
      JoinEmpty(g, n, r);
    } else if r == Bgp([]) {
      JoinEmpty(g, n, l);
    } else if l.Bgp? && r.Bgp? {
      MergedBgps(g, n, l.patterns, r.patterns);
    }
  }

  // The individual patterns, joined left to right with nothing merged or dropped.
  function JoinAll(items: seq<TripleOrPath>): GraphPattern {
    if items == [] then Bgp([]) else Join(JoinAll(items[..|items| - 1]), ItemPattern(items[|items| - 1]))
  }

  predicate BlankFree(items: seq<TripleOrPath>) {
    forall i :: 0 <= i < |items| ==> Joinable(ItemPattern(items[i]))
  }

  lemma JoinElementsSnoc(es: seq<GraphPattern>, e: GraphPattern)
    ensures JoinElements(es + [e]) == NewJoin(JoinElements(es), e)
  {
    assert (es + [e])[..|es|] == es;
  }

  ghost predicate BuiltSoFar(g: Graph, n: PathCount, p: Progress, gp: GraphPattern) {
    && Joinable(JoinElements(p.elements)) && Joinable(Bgp(p.open))
    && SameSolutions(g, n, Join(JoinElements(p.elements), Bgp(p.open)), gp)
  }

  lemma FlushSame(g: Graph, n: PathCount, p: Progress)
    requires Joinable(JoinElements(p.elements)) && Joinable(Bgp(p.open))
    ensures SameSolutions(g, n, JoinElements(Flush(p)), Join(JoinElements(p.elements), Bgp(p.open)))
  {
    if p.open == [] {
      JoinEmpty(g, n, JoinElements(p.elements));
    } else {
      JoinElementsSnoc(p.elements, Bgp(p.open));
      NewJoinSame(g, n, JoinElements(p.elements), Bgp(p.open));
    }
  }

  lemma Chain(g: Graph, n: PathCount, x: GraphPattern, y: GraphPattern, z: GraphPattern)
    requires SameSolutions(g, n, x, y) && SameSolutions(g, n, y, z)
    ensures SameSolutions(g, n, x, z)
  {
  }

  lemma AdvanceTriple(g: Graph, n: PathCount, p: Progress, gp: GraphPattern, t: TriplePattern)
    requires BuiltSoFar(g, n, p, gp) && BlankFreeTriple(t)
    ensures BuiltSoFar(g, n, p.(open := p.open + [t]), Join(gp, Bgp([t])))
  {
    var e := JoinElements(p.elements);
    assert Joinable(Bgp([t])) && Joinable(Bgp(p.open + [t]));
    MergedBgps(g, n, p.open, [t]);
    JoinSame(g, n, e, e, Bgp(p.open + [t]), Join(Bgp(p.open), Bgp([t])));
    JoinAssociative(g, n, e, Bgp(p.open), Bgp([t]));
    JoinSame(g, n, Join(e, Bgp(p.open)), gp, Bgp([t]), Bgp([t]));
  }

  lemma AdvancePath(g: Graph, n: PathCount, p: Progress, gp: GraphPattern, path: GraphPattern)
    requires BuiltSoFar(g, n, p, gp) && path.Path? && Joinable(path)
    ensures BuiltSoFar(g, n, Progress(Flush(p) + [path], []), Join(gp, path))
  {
    var f := JoinElements(Flush(p));
    FlushSame(g, n, p);
    Chain(g, n, f, Join(JoinElements(p.elements), Bgp(p.open)), gp);
    JoinElementsSnoc(Flush(p), path);
    NewJoinSame(g, n, f, path);
    JoinSame(g, n, f, gp, path, path);
    var e := NewJoin(f, path);
    Chain(g, n, e, Join(f, path), Join(gp, path));
    JoinEmpty(g, n, e);
    Chain(g, n, Join(e, Bgp([])), e, Join(gp, path));
  }

  lemma {:induction false} AdvanceAllSame(g: Graph, n: PathCount, items: seq<TripleOrPath>)
    requires BlankFree(items)
    ensures BuiltSoFar(g, n, AdvanceAll(items), JoinAll(items))
  {
    if items == [] {
      JoinEmpty(g, n, Bgp([]));
    } else {
      var k := |items| - 1;
      assert forall i :: 0 <= i < k ==> items[..k][i] == items[i];
      AdvanceAllSame(g, n, items[..k]);
      var p, gp := AdvanceAll(items[..k]), JoinAll(items[..k]);
      match items[k] {
        case TripleItem(t) =>
          assert Bgp([t]).patterns[0] == t;
          AdvanceTriple(g, n, p, gp, t);
        case PathItem(s, q, o) => AdvancePath(g, n, p, gp, Path(s, q, o));
      }
    }
  }

  /** The built pattern has the solutions of the individual patterns joined, each as often. */
  lemma BuiltSame(g: Graph, n: PathCount, items: seq<TripleOrPath>)
    requires BlankFree(items)
    ensures SameSolutions(g, n, Built(items), JoinAll(items))
  {
    AdvanceAllSame(g, n, items);
    var p := AdvanceAll(items);
    FlushSame(g, n, p);
    Chain(g, n, Built(items), Join(JoinElements(p.elements), Bgp(p.open)), JoinAll(items));
  }

  /** In terms of bags: whatever lists the solutions of both lists the same multiset. */
  lemma BuiltBags(g: Graph, n: PathCount, items: seq<TripleOrPath>, x: Bag, y: Bag)
    requires BlankFree(items) && Joinable(Built(items)) && Joinable(JoinAll(items))
    requires IsBag(g, n, Built(items), x) && IsBag(g, n, JoinAll(items), y)
    ensures multiset(x) == multiset(y)
  {
    BuiltSame(g, n, items);
    BagCounts(g, n, Built(items), x);
    BagCounts(g, n, JoinAll(items), y);
    forall mu ensures multiset(x)[mu] == multiset(y)[mu] { assert Times(x, mu) == Times(y, mu); }
  }

  // ----- adding one verb: inverse paths swap the ends -----

  datatype Verb = VariableVerb(name: Var) | PathVerb(path: PropertyPath)

  datatype AddError = TripleTermsUnavailable | ReifiersOnPath

  /** What a path between two terms adds to the list. */
  function Unfolded(s: TermPattern, p: PropertyPath, o: TermPattern): TripleOrPath
    decreases p
  {
    match p
    case PathNode(n) => TripleItem(TriplePattern(s, NodeName(n), o))
    case Reverse(q) => Unfolded(o, q, s)
    case _ => PathItem(s, p, o)
  }

  function UnfoldedVerb(s: TermPattern, v: Verb, o: TermPattern): TripleOrPath {
    match v
    case VariableVerb(x) => TripleItem(TriplePattern(s, VarName(x), o))
    case PathVerb(p) => Unfolded(s, p, o)
  }

  class PatternList {
    var items: seq<TripleOrPath>

    constructor ()
      ensures items == []
    {
      items := [];
    }

    method Add(s: TermPattern, v: Verb, o: TermPattern, reifiers: seq<TermPattern>) returns (r: Result<(), AddError>)
      modifies this
      ensures r.Ok? <==> reifiers == []
      ensures items == if r.Ok? then old(items) + [UnfoldedVerb(s, v, o)] else old(items)
      ensures r.Err? ==> r.error == if UnfoldedVerb(s, v, o).PathItem? then ReifiersOnPath else TripleTermsUnavailable
      decreases if v.PathVerb? then v.path else PathNode("")
    {
      match v {
        case VariableVerb(x) => r := AddTriple(s, VarName(x), o, reifiers);
        case PathVerb(p) =>
          match p {
            case PathNode(n) => r := AddTriple(s, NodeName(n), o, reifiers);
            case Reverse(q) => r := Add(o, PathVerb(q), s, reifiers);
            case _ =>
              if reifiers != [] { return Err(ReifiersOnPath); }
              items := items + [PathItem(s, p, o)];
              r := Ok(());
          }
      }
    }

    method AddTriple(s: TermPattern, p: NamedNodePattern, o: TermPattern, reifiers: seq<TermPattern>)
        returns (r: Result<(), AddError>)
      modifies this
      ensures r.Ok? <==> reifiers == []
      ensures items == if r.Ok? then old(items) + [TripleItem(TriplePattern(s, p, o))] else old(items)
      ensures r.Err? ==> r.error == TripleTermsUnavailable
    {
      if reifiers != [] { return Err(TripleTermsUnavailable); }
      items := items + [TripleItem(TriplePattern(s, p, o))];
      r := Ok(());
    }
  }

  lemma OneTripleCount(g: Graph, s: TermPattern, i: Iri, o: TermPattern, mu: Solution)
    requires BlankFreeTerm(s) && BlankFreeTerm(o)
    ensures Joinable(Bgp([TriplePattern(s, NodeName(i), o)]))
    ensures InScope(Bgp([TriplePattern(s, NodeName(i), o)])) == TermVars(s) + TermVars(o)
    ensures Count(g, Multiplicities(g), Bgp([TriplePattern(s, NodeName(i), o)]), mu) ==
      Count(g, Multiplicities(g), Path(s, PathNode(i), o), mu)
  {
    var t := TriplePattern(s, NodeName(i), o);
    assert [t][0] == t;
    assert BgpVars([t]) == TripleVars(t) + BgpVars([t][1..]);
    assert MatchesAll(g, [t], mu, map[]) <==> MatchesTriple(g, t, mu, map[]);
  }

  /** Unfolding keeps every solution with its multiplicity. */
  lemma {:induction false} UnfoldedSame(g: Graph, s: TermPattern, p: PropertyPath, o: TermPattern)
    requires BlankFreeTerm(s) && BlankFreeTerm(o)
    ensures SameSolutions(g, Multiplicities(g), ItemPattern(Unfolded(s, p, o)), Path(s, p, o))
    decreases p
  {
    match p {
      case PathNode(i) =>
        OneTripleCount(g, s, i, o, map[]);
        forall mu
          ensures Count(g, Multiplicities(g), ItemPattern(Unfolded(s, p, o)), mu) ==
            Count(g, Multiplicities(g), Path(s, p, o), mu)
        {
          OneTripleCount(g, s, i, o, mu);
        }
      case Reverse(q) =>
        UnfoldedSame(g, o, q, s);
        forall mu ensures Count(g, Multiplicities(g), Path(s, p, o), mu) == Count(g, Multiplicities(g), Path(o, q, s), mu) {
          assert InScope(Path(s, p, o)) == InScope(Path(o, q, s));
        }
      case _ =>
    }
  }

  lemma OneTripleAnswers(w: World, s: TermPattern, i: Iri, o: TermPattern, mu: Solution)
    ensures Answers(w, Bgp([TriplePattern(s, NodeName(i), o)]), mu) <==> Answers(w, Path(s, PathNode(i), o), mu)
  {
    var t := TriplePattern(s, NodeName(i), o);
    assert [t][0] == t;
    assert BgpVars([t]) == TripleVars(t) + BgpVars([t][1..]);
    forall sigma
      ensures MatchesAll(w.active, [t], mu, sigma) <==> MatchesPath(w.active, s, PathNode(i), o, mu, sigma)
    {}
  }

  /** Unfolding keeps the solution set also when the ends are blank nodes. */
  lemma {:induction false} UnfoldedAnswers(w: World, s: TermPattern, p: PropertyPath, o: TermPattern, mu: Solution)
    ensures Answers(w, ItemPattern(Unfolded(s, p, o)), mu) <==> Answers(w, Path(s, p, o), mu)
    decreases p
  {
    match p {
      case PathNode(i) => OneTripleAnswers(w, s, i, o, mu);
      case Reverse(q) =>
        UnfoldedAnswers(w, o, q, s, mu);
        forall sigma ensures MatchesPath(w.active, o, q, s, mu, sigma) <==> MatchesPath(w.active, s, p, o, mu, sigma) {}
      case _ =>
    }
  }

  // ----- a whole group: subjects, paths and objects as written -----

  datatype Written = Written(subj: TermPattern, path: PropertyPath, obj: TermPattern)

  function Collected(ws: seq<Written>): seq<TripleOrPath> {
    seq(|ws|, i requires 0 <= i < |ws| => Unfolded(ws[i].subj, ws[i].path, ws[i].obj))
  }

  function PathsJoined(ws: seq<Written>): GraphPattern {
    if ws == [] then Bgp([])
    else
      var last := ws[|ws| - 1];
      Join(PathsJoined(ws[..|ws| - 1]), Path(last.subj, last.path, last.obj))
  }

  lemma {:induction false} CollectedSame(g: Graph, ws: seq<Written>)
    requires forall i :: 0 <= i < |ws| ==> BlankFreeTerm(ws[i].subj) && BlankFreeTerm(ws[i].obj)
    ensures BlankFree(Collected(ws)) && SameSolutions(g, Multiplicities(g), JoinAll(Collected(ws)), PathsJoined(ws))
  {
    if ws != [] {
      var k := |ws| - 1;
      CollectedSame(g, ws[..k]);
      assert Collected(ws)[..k] == Collected(ws[..k]);
      UnfoldedSame(g, ws[k].subj, ws[k].path, ws[k].obj);
      forall i | 0 <= i < |ws| ensures Joinable(ItemPattern(Collected(ws)[i])) {
        if i < k { assert Collected(ws)[i] == Collected(ws[..k])[i]; }
      }
      JoinSame(g, Multiplicities(g), JoinAll(Collected(ws[..k])), PathsJoined(ws[..k]),
        ItemPattern(Unfolded(ws[k].subj, ws[k].path, ws[k].obj)), Path(ws[k].subj, ws[k].path, ws[k].obj));
    }
  }

  /** Unfolding inverses and building the group gives the written paths joined, with the same multiplicities. */
  lemma WrittenGroupSame(g: Graph, ws: seq<Written>)
    requires forall i :: 0 <= i < |ws| ==> BlankFreeTerm(ws[i].subj) && BlankFreeTerm(ws[i].obj)
    ensures SameSolutions(g, Multiplicities(g), Built(Collected(ws)), PathsJoined(ws))
  {
    CollectedSame(g, ws);
    BuiltSame(g, Multiplicities(g), Collected(ws));
    Chain(g, Multiplicities(g), Built(Collected(ws)), JoinAll(Collected(ws)), PathsJoined(ws));
  }
}
