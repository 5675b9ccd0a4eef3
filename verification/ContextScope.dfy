/** The tables behind context scope, against what solutions of a pattern take from its parts. */
module ContextScope {
  import opened Wrappers
  import opened Rdf
  import A = Algebra
  import opened Semantics
  import opened Mentions
  import opened PathEntries
  import opened QueryContext

  // The part of a pattern that an entry leads to.
  function Part(gp: A.GraphPattern, e: PathEntry): Option<A.GraphPattern> {
    match gp
    case Union(l, r) => if e.UnionLeftSide? then Some(l) else if e.UnionRightSide? then Some(r) else None
    case Join(l, r) => if e.JoinLeftSide? then Some(l) else if e.JoinRightSide? then Some(r) else None
    case LeftJoin(l, r, _) => if e.LeftJoinLeftSide? then Some(l) else if e.LeftJoinRightSide? then Some(r) else None
    case Minus(l, r) => if e.MinusLeftSide? then Some(l) else if e.MinusRightSide? then Some(r) else None
    case Filter(_, inner) => if e.FilterInner? then Some(inner) else None
    case GraphClause(_, inner) => if e.GraphInner? then Some(inner) else None
    case Extend(inner, _, _) => if e.ExtendInner? then Some(inner) else None
    case OrderBy(inner, _) => if e.OrderByInner? then Some(inner) else None
    case Project(inner, _) => if e.ProjectInner? then Some(inner) else None
    case Distinct(inner) => if e.DistinctInner? then Some(inner) else None
    case Reduced(inner) => if e.ReducedInner? then Some(inner) else None
    case Slice(inner, _, _) => if e.SliceInner? then Some(inner) else None
    case Service(_, inner, _) => if e.ServiceInner? then Some(inner) else None
    case Group(inner, _, _) => if e.GroupInner? then Some(inner) else None
    case _ => None
  }

  const UNIT: A.GraphPattern := A.Bgp([])

  // The pattern with that part left empty.
  function Emptied(gp: A.GraphPattern, e: PathEntry): A.GraphPattern
    requires Part(gp, e).Some?
  {
    if gp.Union? || gp.Join? || gp.LeftJoin? || gp.Minus? then
      if e.UnionLeftSide? || e.JoinLeftSide? || e.LeftJoinLeftSide? || e.MinusLeftSide? then gp.(left := UNIT)
      else gp.(right := UNIT)
    else gp.(inner := UNIT)
  }

  /** Some solution of some pattern binds a variable that no solution binds once the part is left empty. */
  ghost predicate HandsOn(e: PathEntry) {
    exists w, gp, mu, v :: HandsOnIn(w, gp, e, mu, v)
  }

  ghost predicate HandsOnIn(w: World, gp: A.GraphPattern, e: PathEntry, mu: Solution, v: Var) {
    Part(gp, e).Some? && Answers(w, gp, mu) && v in mu && forall nu :: Answers(w, Emptied(gp, e), nu) ==> v !in nu
  }

  // ----- one witness for each entry -----

  const ONE_X: A.GraphPattern := A.Values(["x"], [[Some(GroundNode("a"))]])
  const X_IS_A: Solution := map["x" := NamedNode("a")]

  ghost function Somewhere(): World {
    World({}, map["g" := {}], Interpretation(
      (_, _) => None, (_, _, _) => None, (_, _, _) => None, (_, _) => None, _ => None, _ => None, (_, _) => None,
      (_, _) => true, _ => [], _ => Some(Dataset({}, map[]))))
  }

  const ALWAYS: A.Expression := A.LiteralExpr(BoolLiteral(true))

  // What an entry leads to is one; the other side of an operator is empty.
  function Around(e: PathEntry, one: A.GraphPattern, x: Var): A.GraphPattern {
    match e
    case UnionLeftSide => A.Union(one, UNIT)
    case UnionRightSide => A.Union(UNIT, one)
    case JoinLeftSide => A.Join(one, UNIT)
    case JoinRightSide => A.Join(UNIT, one)
    case LeftJoinLeftSide => A.LeftJoin(one, UNIT, None)
    case LeftJoinRightSide => A.LeftJoin(UNIT, one, None)
    case MinusLeftSide => A.Minus(one, UNIT)
    case FilterInner => A.Filter(ALWAYS, one)
    case GraphInner => A.GraphClause(A.NodeName("g"), one)
    case ExtendInner => A.Extend(one, x, ALWAYS)
    case OrderByInner => A.OrderBy(one, [])
    case ProjectInner => A.Project(one, [x])
    case DistinctInner => A.Distinct(one)
    case ReducedInner => A.Reduced(one)
    case SliceInner => A.Slice(one, 0, None)
    case ServiceInner => A.Service(A.NodeName("g"), one, false)
    case GroupInner => A.Group(one, [x], [])
    case _ => one
  }

  function Witness(e: PathEntry): A.GraphPattern { Around(e, ONE_X, if e.ExtendInner? then "y" else "x") }

  lemma OneRow(w: World)
    ensures Answers(w, ONE_X, X_IS_A)
  {
    var rows := [[Some(GroundNode("a"))]];
    assert RowSolution(["x"], rows[0]) == X_IS_A;
    assert InTableRows(["x"], rows, X_IS_A);
  }

  lemma UnitRow(w: World, mu: Solution)
    ensures Answers(w, UNIT, mu) <==> mu == map[]
  {
    assert MatchesAll(w.active, [], map[], map[]);
  }

  lemma UnionAnswers(w: World, one: A.GraphPattern, mu: Solution)
    requires Answers(w, one, mu)
    ensures Answers(w, A.Union(one, UNIT), mu) && Answers(w, A.Union(UNIT, one), mu)
  {
  }

  lemma JoinAnswers(w: World, one: A.GraphPattern, mu: Solution)
    requires Answers(w, one, mu)
    ensures Answers(w, A.Join(one, UNIT), mu) && Answers(w, A.Join(UNIT, one), mu)
  {
    UnitRow(w, map[]);
    assert JoinsTo(mu, map[], mu) && JoinsTo(map[], mu, mu);
  }

  lemma MinusAnswers(w: World, one: A.GraphPattern, mu: Solution)
    requires Answers(w, one, mu)
    ensures Answers(w, A.Minus(one, UNIT), mu)
  {
    forall nu | Answers(w, UNIT, nu) ensures nu == map[] { UnitRow(w, nu); }
  }

  lemma OptionalAnswers(w: World, one: A.GraphPattern, mu: Solution)
    requires Answers(w, one, mu)
    ensures Answers(w, A.LeftJoin(one, UNIT, None), mu)
  {
    UnitRow(w, map[]);
    OneMatch(w, A.LeftJoin(one, UNIT, None), mu, map[]);
    assert mu + map[] == mu;
  }

  lemma OneMatch(w: World, gp: A.GraphPattern, a: Solution, b: Solution)
    requires gp.LeftJoin? && gp.expression.None? && Answers(w, gp.left, a) && Answers(w, gp.right, b) && a.Keys !! b.Keys
    ensures Answers(w, gp, a + b)
  {
    assert OptionalMatch(w, gp, a, b);
  }

  lemma MatchedAnswers(w: World, one: A.GraphPattern, mu: Solution)
    requires Answers(w, one, mu)
    ensures Answers(w, A.LeftJoin(UNIT, one, None), mu)
  {
    UnitRow(w, map[]);
    OneMatch(w, A.LeftJoin(UNIT, one, None), map[], mu);
    assert map[] + mu == mu;
  }

  lemma GraphAnswers(w: World, one: A.GraphPattern, g: Iri, mu: Solution)
    requires g in w.named && Answers(w.(active := w.named[g]), one, mu)
    ensures Answers(w, A.GraphClause(A.NodeName(g), one), mu)
  {
    assert JoinsTo(mu, NameSolution(A.NodeName(g), g), mu) && NameMatches(A.NodeName(g), g);
  }

  lemma ServiceAnswers(w: World, one: A.GraphPattern, g: Iri, mu: Solution)
    requires w.fns.remote(g).Some? && Answers(At(w, w.fns.remote(g).value), one, mu)
    ensures Answers(w, A.Service(A.NodeName(g), one, false), mu)
  {
    assert JoinsTo(mu, NameSolution(A.NodeName(g), g), mu) && NameMatches(A.NodeName(g), g);
  }

  lemma ModifiersAnswer(w: World, one: A.GraphPattern, mu: Solution)
    requires (forall gp, nu :: w.fns.keeps(gp, nu)) && Answers(w, one, mu)
    ensures Answers(w, A.OrderBy(one, []), mu) && Answers(w, A.Distinct(one), mu) && Answers(w, A.Reduced(one), mu)
    ensures Answers(w, A.Slice(one, 0, None), mu)
  {
  }

  lemma FilterAnswers(w: World, one: A.GraphPattern, mu: Solution)
    requires Answers(w, one, mu)
    ensures Answers(w, A.Filter(ALWAYS, one), mu)
  {
  }

  lemma OneVariable(mu: Solution, x: Var)
    requires mu.Keys == {x}
    ensures Restrict(mu, A.SeqSet([x])) == mu
  {
    assert x in [x];
  }

  lemma ProjectAnswers(w: World, one: A.GraphPattern, x: Var, mu: Solution)
    requires Answers(w, one, mu) && mu.Keys == {x}
    ensures Answers(w, A.Project(one, [x]), mu)
  {
    OneVariable(mu, x);
  }

  lemma GroupAnswers(w: World, one: A.GraphPattern, x: Var, mu: Solution)
    requires Answers(w, one, mu) && mu.Keys == {x}
    ensures Answers(w, A.Group(one, [x], []), mu)
  {
    OneVariable(mu, x);
    AloneInGroup(w, one, [x], mu);
  }

  lemma AloneInGroup(w: World, one: A.GraphPattern, vs: seq<Var>, mu: Solution)
    requires vs != [] && Answers(w, one, mu) && mu == Restrict(mu, A.SeqSet(vs))
    ensures Answers(w, A.Group(one, vs, []), mu)
  {
    assert IsGroupKey(w, one, vs, mu) && mu + map[] == mu;
  }

  lemma BindAnswers(w: World, one: A.GraphPattern, x: Var, mu: Solution)
    requires Answers(w, one, mu)
    ensures Answers(w, A.Extend(one, x, ALWAYS), ExtendWith(x, Eval(w, ALWAYS, mu), mu))
  {
  }

  // A pattern with a solution wherever the witnesses may look for it.
  ghost predicate Everywhere(w: World, one: A.GraphPattern, mu: Solution) {
    && Answers(w, one, mu) && (forall gp, nu :: w.fns.keeps(gp, nu))
    && "g" in w.named && Answers(w.(active := w.named["g"]), one, mu)
    && w.fns.remote("g").Some? && Answers(At(w, w.fns.remote("g").value), one, mu)
  }

  // The binary operators, and the others.
  predicate IsSide(e: PathEntry) {
    || e.UnionLeftSide? || e.UnionRightSide? || e.JoinLeftSide? || e.JoinRightSide? || e.LeftJoinLeftSide?
    || e.LeftJoinRightSide? || e.MinusLeftSide?
  }

  lemma SidesAnswer(w: World, e: PathEntry, one: A.GraphPattern, x: Var, gp: A.GraphPattern, mu: Solution)
    requires IsSide(e) && Answers(w, one, mu) && gp == Around(e, one, x)
    ensures Answers(w, gp, mu)
  {
    UnionAnswers(w, one, mu);
    JoinAnswers(w, one, mu);
    OptionalAnswers(w, one, mu);
    MatchedAnswers(w, one, mu);
    MinusAnswers(w, one, mu);
  }

  lemma AroundAnswers(w: World, e: PathEntry, one: A.GraphPattern, x: Var, gp: A.GraphPattern, mu: Solution)
    requires ExposesVariables(e) && !e.BGP? && !e.ExtendInner? && !IsSide(e) && gp == Around(e, one, x)
    requires Everywhere(w, one, mu) && mu.Keys == {x}
    ensures Answers(w, gp, mu)
  {
    GroupAnswers(w, one, x, mu);
    ProjectAnswers(w, one, x, mu);
    GraphAnswers(w, one, "g", mu);
    ServiceAnswers(w, one, "g", mu);
    ModifiersAnswer(w, one, mu);
    FilterAnswers(w, one, mu);
  }

  lemma Somehow(w: World)
    requires w == Somewhere()
    ensures Everywhere(w, ONE_X, X_IS_A)
  {
    OneRow(w);
    OneRow(w.(active := w.named["g"]));
    OneRow(At(w, w.fns.remote("g").value));
  }

  lemma AnyAnswers(w: World, e: PathEntry, one: A.GraphPattern, x: Var, gp: A.GraphPattern, mu: Solution)
    requires Everywhere(w, one, mu) && mu.Keys == {x} && ExposesVariables(e) && !e.BGP? && !e.ExtendInner?
    requires gp == Around(e, one, x)
    ensures Answers(w, gp, mu)
  {
    if IsSide(e) { SidesAnswer(w, e, one, x, gp, mu); } else { AroundAnswers(w, e, one, x, gp, mu); }
  }

  lemma WitnessAnswers(w: World, e: PathEntry) returns (mu: Solution)
    requires Everywhere(w, ONE_X, X_IS_A) && ExposesVariables(e) && !e.BGP?
    ensures Answers(w, Witness(e), mu) && "x" in mu
  {
    if e.ExtendInner? {
      BindAnswers(w, ONE_X, "y", X_IS_A);
      mu := ExtendWith("y", Eval(w, ALWAYS, X_IS_A), X_IS_A);
    } else {
      mu := X_IS_A;
      AnyAnswers(w, e, ONE_X, "x", Witness(e), mu);
    }
  }

  // An empty part is all there is to project or to group.
  lemma NothingProjected(w: World, x: Var, nu: Solution)
    requires Answers(w, A.Project(UNIT, [x]), nu)
    ensures nu == map[]
  {
    var a := ProjectPart(w, A.Project(UNIT, [x]), nu);
    UnitRow(w, a);
  }

  lemma NothingGrouped(w: World, x: Var, nu: Solution)
    requires Answers(w, A.Group(UNIT, [x], []), nu)
    ensures nu == map[]
  {
    var key := GroupPart(w, A.Group(UNIT, [x], []), nu);
    var a :| Answers(w, UNIT, a) && key == Restrict(a, A.SeqSet([x]));
    UnitRow(w, a);
  }

  lemma EmptiedLacks(
    w: World, e: PathEntry, one: A.GraphPattern, x: Var, y: Var, gp: A.GraphPattern, nu: Solution)
    requires ExposesVariables(e) && !e.BGP? && Part(Around(e, one, y), e) == Some(one) && (e.ExtendInner? ==> x != y)
    requires gp == Emptied(Around(e, one, y), e) && Answers(w, gp, nu)
    ensures x !in nu
  {
    EmptiedIs(e, one, y);
    if gp == A.Project(UNIT, [y]) {
      NothingProjected(w, y, nu);
    } else if gp == A.Group(UNIT, [y], []) {
      NothingGrouped(w, y, nu);
    } else {
      OnlyIts(w, gp, nu);
    }
  }

  lemma EmptiedIs(e: PathEntry, one: A.GraphPattern, y: Var)
    requires ExposesVariables(e) && Part(Around(e, one, y), e) == Some(one) && !e.BGP?
    ensures var gp := Emptied(Around(e, one, y), e);
      gp == A.Project(UNIT, [y]) || gp == A.Group(UNIT, [y], []) || Vars(gp) <= if e.ExtendInner? then {y} else {}
  {
    if !e.ProjectInner? && !e.GroupInner? { EmptiedVars(e, one, y); }
  }

  lemma OnlyIts(w: World, gp: A.GraphPattern, nu: Solution)
    requires Answers(w, gp, nu)
    ensures nu.Keys <= Vars(gp)
  {
    SolutionVars(w, gp, nu);
  }

  lemma EmptiedVars(e: PathEntry, one: A.GraphPattern, y: Var)
    requires ExposesVariables(e) && Part(Around(e, one, y), e) == Some(one) && !e.BGP?
    requires !e.ProjectInner? && !e.GroupInner?
    ensures Vars(Emptied(Around(e, one, y), e)) <= if e.ExtendInner? then {y} else {}
  {
    assert Vars(UNIT) == {} && ExprVars(ALWAYS) == {};
  }

  // What the right of a MINUS binds never shows.
  lemma MinusKeepsLeft(w: World, gp: A.GraphPattern, mu: Solution)
    requires gp.Minus? && Answers(w, gp, mu)
    ensures Answers(w, Emptied(gp, MinusRightSide), mu)
  {
    UnitRow(w, map[]);
    forall b | Answers(w, UNIT, b) ensures b == map[] { UnitRow(w, b); }
  }

  lemma WitnessHandsOn(e: PathEntry)
    requires ExposesVariables(e) && !e.BGP?
    ensures HandsOn(e)
  {
    var w := Somewhere();
    Somehow(w);
    HandsOnAt(w, e);
  }

  lemma HandsOnAt(w: World, e: PathEntry)
    requires Everywhere(w, ONE_X, X_IS_A) && ExposesVariables(e) && !e.BGP?
    ensures HandsOn(e)
  {
    var mu := WitnessAnswers(w, e);
    LeadsToOne(e);
    forall nu | Answers(w, Emptied(Witness(e), e), nu) ensures "x" !in nu {
      EmptiedLacks(w, e, ONE_X, "x", if e.ExtendInner? then "y" else "x", Emptied(Witness(e), e), nu);
    }
    assert HandsOnIn(w, Witness(e), e, mu, "x");
  }

  lemma LeadsToOne(e: PathEntry)
    requires ExposesVariables(e) && !e.BGP?
    ensures Part(Witness(e), e) == Some(ONE_X)
  {
  }

  lemma OnlyExposed(e: PathEntry)
    requires HandsOn(e)
    ensures ExposesVariables(e)
  {
    var w, gp, mu, v :| HandsOnIn(w, gp, e, mu, v);
    if e.MinusRightSide? { MinusKeepsLeft(w, gp, mu); }
  }

  /**
    Of the entries that lead to a part of a pattern, those expose their variables that hand on what the part binds;
    besides them only a basic graph pattern itself does.
   */
  lemma ExposesExactly(e: PathEntry)
    ensures ExposesVariables(e) <==> e.BGP? || HandsOn(e)
  {
    if ExposesVariables(e) && !e.BGP? { WitnessHandsOn(e); }
    if HandsOn(e) { OnlyExposed(e); }
  }

  /** Full downward scope is kept by the entries into expressions, save the condition of an OPTIONAL. */
  lemma MaintainsExactly(e: PathEntry)
    ensures MaintainsFullDownwardScope(e) <==>
      !(e.BGP? || LeadsToPart(e) || e.PathRewrite? || e.LeftJoinExpression?)
  {
    if LeadsToPart(e) { OnlyParts(e); }
    if ExposesVariables(e) && !e.BGP? { LeadsToOne(e); }
    if e.MinusRightSide? { assert Part(A.Minus(UNIT, UNIT), e).Some?; }
  }

  lemma OnlyParts(e: PathEntry)
    requires LeadsToPart(e)
    ensures (ExposesVariables(e) && !e.BGP?) || e.MinusRightSide?
  {
  }

  ghost predicate LeadsToPart(e: PathEntry) { exists gp :: Part(gp, e).Some? }

  // ----- the in-scope analysis against the same table -----

  // The variables that a pattern itself brings into scope.
  function Introduces(gp: A.GraphPattern): set<Var> {
    match gp
    case Bgp(ps) => A.BgpVars(ps)
    case Path(s, _, o) => A.TermVars(s) + A.TermVars(o)
    case GraphClause(name, _) => A.NameVars(name)
    case Extend(_, v, _) => {v}
    case Values(vs, _) => A.SeqSet(vs)
    case PValues(vs, _) => A.SeqSet(vs)
    case Project(_, vs) => A.SeqSet(vs)
    case Group(_, vs, aggs) => A.SeqSet(vs) + A.AggregateVars(aggs)
    case _ => {}
  }

  // A part whose variables stay in scope: all that are exposed, save under a projection or grouping.
  predicate ShowsAt(gp: A.GraphPattern, e: PathEntry, v: Var) {
    && Part(gp, e).Some? && ExposesVariables(e) && !e.ProjectInner? && !e.GroupInner?
    && v in A.InScope(Part(gp, e).value)
  }

  ghost predicate Shows(gp: A.GraphPattern, v: Var) { exists e :: ShowsAt(gp, e, v) }

  function Sides(gp: A.GraphPattern): (PathEntry, PathEntry) {
    match gp
    case Join(_, _) => (JoinLeftSide, JoinRightSide)
    case LeftJoin(_, _, _) => (LeftJoinLeftSide, LeftJoinRightSide)
    case Minus(_, _) => (MinusLeftSide, MinusRightSide)
    case _ => (UnionLeftSide, UnionRightSide)
  }

  function Inner(gp: A.GraphPattern): PathEntry {
    match gp
    case Filter(_, _) => FilterInner
    case GraphClause(_, _) => GraphInner
    case Extend(_, _, _) => ExtendInner
    case OrderBy(_, _) => OrderByInner
    case Distinct(_) => DistinctInner
    case Reduced(_) => ReducedInner
    case Slice(_, _, _) => SliceInner
    case Service(_, _, _) => ServiceInner
    case Group(_, _, _) => GroupInner
    case _ => ProjectInner
  }

  /** A variable is reported as in scope exactly when the pattern introduces it or a part shows it. */
  lemma InScopeExactly(gp: A.GraphPattern, v: Var)
    ensures v in A.InScope(gp) <==> v in Introduces(gp) || Shows(gp, v)
  {
    if v in A.InScope(gp) && v !in Introduces(gp) {
      if gp.Join? || gp.LeftJoin? || gp.Union? || gp.Minus? {
        assert ShowsAt(gp, Sides(gp).0, v) || ShowsAt(gp, Sides(gp).1, v);
      } else {
        assert ShowsAt(gp, Inner(gp), v);
      }
    }
  }
}
