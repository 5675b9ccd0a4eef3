/**
  A denotational semantics of the algebra, on solution sets: `Answers(w, gp, mu)` says that mu is a
  solution of gp in w. Sections 17 and 18 of SPARQL 1.1 Query.
 */
module Semantics {
  import opened Wrappers
  import opened Rdf
  import opened Algebra
  import opened PathSemantics

  datatype Dataset = Dataset(defaultGraph: Graph, named: map<Iri, Graph>)

  // How often each value occurs in a group.
  type Tally = map<Value, nat>

  // What the semantics leaves open: functions, comparisons, arithmetic, what an aggregate makes of the values of
  // a group, the rows a slice keeps, the tables behind PVALUES and the datasets behind SERVICE.
  datatype Interpretation = Interpretation(
    call: (Function, seq<Option<Term>>) -> Option<Term>,
    compare: (CompareOp, Term, Term) -> Option<bool>,
    arith: (ArithOp, Term, Term) -> Option<Term>,
    sign: (SignOp, Term) -> Option<Term>,
    truth: Literal -> Option<bool>,
    count: nat -> Option<Term>,
    aggregate: (string, Tally) -> Option<Term>,
    keeps: (GraphPattern, Solution) -> bool,
    table: string -> seq<Row>,
    remote: Iri -> Option<Dataset>)

  datatype World = World(active: Graph, named: map<Iri, Graph>, fns: Interpretation)

  // ----- expressions: None is the type error of three-valued logic -----

  type Value = Option<Term>

  function BoolValue(b: bool): Value { Some(LiteralTerm(BoolLiteral(b))) }

  function FromBool(b: Option<bool>): Value {
    if b.Some? then BoolValue(b.value) else None
  }

  /** Effective boolean value, section 17.2.2. */
  function Truth(fns: Interpretation, v: Value): Option<bool> {
    if v.None? || !v.value.LiteralTerm? then None
    else
      var l := v.value.literal;
      if l == BoolLiteral(true) then Some(true)
      else if l == BoolLiteral(false) then Some(false)
      else fns.truth(l)
  }

  function OrTable(a: Option<bool>, b: Option<bool>): Option<bool> {
    if a == Some(true) || b == Some(true) then Some(true)
    else if a == Some(false) && b == Some(false) then Some(false)
    else None
  }

  function AndTable(a: Option<bool>, b: Option<bool>): Option<bool> {
    if a == Some(false) || b == Some(false) then Some(false)
    else if a == Some(true) && b == Some(true) then Some(true)
    else None
  }

  function NotTable(a: Option<bool>): Option<bool> {
    if a.Some? then Some(!a.value) else None
  }

  // Equal and SameTerm are both term equality here.
  function EqualTerms(a: Value, b: Value): Option<bool> {
    if a.Some? && b.Some? then Some(a.value == b.value) else None
  }

  // x IN (v1, ..., vn) is the disjunction of the equalities.
  function InTable(x: Value, vs: seq<Value>): Option<bool> {
    if vs == [] then Some(false) else OrTable(EqualTerms(x, vs[0]), InTable(x, vs[1..]))
  }

  function FirstValue(vs: seq<Value>): Value {
    if vs == [] then None else if vs[0].Some? then vs[0] else FirstValue(vs[1..])
  }

  function CallFunction(fns: Interpretation, f: Function, vs: seq<Value>): Value {
    match f
    case IsIri => if |vs| == 1 && vs[0].Some? then BoolValue(vs[0].value.NamedNode?) else None
    case IsBlank => if |vs| == 1 && vs[0].Some? then BoolValue(vs[0].value.BlankNode?) else None
    case IsLiteral => if |vs| == 1 && vs[0].Some? then BoolValue(vs[0].value.LiteralTerm?) else None
    case _ => fns.call(f, vs)
  }

  ghost function Eval(w: World, e: Expression, mu: Solution): Value
    decreases e, 1
  {
    match e
    case NodeExpr(n) => Some(NamedNode(n))
    case LiteralExpr(l) => Some(LiteralTerm(l))
    case Variable(v) => if v in mu then Some(mu[v]) else None
    case Or(a, b) => FromBool(OrTable(Truth(w.fns, Eval(w, a, mu)), Truth(w.fns, Eval(w, b, mu))))
    case And(a, b) => FromBool(AndTable(Truth(w.fns, Eval(w, a, mu)), Truth(w.fns, Eval(w, b, mu))))
    case Equal(a, b) => FromBool(EqualTerms(Eval(w, a, mu), Eval(w, b, mu)))
    case SameTerm(a, b) => FromBool(EqualTerms(Eval(w, a, mu), Eval(w, b, mu)))
    case Compare(op, a, b) =>
      var x, y := Eval(w, a, mu), Eval(w, b, mu);
      if x.Some? && y.Some? then FromBool(w.fns.compare(op, x.value, y.value)) else None
    case In(a, es) => FromBool(InTable(Eval(w, a, mu), EvalAll(w, es, mu)))
    case Arith(op, a, b) =>
      var x, y := Eval(w, a, mu), Eval(w, b, mu);
      if x.Some? && y.Some? then w.fns.arith(op, x.value, y.value) else None
    case Sign(op, a) =>
      var x := Eval(w, a, mu);
      if x.Some? then w.fns.sign(op, x.value) else None
    case Not(a) => FromBool(NotTable(Truth(w.fns, Eval(w, a, mu))))
    case Exists(p) => BoolValue(exists nu :: Answers(w, p, nu) && Compatible(nu, mu))
    case Bound(v) => BoolValue(v in mu)
    case If(c, a, b) =>
      var t := Truth(w.fns, Eval(w, c, mu));
      if t.None? then None else if t.value then Eval(w, a, mu) else Eval(w, b, mu)
    case Coalesce(es) => FirstValue(EvalAll(w, es, mu))
    case FunctionCall(f, es) => CallFunction(w.fns, f, EvalAll(w, es, mu))
  }

  ghost function EvalAll(w: World, es: seq<Expression>, mu: Solution): (vs: seq<Value>)
    ensures |vs| == |es|
    decreases es, 0
  {
    if es == [] then [] else [Eval(w, es[0], mu)] + EvalAll(w, es[1..], mu)
  }

  ghost predicate Holds(w: World, e: Expression, mu: Solution)
    decreases e, 2
  {
    Truth(w.fns, Eval(w, e, mu)) == Some(true)
  }

  // A missing LeftJoin condition is true.
  ghost predicate HoldsIfAny(w: World, e: Option<Expression>, mu: Solution)
    decreases e, 3
  {
    e.None? || Holds(w, e.value, mu)
  }

  // ----- basic graph patterns: blank nodes of the pattern stand for some term -----

  function Instance(t: TermPattern, mu: Solution, sigma: map<string, Term>): Option<Term> {
    match t
    case NodeTerm(n) => Some(NamedNode(n))
    case LitTerm(l) => Some(LiteralTerm(l))
    case VarTerm(v) => if v in mu then Some(mu[v]) else None
    case BlankTerm(b) => if b in sigma then Some(sigma[b]) else None
  }

  function NameInstance(n: NamedNodePattern, mu: Solution): Option<Term> {
    match n
    case NodeName(i) => Some(NamedNode(i))
    case VarName(v) => if v in mu then Some(mu[v]) else None
  }

  predicate MatchesTriple(g: Graph, t: TriplePattern, mu: Solution, sigma: map<string, Term>) {
    var s, p, o := Instance(t.subj, mu, sigma), NameInstance(t.pred, mu), Instance(t.obj, mu, sigma);
    s.Some? && p.Some? && o.Some? && Triple(s.value, p.value, o.value) in g
  }

  predicate MatchesAll(g: Graph, ps: seq<TriplePattern>, mu: Solution, sigma: map<string, Term>) {
    forall i :: 0 <= i < |ps| ==> MatchesTriple(g, ps[i], mu, sigma)
  }

  ghost predicate MatchesPath(g: Graph, s: TermPattern, p: PropertyPath, o: TermPattern, mu: Solution, sigma: map<string, Term>) {
    var x, y := Instance(s, mu, sigma), Instance(o, mu, sigma);
    x.Some? && y.Some? && Connects(g, p, x.value, y.value, IsTerm(s), IsTerm(o))
  }

  predicate IsTerm(t: TermPattern) { t.NodeTerm? || t.LitTerm? }

  // ----- tables -----

  function RowSolution(vs: seq<Var>, row: Row): Solution {
    if vs == [] || row == [] then map[]
    else
      var rest := RowSolution(vs[1..], row[1..]);
      if row[0].Some? then rest[vs[0] := ToTerm(row[0].value)] else rest
  }

  ghost predicate InTableRows(vs: seq<Var>, rows: seq<Row>, mu: Solution) {
    exists i :: 0 <= i < |rows| && mu == RowSolution(vs, rows[i])
  }

  // ----- groups: the key, and one value for each aggregate that has one -----

  ghost predicate Lists(ms: set<Solution>, group: iset<Solution>) {
    forall mu :: mu in ms <==> mu in group
  }

  // The solutions of a group as a finite set.
  ghost function Members(group: iset<Solution>): set<Solution> {
    if exists ms :: Lists(ms, group) then
      var ms :| Lists(ms, group);
      ms
    else {}
  }

  // The members with the value x.
  function MembersWith(f: Solution -> Value, ms: set<Solution>, x: Value): set<Solution> {
    set mu | mu in ms && f(mu) == x
  }

  function TallyOf(f: Solution -> Value, ms: set<Solution>): Tally {
    map x | x in (set mu | mu in ms :: f(mu)) :: |MembersWith(f, ms, x)|
  }

  ghost function ValueIn(w: World, e: Expression): Solution -> Value
    decreases e, 2
  {
    mu => Eval(w, e, mu)
  }

  // DISTINCT drops duplicates.
  function Once(tally: Tally): Tally { map x | x in tally :: 1 }

  ghost function AggregateValue(w: World, a: AggregateExpression, group: iset<Solution>): Value
    decreases a, 0
  {
    match a
    case CountSolutions(_) => w.fns.count(|Members(group)|)
    case AggregateCall(name, e, distinct) =>
      var tally := TallyOf(ValueIn(w, e), Members(group));
      w.fns.aggregate(name, if distinct then Once(tally) else tally)
  }

  ghost function AggregateValues(w: World, aggs: seq<NamedAggregate>, group: iset<Solution>): Solution
    decreases aggs, 0
  {
    if aggs == [] then map[]
    else
      var rest := AggregateValues(w, aggs[1..], group);
      var v := AggregateValue(w, aggs[0].aggregate, group);
      if v.Some? then rest[aggs[0].variable := v.value] else rest
  }

  // ----- graph patterns -----

  ghost predicate JoinsTo(a: Solution, b: Solution, mu: Solution) {
    Compatible(a, b) && mu == a + b
  }

  ghost function ExtendWith(v: Var, x: Value, mu: Solution): Solution {
    if v !in mu && x.Some? then mu[v := x.value] else mu
  }

  // The bindings that a graph or service name adds when it is instantiated to iri.
  predicate NameMatches(name: NamedNodePattern, iri: Iri) {
    name.NodeName? ==> name.iri == iri
  }

  function NameSolution(name: NamedNodePattern, iri: Iri): Solution {
    if name.VarName? then map[name.name := NamedNode(iri)] else map[]
  }

  ghost predicate Answers(w: World, gp: GraphPattern, mu: Solution)
    decreases gp, 1
  {
    match gp
    case Bgp(ps) => mu.Keys == BgpVars(ps) && exists sigma :: MatchesAll(w.active, ps, mu, sigma)
    case Path(s, p, o) =>
      mu.Keys == TermVars(s) + TermVars(o) && exists sigma :: MatchesPath(w.active, s, p, o, mu, sigma)
    case Join(l, r) => exists a, b :: Answers(w, l, a) && Answers(w, r, b) && JoinsTo(a, b, mu)
    case LeftJoin(l, _, _) =>
      || (exists a, b :: Answers(w, l, a) && OptionalMatch(w, gp, a, b) && mu == a + b)
      || (Answers(w, l, mu) && !exists b :: OptionalMatch(w, gp, mu, b))
    case Filter(e, inner) => Answers(w, inner, mu) && Holds(w, e, mu)
    case Union(l, r) => Answers(w, l, mu) || Answers(w, r, mu)
    case GraphClause(name, inner) =>
      exists iri, a :: iri in w.named && NameMatches(name, iri)
        && Answers(w.(active := w.named[iri]), inner, a) && JoinsTo(a, NameSolution(name, iri), mu)
    case Extend(inner, v, e) => exists a :: Answers(w, inner, a) && mu == ExtendWith(v, Eval(w, e, a), a)
    case Minus(l, r) =>
      Answers(w, l, mu) && !exists b :: Answers(w, r, b) && Compatible(mu, b) && mu.Keys * b.Keys != {}
    case Values(vs, rows) => InTableRows(vs, rows, mu)
    case PValues(vs, name) => InTableRows(vs, w.fns.table(name), mu)
    case OrderBy(inner, _) => Answers(w, inner, mu)
    case Project(inner, vs) => exists a :: Answers(w, inner, a) && mu == Restrict(a, SeqSet(vs))
    case Distinct(inner) => Answers(w, inner, mu)
    case Reduced(inner) => Answers(w, inner, mu)
    case Slice(inner, _, _) => Answers(w, inner, mu) && w.fns.keeps(gp, mu)
    case Group(inner, vs, aggs) =>
      exists key :: IsGroupKey(w, inner, vs, key) && mu == key + AggregateValues(w, aggs, GroupOf(w, inner, vs, key))
    case Service(name, inner, silent) =>
      || (silent && mu == map[])
      || exists iri, a :: NameMatches(name, iri) && w.fns.remote(iri).Some?
           && Answers(At(w, w.fns.remote(iri).value), inner, a) && JoinsTo(a, NameSolution(name, iri), mu)
  }

  function At(w: World, d: Dataset): World {
    World(d.defaultGraph, d.named, w.fns)
  }

  // b extends a across a LeftJoin: compatible, and the condition holds of both together.
  ghost predicate OptionalMatch(w: World, gp: GraphPattern, a: Solution, b: Solution)
    requires gp.LeftJoin?
    decreases gp, 0
  {
    Answers(w, gp.right, b) && Compatible(a, b) && HoldsIfAny(w, gp.expression, a + b)
  }

  // Without grouping variables there is one group, even over no solutions.
  ghost predicate IsGroupKey(w: World, inner: GraphPattern, vs: seq<Var>, key: Solution)
    decreases inner, 2
  {
    if vs == [] then key == map[]
    else exists a :: Answers(w, inner, a) && key == Restrict(a, SeqSet(vs))
  }

  ghost function GroupOf(w: World, inner: GraphPattern, vs: seq<Var>, key: Solution): iset<Solution>
    decreases inner, 2
  {
    iset mu | Answers(w, inner, mu) && Restrict(mu, SeqSet(vs)) == key
  }

  // ----- what a solution of each operator is made of -----

  lemma JoinParts(w: World, gp: GraphPattern, mu: Solution) returns (a: Solution, b: Solution)
    requires gp.Join? && Answers(w, gp, mu)
    ensures Answers(w, gp.left, a) && Answers(w, gp.right, b) && JoinsTo(a, b, mu)
  {
    a, b :| Answers(w, gp.left, a) && Answers(w, gp.right, b) && JoinsTo(a, b, mu);
  }

  // matched says whether the right side extends a.
  lemma LeftJoinParts(w: World, gp: GraphPattern, mu: Solution) returns (matched: bool, a: Solution, b: Solution)
    requires gp.LeftJoin? && Answers(w, gp, mu)
    ensures Answers(w, gp.left, a)
    ensures matched ==> OptionalMatch(w, gp, a, b) && mu == a + b
    ensures !matched ==> mu == a && forall c :: !OptionalMatch(w, gp, a, c)
  {
    matched := exists a, b :: Answers(w, gp.left, a) && OptionalMatch(w, gp, a, b) && mu == a + b;
    if matched {
      a, b :| Answers(w, gp.left, a) && OptionalMatch(w, gp, a, b) && mu == a + b;
    } else {
      a, b := mu, map[];
    }
  }

  lemma GraphParts(w: World, gp: GraphPattern, mu: Solution) returns (iri: Iri, a: Solution)
    requires gp.GraphClause? && Answers(w, gp, mu)
    ensures iri in w.named && NameMatches(gp.name, iri) && JoinsTo(a, NameSolution(gp.name, iri), mu)
    ensures Answers(w.(active := w.named[iri]), gp.inner, a)
  {
    iri, a :| iri in w.named && NameMatches(gp.name, iri)
      && Answers(w.(active := w.named[iri]), gp.inner, a) && JoinsTo(a, NameSolution(gp.name, iri), mu);
  }

  lemma ExtendPart(w: World, gp: GraphPattern, mu: Solution) returns (a: Solution)
    requires gp.Extend? && Answers(w, gp, mu)
    ensures Answers(w, gp.inner, a) && mu == ExtendWith(gp.variable, Eval(w, gp.bind, a), a)
  {
    a :| Answers(w, gp.inner, a) && mu == ExtendWith(gp.variable, Eval(w, gp.bind, a), a);
  }

  lemma ProjectPart(w: World, gp: GraphPattern, mu: Solution) returns (a: Solution)
    requires gp.Project? && Answers(w, gp, mu)
    ensures Answers(w, gp.inner, a) && mu == Restrict(a, SeqSet(gp.variables))
  {
    a :| Answers(w, gp.inner, a) && mu == Restrict(a, SeqSet(gp.variables));
  }

  lemma GroupPart(w: World, gp: GraphPattern, mu: Solution) returns (key: Solution)
    requires gp.Group? && Answers(w, gp, mu)
    ensures IsGroupKey(w, gp.inner, gp.variables, key)
    ensures mu == key + AggregateValues(w, gp.aggregates, GroupOf(w, gp.inner, gp.variables, key))
  {
    key :| IsGroupKey(w, gp.inner, gp.variables, key)
      && mu == key + AggregateValues(w, gp.aggregates, GroupOf(w, gp.inner, gp.variables, key));
  }

  // skipped says that a silent service failed.
  lemma ServiceParts(w: World, gp: GraphPattern, mu: Solution) returns (skipped: bool, iri: Iri, a: Solution)
    requires gp.Service? && Answers(w, gp, mu)
    ensures skipped ==> gp.silent && mu == map[]
    ensures !skipped ==> NameMatches(gp.name, iri) && JoinsTo(a, NameSolution(gp.name, iri), mu)
    ensures !skipped ==> w.fns.remote(iri).Some? && Answers(At(w, w.fns.remote(iri).value), gp.inner, a)
  {
    skipped, iri, a := gp.silent && mu == map[], "", map[];
    if !skipped {
      iri, a :| NameMatches(gp.name, iri) && w.fns.remote(iri).Some?
        && Answers(At(w, w.fns.remote(iri).value), gp.inner, a) && JoinsTo(a, NameSolution(gp.name, iri), mu);
    }
  }
}
