/** Running type inference over a dataset: it ends, and only the types of parameters change. */
module TemplateDatasets {
  import opened Wrappers
  import opened Rdf
  import opened StottrAst
  import opened TemplateTypes
  import opened TemplateInference
  import opened InferenceRuns

  // ----- what may change -----

  predicate TypeRefines(t: PType, u: PType) { TypeDepth(u) == TypeDepth(t) && ListLayers(u) <= ListLayers(t) }

  predicate ParameterRefines(p: Parameter, q: Parameter) {
    && q == p.(ptype := q.ptype)
    && (p.ptype.Some? ==> q.ptype.Some? && TypeRefines(p.ptype.value, q.ptype.value))
  }

  // Only types have changed; a type that was there keeps its list depth and loses no non-empty list.
  ghost predicate Refines(t: Template, u: Template) {
    && u == t.(parameters := u.parameters) && |u.parameters| == |t.parameters|
    && forall k :: 0 <= k < |t.parameters| ==> ParameterRefines(t.parameters[k], u.parameters[k])
  }

  // ----- measures -----

  function UntypedIn(ps: seq<Parameter>): nat {
    if ps == [] then 0 else (if ps[0].ptype.None? then 1 else 0) + UntypedIn(ps[1..])
  }

  function WeightIn(all: set<Iri>, ps: seq<Parameter>): nat {
    if ps == [] then 0 else WeightOf(all, ps[0]) + WeightIn(all, ps[1..])
  }

  function WeightOf(all: set<Iri>, p: Parameter): nat { if p.ptype.None? then 0 else TypeWeight(all, p.ptype.value) }

  // The sums over a list of templates.
  function Untyped(tm: Templates, order: seq<Iri>): nat {
    if order == [] then 0
    else (if order[0] in tm then UntypedIn(tm[order[0]].parameters) else 0) + Untyped(tm, order[1..])
  }

  function Weight(all: set<Iri>, tm: Templates, order: seq<Iri>): nat {
    if order == [] then 0
    else (if order[0] in tm then WeightIn(all, tm[order[0]].parameters) else 0) + Weight(all, tm, order[1..])
  }

  // The measure has gone down.
  predicate Lower(u: nat, w: nat, u0: nat, w0: nat) { u < u0 || (u == u0 && w < w0) }

  ghost predicate DatasetLower(all: set<Iri>, order: seq<Iri>, tm: Templates, tm0: Templates) {
    Lower(Untyped(tm, order), Weight(all, tm, order), Untyped(tm0, order), Weight(all, tm0, order))
  }

  // Nothing has changed, and nothing is to be looked at again.
  ghost predicate Idle(tm0: Templates, tm: Templates, next: set<Iri>) { tm == tm0 && next == {} }

  // Every name inside a type is among the given ones.
  ghost predicate NamesWithin(all: set<Iri>, tm: Templates) {
    forall n :: n in tm ==> ParametersWithin(all, tm[n].parameters)
  }

  ghost predicate ParametersWithin(all: set<Iri>, ps: seq<Parameter>) {
    forall p :: p in ps && p.ptype.Some? ==> BaseNames(p.ptype.value) <= all
  }

  lemma {:induction false} UntypedUpdate(ps: seq<Parameter>, k: nat, p: Parameter)
    requires k < |ps|
    ensures UntypedIn(ps[k := p]) + (if ps[k].ptype.None? then 1 else 0) == UntypedIn(ps) + (if p.ptype.None? then 1 else 0)
  {
    if k == 0 {
      assert ps[k := p][1..] == ps[1..];
    } else {
      UntypedUpdate(ps[1..], k - 1, p);
      assert ps[k := p][1..] == ps[1..][k - 1 := p];
    }
  }

  lemma {:induction false} WeightUpdate(all: set<Iri>, ps: seq<Parameter>, k: nat, p: Parameter)
    requires k < |ps|
    ensures WeightIn(all, ps[k := p]) + WeightOf(all, ps[k]) == WeightIn(all, ps) + WeightOf(all, p)
  {
    if k == 0 {
      assert ps[k := p][1..] == ps[1..];
    } else {
      WeightUpdate(all, ps[1..], k - 1, p);
      assert ps[k := p][1..] == ps[1..][k - 1 := p];
    }
  }

  lemma RequiredNames(expand: bool, other: Parameter)
    requires other.ptype.Some?
    ensures BaseNames(Required(expand, other)) == BaseNames(other.ptype.value)
  {
  }

  /** A changed parameter: its type has appeared, or weighs less at the same depth. */
  lemma UpdateDescends(names: DatatypeNames, template: Iri, v: Var, all: set<Iri>, p: Parameter, right: PType, q: Parameter)
    requires p.ptype.Some? ==> BaseNames(p.ptype.value) <= all
    requires BaseNames(right) <= all && LubUpdate(names, template, v, p, right) == Ok((q, true))
    ensures q.ptype.Some? && BaseNames(q.ptype.value) <= all && ParameterRefines(p, q)
    ensures p.ptype.Some? ==> WeightOf(all, q) < WeightOf(all, p)
  {
    if p.ptype.Some? { LubDescends(names, template, v, all, p.ptype.value, right); }
  }

  /** A pass that changes a template lowers its measure. */
  lemma ChangeDescends(names: DatatypeNames, t: Template, ts: Templates, all: set<Iri>, ps: seq<Parameter>)
    requires ChangedOnce(names, t, ts, ps) && NamesWithin(all, ts) && ParametersWithin(all, t.parameters)
    ensures Lower(UntypedIn(ps), WeightIn(all, ps), UntypedIn(t.parameters), WeightIn(all, t.parameters))
    ensures ParametersWithin(all, ps) && Refines(t, t.(parameters := ps))
  {
    var u, right, p :| ChangedBy(names, t, ts, u, right, p, ps);
    var k := u.parameter;
    var other := ts[t.patterns[u.pattern].template].parameters[u.argument];
    assert t.parameters[k] in t.parameters && other in ts[t.patterns[u.pattern].template].parameters;
    RequiredNames(t.patterns[u.pattern].arguments[u.argument].listExpand, other);
    UpdateDescends(names, t.iri, t.parameters[k].variable, all, t.parameters[k], right, p);
    UntypedUpdate(t.parameters, k, p);
    WeightUpdate(all, t.parameters, k, p);
  }

  // ----- sums over the dataset -----

  lemma {:induction false} SumsSame(all: set<Iri>, tm: Templates, n: Iri, t: Template, order: seq<Iri>)
    requires n in tm && UntypedIn(t.parameters) <= UntypedIn(tm[n].parameters)
    ensures Untyped(tm[n := t], order) <= Untyped(tm, order)
    ensures UntypedIn(t.parameters) == UntypedIn(tm[n].parameters) ==> Untyped(tm[n := t], order) == Untyped(tm, order)
    ensures WeightIn(all, t.parameters) <= WeightIn(all, tm[n].parameters) ==> Weight(all, tm[n := t], order) <= Weight(all, tm, order)
  {
    if order != [] { SumsSame(all, tm, n, t, order[1..]); }
  }

  /** Lowering the measure of one template lowers that of the dataset. */
  lemma {:induction false} SumsDescend(all: set<Iri>, tm: Templates, n: Iri, t: Template, order: seq<Iri>)
    requires n in tm && n in order
    requires Lower(UntypedIn(t.parameters), WeightIn(all, t.parameters), UntypedIn(tm[n].parameters), WeightIn(all, tm[n].parameters))
    ensures Lower(Untyped(tm[n := t], order), Weight(all, tm[n := t], order), Untyped(tm, order), Weight(all, tm, order))
  {
    SumsSame(all, tm, n, t, order[1..]);
    if order[0] != n {
      assert n in order[1..];
      SumsDescend(all, tm, n, t, order[1..]);
    }
  }

  // ----- the dataset -----

  // Templates by name; a later one with the same name wins.
  function TemplateMap(ts: seq<Template>): Templates {
    if ts == [] then map[] else TemplateMap(ts[..|ts| - 1])[ts[|ts| - 1].iri := ts[|ts| - 1]]
  }

  ghost predicate NamedByKeys(tm: Templates) { forall n :: n in tm ==> tm[n].iri == n }

  ghost predicate AllRefine(tm: Templates, fm: Templates) {
    fm.Keys == tm.Keys && forall n :: n in tm ==> Refines(tm[n], fm[n])
  }

  lemma RefinesTransitive(t: Template, u: Template, v: Template)
    requires Refines(t, u) && Refines(u, v)
    ensures Refines(t, v)
  {
    forall k | 0 <= k < |t.parameters| ensures ParameterRefines(t.parameters[k], v.parameters[k]) {
      assert ParameterRefines(t.parameters[k], u.parameters[k]) && ParameterRefines(u.parameters[k], v.parameters[k]);
    }
  }

  lemma AllRefineStep(tm: Templates, cm: Templates, n: Iri, t: Template)
    requires AllRefine(tm, cm) && n in cm && Refines(cm[n], t)
    ensures AllRefine(tm, cm[n := t])
  {
    forall m | m in tm ensures Refines(tm[m], cm[n := t][m]) {
      if m == n { RefinesTransitive(tm[n], cm[n], t); }
    }
  }

  /** All names inside the types of the dataset. */
  ghost function DatasetNames(tm: Templates): set<Iri> {
    set n, p, i | n in tm && p in tm[n].parameters && p.ptype.Some? && i in BaseNames(p.ptype.value) :: i
  }

  lemma OwnNames(tm: Templates)
    ensures NamesWithin(DatasetNames(tm), tm)
  {
    forall n, p | n in tm && p in tm[n].parameters && p.ptype.Some?
      ensures BaseNames(p.ptype.value) <= DatasetNames(tm)
    {
      forall i | i in BaseNames(p.ptype.value) ensures i in DatasetNames(tm) {}
    }
  }

  lemma NamesAmong(all: set<Iri>, tm: Templates)
    requires NamesWithin(all, tm)
    ensures DatasetNames(tm) <= all
  {
    forall i | i in DatasetNames(tm) ensures i in all {
      var n, p :| n in tm && p in tm[n].parameters && p.ptype.Some? && i in BaseNames(p.ptype.value);
      assert ParametersWithin(all, tm[n].parameters);
    }
  }

  // What an error says is so of some template, against the others, with the types as they are by then.
  ghost predicate ErrorJustified(names: DatatypeNames, start: Templates, e: TemplateError) {
    exists tm, n :: JustifiedIn(names, start, tm, n, e)
  }

  ghost predicate JustifiedIn(names: DatatypeNames, start: Templates, tm: Templates, n: Iri, e: TemplateError) {
    AllRefine(start, tm) && n in tm && Justified(names, tm[n], tm - {n}, e)
  }

  // An error about calls is so of the templates as they were given.
  lemma CallErrorAtStart(names: DatatypeNames, start: Templates, tm: Templates, n: Iri, e: TemplateError)
    requires JustifiedIn(names, start, tm, n, e) && !e.IncompatibleTypes?
    ensures n in start && Justified(names, start[n], start - {n}, e)
  {
    assert Refines(start[n], tm[n]);
    if e.InconsistentNumberOfArguments? {
      var i :| i in tm[n].patterns && i.template in tm - {n} && e.called == (tm - {n})[i.template].iri
        && e.given == |i.arguments| != |(tm - {n})[i.template].parameters| == e.expected;
      assert Refines(start[i.template], tm[i.template]);
      assert i in start[n].patterns && i.template in start - {n};
    }
  }

  /** One template is taken out, inferred against the others, and put back. */
  method InferOne(names: DatatypeNames, tm: Templates, n: Iri, ghost all: set<Iri>, ghost order: seq<Iri>)
    returns (r: Result<(Templates, bool), TemplateError>)
    requires n in tm && n in order && NamesWithin(all, tm) && NamedByKeys(tm)
    ensures r.Err? ==> Justified(names, tm[n], tm - {n}, r.error)
    ensures r.Ok? ==> CallsResolve(tm[n], tm - {n})
    ensures r.Ok? ==> Look(names, tm, n, r.value.0) && (r.value.1 <==> r.value.0 != tm)
    ensures r.Ok? && r.value.1 ==> DatasetLower(all, order, r.value.0, tm)
    ensures r.Ok? ==> r.value.0.Keys == tm.Keys && r.value.0 == tm[n := r.value.0[n]] && Refines(tm[n], r.value.0[n])
    ensures r.Ok? ==> NamesWithin(all, r.value.0) && NamedByKeys(r.value.0)
  {
    var t, rest := tm[n], tm - {n};
    var inferred := InferTemplateTypes(names, t, rest);
    if inferred.Err? { return Err(inferred.error); }
    var (u, changed) := inferred.value;
    if changed {
      ChangeDescends(names, t, rest, all, u.parameters);
      SumsDescend(all, tm, n, u, order);
      NotServed(names, t, rest, u.parameters);
    } else {
      assert tm[n := u] == tm;
    }
    LookChanges(names, tm, n, tm[n := u]);
    r := Ok((tm[n := u], changed));
  }

  // A change contradicts that all uses are served.
  lemma NotServed(names: DatatypeNames, t: Template, ts: Templates, ps: seq<Parameter>)
    requires ChangedOnce(names, t, ts, ps)
    ensures !AllServed(names, t, ts)
  {
    var u, right, p :| ChangedBy(names, t, ts, u, right, p, ps);
    assert !Served(names, t, ts, u, right);
  }

  // What holds all along, from the dataset at the start.
  ghost predicate Inferring(names: DatatypeNames, start: Templates, tm: Templates, all: set<Iri>) {
    AllRefine(start, tm) && NamesWithin(all, tm) && NamedByKeys(tm)
  }

  lemma InferringStep(names: DatatypeNames, start: Templates, tm: Templates, n: Iri, fm: Templates, all: set<Iri>)
    requires Inferring(names, start, tm, all) && n in tm
    requires fm.Keys == tm.Keys && fm == tm[n := fm[n]] && Refines(tm[n], fm[n])
    requires NamesWithin(all, fm) && NamedByKeys(fm)
    ensures Inferring(names, start, fm, all)
  {
    AllRefineStep(start, tm, n, fm[n]);
  }

  lemma RefinesSame(t: Template)
    ensures Refines(t, t)
  {
  }

  // Whether calls resolve does not depend on types.
  lemma ResolvedAtStart(start: Templates, tm: Templates, n: Iri)
    requires AllRefine(start, tm) && n in tm && CallsResolve(tm[n], tm - {n})
    ensures CallsResolve(start[n], start - {n})
  {
    assert Refines(start[n], tm[n]);
    forall i | 0 <= i < |start[n].patterns| ensures Resolves(start[n], start - {n}, i) {
      assert Resolves(tm[n], tm - {n}, i);
      var called := start[n].patterns[i].template;
      assert Refines(start[called], tm[called]);
    }
  }

  ghost predicate ResolvesIn(tm: Templates, n: Iri) { n in tm && CallsResolve(tm[n], tm - {n}) }

  // What one step makes of the dataset.
  ghost predicate Stepped(
    names: DatatypeNames, start: Templates, tm: Templates, n: Iri, all: set<Iri>, order: seq<Iri>, fm: Templates)
  {
    && Inferring(names, start, fm, all) && ResolvesIn(start, n) && Look(names, tm, n, fm)
    && (fm != tm ==> DatasetLower(all, order, fm, tm))
  }

  /** One step of the inference: it checks the calls of one template, and lowers the measure or changes nothing. */
  method InferStep(
    names: DatatypeNames, ghost start: Templates, tm: Templates, n: Iri, ghost all: set<Iri>, ghost order: seq<Iri>)
    returns (r: Result<(Templates, bool), TemplateError>)
    requires Inferring(names, start, tm, all) && n in tm && n in order
    ensures r.Err? ==> ErrorJustified(names, start, r.error)
    ensures r.Ok? ==> Stepped(names, start, tm, n, all, order, r.value.0) && (r.value.1 <==> r.value.0 != tm)
  {
    r := InferOne(names, tm, n, all, order);
    if r.Err? {
      assert JustifiedIn(names, start, tm, n, r.error);
    } else {
      ResolvedAtStart(start, tm, n);
      InferringStep(names, start, tm, n, r.value.0, all);
    }
  }

  ghost predicate AffectsExactly(tm: Templates, affects: map<Iri, set<Iri>>) {
    forall n, a :: (n in affects && a in affects[n]) <==> Calls(tm, a, n)
  }

  lemma AffectsCallers(start: Templates, affects: map<Iri, set<Iri>>, n: Iri)
    requires AffectsExactly(start, affects)
    ensures Callers(start, {n}) == if n in affects then affects[n] else {}
  {
    forall a ensures a in Callers(start, {n}) <==> Calls(start, a, n) {}
  }

  // Names of the templates that call each name.
  method AffectsMap(tm: Templates) returns (affects: map<Iri, set<Iri>>)
    ensures AffectsExactly(tm, affects)
  {
    affects := map[];
    var rest := tm.Keys;
    while rest != {}
      invariant rest <= tm.Keys
      invariant forall n, a :: n in affects && a in affects[n] ==> Calls(tm, a, n)
      invariant forall n, a :: Calls(tm, a, n) && a !in rest ==> n in affects && a in affects[n]
    {
      var a :| a in rest;
      affects := AddCaller(tm, a, affects);
      rest := rest - {a};
    }
  }

  method AddCaller(tm: Templates, a: Iri, affects: map<Iri, set<Iri>>) returns (r: map<Iri, set<Iri>>)
    requires a in tm
    ensures forall n, b :: n in r && b in r[n] ==> (n in affects && b in affects[n]) || (b == a && Calls(tm, a, n))
    ensures forall n, b :: n in affects && b in affects[n] ==> n in r && b in r[n]
    ensures forall n :: Calls(tm, a, n) ==> n in r && a in r[n]
  {
    r := affects;
    var ps := tm[a].patterns;
    for i := 0 to |ps|
      invariant forall n, b :: n in r && b in r[n] ==> (n in affects && b in affects[n]) || (b == a && Calls(tm, a, n))
      invariant forall n, b :: n in affects && b in affects[n] ==> n in r && b in r[n]
      invariant forall j :: 0 <= j < i ==> ps[j].template in r && a in r[ps[j].template]
    {
      assert ps[i] in ps;
      var called := ps[i].template;
      r := r[called := (if called in r then r[called] else {}) + {a}];
    }
  }

  ghost predicate ResolvedUpTo(start: Templates, order: seq<Iri>, i: nat) {
    i <= |order| && forall n :: n in order[..i] ==> ResolvesIn(start, n)
  }

  lemma ResolvedNext(start: Templates, order: seq<Iri>, i: nat)
    requires ResolvedUpTo(start, order, i) && i < |order| && ResolvesIn(start, order[i])
    ensures ResolvedUpTo(start, order, i + 1)
  {
    assert order[..i + 1] == order[..i] + [order[i]];
  }

  lemma AllResolved(start: Templates, order: seq<Iri>)
    requires ResolvedUpTo(start, order, |order|) && forall n :: n in order <==> n in start
    ensures forall n :: n in start ==> CallsResolve(start[n], start - {n})
  {
    assert order[..|order|] == order;
    forall n | n in start ensures CallsResolve(start[n], start - {n}) { assert ResolvesIn(start, n); }
  }

  // The dataset is as it was, or its measure has gone down.
  ghost predicate SameOrLower(all: set<Iri>, order: seq<Iri>, tm: Templates, start: Templates) {
    tm == start || DatasetLower(all, order, tm, start)
  }

  ghost predicate SettledUpTo(names: DatatypeNames, start: Templates, order: seq<Iri>, i: nat) {
    i <= |order| && forall n :: n in order[..i] ==> n in start && SettledAt(names, start, n)
  }

  // As long as nothing has changed, all templates looked at are settled.
  lemma SettledNext(
    names: DatatypeNames, start: Templates, order: seq<Iri>, i: nat, tm: Templates, fm: Templates, all: set<Iri>)
    requires i < |order| && Look(names, tm, order[i], fm)
    requires SameOrLower(all, order, tm, start) && (fm != tm ==> DatasetLower(all, order, fm, tm))
    requires tm == start <==> SettledUpTo(names, start, order, i)
    ensures SameOrLower(all, order, fm, start)
    ensures fm == start <==> SettledUpTo(names, start, order, i + 1)
  {
    LookChanges(names, tm, order[i], fm);
    assert order[..i + 1] == order[..i] + [order[i]];
    if tm != start { assert DatasetLower(all, order, fm, start) || fm == tm; }
  }

  lemma AllSettled(names: DatatypeNames, start: Templates, order: seq<Iri>)
    requires forall n :: n in order <==> n in start
    ensures SettledUpTo(names, start, order, |order|) <==> Settled(names, start)
  {
    assert order[..|order|] == order;
  }

  // The first pass up to the i-th name.
  ghost predicate FirstPassed(
    names: DatatypeNames, start: Templates, order: seq<Iri>, i: nat, all: set<Iri>, tm: Templates, changed: set<Iri>,
    states: seq<Templates>)
  {
    && i <= |order| && Inferring(names, start, tm, all) && changed <= start.Keys && ResolvedUpTo(start, order, i)
    && FirstStates(names, order[..i], start, tm, changed, states)
    && SameOrLower(all, order, tm, start) && (tm == start <==> SettledUpTo(names, start, order, i))
  }

  lemma FirstPassedNext(
    names: DatatypeNames, start: Templates, order: seq<Iri>, i: nat, all: set<Iri>, tm: Templates, changed: set<Iri>,
    states: seq<Templates>, fm: Templates)
    requires FirstPassed(names, start, order, i, all, tm, changed, states) && i < |order|
    requires Stepped(names, start, tm, order[i], all, order, fm)
    ensures FirstPassed(
      names, start, order, i + 1, all, fm, if fm == tm then changed else changed + {order[i]}, states + [fm])
  {
    ResolvedNext(start, order, i);
    FirstSnoc(names, order, start, tm, changed, states, i, fm);
    SettledNext(names, start, order, i, tm, fm, all);
  }

  lemma FirstPassedAll(
    names: DatatypeNames, start: Templates, order: seq<Iri>, all: set<Iri>, tm: Templates, changed: set<Iri>,
    states: seq<Templates>)
    requires FirstPassed(names, start, order, |order|, all, tm, changed, states)
    requires forall n :: n in order <==> n in start
    ensures FirstDone(names, start, order, all, tm, changed)
  {
    assert order[..|order|] == order;
    AllResolved(start, order);
    AllSettled(names, start, order);
  }

  lemma FirstPassStarts(names: DatatypeNames, start: Templates, order: seq<Iri>, all: set<Iri>)
    requires Inferring(names, start, start, all)
    ensures FirstPassed(names, start, order, 0, all, start, {}, [start])
  {
    assert order[..0] == [];
  }

  // After the first pass every call resolves, and something has changed exactly when a template was not settled.
  ghost predicate FirstDone(
    names: DatatypeNames, start: Templates, order: seq<Iri>, all: set<Iri>, tm: Templates, changed: set<Iri>)
  {
    && Inferring(names, start, tm, all) && changed <= start.Keys
    && (forall n :: n in start ==> CallsResolve(start[n], start - {n}))
    && FirstRun(names, order, start, tm, changed)
    && SameOrLower(all, order, tm, start) && (tm == start <==> Settled(names, start))
  }

  // The first pass looks at its i-th template.
  method FirstStep(
    names: DatatypeNames, ghost start: Templates, order: seq<Iri>, i: nat, ghost all: set<Iri>, tm: Templates,
    changed: set<Iri>, ghost states: seq<Templates>)
    returns (r: Result<(Templates, set<Iri>), TemplateError>)
    requires FirstPassed(names, start, order, i, all, tm, changed, states) && i < |order| && order[i] in tm
    ensures r.Err? ==> ErrorJustified(names, start, r.error)
    ensures r.Ok? ==> FirstPassed(names, start, order, i + 1, all, r.value.0, r.value.1, states + [r.value.0])
  {
    var one := InferStep(names, start, tm, order[i], all, order);
    if one.Err? { return Err(one.error); }
    FirstPassedNext(names, start, order, i, all, tm, changed, states, one.value.0);
    r := Ok((one.value.0, if one.value.1 then changed + {order[i]} else changed));
  }

  /** The first pass, over all names in order: every call is checked, and nothing changes exactly in a settled dataset. */
  method FirstPass(names: DatatypeNames, start: Templates, order: seq<Iri>, ghost all: set<Iri>)
    returns (r: Result<(Templates, set<Iri>), TemplateError>)
    requires forall n :: n in order <==> n in start
    requires Inferring(names, start, start, all)
    ensures r.Err? ==> ErrorJustified(names, start, r.error)
    ensures r.Ok? ==> FirstDone(names, start, order, all, r.value.0, r.value.1)
  {
    var tm, changed := start, {};
    ghost var states := [start];
    FirstPassStarts(names, start, order, all);
    for i := 0 to |order|
      invariant FirstPassed(names, start, order, i, all, tm, changed, states)
    {
      var one :- FirstStep(names, start, order, i, all, tm, changed, states);
      tm, changed, states := one.0, one.1, states + [one.0];
    }
    FirstPassedAll(names, start, order, all, tm, changed, states);
    r := Ok((tm, changed));
  }

  lemma RoundStep(
    all: set<Iri>, order: seq<Iri>, tm0: Templates, tm: Templates, next: set<Iri>, fm: Templates, changed: bool, more: set<Iri>)
    requires Idle(tm0, tm, next) || DatasetLower(all, order, tm, tm0)
    requires if changed then DatasetLower(all, order, fm, tm) else fm == tm && more == {}
    ensures Idle(tm0, fm, next + more) || DatasetLower(all, order, fm, tm0)
  {
  }

  // A round that has the rest of its templates still to look at.
  ghost predicate RoundPassed(
    names: DatatypeNames, start: Templates, tm0: Templates, changed: set<Iri>, rest: set<Iri>, all: set<Iri>,
    order: seq<Iri>, tm: Templates, next: set<Iri>, visited: seq<Iri>, states: seq<Templates>)
  {
    && rest <= changed && Inferring(names, start, tm, all) && next <= tm.Keys
    && RoundStates(names, start, tm0, changed - rest, tm, next, visited, states)
    && (Idle(tm0, tm, next) || DatasetLower(all, order, tm, tm0))
  }

  lemma RoundPassedNext(
    names: DatatypeNames, start: Templates, tm0: Templates, changed: set<Iri>, rest: set<Iri>, all: set<Iri>,
    order: seq<Iri>, tm: Templates, next: set<Iri>, visited: seq<Iri>, states: seq<Templates>, n: Iri, fm: Templates)
    requires RoundPassed(names, start, tm0, changed, rest, all, order, tm, next, visited, states) && n in rest
    requires Stepped(names, start, tm, n, all, order, fm)
    ensures RoundPassed(
      names, start, tm0, changed, rest - {n}, all, order, fm, next + if fm == tm then {} else Callers(start, {n}),
      visited + [n], states + [fm])
  {
    RoundSnoc(names, start, tm0, changed - rest, tm, next, visited, states, n, fm);
    RoundStep(all, order, tm0, tm, next, fm, fm != tm, if fm == tm then {} else Callers(start, {n}));
    assert changed - (rest - {n}) == changed - rest + {n};
  }

  /** One round over the affected templates: when it changes nothing, no template is affected any more. */
  method Round(
    names: DatatypeNames, ghost start: Templates, tm0: Templates, changed: set<Iri>, affects: map<Iri, set<Iri>>,
    ghost all: set<Iri>, ghost order: seq<Iri>)
    returns (r: Result<(Templates, set<Iri>), TemplateError>)
    requires Inferring(names, start, tm0, all) && changed <= tm0.Keys && forall n :: n in order <==> n in start
    requires AffectsExactly(start, affects)
    ensures r.Err? ==> ErrorJustified(names, start, r.error)
    ensures r.Ok? ==> RoundDone(names, start, tm0, changed, all, order, r.value.0, r.value.1)
  {
    var tm, next, rest := tm0, {}, changed;
    ghost var visited, states := [], [tm0];
    RoundStarts(names, start, tm0);
    assert changed - rest == {};
    while rest != {}
      invariant RoundPassed(names, start, tm0, changed, rest, all, order, tm, next, visited, states)
      decreases rest
    {
      var n :| n in rest;
      var one :- InferStep(names, start, tm, n, all, order);
      AffectsCallers(start, affects, n);
      RoundPassedNext(names, start, tm0, changed, rest, all, order, tm, next, visited, states, n, one.0);
      var more := if one.1 && n in affects then affects[n] else {};
      tm, next, rest, visited, states := one.0, next + more, rest - {n}, visited + [n], states + [one.0];
    }
    assert changed - rest == changed;
    r := Ok((tm, next));
  }

  // A round that has changed nothing leaves nothing to look at; any other lowers the measure.
  ghost predicate RoundDone(
    names: DatatypeNames, start: Templates, tm0: Templates, changed: set<Iri>, all: set<Iri>, order: seq<Iri>,
    tm: Templates, next: set<Iri>)
  {
    && Inferring(names, start, tm, all) && next <= tm.Keys && RoundRun(names, start, tm0, changed, tm, next)
    && (Idle(tm0, tm, next) || DatasetLower(all, order, tm, tm0))
  }

  lemma RoundStarts(names: DatatypeNames, start: Templates, tm: Templates)
    ensures RoundStates(names, start, tm, {}, tm, {}, [], [tm])
  {
  }

  // Rounds up to the last of the listed states.
  ghost predicate RoundsPassed(
    names: DatatypeNames, start: Templates, tm0: Templates, changed0: set<Iri>, maximum: Option<nat>, all: set<Iri>,
    order: seq<Iri>, tm: Templates, changed: set<Iri>, k: nat, tms: seq<Templates>, cs: seq<set<Iri>>)
  {
    && Inferring(names, start, tm, all) && changed <= tm.Keys
    && RoundsRun(names, start, maximum, tms, cs) && tms[0] == tm0 && cs[0] == changed0
    && k == |tms| - 1 && tms[k] == tm && changed == (if maximum.Some? && k > maximum.value + 1 then {} else cs[k])
    && SameOrLower(all, order, tm, tm0) && (changed0 == {} ==> tm == tm0 && changed == {})
  }

  lemma RoundsPassedNext(
    names: DatatypeNames, start: Templates, tm0: Templates, changed0: set<Iri>, maximum: Option<nat>, all: set<Iri>,
    order: seq<Iri>, tm: Templates, changed: set<Iri>, k: nat, tms: seq<Templates>, cs: seq<set<Iri>>,
    fm: Templates, next: set<Iri>)
    requires RoundsPassed(names, start, tm0, changed0, maximum, all, order, tm, changed, k, tms, cs) && changed != {}
    requires RoundDone(names, start, tm, changed, all, order, fm, next)
    ensures RoundsPassed(
      names, start, tm0, changed0, maximum, all, order, fm, if maximum.Some? && k > maximum.value then {} else next,
      k + 1, tms + [fm], cs + [next])
  {
    RoundsSnoc(names, start, maximum, tms, cs, fm, next);
  }

  lemma RoundsEnd(
    names: DatatypeNames, start: Templates, tm0: Templates, changed0: set<Iri>, maximum: Option<nat>, all: set<Iri>,
    order: seq<Iri>, tm: Templates, k: nat, tms: seq<Templates>, cs: seq<set<Iri>>)
    requires RoundsPassed(names, start, tm0, changed0, maximum, all, order, tm, {}, k, tms, cs)
    ensures RoundsDone(names, start, tm0, changed0, maximum, all, order, tm)
  {
  }

  lemma RoundsStart(
    names: DatatypeNames, start: Templates, tm0: Templates, changed0: set<Iri>, maximum: Option<nat>, all: set<Iri>,
    order: seq<Iri>)
    requires Inferring(names, start, tm0, all) && changed0 <= tm0.Keys
    ensures RoundsPassed(names, start, tm0, changed0, maximum, all, order, tm0, changed0, 0, [tm0], [changed0])
  {
  }

  // What all rounds together make of the dataset.
  ghost predicate RoundsDone(
    names: DatatypeNames, start: Templates, tm0: Templates, changed0: set<Iri>, maximum: Option<nat>, all: set<Iri>,
    order: seq<Iri>, tm: Templates)
  {
    && Inferring(names, start, tm, all) && RoundsTo(names, start, maximum, tm0, changed0, tm)
    && SameOrLower(all, order, tm, tm0) && (changed0 == {} ==> tm == tm0)
  }

  /** Rounds until nothing is affected any more, or as many as are allowed. */
  method Rounds(
    names: DatatypeNames, ghost start: Templates, tm0: Templates, changed0: set<Iri>, affects: map<Iri, set<Iri>>,
    maximum: Option<nat>, ghost all: set<Iri>, ghost order: seq<Iri>)
    returns (r: Result<Templates, TemplateError>)
    requires Inferring(names, start, tm0, all) && changed0 <= tm0.Keys && forall n :: n in order <==> n in start
    requires AffectsExactly(start, affects)
    ensures r.Err? ==> ErrorJustified(names, start, r.error)
    ensures r.Ok? ==> RoundsDone(names, start, tm0, changed0, maximum, all, order, r.value)
  {
    var tm, changed := tm0, changed0;
    var iterations: nat := 0;
    ghost var tms, cs := [tm0], [changed0];
    RoundsStart(names, start, tm0, changed0, maximum, all, order);
    while changed != {}
      invariant RoundsPassed(
        names, start, tm0, changed0, maximum, all, order, tm, changed, iterations, tms, cs)
      decreases Untyped(tm, order), Weight(all, tm, order), |changed|
    {
      var round :- Round(names, start, tm, changed, affects, all, order);
      RoundsPassedNext(
        names, start, tm0, changed0, maximum, all, order, tm, changed, iterations, tms, cs, round.0, round.1);
      tms, cs := tms + [round.0], cs + [round.1];
      tm, changed := round.0, round.1;
      if maximum.Some? && iterations > maximum.value { changed := {}; }
      iterations := iterations + 1;
    }
    RoundsEnd(names, start, tm0, changed0, maximum, all, order, tm, iterations, tms, cs);
    r := Ok(tm);
  }

  // ----- maps and lists of templates -----

  lemma {:induction false} TemplateMapAt(ts: seq<Template>, n: Iri)
    ensures n in TemplateMap(ts) <==> exists t :: t in ts && t.iri == n
    ensures n in TemplateMap(ts) ==> TemplateMap(ts)[n].iri == n && TemplateMap(ts)[n] in ts
  {
    if ts != [] {
      var front, last := ts[..|ts| - 1], ts[|ts| - 1];
      TemplateMapAt(front, n);
      assert ts == front + [last];
      assert last in ts;
    }
  }

  // The values of a map in some order.
  method ValuesOf(tm: Templates) returns (ts: seq<Template>)
    requires NamedByKeys(tm)
    ensures TemplateMap(ts) == tm && |ts| == |tm|
  {
    ts := [];
    var rest := tm.Keys;
    while rest != {}
      invariant rest <= tm.Keys && |ts| + |rest| == |tm|
      invariant TemplateMap(ts) == map n | n in tm && n !in rest :: tm[n]
    {
      var n :| n in rest;
      assert (ts + [tm[n]])[..|ts|] == ts;
      ts := ts + [tm[n]];
      rest := rest - {n};
    }
    assert (map n | n in tm && n !in {} :: tm[n]) == tm;
  }

  function NamesInOrder(ts: seq<Template>): seq<Iri> {
    seq(|ts|, i requires 0 <= i < |ts| => ts[i].iri)
  }

  // A first pass that ends where it started has changed nothing on its way, when changes lower the measure.
  lemma NothingAltered(names: DatatypeNames, order: seq<Iri>, start: Templates, tm: Templates, changed: set<Iri>)
    requires FirstRun(names, order, start, tm, changed) && Settled(names, start) && forall n :: n in order <==> n in start
    ensures changed == {}
  {
    var states :| FirstStates(names, order, start, tm, changed, states);
    StaysSettled(names, order, states, |order|);
  }

  lemma {:induction false} StaysSettled(names: DatatypeNames, order: seq<Iri>, states: seq<Templates>, i: nat)
    requires Pass(names, order, states) && Settled(names, states[0]) && i <= |order|
    ensures forall k :: 0 <= k <= i ==> states[k] == states[0]
  {
    if i > 0 {
      StaysSettled(names, order, states, i - 1);
      LookChanges(names, states[i - 1], order[i - 1], states[i]);
    }
  }

  class TemplateDataset {
    var templates: seq<Template>
    var inferredTypes: bool

    constructor (ts: seq<Template>)
      ensures templates == ts && !inferredTypes
    {
      templates, inferredTypes := ts, false;
    }

    /**
     * Inference ends even without a bound on its rounds. When it succeeds the dataset has its outcome; when it fails
     * the error is justified and the templates are gone.
     */
    method InferTypes(names: DatatypeNames, maximum: Option<nat>) returns (r: Result<(), TemplateError>)
      modifies this
      ensures r.Ok? ==> inferredTypes && |templates| == |TemplateMap(old(templates))|
      ensures r.Ok? ==> Outcome(names, old(templates), maximum, TemplateMap(templates))
      ensures r.Err? ==> ErrorJustified(names, TemplateMap(old(templates)), r.error)
      ensures r.Err? ==> templates == [] && inferredTypes == old(inferredTypes)
    {
      var order := NamesInOrder(templates);
      var start := BuildMap(templates);
      ghost var given, all := templates, DatasetNames(start);
      MayInfer(names, given, order, start, all);
      templates := [];
      var affects := AffectsMap(start);
      var first :- FirstPass(names, start, order, all);
      var tm :- Rounds(names, start, first.0, first.1, affects, maximum, all, order);
      HasOutcome(names, given, maximum, first.0, first.1, tm);
      templates := ValuesOf(tm);
      inferredTypes := true;
      r := Ok(());
    }
  }

  /**
    What inference makes of a list of templates: the result of an inference run, in which every call resolves and
    only types have changed, without any new name in them. Nothing changes exactly when every template was
    settled; otherwise the measure is lower.
   */
  ghost predicate Outcome(names: DatatypeNames, ts: seq<Template>, maximum: Option<nat>, tm: Templates) {
    var start := TemplateMap(ts);
    && InferenceRun(names, start, NamesInOrder(ts), maximum, tm)
    && (forall n :: n in start ==> CallsResolve(start[n], start - {n}))
    && AllRefine(start, tm) && DatasetNames(tm) <= DatasetNames(start)
    && (tm == start <==> Settled(names, start))
    && SameOrLower(DatasetNames(start), NamesInOrder(ts), tm, start)
  }

  lemma MayInfer(names: DatatypeNames, ts: seq<Template>, order: seq<Iri>, start: Templates, all: set<Iri>)
    requires order == NamesInOrder(ts) && start == TemplateMap(ts) && all == DatasetNames(start)
    ensures Inferring(names, start, start, all) && forall n :: n in order <==> n in start
  {
    OwnNames(start);
    SameNames(ts, order);
    NamedAtStart(ts);
    StartsInferring(names, start, all);
  }

  lemma HasOutcome(
    names: DatatypeNames, ts: seq<Template>, maximum: Option<nat>, first: Templates, changed: set<Iri>, tm: Templates)
    requires forall n :: n in NamesInOrder(ts) <==> n in TemplateMap(ts)
    requires FirstDone(names, TemplateMap(ts), NamesInOrder(ts), DatasetNames(TemplateMap(ts)), first, changed)
    requires RoundsDone(
      names, TemplateMap(ts), first, changed, maximum, DatasetNames(TemplateMap(ts)), NamesInOrder(ts), tm)
    ensures Outcome(names, ts, maximum, tm)
  {
    var start, order := TemplateMap(ts), NamesInOrder(ts);
    NamesAmong(DatasetNames(start), tm);
    assert InferenceRun(names, start, order, maximum, tm);
    HowFar(names, ts, maximum, first, changed, tm);
  }

  // The measure tells the result from the start.
  lemma HowFar(
    names: DatatypeNames, ts: seq<Template>, maximum: Option<nat>, first: Templates, changed: set<Iri>, tm: Templates)
    requires forall n :: n in NamesInOrder(ts) <==> n in TemplateMap(ts)
    requires FirstDone(names, TemplateMap(ts), NamesInOrder(ts), DatasetNames(TemplateMap(ts)), first, changed)
    requires RoundsDone(
      names, TemplateMap(ts), first, changed, maximum, DatasetNames(TemplateMap(ts)), NamesInOrder(ts), tm)
    ensures tm == TemplateMap(ts) <==> Settled(names, TemplateMap(ts))
    ensures SameOrLower(DatasetNames(TemplateMap(ts)), NamesInOrder(ts), tm, TemplateMap(ts))
  {
    var start, order := TemplateMap(ts), NamesInOrder(ts);
    if Settled(names, start) {
      NothingAltered(names, order, start, first, changed);
    } else {
      assert DatasetLower(DatasetNames(start), order, tm, start);
    }
  }

  method BuildMap(ts: seq<Template>) returns (tm: Templates)
    ensures tm == TemplateMap(ts)
  {
    tm := map[];
    for i := 0 to |ts|
      invariant tm == TemplateMap(ts[..i])
    {
      assert ts[..i + 1][..i] == ts[..i];
      tm := tm[ts[i].iri := ts[i]];
    }
    assert ts[..|ts|] == ts;
  }

  lemma SameNames(ts: seq<Template>, order: seq<Iri>)
    requires order == NamesInOrder(ts)
    ensures forall n :: n in order <==> n in TemplateMap(ts)
  {
    forall n ensures n in order <==> n in TemplateMap(ts) {
      TemplateMapAt(ts, n);
      if n in order {
        var i :| 0 <= i < |order| && order[i] == n;
        assert ts[i] in ts;
      }
      if exists t :: t in ts && t.iri == n {
        var t :| t in ts && t.iri == n;
        var i :| 0 <= i < |ts| && ts[i] == t;
        assert order[i] == n;
      }
    }
  }

  lemma NamedAtStart(ts: seq<Template>)
    ensures NamedByKeys(TemplateMap(ts))
  {
    forall n | n in TemplateMap(ts) ensures TemplateMap(ts)[n].iri == n { TemplateMapAt(ts, n); }
  }

  lemma StartsInferring(names: DatatypeNames, start: Templates, all: set<Iri>)
    requires NamesWithin(all, start) && NamedByKeys(start)
    ensures Inferring(names, start, start, all)
  {
    forall n | n in start ensures Refines(start[n], start[n]) { RefinesSame(start[n]); }
  }
}
