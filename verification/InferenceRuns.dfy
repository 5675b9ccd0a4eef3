/** What a run of type inference is: which templates are looked at, and what each look does to the dataset. */
module InferenceRuns {
  import opened Wrappers
  import opened Rdf
  import opened StottrAst
  import opened TemplateTypes
  import opened TemplateInference

  // Every template serves all its uses already.
  ghost predicate Settled(names: DatatypeNames, tm: Templates) {
    forall n :: n in tm ==> SettledAt(names, tm, n)
  }

  ghost predicate SettledAt(names: DatatypeNames, tm: Templates, n: Iri)
    requires n in tm
  {
    AllServed(names, tm[n], tm - {n})
  }

  /** Looking at a settled template changes nothing; at another one, the first use that is not served changes it. */
  ghost predicate Look(names: DatatypeNames, tm: Templates, n: Iri, fm: Templates) {
    && n in tm && n in fm && fm == tm[n := fm[n]] && fm[n] == tm[n].(parameters := fm[n].parameters)
    && if SettledAt(names, tm, n) then fm == tm else ChangedOnce(names, tm[n], tm - {n}, fm[n].parameters)
  }

  lemma UpdateChanges(names: DatatypeNames, template: Iri, v: Var, p: Parameter, right: PType, q: Parameter)
    requires LubUpdate(names, template, v, p, right) == Ok((q, true))
    ensures q != p
  {
  }

  // The use that changes a template, and what it changes, are determined.
  lemma ChangedByUnique(
    names: DatatypeNames, t: Template, ts: Templates, u: Use, right: PType, p: Parameter, ps: seq<Parameter>,
    w: Use, left: PType, q: Parameter, qs: seq<Parameter>)
    requires ChangedBy(names, t, ts, u, right, p, ps) && ChangedBy(names, t, ts, w, left, q, qs)
    ensures u == w && ps == qs
  {
    assert !Served(names, t, ts, u, right) && !Served(names, t, ts, w, left);
    assert !Before(u, w) && !Before(w, u);
  }

  /** What a look does is determined by the dataset and the template. */
  lemma LookUnique(names: DatatypeNames, tm: Templates, n: Iri, fm: Templates, gm: Templates)
    requires Look(names, tm, n, fm) && Look(names, tm, n, gm)
    ensures fm == gm
  {
    if !SettledAt(names, tm, n) {
      var u, right, p :| ChangedBy(names, tm[n], tm - {n}, u, right, p, fm[n].parameters);
      var w, left, q :| ChangedBy(names, tm[n], tm - {n}, w, left, q, gm[n].parameters);
      ChangedByUnique(names, tm[n], tm - {n}, u, right, p, fm[n].parameters, w, left, q, gm[n].parameters);
    }
  }

  /** A look changes the dataset exactly when the template is not settled. */
  lemma LookChanges(names: DatatypeNames, tm: Templates, n: Iri, fm: Templates)
    requires Look(names, tm, n, fm)
    ensures fm == tm <==> SettledAt(names, tm, n)
  {
    if !SettledAt(names, tm, n) {
      var u, right, p :| ChangedBy(names, tm[n], tm - {n}, u, right, p, fm[n].parameters);
      var k := u.parameter;
      UpdateChanges(names, tm[n].iri, tm[n].parameters[k].variable, tm[n].parameters[k], right, p);
      assert fm[n].parameters[k] != tm[n].parameters[k];
    }
  }

  // ----- passes over several templates -----

  // One look after the other: states[k] is the dataset before the k-th look.
  ghost predicate Pass(names: DatatypeNames, visited: seq<Iri>, states: seq<Templates>) {
    |states| == |visited| + 1 && forall k :: 0 <= k < |visited| ==> Look(names, states[k], visited[k], states[k + 1])
  }

  // The templates that a pass changed.
  ghost function Altered(visited: seq<Iri>, states: seq<Templates>): set<Iri>
    requires |states| == |visited| + 1
  {
    set k | 0 <= k < |visited| && states[k + 1] != states[k] :: visited[k]
  }

  predicate Calls(tm: Templates, caller: Iri, called: Iri) {
    caller in tm && exists i :: i in tm[caller].patterns && i.template == called
  }

  ghost function Callers(start: Templates, called: set<Iri>): set<Iri> {
    set a | a in start && exists n :: n in called && Calls(start, a, n)
  }

  // The first pass: every template in the given order.
  ghost predicate FirstRun(names: DatatypeNames, order: seq<Iri>, start: Templates, tm: Templates, changed: set<Iri>) {
    exists states :: FirstStates(names, order, start, tm, changed, states)
  }

  ghost predicate FirstStates(
    names: DatatypeNames, order: seq<Iri>, start: Templates, tm: Templates, changed: set<Iri>, states: seq<Templates>)
  {
    Pass(names, order, states) && states[0] == start && states[|order|] == tm && changed == Altered(order, states)
  }

  ghost predicate Lists(visited: seq<Iri>, ns: set<Iri>) {
    (forall i, j :: 0 <= i < j < |visited| ==> visited[i] != visited[j]) && (set n | n in visited) == ns
  }

  // One round: the given templates, each once in any order; next come the callers of those that changed.
  ghost predicate RoundRun(
    names: DatatypeNames, start: Templates, tm: Templates, changed: set<Iri>, fm: Templates, next: set<Iri>)
  {
    exists visited, states :: RoundStates(names, start, tm, changed, fm, next, visited, states)
  }

  ghost predicate RoundStates(
    names: DatatypeNames, start: Templates, tm: Templates, changed: set<Iri>, fm: Templates, next: set<Iri>,
    visited: seq<Iri>, states: seq<Templates>)
  {
    && Lists(visited, changed) && Pass(names, visited, states) && states[0] == tm && states[|visited|] == fm
    && next == Callers(start, Altered(visited, states))
  }

  // After k rounds there is no further one: nothing is left to look at, or the bound on rounds is passed.
  predicate Over(maximum: Option<nat>, k: nat, changed: set<Iri>) {
    changed == {} || (maximum.Some? && k > maximum.value + 1)
  }

  // Rounds follow one another up to the last of the listed states.
  ghost predicate RoundsRun(
    names: DatatypeNames, start: Templates, maximum: Option<nat>, tms: seq<Templates>, cs: seq<set<Iri>>)
  {
    && |tms| == |cs| > 0
    && forall k :: 0 <= k < |tms| - 1 ==>
      !Over(maximum, k, cs[k]) && RoundRun(names, start, tms[k], cs[k], tms[k + 1], cs[k + 1])
  }

  ghost predicate RoundsTo(
    names: DatatypeNames, start: Templates, maximum: Option<nat>, tm: Templates, changed: set<Iri>, fm: Templates)
  {
    exists tms, cs :: RoundsRun(names, start, maximum, tms, cs) && tms[0] == tm && cs[0] == changed
      && tms[|tms| - 1] == fm && Over(maximum, |tms| - 1, cs[|tms| - 1])
  }

  /** The first pass, and then rounds over the callers of what has changed until there are none, or too many rounds. */
  ghost predicate InferenceRun(
    names: DatatypeNames, start: Templates, order: seq<Iri>, maximum: Option<nat>, fm: Templates)
  {
    exists tm, changed ::
      FirstRun(names, order, start, tm, changed) && RoundsTo(names, start, maximum, tm, changed, fm)
  }

  // A pass takes one more look.
  lemma PassSnoc(names: DatatypeNames, visited: seq<Iri>, states: seq<Templates>, n: Iri, fm: Templates)
    requires Pass(names, visited, states) && Look(names, states[|visited|], n, fm)
    ensures Pass(names, visited + [n], states + [fm])
  {
    var vs, ss := visited + [n], states + [fm];
    forall k | 0 <= k < |vs| ensures Look(names, ss[k], vs[k], ss[k + 1]) {
      if k < |visited| { assert Look(names, states[k], visited[k], states[k + 1]); }
    }
  }

  lemma AlteredSnoc(visited: seq<Iri>, states: seq<Templates>, n: Iri, fm: Templates)
    requires |states| == |visited| + 1
    ensures Altered(visited + [n], states + [fm]) ==
      Altered(visited, states) + if fm == states[|visited|] then {} else {n}
  {
    var vs, ss := visited + [n], states + [fm];
    forall m | m in Altered(visited, states) ensures m in Altered(vs, ss) {
      var k :| 0 <= k < |visited| && states[k + 1] != states[k] && visited[k] == m;
      assert vs[k] == m && ss[k + 1] != ss[k];
    }
    if fm != states[|visited|] { assert vs[|visited|] == n && ss[|visited| + 1] != ss[|visited|]; }
    forall m | m in Altered(vs, ss) ensures m in Altered(visited, states) || (m == n && fm != states[|visited|]) {
      var k :| 0 <= k < |vs| && ss[k + 1] != ss[k] && vs[k] == m;
      if k < |visited| { assert visited[k] == m && states[k + 1] != states[k]; }
    }
  }

  lemma ListsSnoc(visited: seq<Iri>, ns: set<Iri>, n: Iri)
    requires Lists(visited, ns) && n !in ns
    ensures Lists(visited + [n], ns + {n})
  {
    forall i | 0 <= i < |visited| ensures visited[i] != n { assert visited[i] in ns; }
  }

  // The first pass looks at one more template.
  lemma FirstSnoc(
    names: DatatypeNames, order: seq<Iri>, start: Templates, tm: Templates, changed: set<Iri>, states: seq<Templates>,
    i: nat, fm: Templates)
    requires i < |order| && FirstStates(names, order[..i], start, tm, changed, states) && Look(names, tm, order[i], fm)
    ensures FirstStates(
      names, order[..i + 1], start, fm, changed + if fm == tm then {} else {order[i]}, states + [fm])
  {
    PassSnoc(names, order[..i], states, order[i], fm);
    AlteredSnoc(order[..i], states, order[i], fm);
    assert order[..i + 1] == order[..i] + [order[i]];
  }

  // A round looks at one more template.
  lemma RoundSnoc(
    names: DatatypeNames, start: Templates, tm: Templates, seen: set<Iri>, cm: Templates, next: set<Iri>,
    visited: seq<Iri>, states: seq<Templates>, n: Iri, fm: Templates)
    requires RoundStates(names, start, tm, seen, cm, next, visited, states) && n !in seen && Look(names, cm, n, fm)
    ensures RoundStates(
      names, start, tm, seen + {n}, fm, next + if fm == cm then {} else Callers(start, {n}), visited + [n], states + [fm])
  {
    PassSnoc(names, visited, states, n, fm);
    AlteredSnoc(visited, states, n, fm);
    ListsSnoc(visited, seen, n);
    CallersSum(start, Altered(visited, states), if fm == cm then {} else {n});
  }

  lemma CallersSum(start: Templates, ns: set<Iri>, ms: set<Iri>)
    ensures Callers(start, ns + ms) == Callers(start, ns) + Callers(start, ms)
  {
  }

  lemma RoundsSnoc(
    names: DatatypeNames, start: Templates, maximum: Option<nat>, tms: seq<Templates>, cs: seq<set<Iri>>,
    fm: Templates, next: set<Iri>)
    requires RoundsRun(names, start, maximum, tms, cs)
    requires !Over(maximum, |tms| - 1, cs[|tms| - 1])
    requires RoundRun(names, start, tms[|tms| - 1], cs[|tms| - 1], fm, next)
    ensures RoundsRun(names, start, maximum, tms + [fm], cs + [next])
  {
    var ts, ds := tms + [fm], cs + [next];
    forall k | 0 <= k < |ts| - 1
      ensures !Over(maximum, k, ds[k]) && RoundRun(names, start, ts[k], ds[k], ts[k + 1], ds[k + 1])
    {
    }
  }
}
