/** What inference has settled when it ends, and what it can miss. */
module InferenceEnds {
  import opened Wrappers
  import opened Rdf
  import opened StottrAst
  import opened TemplateTypes
  import opened TemplateInference
  import opened InferenceRuns
  import opened TemplateDatasets

  // ----- one template during a run -----

  predicate Less(all: set<Iri>, u: Template, t: Template) {
    Lower(UntypedIn(u.parameters), WeightIn(all, u.parameters), UntypedIn(t.parameters), WeightIn(all, t.parameters))
  }

  // The template is as it was, or its own measure has gone down.
  ghost predicate SameOrLess(all: set<Iri>, n: Iri, fm: Templates, tm: Templates) {
    n in tm && n in fm && (fm[n] == tm[n] || Less(all, fm[n], tm[n]))
  }

  lemma SameOrLessOn(all: set<Iri>, n: Iri, em: Templates, fm: Templates, tm: Templates)
    requires SameOrLess(all, n, em, fm) && SameOrLess(all, n, fm, tm)
    ensures SameOrLess(all, n, em, tm)
    ensures em[n] == tm[n] ==> em[n] == fm[n] == tm[n]
  {
  }

  // What holds of every dataset of a run.
  ghost predicate Sound(all: set<Iri>, start: Templates, tm: Templates) {
    NamesWithin(all, tm) && tm.Keys == start.Keys && forall n :: n in start ==> tm[n].patterns == start[n].patterns
  }

  lemma LookSound(names: DatatypeNames, all: set<Iri>, start: Templates, tm: Templates, n: Iri, fm: Templates, m: Iri)
    requires Look(names, tm, n, fm) && Sound(all, start, tm) && m in tm
    ensures Sound(all, start, fm) && SameOrLess(all, m, fm, tm)
  {
    if !SettledAt(names, tm, n) {
      ChangeDescends(names, tm[n], tm - {n}, all, fm[n].parameters);
    }
  }

  lemma {:induction false} PassSound(
    names: DatatypeNames, all: set<Iri>, start: Templates, visited: seq<Iri>, states: seq<Templates>, i: nat, j: nat, m: Iri)
    requires Pass(names, visited, states) && i <= j <= |visited| && Sound(all, start, states[i]) && m in start
    ensures Sound(all, start, states[j]) && SameOrLess(all, m, states[j], states[i])
    decreases j
  {
    if i < j {
      PassSound(names, all, start, visited, states, i, j - 1, m);
      LookSound(names, all, start, states[j - 1], visited[j - 1], states[j], m);
      SameOrLessOn(all, m, states[j], states[j - 1], states[i]);
    }
  }

  // A template that a pass leaves as it was is as it was all along.
  lemma KeptThroughout(
    names: DatatypeNames, all: set<Iri>, start: Templates, visited: seq<Iri>, states: seq<Templates>, i: nat, m: Iri)
    requires Pass(names, visited, states) && i <= |visited| && Sound(all, start, states[0]) && m in start
    requires m in states[0] && m in states[|visited|] && states[|visited|][m] == states[0][m]
    ensures m in states[i] && states[i][m] == states[0][m]
  {
    PassSound(names, all, start, visited, states, 0, i, m);
    PassSound(names, all, start, visited, states, i, |visited|, m);
    SameOrLessOn(all, m, states[|visited|], states[i], states[0]);
  }

  // The templates that a pass changed are those that it leaves different.
  lemma AlteredExactly(
    names: DatatypeNames, all: set<Iri>, start: Templates, visited: seq<Iri>, states: seq<Templates>, m: Iri)
    requires Pass(names, visited, states) && Sound(all, start, states[0]) && m in start
    ensures m in states[0] && m in states[|visited|]
    ensures m in Altered(visited, states) <==> states[|visited|][m] != states[0][m]
  {
    PassSound(names, all, start, visited, states, 0, |visited|, m);
    if states[|visited|][m] == states[0][m] {
      forall k | 0 <= k < |visited| && visited[k] == m ensures states[k + 1] == states[k] {
        KeptThroughout(names, all, start, visited, states, k, m);
        KeptThroughout(names, all, start, visited, states, k + 1, m);
        assert Look(names, states[k], m, states[k + 1]);
      }
    } else {
      ChangedSomewhere(names, visited, states, |visited|, m);
    }
  }

  lemma {:induction false} ChangedSomewhere(
    names: DatatypeNames, visited: seq<Iri>, states: seq<Templates>, j: nat, m: Iri)
    requires Pass(names, visited, states) && j <= |visited| && m in states[0] && m in states[j]
    requires states[j][m] != states[0][m]
    ensures m in Altered(visited, states)
  {
    if j > 0 {
      assert Look(names, states[j - 1], visited[j - 1], states[j]);
      if states[j][m] == states[j - 1][m] {
        ChangedSomewhere(names, visited, states, j - 1, m);
      } else {
        assert visited[j - 1] == m && states[j] != states[j - 1];
      }
    }
  }

  // ----- what being settled depends on -----

  ghost predicate SameCallees(tm: Templates, fm: Templates, n: Iri)
    requires n in tm
  {
    forall i :: i in tm[n].patterns && i.template != n ==>
      (i.template in tm <==> i.template in fm) && (i.template in tm ==> fm[i.template] == tm[i.template])
  }

  lemma AsksSame(tm: Templates, fm: Templates, n: Iri, u: Use, right: PType)
    requires n in tm && n in fm && fm[n] == tm[n] && SameCallees(tm, fm, n)
    ensures Asks(tm[n], tm - {n}, u, right) <==> Asks(fm[n], fm - {n}, u, right)
  {
    if u.pattern < |tm[n].patterns| { assert tm[n].patterns[u.pattern] in tm[n].patterns; }
  }

  /** Whether a template is settled depends on it and on the templates that it calls. */
  lemma SettledDepends(names: DatatypeNames, tm: Templates, fm: Templates, n: Iri)
    requires n in tm && n in fm && fm[n] == tm[n] && SameCallees(tm, fm, n)
    ensures SettledAt(names, tm, n) <==> SettledAt(names, fm, n)
  {
    forall u, right ensures Asks(tm[n], tm - {n}, u, right) <==> Asks(fm[n], fm - {n}, u, right) {
      AsksSame(tm, fm, n, u, right);
    }
  }

  // ----- a pass -----

  // No template that n calls was changed.
  ghost predicate CallsNone(start: Templates, n: Iri, ms: set<Iri>) { forall m :: m in ms ==> !Calls(start, n, m) }

  // From the i-th dataset of a pass to its end, the callees of n are the same.
  lemma CalleesKept(
    names: DatatypeNames, all: set<Iri>, start: Templates, visited: seq<Iri>, states: seq<Templates>, i: nat, n: Iri)
    requires Pass(names, visited, states) && i <= |visited| && Sound(all, start, states[0]) && n in start
    requires CallsNone(start, n, Altered(visited, states))
    ensures n in states[i] && SameCallees(states[i], states[|visited|], n)
  {
    var last := states[|visited|];
    PassSound(names, all, start, visited, states, 0, i, n);
    PassSound(names, all, start, visited, states, 0, |visited|, n);
    forall c | c in states[i][n].patterns && c.template != n && c.template in start
      ensures last[c.template] == states[i][c.template]
    {
      assert Calls(start, n, c.template);
      AlteredExactly(names, all, start, visited, states, c.template);
      KeptThroughout(names, all, start, visited, states, i, c.template);
    }
  }

  /** After a pass, a template is settled that it looked at and did not change, with none of its callees changed. */
  lemma LookedAtSettled(
    names: DatatypeNames, all: set<Iri>, start: Templates, visited: seq<Iri>, states: seq<Templates>, n: Iri)
    requires Pass(names, visited, states) && Sound(all, start, states[0]) && n in start
    requires n in visited && n !in Altered(visited, states) && CallsNone(start, n, Altered(visited, states))
    ensures n in states[|visited|] && SettledAt(names, states[|visited|], n)
  {
    var k :| 0 <= k < |visited| && visited[k] == n;
    AlteredExactly(names, all, start, visited, states, n);
    KeptThroughout(names, all, start, visited, states, k, n);
    CalleesKept(names, all, start, visited, states, k, n);
    assert Look(names, states[k], n, states[k + 1]) && states[k + 1] == states[k];
    LookChanges(names, states[k], n, states[k + 1]);
    SettledDepends(names, states[k], states[|visited|], n);
  }

  /** One that a pass left alone stays settled, with none of its callees changed. */
  lemma UntouchedSettled(
    names: DatatypeNames, all: set<Iri>, start: Templates, visited: seq<Iri>, states: seq<Templates>, n: Iri)
    requires Pass(names, visited, states) && Sound(all, start, states[0]) && n in start && SettledAt(names, states[0], n)
    requires n !in Altered(visited, states) && CallsNone(start, n, Altered(visited, states))
    ensures n in states[|visited|] && SettledAt(names, states[|visited|], n)
  {
    AlteredExactly(names, all, start, visited, states, n);
    CalleesKept(names, all, start, visited, states, 0, n);
    SettledDepends(names, states[0], states[|visited|], n);
  }

  // ----- a whole run -----

  /**
    What a first pass ending in tm and the rounds so far leave to say of n: unless it is to be looked at next, it is
    settled if no round has changed it, and it changed in the first pass or no callee of it did.
   */
  ghost predicate SettledUnless(
    names: DatatypeNames, start: Templates, tm: Templates, first: set<Iri>, cm: Templates, next: set<Iri>, n: Iri)
  {
    n in tm && n in cm && n in start && (
      n !in next && cm[n] == tm[n] && (n in first || CallsNone(start, n, first)) ==> SettledAt(names, cm, n))
  }

  lemma AfterFirst(
    names: DatatypeNames, all: set<Iri>, start: Templates, order: seq<Iri>, tm: Templates, first: set<Iri>, n: Iri)
    requires FirstRun(names, order, start, tm, first) && Sound(all, start, start) && n in start && n in order
    ensures Sound(all, start, tm) && SettledUnless(names, start, tm, first, tm, first, n)
  {
    var states :| FirstStates(names, order, start, tm, first, states);
    PassSound(names, all, start, order, states, 0, |order|, n);
    if n !in first && CallsNone(start, n, first) { LookedAtSettled(names, all, start, order, states, n); }
  }

  lemma AfterRound(
    names: DatatypeNames, all: set<Iri>, start: Templates, tm: Templates, first: set<Iri>, cm: Templates,
    changed: set<Iri>, fm: Templates, next: set<Iri>, n: Iri)
    requires RoundRun(names, start, cm, changed, fm, next) && Sound(all, start, cm)
    requires SettledUnless(names, start, tm, first, cm, changed, n) && SameOrLess(all, n, cm, tm)
    ensures Sound(all, start, fm) && SameOrLess(all, n, fm, tm) && SettledUnless(names, start, tm, first, fm, next, n)
  {
    var visited, states :| RoundStates(names, start, cm, changed, fm, next, visited, states);
    PassSound(names, all, start, visited, states, 0, |visited|, n);
    SameOrLessOn(all, n, fm, cm, tm);
    if n !in next && fm[n] == tm[n] && (n in first || CallsNone(start, n, first)) {
      AlteredExactly(names, all, start, visited, states, n);
      NotNext(start, Altered(visited, states), n);
      if n in changed {
        assert n in visited;
        LookedAtSettled(names, all, start, visited, states, n);
      } else {
        UntouchedSettled(names, all, start, visited, states, n);
      }
    }
  }

  lemma NotNext(start: Templates, ms: set<Iri>, n: Iri)
    requires n in start && n !in Callers(start, ms)
    ensures CallsNone(start, n, ms)
  {
  }

  lemma {:induction false} AfterRounds(
    names: DatatypeNames, all: set<Iri>, start: Templates, tm: Templates, first: set<Iri>, maximum: Option<nat>,
    tms: seq<Templates>, cs: seq<set<Iri>>, k: nat, n: Iri)
    requires RoundsRun(names, start, maximum, tms, cs) && tms[0] == tm && cs[0] == first && k < |tms|
    requires Sound(all, start, tm) && SettledUnless(names, start, tm, first, tm, first, n)
    ensures Sound(all, start, tms[k]) && SameOrLess(all, n, tms[k], tm)
    ensures SettledUnless(names, start, tm, first, tms[k], cs[k], n)
  {
    if k > 0 {
      AfterRounds(names, all, start, tm, first, maximum, tms, cs, k - 1, n);
      AfterRound(names, all, start, tm, first, tms[k - 1], cs[k - 1], tms[k], cs[k], n);
    }
  }

  lemma AllRounds(names: DatatypeNames, start: Templates, tm: Templates, first: set<Iri>, fm: Templates)
    returns (tms: seq<Templates>, cs: seq<set<Iri>>)
    requires RoundsTo(names, start, None, tm, first, fm)
    ensures RoundsRun(names, start, None, tms, cs) && tms[0] == tm && cs[0] == first
    ensures tms[|tms| - 1] == fm && cs[|tms| - 1] == {}
  {
    tms, cs :| RoundsRun(names, start, None, tms, cs) && tms[0] == tm && cs[0] == first
      && tms[|tms| - 1] == fm && Over(None, |tms| - 1, cs[|tms| - 1]);
  }

  /**
    When inference ends because nothing is left to look at, every template is settled that no round has changed and
    that itself changed in the first pass or has no callee that did.
   */
  lemma EndsSettled(
    names: DatatypeNames, start: Templates, order: seq<Iri>, tm: Templates, first: set<Iri>, fm: Templates, n: Iri)
    requires FirstRun(names, order, start, tm, first) && RoundsTo(names, start, None, tm, first, fm)
    requires n in start && n in order
    ensures n in tm && n in fm
    ensures fm[n] == tm[n] && (n in first || CallsNone(start, n, first)) ==> SettledAt(names, fm, n)
  {
    OwnNames(start);
    AfterFirst(names, DatasetNames(start), start, order, tm, first, n);
    var tms, cs := AllRounds(names, start, tm, first, fm);
    AfterRounds(names, DatasetNames(start), start, tm, first, None, tms, cs, |tms| - 1, n);
  }

  // A round has changed the template, or the first pass has changed one that it calls, and not the template itself.
  ghost predicate Missable(start: Templates, tm: Templates, first: set<Iri>, fm: Templates, n: Iri) {
    n in tm && n in fm && (fm[n] != tm[n] || (n !in first && !CallsNone(start, n, first)))
  }

  /**
    So inference ends in a settled dataset exactly when those templates are settled that rounds have changed, or whose
    callees the first pass has changed.
   */
  lemma EndsSettledExactly(
    names: DatatypeNames, start: Templates, order: seq<Iri>, tm: Templates, first: set<Iri>, fm: Templates)
    requires FirstRun(names, order, start, tm, first) && RoundsTo(names, start, None, tm, first, fm)
    requires (forall n :: n in order <==> n in start) && fm.Keys == start.Keys
    ensures Settled(names, fm) <==> forall n :: n in fm && Missable(start, tm, first, fm, n) ==> SettledAt(names, fm, n)
  {
    forall n | n in fm && !Missable(start, tm, first, fm, n) ensures SettledAt(names, fm, n) {
      EndsSettled(names, start, order, tm, first, fm, n);
    }
  }

  // ----- what inference can miss -----

  // A template with one parameter and a call that hands it on, or none.
  function Plain(v: Var, t: Option<PType>): Parameter { Parameter(false, false, t, v, None) }

  function OneCall(n: Iri, v: Var, t: Option<PType>, called: Iri): Template {
    Template(n, [Plain(v, t)], [Instance(None, called, [Argument(false, Variable(v))])])
  }

  /** Templates in a chain: a hands its parameter to b, which hands its own to c, which has the type t. */
  ghost predicate Chain(start: Templates, a: Iri, b: Iri, c: Iri, v: Var, t: PType) {
    && a != b && b != c && a != c
    && start == map[a := OneCall(a, v, None, b), b := OneCall(b, v, None, c), c := Template(c, [Plain(v, Some(t))], [])]
  }

  // What a template with one call asks for.
  lemma OneAsk(names: DatatypeNames, tm: Templates, n: Iri, v: Var, t: Option<PType>, called: Iri)
    requires n in tm && tm[n] == OneCall(n, v, t, called) && called != n && called in tm
    requires |tm[called].parameters| == 1
    ensures forall u, right :: Asks(tm[n], tm - {n}, u, right) <==>
      u == Use(0, 0, 0) && tm[called].parameters[0].ptype == Some(right)
  {
  }

  lemma ServedCall(names: DatatypeNames, tm: Templates, n: Iri, v: Var, t: Option<PType>, called: Iri)
    requires n in tm && tm[n] == OneCall(n, v, t, called) && called != n && called in tm
    requires |tm[called].parameters| == 1
    ensures tm[called].parameters[0].ptype.None? ==> SettledAt(names, tm, n)
    ensures t.Some? && tm[called].parameters[0].ptype == t ==> SettledAt(names, tm, n)
    ensures t.None? && tm[called].parameters[0].ptype.Some? ==> !SettledAt(names, tm, n)
  {
    OneAsk(names, tm, n, v, t, called);
    var right := tm[called].parameters[0].ptype;
    if t.None? && right.Some? {
      assert Asks(tm[n], tm - {n}, Use(0, 0, 0), right.value);
      assert !Served(names, tm[n], tm - {n}, Use(0, 0, 0), right.value);
    }
  }

  lemma TypedByCall(names: DatatypeNames, tm: Templates, n: Iri, v: Var, called: Iri, t: PType)
    requires n in tm && tm[n] == OneCall(n, v, None, called) && called != n && called in tm
    requires |tm[called].parameters| == 1 && tm[called].parameters[0].ptype == Some(t)
    ensures Look(names, tm, n, tm[n := OneCall(n, v, Some(t), called)])
  {
    OneAsk(names, tm, n, v, None, called);
    ServedCall(names, tm, n, v, None, called);
    var u, p := Use(0, 0, 0), Plain(v, Some(t));
    assert ChangedBy(names, tm[n], tm - {n}, u, t, p, [p]);
  }

  lemma CallsNothing(names: DatatypeNames, tm: Templates, n: Iri)
    requires n in tm && tm[n].patterns == []
    ensures Look(names, tm, n, tm)
  {
  }

  lemma SettledLook(names: DatatypeNames, tm: Templates, n: Iri)
    requires n in tm && SettledAt(names, tm, n)
    ensures Look(names, tm, n, tm)
  {
    assert tm[n := tm[n]] == tm;
  }

  /**
    In a chain that is looked at from its beginning, the type of c reaches b in the first pass, and the round after it
    looks at b alone: a ends without a type although its use asks for one.
   */
  lemma CallerMissed(names: DatatypeNames, start: Templates, a: Iri, b: Iri, c: Iri, v: Var, t: PType)
    requires Chain(start, a, b, c, v, t)
    ensures var fm := start[b := OneCall(b, v, Some(t), c)];
      InferenceRun(names, start, [a, b, c], None, fm) && !SettledAt(names, fm, a)
  {
    var fm := start[b := OneCall(b, v, Some(t), c)];
    ServedCall(names, start, a, v, None, b);
    SettledLook(names, start, a);
    TypedByCall(names, start, b, v, c, t);
    CallsNothing(names, fm, c);
    ServedCall(names, fm, b, v, Some(t), c);
    SettledLook(names, fm, b);
    ServedCall(names, fm, a, v, None, b);
    ChainFirst(names, start, a, b, c, fm);
    ChainRounds(names, start, b, fm);
  }

  lemma MiddleAltered(visited: seq<Iri>, states: seq<Templates>)
    requires |visited| == 3 && |states| == 4
    requires states[0] == states[1] != states[2] == states[3]
    ensures Altered(visited, states) == {visited[1]}
  {
    assert visited[1] in Altered(visited, states);
  }

  lemma ChainFirst(names: DatatypeNames, start: Templates, a: Iri, b: Iri, c: Iri, fm: Templates)
    requires Look(names, start, a, start) && Look(names, start, b, fm) && Look(names, fm, c, fm) && fm != start
    ensures FirstRun(names, [a, b, c], start, fm, {b})
  {
    var visited, states := [a, b, c], [start, start, fm, fm];
    ThreeLooks(names, visited, states);
    MiddleAltered(visited, states);
    assert FirstStates(names, visited, start, fm, {b}, states);
  }

  lemma ThreeLooks(names: DatatypeNames, visited: seq<Iri>, states: seq<Templates>)
    requires |visited| == 3 && |states| == 4 && Look(names, states[0], visited[0], states[1])
    requires Look(names, states[1], visited[1], states[2]) && Look(names, states[2], visited[2], states[3])
    ensures Pass(names, visited, states)
  {
    forall k | 0 <= k < 3 ensures Look(names, states[k], visited[k], states[k + 1]) {
      LookAt(names, visited, states, k);
    }
  }

  lemma LookAt(names: DatatypeNames, visited: seq<Iri>, states: seq<Templates>, k: nat)
    requires |visited| == 3 && |states| == 4 && k < 3
    requires k == 0 ==> Look(names, states[0], visited[0], states[1])
    requires k == 1 ==> Look(names, states[1], visited[1], states[2])
    requires k == 2 ==> Look(names, states[2], visited[2], states[3])
    ensures Look(names, states[k], visited[k], states[k + 1])
  {
    var tm, n, fm := states[k], visited[k], states[k + 1];
    assert Look(names, tm, n, fm);
  }

  lemma ChainRounds(names: DatatypeNames, start: Templates, b: Iri, fm: Templates)
    requires Look(names, fm, b, fm)
    ensures RoundsTo(names, start, None, fm, {b}, fm)
  {
    var visited, states := [b], [fm, fm];
    assert Pass(names, visited, states) && Altered(visited, states) == {} && Callers(start, {}) == {};
    assert Lists(visited, {b});
    assert RoundStates(names, start, fm, {b}, fm, {}, visited, states);
    var tms, cs := [fm, fm], [{b}, {}];
    assert RoundsRun(names, start, None, tms, cs);
  }
}
