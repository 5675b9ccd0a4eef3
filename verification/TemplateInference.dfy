/** Type inference over a dataset of templates that use one another. */
module TemplateInference {
  import opened Wrappers
  import opened Rdf
  import opened StottrAst
  import opened TemplateTypes

  datatype Template = Template(iri: Iri, parameters: seq<Parameter>, patterns: seq<Instance>)

  type Templates = map<Iri, Template>

  // ----- what the uses of a template ask of its parameters -----

  // Argument j of pattern i, seen by parameter k.
  datatype Use = Use(pattern: nat, argument: nat, parameter: nat)

  // The type that a use asks for.
  function Required(expand: bool, other: Parameter): PType
    requires other.ptype.Some?
  {
    if !expand then other.ptype.value
    else if other.optional then ListOf(other.ptype.value)
    else NonEmptyListOf(other.ptype.value)
  }

  predicate IsUse(t: Template, ts: Templates, u: Use) {
    && u.pattern < |t.patterns| && t.patterns[u.pattern].template in ts
    && u.argument < |t.patterns[u.pattern].arguments|
    && u.argument < |ts[t.patterns[u.pattern].template].parameters|
    && u.parameter < |t.parameters|
  }

  predicate Asks(t: Template, ts: Templates, u: Use, right: PType) {
    && IsUse(t, ts, u)
    && var argument := t.patterns[u.pattern].arguments[u.argument];
    && var other := ts[t.patterns[u.pattern].template].parameters[u.argument];
    && argument.term == Variable(t.parameters[u.parameter].variable)
    && other.ptype.Some? && right == Required(argument.listExpand, other)
  }

  // The update that a use asks for.
  function Updated(names: DatatypeNames, t: Template, u: Use, right: PType): Result<(Parameter, bool), TemplateError>
    requires u.parameter < |t.parameters|
  {
    LubUpdate(names, t.iri, t.parameters[u.parameter].variable, t.parameters[u.parameter], right)
  }

  predicate Before(u: Use, w: Use) {
    || u.pattern < w.pattern
    || (u.pattern == w.pattern && u.argument < w.argument)
    || (u.pattern == w.pattern && u.argument == w.argument && u.parameter < w.parameter)
  }

  // The use is served already.
  predicate Served(names: DatatypeNames, t: Template, ts: Templates, u: Use, right: PType)
    requires Asks(t, ts, u, right)
  {
    Updated(names, t, u, right) == Ok((t.parameters[u.parameter], false))
  }

  ghost predicate ServedBefore(names: DatatypeNames, t: Template, ts: Templates, w: Use) {
    forall u, right :: Asks(t, ts, u, right) && Before(u, w) ==> Served(names, t, ts, u, right)
  }

  ghost predicate AllServed(names: DatatypeNames, t: Template, ts: Templates) {
    forall u, right :: Asks(t, ts, u, right) ==> Served(names, t, ts, u, right)
  }

  // One parameter has changed: by the first use that was not served.
  ghost predicate ChangedBy(
    names: DatatypeNames, t: Template, ts: Templates, u: Use, right: PType, p: Parameter, parameters: seq<Parameter>)
  {
    && Asks(t, ts, u, right) && ServedBefore(names, t, ts, u)
    && Updated(names, t, u, right) == Ok((p, true))
    && parameters == t.parameters[u.parameter := p]
  }

  ghost predicate ChangedOnce(names: DatatypeNames, t: Template, ts: Templates, parameters: seq<Parameter>) {
    exists u, right, p :: ChangedBy(names, t, ts, u, right, p, parameters)
  }

  predicate Resolves(t: Template, ts: Templates, i: nat)
    requires i < |t.patterns|
  {
    t.patterns[i].template in ts && |t.patterns[i].arguments| == |ts[t.patterns[i].template].parameters|
  }

  // Every call goes to another template of the dataset, with as many arguments as it has parameters.
  predicate CallsResolve(t: Template, ts: Templates) {
    forall i :: 0 <= i < |t.patterns| ==> Resolves(t, ts, i)
  }

  // What an error says is so.
  ghost predicate Justified(names: DatatypeNames, t: Template, ts: Templates, e: TemplateError) {
    match e
    case TemplateNotFound(n, called) => n == t.iri && called !in ts && exists i :: i in t.patterns && i.template == called
    case InconsistentNumberOfArguments(n, called, given, expected) =>
      exists i :: i in t.patterns && i.template in ts && n == t.iri && called == ts[i.template].iri
        && given == |i.arguments| != |ts[i.template].parameters| == expected
    case IncompatibleTypes(_, _, _, _) =>
      exists u, right :: Asks(t, ts, u, right) && Updated(names, t, u, right) == Err(e)
  }

  // The state of the loops at a use.
  ghost predicate Underway(
    names: DatatypeNames, t: Template, ts: Templates, parameters: seq<Parameter>, changed: bool, w: Use)
  {
    if changed then ChangedOnce(names, t, ts, parameters)
    else parameters == t.parameters && ServedBefore(names, t, ts, w)
  }

  /**
   * One pass over the uses of a template: nothing changes when all of them are served; otherwise the first one
   * that is not served changes one parameter, and no other parameter is touched.
   */
  method InferTemplateTypes(names: DatatypeNames, t: Template, ts: Templates)
    returns (r: Result<(Template, bool), TemplateError>)
    ensures r.Ok? ==> CallsResolve(t, ts) && r.value.0 == t.(parameters := r.value.0.parameters)
    ensures r.Ok? && !r.value.1 ==> r.value.0 == t && AllServed(names, t, ts)
    ensures r.Ok? && r.value.1 ==> ChangedOnce(names, t, ts, r.value.0.parameters)
    ensures r.Err? ==> Justified(names, t, ts, r.error)
  {
    var parameters, changed := t.parameters, false;
    for i := 0 to |t.patterns|
      invariant Underway(names, t, ts, parameters, changed, Use(i, 0, 0))
      invariant forall h :: 0 <= h < i ==> Resolves(t, ts, h)
    {
      var call := t.patterns[i];
      assert call in t.patterns;
      if call.template !in ts { return Err(TemplateNotFound(t.iri, call.template)); }
      var other := ts[call.template];
      if |call.arguments| != |other.parameters| {
        return Err(InconsistentNumberOfArguments(t.iri, other.iri, |call.arguments|, |other.parameters|));
      }
      for j := 0 to |call.arguments|
        invariant Underway(names, t, ts, parameters, changed, Use(i, j, 0))
      {
        if call.arguments[j].term.Variable? {
          for k := 0 to |parameters|
            invariant |parameters| == |t.parameters|
            invariant Underway(names, t, ts, parameters, changed, Use(i, j, k))
          {
            if parameters[k].variable == call.arguments[j].term.name && other.parameters[j].ptype.Some? {
              var right := Required(call.arguments[j].listExpand, other.parameters[j]);
              if !changed {
                assert Asks(t, ts, Use(i, j, k), right);
                UpdateErrors(names, t.iri, call.arguments[j].term.name, parameters[k], right);
                var u :- LubUpdate(names, t.iri, call.arguments[j].term.name, parameters[k], right);
                parameters, changed := parameters[k := u.0], u.1;
                if changed { assert ChangedBy(names, t, ts, Use(i, j, k), right, u.0, parameters); }
              }
            }
          }
        }
      }
    }
    r := Ok((t.(parameters := parameters), changed));
  }
}
