# Verified model of the query transformations, the category dictionary and the template language

This project models three parts of the repository in Dafny and proves what they are meant to keep.
`dafny verify dfyconfig.toml` checks everything.

**SPARQL algebra.** `Rdf`, `Algebra`, `PathSemantics` and `Semantics` give graph patterns, expressions and property
paths a denotational meaning: a solution is a partial map from variables to terms, `Answers(w, gp, mu)` says that `mu`
is a solution of `gp` in the world `w` (active graph, named graphs, and an interpretation of built-in functions,
aggregates, slices, PVALUES and remote endpoints), and `Eval` is the evaluation of expressions with errors, as in
section 17.2 of SPARQL 1.1 Query. Operators follow section 18.5 of SPARQL 1.1 Query. Equality is term equality, as in
the repository's own evaluator. EXISTS asks for a solution of its pattern that is compatible with the current one, where
section 18.6 substitutes the current values into the pattern. An aggregate is a function of how often each value occurs
over the solutions of its group, once each under DISTINCT. On top of it:

- `Bindings` is the substitution of ground terms; `BindingLaws`, `BindingMentions`, `BindingShapes`, `BindingSemantics`,
  `Restriction`, `ExactRestriction`, `GroupBindings`, `Substitution` and `QueryBindings` prove that it composes, what it
  leaves behind and leaves alone, when it refuses, and on which patterns it keeps the meaning.
- `Scope` proves the in-scope analysis and a certainly-bound analysis sound.
- `Trees`, `Subtypes`, `TypeConstraints`, `FilterAnalysis`, `Pushdowns` and `PushdownSoundness` prove that the constraints
  read off a query never exclude one of its solutions; `PushdownLimits` says exactly when the constructs that are set
  apart there lose none, and `OptionalPushdowns` when constraints may be applied to the right side of an OPTIONAL.
  `FilterExactness`, `PushdownTightness` and `PushdownExactness` prove that nothing is forgotten: which solutions pass,
  exactly. `FunctionTypes` compares the declared types of calls with what the evaluator returns.
- `PathCounts` and `GroupCounts` count solutions; `GroupBuilder` proves that a group's triples and paths keep their
  solutions, as often, when the parser turns them into one pattern, and `GroupShape` what that pattern looks like;
  `PathSyntax` that printed property paths are parsed back, and `PathGrammar` that any text is read as a path exactly when
  the grammar derives it.

**Category dictionary.** `TextOrder`, `CatStrings` and `CatTree` model byte strings, the IRI split, prefix-compressed keys
and the ordered map as a sequence of entries in ascending order. `CatDictionary` says what each operation does to one
assignment of ids to strings, without any data structure: new strings of a merge are numbered by their rank, compaction
numbers all strings by rank. `CatIndex`, `CatLoops`, `CatReads`, `CatPrefixes`, `CatMaps` and `CatRuns` hold the two
mutable forms and prove that each of their methods does to the assignment what `CatDictionary` says. Text is bytes; the
three delimiters are ASCII, so splitting bytes splits characters alike.

**Templates.** `TemplateTypes`, `TemplateInference` and `TemplateDatasets` model type inference over templates that use
one another, `InferenceRuns` says what a run of it is, `InferenceEnds` what has been settled when it ends, and
`TemplateMeaning` what values a type admits. `StottrAst`,
`StottrSyntax` and `StottrDeclarations` print stOTTR terms, instances, types and parameters to `Tokens` and parse them by
ordered choice; `StottrSpelling` and `StottrGrammar` prove that terms, types and instances are read exactly as the grammar
derives them, however they are spaced and spelled.

**Contexts.** `PathEntries` and `QueryContext` model the position of an expression in a query and its text, which names a
column; `ContextScope` compares its scope tables with the algebra.

## What the proofs found

Where a property fails for some inputs, the code is kept, a lemma gives such an input, and where the text below says
"exactly" a lemma states when it holds:

- Replacing variables does not keep the meaning of a FILTER or BIND over a pattern that may leave the variable unbound,
  of an OPTIONAL or MINUS that shares only that variable, of a sub-select or GROUP BY that hides it, or of a slice
  (`FilterNotKept`, `BindNotKept`, `OptionalNotKept`, `MinusNotKept`, `SubselectNotKept`, `GroupNotKept`, `SliceNotKept`).
  Each keeps it exactly under the condition of `FilterKeptExactly` (for BOUND, `BoundFilterKeptExactly`),
  `BindKeptExactly`, `OptionalKeptExactly`, `MinusKeptExactly`, `SubselectKeptExactly`, `GroupKeptExactly` (without
  aggregates, `PlainGroupKeptExactly`) and `SliceKeptExactly`, which speak of the solutions of the parts. A path keeps it
  exactly when no zero-length match depends on an end being constant (`PathReplaceableExactly`).
- A bound GROUP BY key is neither replaced nor reported as an error (`ReplacedScope`, `PatternLeaves`). Where all bound
  variables of the pattern are certainly bound keys that does no harm (`GroupRestricts`).
- SERVICE ?v binds ?v, which the in-scope analysis does not report (`ServiceNameScope`).
- The conjunction of type constraints drops a variable that both sides constrain (`ConjoinTypesExact`), so a filter on a
  variable that a triple pattern constrains takes that constraint away; `TypesPassExactly` says what is left.
- Pushing down can lose solutions of a join. A VALUES column that mixes UNDEF with terms, a BIND from a variable that
  may be unbound, triple patterns below a projection, and filters inside a sub-select lose none exactly under the
  conditions of `ValuesSoundExactly`, `BindSoundExactly`, `SubselectSoundExactly` and `FilterInSubselectExactly`.
- Constraints from around an OPTIONAL may be applied to its right side under a FILTER (`FilterOverOptional`). Under a join
  they lose no solution but can add one (`JoinOverOptionalAdds`), and add none exactly under the condition of
  `JoinOverOptionalExactly`.
- The type declared for a call or for arithmetic is trusted: an equality with one keeps its solution exactly when the
  value has that type (`FunctionEquality`, `ArithmeticEquality`). As the evaluator has it, that fails for the language
  strings of STRBEFORE and STRAFTER only (`CallEquality`, `StrBeforeRejected`); arithmetic counts as owl:real, which excludes xsd:double (`DoubleSumRejected`).
- An empty negated property set prints a text that cannot be parsed (`PathRoundTrip`).
- Encoding keeps the two maps of a dictionary inverse only for a new string under a new id, so a language string whose
  value equals its language breaks them (`EncodeExactly`, `LangStringExactly`), and so does a bulk encode with a repeated
  string (`BulkExactly`).
- `lub` takes the smaller name in string order, which is the supertype only when that comes first
  (`LubIsSupertypeExactly`), and is symmetric exactly when no list meets rdfs:Resource (`LubSymmetricExactly`). An
  inference error leaves the dataset without templates (`TemplateDataset.InferTypes`).
- Type inference can end too early. The first round looks at the templates that the first pass changed and not at their
  callers, and a template that a round changes is not looked at again for its own sake. So a caller can keep a parameter
  without a type (`CallerMissed`); `EndsSettledExactly` says which templates can be affected.
- A type keyword directly after the question mark of an optional stOTTR parameter is taken for the name of a variable
  (`KeywordTakenForVariable`).
- Two contexts of which one lies above the other are always in scope of each other, also when a filter expression lies
  between them (`AboveIsInScope`).

## Model

| member | source | states |
|---|---|---|
| Substitution.SubstitutionLemma | lib/query_processing/src/bindings.rs:59-251 | When replacement succeeds, the solutions of the replaced pattern are exactly the original solutions that agree with the bindings, with the bound variables dropped. |
| Substitution.ExpressionReplaced | lib/query_processing/src/bindings.rs:253-368 | Evaluating the replaced expression, EXISTS included, is evaluating the original with the bindings added to the solution. |
| Substitution.AggregateReplaced | lib/query_processing/src/bindings.rs:370-388 | A replaced aggregate keeps its kind, name and DISTINCT, and its expression evaluates as the original does with the bindings added. |
| Restriction.BgpRestricts | lib/query_processing/src/bindings.rs:64-85 | The solutions of replaced triple patterns, blank nodes included, are the restricted original ones. |
| Restriction.PathRestricts | lib/query_processing/src/bindings.rs:86-98 | The same for a path whose ends may be replaced. |
| Restriction.JoinRestricts | lib/query_processing/src/bindings.rs:99-102 | Joining two replaced sides gives the restriction of the original join. |
| Restriction.LeftJoinRestricts | lib/query_processing/src/bindings.rs:103-118 | An OPTIONAL keeps matches and mismatches when replaced variables of its right side and condition are certainly bound by its left. |
| Restriction.FilterRestricts | lib/query_processing/src/bindings.rs:119-122 | A filter keeps the same solutions when its bound variables are certainly bound by the inner pattern. |
| Restriction.UnionRestricts | lib/query_processing/src/bindings.rs:123-126 | Both branches of a union restrict together. |
| Restriction.GraphRestricts | lib/query_processing/src/bindings.rs:127-130 | A GRAPH clause restricts, also when its name is the replaced variable. |
| Restriction.ExtendRestricts | lib/query_processing/src/bindings.rs:131-146 | A BIND restricts when the variables of its expression are certainly bound. |
| Restriction.MinusRestricts | lib/query_processing/src/bindings.rs:147-150 | A MINUS restricts when its right side mentions no bound variable, or when the left certainly binds those that it mentions and both sides certainly share another one. |
| Restriction.ServiceRestricts | lib/query_processing/src/bindings.rs:241-250 | A SERVICE clause restricts, silent or not, also when its name is the replaced variable. |
| GroupBindings.GroupRestricts | lib/query_processing/src/bindings.rs:221-240 | A GROUP BY restricts, aggregates included, when every bound variable of its pattern is a certainly bound key and the aggregates read only certainly bound ones of them. |
| QueryBindings.QueryReplaced | lib/query_processing/src/bindings.rs:9-57 | A query of any form keeps its form, template and shape; its pattern restricts; replacement succeeds exactly when no bound variable is refused. |
| QueryBindings.SelectReplaced | lib/query_processing/src/bindings.rs:9-57 | SELECT with bindings lists exactly the projections of the solutions that agree with the bindings. |
| QueryBindings.AskReplaced | lib/query_processing/src/bindings.rs:9-57 | ASK with bindings is yes exactly when some solution agrees with the bindings. |
| QueryBindings.PathReplaceableExactly | lib/query_processing/src/bindings.rs:86-98 | The ends of a path may be replaced in every graph exactly when zero-length matching does not change, or the ends become different constants. |
| QueryBindings.FilterKeptExactly | lib/query_processing/src/bindings.rs:119-122 | A filter keeps its meaning exactly when, for every inner solution that agrees with the bindings, the condition with the bindings filled in holds if and only if it held for some such solution with the same remainder. |
| QueryBindings.BoundFilterKeptExactly | lib/query_processing/src/bindings.rs:338-347 | A filter on bound(?v) keeps its meaning exactly when every agreeing solution without ?v has a twin with ?v and the same remainder. |
| QueryBindings.BindKeptExactly | lib/query_processing/src/bindings.rs:131-146 | A BIND to a variable that its pattern never binds, as the parser demands, keeps its meaning exactly when filling in the bindings changes the expression's value for no agreeing solution. |
| QueryBindings.OptionalKeptExactly | lib/query_processing/src/bindings.rs:103-118 | An OPTIONAL keeps its meaning exactly when every left solution without an agreeing match remains, itself or through another solution. |
| QueryBindings.MinusKeptExactly | lib/query_processing/src/bindings.rs:147-150 | A MINUS keeps its meaning exactly when every left solution that no agreeing right solution excludes over an unbound variable has a twin with the same remainder that nothing excludes. |
| QueryBindings.SubselectKeptExactly | lib/query_processing/src/bindings.rs:193-205 | A sub-select keeps its meaning exactly when each of its rows comes from an inner solution that agrees with the bindings. |
| QueryBindings.GroupKeptExactly | lib/query_processing/src/bindings.rs:221-240 | A GROUP BY whose aggregates have other names than its keys keeps its meaning exactly when every group whose key agrees with the bindings has a solution that agrees with them, and its aggregates have the same values over the replaced pattern. |
| QueryBindings.GroupAggregates | lib/query_processing/src/bindings.rs:221-240 | Whatever the keys, the aggregates of a replaced group have the values that the original ones have over the solutions of the group that agree with the bindings, when no two of those differ in bound variables only. |
| QueryBindings.PlainGroupKeptExactly | lib/query_processing/src/bindings.rs:221-240 | Without aggregates it does exactly when for every agreeing key some agreeing solution has the same unbound part of the key. |
| QueryBindings.WholeGroupKept | lib/query_processing/src/bindings.rs:221-240 | The one group over all solutions, without aggregates, is always kept. |
| QueryBindings.SliceKeptExactly | lib/query_processing/src/bindings.rs:212-220 | A slice keeps its meaning exactly when the replaced slice keeps a remainder if and only if the original kept some agreeing solution with that remainder. |
| QueryBindings.FilterNotKept | lib/query_processing/src/bindings.rs:338-347 | A filter on bound(?x) over a pattern without ?x changes its meaning. |
| QueryBindings.BindNotKept | lib/query_processing/src/bindings.rs:131-146 | A BIND of bound(?x) over a pattern without ?x changes its meaning. |
| QueryBindings.OptionalNotKept | lib/query_processing/src/bindings.rs:103-118 | An OPTIONAL over a variable its left side does not bind changes its meaning. |
| QueryBindings.MinusNotKept | lib/query_processing/src/bindings.rs:147-150 | A MINUS that shares only the replaced variable changes its meaning. |
| QueryBindings.SubselectNotKept | lib/query_processing/src/bindings.rs:193-205 | A sub-select that hides the replaced variable changes its meaning. |
| QueryBindings.GroupNotKept | lib/query_processing/src/bindings.rs:221-240 | A GROUP BY over a pattern with the replaced variable loses the groups of other values. |
| QueryBindings.SliceNotKept | lib/query_processing/src/bindings.rs:212-220 | A slice that dropped the row of the bound value gets it back. |
| BindingLaws.PatternComposes | lib/query_processing/src/bindings.rs:59-251 | For disjoint bindings, replacing by one and then the other succeeds exactly when replacing by both does, with the same pattern. |
| BindingLaws.ExpressionComposes | lib/query_processing/src/bindings.rs:253-368 | The same for expressions. |
| BindingLaws.AggregatesCompose | lib/query_processing/src/bindings.rs:221-240 | The same for the aggregates of a GROUP BY. |
| BindingLaws.OrdersCompose | lib/query_processing/src/bindings.rs:390-402 | The same for ordering conditions. |
| BindingLaws.ReplacedScope | lib/query_processing/src/bindings.rs:221-240 | The in-scope variables of the result are the original ones without the bound ones, exactly when no GROUP BY key in scope is bound. |
| BindingMentions.PatternLeaves | lib/query_processing/src/bindings.rs:59-251 | The replaced pattern mentions exactly the unbound variables of the original, and the bound keys of its GROUP BY clauses. |
| BindingMentions.ExpressionLeaves | lib/query_processing/src/bindings.rs:253-368 | The same for expressions. |
| BindingMentions.AggregateLeaves | lib/query_processing/src/bindings.rs:370-388 | The same for one aggregate. |
| BindingMentions.OrdersLeave | lib/query_processing/src/bindings.rs:390-402 | The same for ordering conditions. |
| BindingShapes.PatternTold | lib/query_processing/src/bindings.rs:59-251 | Replacement changes nothing but terms, names and variable expressions: operators, paths, listed variables, rows, order directions, bounds of slices, DISTINCT, REDUCED and SILENT stay. It fails exactly when a bound variable stands where none may, or a literal where an IRI must, and names one. |
| BindingShapes.ExpressionTold | lib/query_processing/src/bindings.rs:253-368 | The same for expressions: operators and functions stay. |
| BindingShapes.AggregateTold | lib/query_processing/src/bindings.rs:370-388 | The same for aggregates: kind, name and DISTINCT stay. |
| BindingShapes.OrdersTold | lib/query_processing/src/bindings.rs:390-402 | The same for ordering conditions: directions stay. |
| BindingSemantics.Unmentioned | lib/query_processing/src/bindings.rs:59-251 | Replacement succeeds and changes nothing in a pattern that mentions no bound variable. |
| BindingSemantics.BgpReplaced | lib/query_processing/src/bindings.rs:404-440 | Replaced triple patterns match without the bound variables exactly what the originals match with them. |
| Scope.ScopeSound | lib/spargebra/src/algebra.rs:1023-1102 | Every variable that a solution binds is reported as in scope, when every SERVICE name is. |
| Scope.ServiceNameScope | lib/spargebra/src/algebra.rs:1095-1100 | A solution of SERVICE ?v is covered by the report exactly when the inner pattern reports ?v. |
| Scope.CertainlyBound | lib/query_processing/src/pushdowns.rs:109-256 | Variables that the certainly-bound analysis lists are bound by every solution. |
| Mentions.SolutionVars | lib/spargebra/src/algebra.rs:1023-1102 | A solution binds only variables that occur in the pattern. |
| ContextScope.InScopeExactly | lib/spargebra/src/algebra.rs:1023-1102 | A variable is reported as in scope exactly when the pattern introduces it, or a part that exposes its variables reports it and no projection or grouping lies between. |
| Subtypes.SubtypeIsAncestor | lib/representation/src/subtypes.rs:8-99 | The chain of subtype helpers decides ancestry in the datatype tree. |
| Subtypes.SubtypePartialOrder | lib/representation/src/subtypes.rs:8-41 | The literal subtype relation is reflexive, transitive and antisymmetric. |
| TypeConstraints.CompatibleWithSubtype | lib/query_processing/src/type_constraints.rs:39-61 | A constraint that admits a datatype admits all its subtypes. |
| TypeConstraints.ConjunctionVariableType | lib/query_processing/src/type_constraints.rs:116-130 | The loop keeps each constraint of a variable that one side alone constrains, and drops the others. |
| FilterAnalysis.ConjoinTypesExact | lib/query_processing/src/type_constraints.rs:116-130 | A solution meets the conjunction exactly when it meets each side on the variables that this side alone constrains. |
| FilterAnalysis.ConjoinTypesSound | lib/query_processing/src/type_constraints.rs:116-130 | A solution that meets both sides meets their conjunction. |
| FilterAnalysis.Conjunction | lib/query_processing/src/pushdowns.rs:472-487 | The loop intersects the terms of variables on both sides and keeps the others. |
| FilterAnalysis.ConjoinValuesExact | lib/query_processing/src/pushdowns.rs:472-487 | A solution meets the conjunction of term lists exactly when it meets both sides. |
| FilterAnalysis.VariablePushdownsSound | lib/query_processing/src/pushdowns.rs:323-394 | A condition that holds binds each listed variable to one of the listed terms. |
| FilterAnalysis.TypeConstraintsSound | lib/query_processing/src/pushdowns.rs:396-470 | A condition that holds binds each constrained variable to a term of an admitted type, when the calls and arithmetic in the equalities it needs have values of the declared types. |
| FilterAnalysis.BranchesRejectExactly | lib/query_processing/src/pushdowns.rs:396-470 | A disjunction or conditional rejects a solution exactly when some variable that both branches constrain is unbound or has a term that neither admits. |
| FilterAnalysis.PlainEqualitiesTyped | lib/query_processing/src/pushdowns.rs:396-470 | Equalities with constants, conditions and type tests need no assumption about functions. |
| FilterAnalysis.ComputedEquality | lib/query_processing/src/type_constraints.rs:132-142 | For an equality that holds, either way round, the constraint is met exactly when the other side's value has its declared type. |
| FilterAnalysis.FunctionEquality | lib/query_processing/src/type_constraints.rs:174-215 | For an equality with a function call that holds, whatever functions return, the constraint is met exactly when the function returned a term of its declared type. |
| FilterAnalysis.StrBeforeRejected | lib/query_processing/src/expressions/functions/str_before_or_after.rs:60-104 | STRBEFORE of a language string returns one; the equality holds but its solution is rejected. |
| FilterAnalysis.ArithmeticEquality | lib/query_processing/src/type_constraints.rs:164-171 | For an equality with arithmetic that holds, the constraint is met exactly when the value is an owl:real. |
| FilterAnalysis.DoubleSumRejected | lib/query_processing/src/type_constraints.rs:164-171 | A sum of doubles holds but is rejected. |
| FilterAnalysis.ExpressionTypeSound | lib/query_processing/src/type_constraints.rs:144-163 | The value of a constant, a condition or a type test has the type that the analysis gives it. |
| FunctionTypes.DeclaredExactly | lib/query_processing/src/type_constraints.rs:174-215 | The declared type of a function admits exactly the terms that a call may equal: unsigned ints for date parts, booleans for tests, strings, IRIs, blank nodes, or literals of the target of a cast. |
| FunctionTypes.Declared | lib/query_processing/src/type_constraints.rs:174-215 | A type is declared for every function of the model and every cast but four. |
| FunctionTypes.CallEquality | lib/query_processing/src/expressions/functions/year_.rs:33-36 | When calls return the types of the evaluator, an equality with a call that holds keeps its solution exactly when the value is no language string of STRBEFORE or STRAFTER. |
| FunctionTypes.EvaluatedFiltersTyped | lib/query_processing/src/pushdowns.rs:258-286 | So filters whose equalities avoid arithmetic, STRBEFORE and STRAFTER satisfy the typing condition of the pushdown theorems. |
| FilterExactness.ValuesReadExactly | lib/query_processing/src/pushdowns.rs:323-394 | Terms are read off exactly the conditions of which every part under OR, AND and IF compares one variable with constants. |
| FilterExactness.CombinedValues | lib/query_processing/src/pushdowns.rs:323-394 | A conjunction says what both sides say; a disjunction or conditional what both branches speak of. |
| FilterExactness.ComparisonsExactly | lib/query_processing/src/pushdowns.rs:323-394 | Of a condition that only compares one variable with constants, the listed terms are exactly those that meet it. |
| FilterExactness.TypesReadExactly | lib/query_processing/src/pushdowns.rs:396-470 | Types are read off exactly the conditions of which every part is an equality with an expression that has a type, or a type test of a variable. |
| FilterExactness.ConjoinedTypes | lib/query_processing/src/pushdowns.rs:396-470 | A conjunction says of each variable what one side alone says of it. |
| FilterExactness.TypeTestExactly | lib/query_processing/src/pushdowns.rs:396-470 | A type test holds exactly when its constraint is met. |
| FilterExactness.EqualityExactly | lib/query_processing/src/type_constraints.rs:132-171 | An equality with a constant, a condition or arithmetic constrains its variable, either way round, to exactly the IRIs, or the literals of the datatype and its subtypes. |
| Pushdowns.Pushdowns.AddPatternsPushdowns | lib/query_processing/src/pushdowns.rs:94-103 | Subject and predicate variables are constrained to IRIs and blank nodes, as the step on values says. |
| Pushdowns.Pushdowns.AddImpl | lib/query_processing/src/pushdowns.rs:109-256 | The state after the walk is the one that the steps on values give, for every pattern and list of variables. |
| Pushdowns.Pushdowns.AddTableColumn | lib/query_processing/src/pushdowns.rs:157-219 | A VALUES column adds its terms and the union of their types; UNDEF cells are skipped. |
| Pushdowns.Pushdowns.AddFilterVariablePushdowns | lib/query_processing/src/pushdowns.rs:258-286 | A filter's findings are conjoined, without the listed variables inside a sub-select. |
| Pushdowns.Pushdowns.LimitToVariables | lib/query_processing/src/pushdowns.rs:288-303 | Exactly the constraints on the given variables are kept. |
| PushdownSoundness.ProjectFilteredInside | lib/triplestore/src/sparql/lazy_graph_patterns/project.rs:31-40 | The rows of a sub-select that pass are those of the inner solutions that pass the constraints limited to the listed variables. |
| PushdownSoundness.BindFilteredInside | lib/triplestore/src/sparql/lazy_graph_patterns/extend.rs:34-45 | Once the variable of a BIND is removed from the constraints, filtering by them before the BIND is filtering after it. |
| PushdownSoundness.RemovedExactly | lib/query_processing/src/pushdowns.rs:29-32 | A solution passes the constraints without a variable exactly when it passes them all once its value for that variable is forgotten. |
| PushdownSoundness.PushdownSound | lib/query_processing/src/pushdowns.rs:109-256 | Whoever meets the constraints so far and carries on a solution of the pattern meets the constraints afterwards. |
| PushdownSoundness.PrefilteredJoin | lib/query_processing/src/pushdowns.rs:105-107 | Dropping right-hand solutions that the constraints of the left side exclude never changes the join. |
| PushdownExactness.PassesExactly | lib/query_processing/src/pushdowns.rs:109-256 | A solution passes the constraints of a pattern exactly when every walked part lists and admits its terms: both sides of joins, the left of OPTIONAL and MINUS, and what lies under FILTER, BIND, modifiers, sub-selects and groups. |
| PushdownExactness.ValuesPassExactly | lib/query_processing/src/pushdowns.rs:109-256 | The same for values on top of earlier constraints: a VALUES column adds to what is known, a filter takes from it, BIND overwrites. |
| PushdownExactness.TypesPassExactly | lib/query_processing/src/pushdowns.rs:109-256 | The same for types, for every pattern: triple patterns exclude literals, columns admit their types, and a filter cancels what constrained its variables before. |
| PushdownTightness.JoinPassesExactly | lib/query_processing/src/pushdowns.rs:118-121 | When the sides of a join touch different variables, a solution passes the join exactly when it passes each side. |
| PushdownTightness.WalkBeside | lib/query_processing/src/pushdowns.rs:109-256 | Constraints on variables that a pattern does not touch stay as they are beside what it adds. |
| PushdownSoundness.PlainFiltersTyped | lib/query_processing/src/pushdowns.rs:258-286 | Patterns whose filters compare with no call and no arithmetic satisfy the typing condition of the two results above, whatever functions return. |
| PushdownSoundness.NothingLostExactly | lib/query_processing/src/pushdowns.rs:105-107 | Filtering keeps the join with every set of right-hand solutions exactly when nothing that includes a solution of the pattern is excluded. |
| OptionalPushdowns.FilterOverOptional | lib/triplestore/src/sparql/lazy_graph_patterns/left_join.rs:44-66 | Of the solutions that meet the constraints, an OPTIONAL has the same with and without filtering its right side by them. |
| OptionalPushdowns.FilterConditionOverOptional | lib/triplestore/src/sparql/lazy_graph_patterns/left_join.rs:44-66 | So a FILTER may push its constraints into the right side of an OPTIONAL below it. |
| OptionalPushdowns.JoinOverOptionalExactly | lib/triplestore/src/sparql/lazy_graph_patterns/left_join.rs:44-66 | Joined with solutions that meet the constraints, filtering the right side loses nothing, and changes nothing exactly when left solutions that lost all their matches join to nothing new. |
| OptionalPushdowns.LeftBindsConstrained | lib/triplestore/src/sparql/lazy_graph_patterns/left_join.rs:44-66 | They join to nothing new when the left side certainly binds the constrained variables that the right mentions. |
| OptionalPushdowns.JoinOverOptionalAdds | lib/triplestore/src/sparql/lazy_graph_patterns/left_join.rs:44-66 | An OPTIONAL whose only match is filtered away joins to a solution that was none. |
| PushdownSoundness.FilterMeets | lib/query_processing/src/pushdowns.rs:258-286 | A filter that holds keeps the constraints met. |
| PushdownLimits.ValuesSoundExactly | lib/query_processing/src/pushdowns.rs:153-220 | The constraints of VALUES exclude nothing that includes one of its rows exactly when no column mixes UNDEF with terms. |
| PushdownLimits.SubselectSoundExactly | lib/query_processing/src/pushdowns.rs:233-253 | Those of a sub-select's triple patterns exclude nothing that includes one of its rows exactly when every constrained variable is listed, or nothing is. |
| PushdownLimits.BindSoundExactly | lib/query_processing/src/pushdowns.rs:135-152 | BIND from a variable copies constraints without loss exactly when every solution before it binds that variable. |
| PushdownLimits.FilterInSubselectExactly | lib/query_processing/src/pushdowns.rs:258-286 | A filter over triple patterns inside a sub-select with a solution loses nothing exactly when it knows values of listed variables only, takes the constraint of every unlisted variable of the patterns away, and otherwise admits every term for unlisted ones. |
| PushdownLimits.FilterValuesExactly | lib/query_processing/src/pushdowns.rs:258-286 | Its values alone lose nothing exactly when all its variables are listed, and then none are pushed down. |
| GroupBuilder.BuildBgp | lib/spargebra/src/parser.rs:482-510 | The loop builds the pattern of the stepwise definition. |
| GroupBuilder.NewJoinSame | lib/spargebra/src/parser.rs:572-600 | Merging or dropping basic graph patterns keeps every solution of the join with its multiplicity. |
| GroupBuilder.BuiltSame | lib/spargebra/src/parser.rs:482-510 | The built pattern has the solutions of the single triples and paths joined, each as often. |
| GroupBuilder.BuiltBags | lib/spargebra/src/parser.rs:482-510 | Every list of the solutions of the built pattern is, as a multiset, a list of the solutions of the join. |
| GroupShape.BuiltShape | lib/spargebra/src/parser.rs:482-510 | The pattern is the left-to-right join of the paths and the longest runs of triples between them, in the order in which they are written. |
| GroupShape.JoinTidy | lib/spargebra/src/parser.rs:572-600 | No join gets an empty basic graph pattern or two basic graph patterns. |
| GroupCounts.BagExists | lib/spargebra/src/parser.rs:482-510 | Every such pattern has a list of its solutions, each as often as it counts. |
| GroupCounts.CountPositive | lib/spargebra/src/parser.rs:482-510 | The solutions that count at least once are the solutions of the pattern. |
| PathCounts.MultiplicityPositive | lib/spargebra/src/parser.rs:417-480 | Two terms are connected by a path exactly when the count of section 18.4 of SPARQL 1.1 Query is positive. |
| GroupCounts.BagCounts | lib/spargebra/src/parser.rs:482-510 | Counting solutions agrees with joining lists of solutions pair by pair. |
| GroupBuilder.PatternList.Add | lib/spargebra/src/parser.rs:417-480 | A verb adds one item with inverses unfolded, or an error that tells triples from paths adds nothing; reifiers are always an error. |
| GroupShape.VariableVerbAnswers | lib/spargebra/src/parser.rs:417-480 | A variable as verb gives one triple, whose solutions bind its ends and the verb to a triple of the graph. |
| GroupBuilder.UnfoldedSame | lib/spargebra/src/parser.rs:417-480 | Unfolding nested inverses keeps every solution as often as the counts of section 18.4 of SPARQL 1.1 Query say. |
| GroupBuilder.UnfoldedAnswers | lib/spargebra/src/parser.rs:417-480 | It keeps the solution set also between blank nodes. |
| GroupBuilder.WrittenGroupSame | lib/spargebra/src/parser.rs:417-510 | Unfolding a whole group and building it gives the written paths joined, with the same multiplicities. |
| PathSyntax.PathRoundTrip | lib/spargebra/src/algebra.rs:70-92 | Parsing a printed path returns the path and what follows it, exactly when no negated property set is empty. |
| PathSyntax.PathBeforeVariable | lib/spargebra/src/parser.rs:1909-1922 | The path is read back also when a variable follows, whose question mark is no operator. |
| PathSyntax.StepRoundTrip | lib/spargebra/src/parser.rs:1893-1966 | A printed step is read back up to the blanks after it. |
| PathSyntax.NegatedSetReads | lib/spargebra/src/parser.rs:1933-1966 | A printed negated property set is read back. |
| PathGrammar.ReadsExactly | lib/spargebra/src/parser.rs:1893-1966 | A whole text is read as a path exactly when the grammar derives it as that path, with or without parentheses, in any spacing, with the keyword a, and with operators grouped as the grammar says. |
| PathGrammar.PathReads | lib/spargebra/src/parser.rs:1893-1966 | What the grammar derives is read as it groups it, when what follows does not carry the path on. |
| PathGrammar.PathDerived | lib/spargebra/src/parser.rs:1893-1966 | Whatever is read as a path is derived by the grammar, up to the blanks after it. |
| PathGrammar.SetMeaning | lib/spargebra/src/parser.rs:1933-1966 | A negated set connects two terms by a step forwards over a property that it does not list, if it lists any, or backwards over one that it does not list as inverse, if it lists any as inverse. |
| TextOrder.TotalOrder | lib/in_memory/src/lib.rs:36-55 | The order of texts is a strict total order. |
| CatStrings.Cmp | lib/in_memory/src/lib.rs:36-55 | The chained byte loop compares keys as their whole texts. |
| CatStrings.SplitUnique | lib/in_memory/src/lib.rs:885-909 | The split is the only way to cut a string after a delimiter, or at its start, with no delimiter left behind. |
| CatStrings.Delimiters | lib/in_memory/src/lib.rs:885-909 | The delimiters are the slash, the hash and the colon. |
| CatStrings.EqualIsFieldwise | lib/in_memory/src/lib.rs:22-55 | For keys that splitting makes, comparing equal is fieldwise equality. |
| CatStrings.EqualNotFieldwise | lib/in_memory/src/lib.rs:22-55 | Keys cut elsewhere can compare equal while their fields differ. |
| CatTree.FindIsLookup | lib/in_memory/src/lib.rs:450-465 | Looking a key up by comparisons finds what the map holds for its text. |
| CatTree.InsertCorrect | lib/in_memory/src/lib.rs:419-428 | Insertion keeps the order and sets the id of one text. |
| CatTree.RemoveCorrect | lib/in_memory/src/lib.rs:366-374 | Removal keeps the order and takes one text out. |
| CatTree.OneOrder | lib/in_memory/src/lib.rs:289-294 | The strings and ids fix the sequence of rows, so both forms sort alike. |
| CatPrefixes.FindThroughPrefixes | lib/in_memory/src/lib.rs:450-461 | Lookup through the prefix table finds what the plain form finds. |
| CatPrefixes.StoredRows | lib/in_memory/src/lib.rs:587-609 | Storing never misses a prefix and joins each key to its whole text. |
| CatDictionary.FitsU32 | lib/in_memory/src/lib.rs:355-364 | A dictionary with distinct 32-bit ids has no more strings than there are ids, so casting a position loses nothing. |
| CatDictionary.RankOrder | lib/in_memory/src/lib.rs:611-619 | Ranks are ordered exactly as the strings are. |
| CatDictionary.NumberedAt | lib/in_memory/src/lib.rs:190-203 | Bulk encoding gives the i-th new string the i-th id from the counter on. |
| CatDictionary.MergeCorrect | lib/in_memory/src/lib.rs:550-585 | Merging keeps old ids, gives new strings exactly the block of ids from the counter on, and keeps ids distinct. |
| CatDictionary.CompactCorrect | lib/in_memory/src/lib.rs:355-364 | Compaction keeps the strings and numbers them from zero in string order, without gaps; a second one changes nothing. |
| CatDictionary.ImageIsCollection | lib/in_memory/src/lib.rs:497-527 | Taking the image of some ids is collecting all the others. |
| CatDictionary.StepInjective | lib/in_memory/src/lib.rs:81-287 | Every allowed operation keeps ids distinct. |
| CatDictionary.Run | lib/in_memory/src/lib.rs:81-287 | Ids stay distinct over every allowed run. |
| CatDictionary.GrowingRunExtends | lib/in_memory/src/lib.rs:134-214 | No id changes over a run of encodes, bulk encodes and merges. |
| CatIndex.DecodeInverts | lib/in_memory/src/lib.rs:450-495 | Decoding inverts encoding, so no two strings share an id. |
| CatIndex.EncodeExactly | lib/in_memory/src/lib.rs:384-388 | A pair keeps both maps inverse exactly when string and id are new, or belong together already. |
| CatIndex.EncodeInto | lib/in_memory/src/lib.rs:419-428 | Inserting into both maps sets one id, and keeps order, form and inverse exactly in those cases. |
| CatIndex.LangStringExactly | lib/representation/src/cats.rs:193-215 | Value and language of a new language string stay apart exactly when they differ. |
| CatIndex.BulkExactly | lib/in_memory/src/lib.rs:190-203 | The two maps that bulk encoding computes are inverse exactly when no new string is listed twice. |
| CatIndex.RankAt | lib/in_memory/src/lib.rs:611-619 | The position of a string in the ordered map is its rank. |
| CatLoops.PlanMerge | lib/in_memory/src/lib.rs:550-585 | The passes of a merge number the missing strings in order and remap every id of the other dictionary to the merged id of its string. |
| CatLoops.NumberedIsMerged | lib/in_memory/src/lib.rs:555-577 | Numbering the missing strings in order is numbering them by rank. |
| CatLoops.RemapInjective | lib/in_memory/src/lib.rs:578-584 | A remap onto distinct ids is injective, and decoding a remapped id gives the original string. |
| CatLoops.RenumberedIsCompacted | lib/in_memory/src/lib.rs:355-364 | Giving entries their positions is compaction. |
| CatLoops.TakeOut | lib/in_memory/src/lib.rs:366-371 | The first loop of a collection takes exactly the given ids out and lists their keys. |
| CatLoops.RemoveAll | lib/in_memory/src/lib.rs:371-374 | The second loop takes exactly the listed strings out and keeps the order. |
| CatReads.InnerJoinReEnc | lib/in_memory/src/lib.rs:529-548 | The pairs are exactly the different ids that both dictionaries give a common string. |
| CatReads.GlobalRankMap | lib/in_memory/src/lib.rs:611-619 | Each requested id that occurs is mapped to the number of smaller strings, and no other id. |
| CatReads.CompactedRanks | lib/in_memory/src/lib.rs:355-364 | After compaction the rank of a string is its id. |
| CatReads.GetSpacedStrings | lib/in_memory/src/lib.rs:301-318 | The ranges start at the smallest string, end at the largest, follow each other without gap, and hold at most stride + 1 strings. |
| CatReads.RowsRoundTrip | lib/in_memory/src/lib.rs:320-351 | Building from the stored rows gives every string its id again. |
| CatReads.LastRowWins | lib/in_memory/src/lib.rs:652-660 | Of several rows with one string, the last gives the id. |
| CatReads.OneRowOrder | lib/in_memory/src/lib.rs:587-609 | Both forms store the same rows. |
| CatMaps.UncompressedCatMaps.FromOrderedVec | lib/in_memory/src/lib.rs:652-660 | Rows give their last ids, with inverse maps when the ids are distinct. |
| CatMaps.UncompressedCatMaps.CompactIds | lib/in_memory/src/lib.rs:664-669 | The plain form is compacted as the assignment is. |
| CatMaps.UncompressedCatMaps.GarbageCollectCats | lib/in_memory/src/lib.rs:864-873 | Exactly the given ids and their strings go. |
| CatMaps.UncompressedCatMaps.EncodeNewString | lib/in_memory/src/lib.rs:700-704 | One id is set in both maps, which stay inverse exactly for a new or known pair. |
| CatMaps.UncompressedCatMaps.MaybeEncodeStr | lib/in_memory/src/lib.rs:706-709 | Encoding finds the assigned id, or none. |
| CatMaps.UncompressedCatMaps.MaybeDecode | lib/in_memory/src/lib.rs:739-741 | Decoding finds the string with that id, or none. |
| CatMaps.UncompressedCatMaps.ImageOf | lib/in_memory/src/lib.rs:743-771 | The image is nothing when no given id occurs, and otherwise the part with the given ids. |
| CatMaps.UncompressedCatMaps.MergeWith | lib/in_memory/src/lib.rs:794-829 | The plain form is merged as the assignment is, with the new counter and a total remap. |
| CatMaps.UncompressedCatMaps.ToRecordBatch | lib/in_memory/src/lib.rs:831-848 | The rows are stored in order. |
| CatMaps.PrefixCompressedCatMaps.FromOrderedVec | lib/in_memory/src/lib.rs:320-351 | As for the plain form, with every prefix in the table. |
| CatMaps.PrefixCompressedCatMaps.CompactIds | lib/in_memory/src/lib.rs:355-364 | The compressed form is compacted as the assignment is, and keeps its prefixes. |
| CatMaps.PrefixCompressedCatMaps.GarbageCollectCats | lib/in_memory/src/lib.rs:366-374 | Exactly the given ids and their strings go; prefixes stay. |
| CatMaps.PrefixCompressedCatMaps.EncodeNewPrefixCompressedString | lib/in_memory/src/lib.rs:384-388 | One id is set in both maps and the prefix is known afterwards. |
| CatMaps.PrefixCompressedCatMaps.EncodeNewString | lib/in_memory/src/lib.rs:415-448 | The same from the whole string. |
| CatMaps.PrefixCompressedCatMaps.MaybeEncodeStr | lib/in_memory/src/lib.rs:450-461 | Encoding finds the assigned id, or none. |
| CatMaps.PrefixCompressedCatMaps.MaybeDecode | lib/in_memory/src/lib.rs:493-495 | Decoding finds the string with that id, or none. |
| CatMaps.PrefixCompressedCatMaps.ImageOf | lib/in_memory/src/lib.rs:497-527 | The image has the given ids and the prefixes it needs. |
| CatMaps.PrefixCompressedCatMaps.MergeWith | lib/in_memory/src/lib.rs:550-585 | The compressed form is merged as the assignment is. |
| CatMaps.PrefixCompressedCatMaps.ToRecordBatch | lib/in_memory/src/lib.rs:587-609 | The rows are those of the whole strings in order. |
| CatRuns.CatMapsInMemory.EncodeAllNewNonDuplicatedStrings | lib/in_memory/src/lib.rs:190-203 | The strings without an id get consecutive ids in list order, and the counter moves past them; both maps stay inverse exactly when none of them is listed twice. |
| CatRuns.CatMapsInMemory.Counter | lib/in_memory/src/lib.rs:473-475 | One past the largest id, on 32 bits: above all ids exactly when the largest 32-bit id is not taken. |
| CatRuns.Apply | lib/in_memory/src/lib.rs:81-287 | One operation on either form does to the assignment what the operation says. |
| CatRuns.Replay | lib/in_memory/src/lib.rs:81-287 | A run on either form ends with the assignment that the operations give. |
| CatRuns.FormsAgree | lib/in_memory/src/lib.rs:81-287 | Both forms with one assignment answer every lookup alike and store the same rows. |
| CatRuns.ReplayBoth | lib/in_memory/src/lib.rs:81-287 | The same run from nothing leaves both forms with the same answers. |
| TemplateTypes.LubDescends | lib/templates/src/dataset.rs:401-466 | Combining types keeps list depth and invents no name; the result is the left type or weighs less. |
| TemplateTypes.LubAbsorbs | lib/templates/src/dataset.rs:401-466 | Combining with the same right type again changes nothing. |
| TemplateTypes.UpdateAbsorbs | lib/templates/src/dataset.rs:373-398 | Repeating an update is a no-op. |
| TemplateTypes.LubSymmetricExactly | lib/templates/src/dataset.rs:408-458 | Both orders combine to the same type, or neither combines, exactly when no list meets rdfs:Resource. |
| TemplateTypes.LubIsSupertypeExactly | lib/templates/src/dataset.rs:408-418 | Of two related names the result is the supertype exactly when that comes first in string order. |
| TemplateTypes.LubExactly | lib/templates/src/dataset.rs:401-466 | Types combine exactly when, at equal depth, their inner types are equal, both name IRIs, or are related or rdfs:Resource, or when the right one is rdfs:Resource in fewer lists; the result has the layers of the left one, non-empty where either is, around the smaller name; an error names the parts that do not combine. |
| TemplateTypes.UpdateExactly | lib/templates/src/dataset.rs:373-398 | An update gives the parameter the type that is asked for, or the combined one, fails exactly when the types do not combine, and tells whether something changed. |
| TemplateMeaning.RequiredExactly | lib/templates/src/dataset.rs:329-361 | The type that a use asks for admits exactly what suits the called parameter: of an expanded list each element, and an empty list only where the parameter is optional. |
| TemplateMeaning.CombinedAdmitsBoth | lib/templates/src/dataset.rs:401-466 | Types with one inner type combine to a type that admits what both admit. |
| TemplateInference.InferTemplateTypes | lib/templates/src/dataset.rs:302-371 | Calls resolve; either all uses are served and nothing changes, or the first use that is not served changes one parameter; every error is justified. |
| TemplateDatasets.UpdateDescends | lib/templates/src/dataset.rs:373-398 | A changed parameter had no type, or its type weighs less at the same depth. |
| TemplateDatasets.ChangeDescends | lib/templates/src/dataset.rs:302-371 | A pass that changes a template lowers its measure and changes only types. |
| TemplateDatasets.SumsDescend | lib/templates/src/dataset.rs:196-219 | Lowering the measure of one template lowers that of the dataset. |
| TemplateDatasets.InferOne | lib/templates/src/dataset.rs:188-195 | A template is inferred against the others and put back: the dataset is unchanged exactly when all its uses were served; otherwise the first that was not has changed one parameter, and the measure is lower. |
| TemplateDatasets.AffectsMap | lib/templates/src/dataset.rs:172-184 | The map lists exactly the templates that call each name. |
| TemplateDatasets.FirstPass | lib/templates/src/dataset.rs:186-195 | The first pass looks at every template in order and lists those that changed; every call resolves, types only refine, and nothing changes exactly when every template is settled. |
| TemplateDatasets.Round | lib/templates/src/dataset.rs:197-211 | A round looks at each affected template once, each look settles it or changes one parameter, and next come exactly the callers of those that changed; it lowers the measure, or changes nothing and leaves no template to look at. |
| TemplateDatasets.Rounds | lib/templates/src/dataset.rs:196-219 | Rounds follow one another until no template is left to look at, or the bound is passed. |
| InferenceRuns.LookUnique | lib/templates/src/dataset.rs:302-371 | What looking at a template does is determined by the dataset. |
| InferenceRuns.LookChanges | lib/templates/src/dataset.rs:302-371 | It changes the dataset exactly when the template has a use that is not served. |
| InferenceEnds.SettledDepends | lib/templates/src/dataset.rs:302-371 | Whether all uses of a template are served depends on it and the templates that it calls. |
| TemplateDatasets.TemplateDataset.InferTypes | lib/templates/src/dataset.rs:161-225 | Inference ends without any bound on its rounds; on success the dataset is the result of a first pass and of rounds over the callers of what changed, it is the one that was given exactly when that was settled and has a lower measure otherwise, only types have changed, without a new name in them, each name has one template and every call resolves; an error is justified by some template and leaves no templates. |
| InferenceEnds.EndsSettled | lib/templates/src/dataset.rs:186-219 | When inference ends because nothing is left to look at, all uses of a template are served if no round has changed it, and the first pass changed it or none of its callees. |
| InferenceEnds.EndsSettledExactly | lib/templates/src/dataset.rs:186-219 | So it ends with all uses served exactly when those of the other templates are. |
| InferenceEnds.CallerMissed | lib/templates/src/dataset.rs:186-219 | In a chain of three templates listed from the caller on, the first keeps a parameter without a type that its call would give it. |
| TemplateDatasets.CallErrorAtStart | lib/templates/src/dataset.rs:302-335 | An error about a call is justified by the templates as they were given. |
| StottrSyntax.TermRoundTrip | lib/templates/src/ast.rs:553-574 | Parsing a printed term returns its normal form, and fails exactly when a constant is missing. |
| StottrSyntax.ConstantRead | lib/templates/src/parsing.rs:284-300 | The constant rule reads a printed term exactly when the term amounts to a constant. |
| StottrSpelling.WordsRead | lib/templates/src/parsing.rs:294-300 | Of all words, only true, false and the letter a in either case are read as terms: two booleans and rdf:type. |
| StottrSpelling.VariablesRead | lib/templates/src/parsing.rs:282 | A variable is read with either mark. |
| StottrSpelling.ExpandedRead | lib/templates/src/parsing.rs:178-180 | An expanded argument may have blanks before its term. |
| StottrSpelling.ExpandersRead | lib/templates/src/parsing.rs:221-227 | An expander is read exactly from its keyword in any case, blanks and a bar. |
| StottrSpelling.TypesReadExactly | lib/templates/src/parsing.rs:260-280 | A type is read exactly from its keywords in any case, with any blanks between the tokens. |
| StottrSpelling.ReversedMarksRead | lib/templates/src/parsing.rs:251-254 | The marks of an optional parameter that is no blank node may come in either order. |
| StottrGrammar.TermReadsExactly | lib/templates/src/parsing.rs:182-192 | A text is read as a term exactly when the grammar derives it as that term: lists nested in any way, with any blanks, and lists without variables as constants. |
| StottrGrammar.ConstantReads | lib/templates/src/parsing.rs:284-300 | A derived term is read as a constant exactly when it has no variable. |
| StottrGrammar.InstanceReadsExactly | lib/templates/src/parsing.rs:168-180 | A text is read as an instance exactly when the grammar derives it as that instance, with any blanks and expander keywords in any case. |
| StottrGrammar.PlainParameterReads | lib/templates/src/parsing.rs:239-244 | A parameter that is not optional is read as it is declared, with any blanks, types in any case and a default value. |
| StottrGrammar.OptionalParameterReads | lib/templates/src/parsing.rs:245-250 | So is an optional one, unless a type keyword directly follows its question mark. |
| StottrGrammar.KeywordTakenForVariable | lib/templates/src/parsing.rs:231-244 | Such a keyword is taken for the name of a variable. |
| StottrDeclarations.NormalIsFinal | lib/templates/src/parsing.rs:182-192 | A normal form is read back as itself. |
| StottrDeclarations.ArgumentRoundTrip | lib/templates/src/ast.rs:483-493 | Parsing a printed argument returns it with its term in normal form. |
| StottrDeclarations.InstanceRoundTrip | lib/templates/src/ast.rs:444-463 | Parsing a printed instance returns it with its arguments in normal form, and fails exactly when a constant is missing. |
| StottrDeclarations.TypeRoundTrip | lib/templates/src/ast.rs:264-292 | A printed type is read back exactly, and fails exactly when a type inside it is missing. |
| StottrDeclarations.ParameterRoundTrip | lib/templates/src/ast.rs:141-168 | A printed parameter is read back exactly when none of its types and constants is missing. |
| PathEntries.NameRead | lib/representation/src/query_context.rs:73-264 | Each of the 62 names tells its variant, is not empty and has no hyphen and no parenthesis. |
| QueryContext.PrintTold | lib/representation/src/query_context.rs:73-264 | Different entries have different texts, numbers included. |
| QueryContext.FromPath | lib/representation/src/query_context.rs:456-478 | A context built from a path has the path's text. |
| QueryContext.PathsTold | lib/representation/src/query_context.rs:456-478 | Different paths have different texts. |
| QueryContext.IsInScope | lib/representation/src/query_context.rs:273-301 | The loops decide scope from the first position at which the paths differ. |
| QueryContext.CommonPath | lib/representation/src/query_context.rs:273-301 | Scope is unchanged by a common path in front of both. |
| QueryContext.FullIsPartial | lib/representation/src/query_context.rs:294-299 | Full scope is partial scope. |
| QueryContext.AboveIsInScope | lib/representation/src/query_context.rs:278-286 | A position and one above it are in scope of each other, whatever lies between. |
| ContextScope.ExposesExactly | lib/representation/src/query_context.rs:308-373 | Besides basic graph patterns, exactly those entries expose variables that lead to a part of a pattern whose bindings show in its solutions. |
| ContextScope.MaintainsExactly | lib/representation/src/query_context.rs:375-445 | Exactly the entries into expressions, save the condition of an OPTIONAL, keep full downward scope. |

## Left out

- Polars expression building, Arrow and Parquet, the SPARQL client, file reading, the Python and R interfaces, locks and threads: plumbing over libraries that are not modelled. The parallel iterations over the dictionary are sequential loops.
- Shared ownership of strings and prefixes: a prefix is its text, so that two keys share one allocation is not modelled.
- Hash-map and hash-set iteration order: loops over such collections take any order; the types of a VALUES column are joined in row order, which fixes the nesting of the disjunction only.
- `Pushdowns::add_from_solution_mappings`: it reads constraints off materialised columns.
- Built-in functions, aggregate functions of the values of a group, slices, PVALUES and remote endpoints are an arbitrary interpretation. Nothing is assumed of it, except that in the pushdown theorems a call that a pushed-down filter compares with a variable returns a term of its declared type, where the filter holds; a service sees the interpretation's answer for its IRI.
- Substitution.SubstitutionLemma: sub-selects and slices must not mention a bound variable, groups only in certainly bound keys, paths must meet the condition of `PathReplaceableExactly`, and for FILTER, OPTIONAL, BIND and MINUS a condition on certainly bound variables is sufficient; the exact conditions for one operator over replaceable parts are those of the lemmas named above.
- PushdownExactness.PassesExactly: BIND must copy a variable of its own group; copied knowledge from elsewhere is not covered.
- PushdownSoundness.PushdownSound: sub-selects may constrain only what they project, VALUES columns are full or empty, BIND copies certainly bound variables only, and computed equalities have values of the declared types; the exact lemmas above show why.
- QueryBindings.OptionalKeptExactly: replaced variables of the condition must be certainly bound by the left side.
- FilterAnalysis.TypeConstraintsSound: a disjunction or conditional needs the condition on one branch that holds; `ComputedEquality` and `BranchesRejectExactly` are exact.
- EXISTS is compatibility with a solution of its pattern, not the substitution of section 18.6 of SPARQL 1.1 Query.
- Scope.ScopeSound: the name of a SERVICE clause must be reported by its inner pattern; `ServiceNameScope` says what happens otherwise.
- Aggregates range over the set of solutions of a group: a solution that a pattern yields several times counts once, so COUNT(*) and COUNT(DISTINCT *) agree in the model.
- GroupBuilder.BuiltSame: multiplicities are stated for patterns without blank nodes.
- Datatype IRIs that the subtype relation names are an enumeration with one case for all other IRIs; template types keep IRIs as text and take the naming of datatypes as a parameter.
- `PossibleTypes` is a value; its `and` and `or` return a new one instead of replacing a field.
- The characters of IRIs, literals, variables and blank-node labels: printing and parsing work on tokens, with blanks kept where they matter. Prefix abbreviation, escapes, and a keyword that is the beginning of a longer word belong to that level.
- StottrDeclarations.ParameterRoundTrip: the text after the parameter must not begin with a default value, and blanks after it may be consumed.
- Whole stOTTR templates: the printer does not handle annotation lists.
- Printing and parsing of expressions: arithmetic is printed without parentheses.
- TemplateDatasets.TemplateDataset.InferTypes: that inference ends with all uses served is not claimed, because it is false (`InferenceEnds.CallerMissed`); `InferenceEnds.EndsSettledExactly` is about runs that the bound on rounds does not cut short.
- The bound of 10000 rounds is the parameter `maximum`; without it the proof covers every number of rounds.
- CatRuns.CatMapsInMemory.Counter: addition wraps, as in a release build; a debug build stops instead. Elsewhere counters are required to stay below the limit.
- `height`, `range_set`, `contains_str`, `contains_u32`, `is_empty` and `decode_batch` of the dictionary only read one field.
