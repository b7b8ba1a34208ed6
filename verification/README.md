# PolarGraph query engine: a verified model

PolarGraph is a bitemporal knowledge-graph database. This project models its
query engine and the two stateful server components beside it, and proves what
each is for:

- **Store and values** (`Values`, `Store`): property values and the byte
  encoding behind value look-ups; a snapshot as a list of live quads; index
  choice and execution.
- **Conjunctive queries** (`Datalog`, `Semantics`, `PatternRows`, `Joins`,
  `PatternOrder`, `Evaluator`): patterns over node, predicate, value, edge and graph variables.
  The evaluator pushes the bindings so far into each scan; the proofs show that
  this computes the natural join of the patterns, in any order, with the same
  multiplicities.
- **Reachability** (`Reachability`, `Closure`): the bounded breadth-first search
  against walks, and the transitive closure by rules against the same walks.
- **Recursive rules** (`Rules`, `Passes`, `Yielding`, `FixedPoint`,
  `Termination`, `Leaks`, `EdgeHeads`, `ValueRules`): what a program means, the passes of the
  fixed-point loop, the least model it leaves, when it ends and when it never does.
- **Graph scoping** (`Scoping`, `ScopingLimits`, `GraphVariables`): rewriting a
  program to named graphs against running it on the store cut down to them, and
  exactly how far the two agree; a query scoped to a graph variable.
- **Cypher** (`Cypher`, `CypherCompiler`, `CypherMeaning`, `CypherNames`,
  `CypherRun`): what a MATCH/WHERE query means on a store, the compiler, and the
  whole run (compile, derive, evaluate, filter) against that meaning. `Merge`:
  MERGE, its commit, and the same MERGE again.
- **Plans and results** (`Explain`, `Aggregation`, `Paging`, `PageOrder`): the static plan
  against the index the evaluator chooses; grouping, sorting and paging.
- **Server state** (`TypeIndex`, `RateLimit`): the incrementally maintained
  `rdf:type` index over the life of a server, against a rebuild; the token bucket
  with lazy cleanup against a bucket of its own for each client.

`Sequences` holds the list operations the rest is written with.

Loops of the source are loops here, tied to specification functions on the
sequences, sets and maps they build. Sets that the source iterates in hash order,
and the rows of a scan, come to the loops in an arbitrary order, so those results
are stated as multisets. Every draw of a fresh edge id, the clock readings of the rate
limiter and the commits that land while the index reads its log are inputs.

## What turned out false, and exactly when it holds

- *The fixed point terminates on every input.* Every read of a derived pair draws
  a new edge id. The loop ends, within heads times nodes squared passes, whenever
  no head variable names the edge of a pattern that may read derived facts
  (`Termination.ContainedEnds`); predicate variables, stored heads and edge
  variables that stay in the body do no harm. With fresh ids, and for rules that
  look at the edge of a derived fact nowhere else than in their head, it ends
  exactly when no rule with such a head fires in the least model of the other
  rules, and then returns that model (`EdgeHeads.EndsIffEdgeHeadsIdle`). The other
  rules can be run beforehand to find out: for them alone the loop ends
  (`EdgeHeads.StilledHasModel`). Otherwise each such rule that yields once adds a
  fact in every later pass (`Leaks.EdgeHeadNeverSettles`).
- *`reachable_from` returns every node at the end of a walk.* Its rule's head is
  the fixed name `reachable`; following a predicate of that name it returns the
  direct neighbours only. That is the full answer exactly when the neighbours'
  edges lead to neighbours again (`Closure.ReservedNameExact`).
- *Scoping is restriction.* Only rule heads are kept out of the rewriting. For
  one graph, and all queries of union patterns that put no predicate variable on
  a derived predicate, it is restriction exactly when every seeded predicate also
  heads a rule and the graph stores no derived name (`ScopingLimits.ScopingExact`).
  For all queries of union patterns, predicate variables anywhere, it is
  restriction exactly when nothing is derived and the graph stores no derived name
  (`ScopingLimits.PredicateVariablesExact`). For several graphs the
  rows are the same up to repetition exactly when copies of a triple in different
  graphs agree on edge id and value (`ScopingLimits.SeveralGraphsExact`).
- *The rows of a Cypher MATCH are its matches.* When no variable is written like
  the name `__anon_N` of one of the query's anonymous positions, exactly when no row comes back or every node that stands alone
  without label or property is constrained elsewhere in the query, and the store
  has a node if such a node is anonymous (`CypherRun.RowsExact`). `MATCH (n)`
  returns one row that leaves `n` unbound (`CypherRun.LoneNodeIsUnbound`), and
  `MATCH (__anon_0)-[:p]->()` is right exactly when every node with a `p` edge has
  one to itself (`CypherRun.WrittenAnonymousName`).
- *Equal encodings mean equal values.* Between values whose tags and datatypes are
  free of NUL, exactly up to the stated folds (`Values.EncodingIsCanonical`). A
  single value is pinned down by its encoding exactly when it has no NUL where the
  separator could also be read (`Values.EncodingIdentifies`). Values that compare
  equal encode equally, except vectors: those only when they are the same bit for
  bit (`Values.EqualVectorsEncode`), so exactly the vectors with a zero component
  and no NaN have an equal with another encoding
  (`Values.VectorsWithTwoEncodings`).
- *A repeated MERGE creates nothing.* Exactly when an id is given, or there is a
  label or property to look for and no resolved name carries two values
  (`Merge.RemergeExact`): distinct keys are sufficient, not necessary.
- *ORDER BY sorts.* The comparison is an order on a column exactly when its
  values are of one comparable type or all tie
  (`Paging.ComparisonIsOrderExactly`); a null average among numbers is enough to
  break it.
- *The plan names the index that will be used.* Exactly when the step has no
  literal subject, no earlier predicate variable for its predicate, and no end
  bound so far only as a graph or an edge (`Explain.PlanForetellsIndex`,
  `Explain.EdgeVariablesAreUnforeseen`).

The header of `datalog.rs` calls the evaluation semi-naive; the loop is naive
iteration in which a later rule of a pass sees what earlier rules added, and
that is what is modelled.

## Model

| member | source | states |
|---|---|---|
| Values.EncodingIsCanonical | crates/polargraph-core/src/value.rs:37-87 | Canonical bytes agree exactly for values that are the same up to language-tag case, signed zero and NaN, when tags and datatypes hold no NUL byte |
| Values.EncodingIdentifies | crates/polargraph-core/src/value.rs:37-87 | A value shares its encoding with no other, beyond the folds, iff it has no NUL in either part of a typed literal, in a language tag, or in text behind bytes that could end a lower-cased tag |
| Values.EqualValuesEncodeEqually | crates/polargraph-core/src/value.rs:32-95 | Values that Rust's `==` identifies have the same encoding, vectors excepted, as literal look-ups by hash need |
| Values.EqualVectorsEncode | crates/polargraph-core/src/value.rs:37-87 | Vectors equal under `==` have the same encoding iff they are identical bit for bit |
| Values.VectorsWithTwoEncodings | crates/polargraph-core/src/value.rs:6-87 | A vector is equal under `==` to one with another encoding iff it has a zero component and no NaN, so a literal look-up by hash misses it |
| Values.SettledEquality | crates/polargraph-core/src/value.rs:6-30 | `==` is reflexive and separates distinct representations exactly on values with no NaN and no negative zero |
| Values.TagsFoldCase | crates/polargraph-core/src/value.rs:37-87 | Texts differing in their tags alone encode alike iff the tags agree up to the case of ASCII letters |
| Values.FloatsFold | crates/polargraph-core/src/value.rs:37-87 | Floats encode alike iff they are the same bits, both zero, or both without a number |
| Values.SingleBits | crates/polargraph-core/src/value.rs:6-30 | Which bits of a vector's component are zero or no number |
| Values.Layout | crates/polargraph-core/src/value.rs:37-87 | Type byte and payload of every kind of value, numbers read back from their digits |
| Store.Snapshot.EvaluateIsFilter | crates/polargraph-query/src/eval.rs:191-250 | Whichever of the eight indexes is chosen, scan plus residual check return exactly the visible triples matching every bound slot, each as often as the union holds it |
| Store.Snapshot.UnionShows | crates/polargraph-storage/src/store.rs:1790-1815 | The union shows a triple iff some graph holds it and no lower graph holds one of the same key |
| Store.Snapshot.UnionRepresents | crates/polargraph-storage/src/store.rs:1790-1815 | Every stored subject, predicate and object is represented in the union view |
| Store.Snapshot.UnionOnce | crates/polargraph-storage/src/store.rs:1790-1815 | No two triples of the union view share subject, predicate and object |
| Semantics.TripleMeaning | crates/polargraph-query/src/datalog.rs:262-374 | Substituting, scanning and extending accept a triple and yield a solution exactly when that solution is the old one plus what the triple forces |
| Semantics.QuadMeaning | crates/polargraph-query/src/datalog.rs:397-457 | The same for a quad read through a graph term, the graph variable included |
| Semantics.MatchPatternMeaning | crates/polargraph-query/src/datalog.rs:421-460 | Matching one pattern yields exactly the contributions of the quads this read sees and that agree with it, derived ones under the ids drawn for the read |
| Semantics.HopPatternMeaning | crates/polargraph-query/src/datalog.rs:507-557 | A bounded transitive pattern yields exactly the contributions of the walks of at most that many edges |
| Semantics.StepSees | crates/polargraph-query/src/datalog.rs:489-579 | Pushing bindings into the index neither loses nor adds an extension, for every kind of pattern, derived facts included |
| PatternRows.PairRows | crates/polargraph-query/src/datalog.rs:292-374 | The rows of `?s p ?o` over storage: both nodes for a relation, subject and value for a property with any value but a vector |
| PatternRows.PropertyRow | crates/polargraph-query/src/datalog.rs:292-374 | A visible property gives the row with its subject and value iff the value is no vector |
| PatternRows.DerivedRows | crates/polargraph-query/src/datalog.rs:1003-1029 | Over a predicate held in memory, one row per derived pair, whatever storage holds under the name |
| PatternRows.LiteralRows | crates/polargraph-query/src/datalog.rs:262-374 | A literal object finds exactly the subjects of the properties with that value |
| PatternRows.OpenRows | crates/polargraph-query/src/datalog.rs:397-460 | With subject, predicate, object, edge and graph all variables, one row per quad of a named graph |
| Joins.EvaluationIsJoin | crates/polargraph-query/src/datalog.rs:489-579 | A solution is returned iff one visible match per pattern agrees with it and it binds nothing else: the natural join, with no mention of order, as long as no predicate variable can come to name a derived predicate unforeseen and no edge of a derived fact is named |
| Yielding.SolveSound | crates/polargraph-query/src/datalog.rs:489-579 | With edges of derived facts named as well, every row returned is an answer of the query with that id |
| Yielding.SolveComplete | crates/polargraph-query/src/datalog.rs:489-579 | and every answer is returned up to edge ids that no other slot mentions |
| PatternOrder.StepIsJoin | crates/polargraph-query/src/datalog.rs:309-374 | Extending a solution by a pattern is merging it with the rows the pattern yields on its own, duplicates included |
| PatternOrder.OrderIndependent | crates/polargraph-query/src/datalog.rs:489-579 | Every permutation of the patterns gives the same multiset of solutions |
| Evaluator.EvaluateHybrid | crates/polargraph-query/src/datalog.rs:1003-1029 | Reads the derived pairs of a derived predicate filtered by the bound ends, under the ids drawn for this read, and any other pattern from storage |
| Evaluator.ExtendByPattern | crates/polargraph-query/src/datalog.rs:421-460 | The match loop returns the specified extensions of one solution, with multiplicity |
| Evaluator.ExtendByHops | crates/polargraph-query/src/datalog.rs:507-557 | The start/target loops return the specified extensions of one solution, with multiplicity |
| Evaluator.EvaluateSolutions | crates/polargraph-query/src/datalog.rs:489-579 | The pattern loop, early exit included, returns the specified solutions with multiplicity |
| Reachability.ReachWithinMeaning | crates/polargraph-query/src/datalog.rs:862-898 | A node is reached within `k` hops iff a walk of length 1 to `k` leads to it |
| Reachability.Round | crates/polargraph-query/src/datalog.rs:881-892 | One round adds exactly the successors of the frontier and leaves the new ones as the next frontier |
| Reachability.ReachableFromHops | crates/polargraph-query/src/datalog.rs:862-898 | The search, stopping early on an empty frontier, visits exactly the nodes at the end of a walk of length 1 to `max_hops` |
| Reachability.EnoughHops | crates/polargraph-query/src/datalog.rs:862-956 | With as many hops as the store has target nodes the bounded search finds every reachable node |
| Rules.LeastModelUnique | crates/polargraph-query/src/datalog.rs:796-845 | A program has at most one least model |
| Rules.RuleOrderIrrelevant | crates/polargraph-query/src/datalog.rs:811-836 | The least model depends on the set of rules, not on their order or repetition |
| Rules.FiresGrows | crates/polargraph-query/src/datalog.rs:1003-1029 | Rule bodies are monotone in the derived facts, and indifferent to the edge ids drawn |
| Yielding.YieldsWhatFires | crates/polargraph-query/src/datalog.rs:824-832 | Evaluating a rule body yields exactly the pairs the rule derives, edge variables on derived predicates included as long as nothing else mentions them |
| Termination.ContainedYields | crates/polargraph-query/src/datalog.rs:824-832 | Without a drawn id in a head, a rule yields pairs of nodes of the store and the facts so far only |
| FixedPoint.InsertHeads | crates/polargraph-query/src/datalog.rs:824-832 | Adds exactly the head pairs of the solutions and reports whether any was new |
| FixedPoint.ApplyRule | crates/polargraph-query/src/datalog.rs:813-833 | Applying one rule adds to its head exactly the pairs its body yields, over the facts so far and under the ids drawn |
| FixedPoint.ExecuteRecursive | crates/polargraph-query/src/datalog.rs:796-845 | On every program whose run ends the loop stops after the first pass that adds nothing, and for admissible programs what it returns is then the least model of seeds and rules |
| ValueRules.SharedObjectsDerived | crates/polargraph-query/src/datalog.rs:796-995 | For h(x, y) :- p(x, c), p(y, c) the loop ends and leaves exactly the pairs of nodes with a common `p` object: a node, or a value other than a vector |
| Termination.ContainedEnds | crates/polargraph-query/src/datalog.rs:796-845 | The loop ends on every program where no drawn id can reach a head, after at most one pass more than heads times nodes squared, with all facts over the nodes of store and seeds |
| Termination.AdmissibleIsContained | crates/polargraph-query/src/datalog.rs:796-845 | Programs the least-model reading covers are among those |
| EdgeHeads.EndsIffEdgeHeadsIdle | crates/polargraph-query/src/datalog.rs:796-845 | With fresh ids the loop ends iff no rule with the edge of a derived fact in its head fires in the least model of the other rules, and if it ends returns that model |
| EdgeHeads.StilledHasModel | crates/polargraph-query/src/datalog.rs:796-845 | The other rules have a least model, and for them alone the loop ends, so the condition can be checked before the call |
| Leaks.FreshDrawsExist | crates/polargraph-query/src/datalog.rs:1003-1029 | Every program on every store has a run in which no drawn id is in use |
| Leaks.EdgeHeadNeverSettles | crates/polargraph-query/src/datalog.rs:811-844 | Any rule with the edge of a derived fact in its head, once it yields after the first pass, adds a fact in every later pass |
| Closure.ReachableFrom | crates/polargraph-query/src/datalog.rs:900-956 | By rules: exactly the nodes at the end of a walk of length at least one, or for the reserved predicate exactly the direct neighbours |
| Closure.ReservedNameExact | crates/polargraph-query/src/datalog.rs:913-941 | For the reserved predicate the answer is still complete iff every neighbour's neighbour is a neighbour |
| Closure.ClosureMeaning | crates/polargraph-query/src/cypher.rs:2656-2713 | The two rules per predicate derive (a, b) iff a walk of length at least one leads from a to b, many predicates at once |
| Scoping.ScopeToGraph | crates/polargraph-query/src/datalog.rs:379-391 | In place, exactly the union patterns over underived predicates of the query and of every body take the graph |
| Scoping.ScopingIsRestriction | crates/polargraph-query/src/datalog.rs:379-457 | Scoped to one graph, rules derive from the whole store what plain rules derive from the graph alone, and the query returns the same rows equally often, predicate variables included |
| ScopingLimits.ScopingExact | crates/polargraph-query/src/datalog.rs:379-457 | For all queries without a predicate variable on a derived predicate, scoping to one graph is restriction iff every seeded predicate heads a rule and the graph stores no derived name |
| ScopingLimits.PredicateVariablesExact | crates/polargraph-query/src/datalog.rs:379-457 | For all queries of union patterns, predicate variables anywhere, scoping to one graph is restriction iff nothing is derived and the graph stores no derived name |
| GraphVariables.GraphVariableMeaning | crates/polargraph-query/src/datalog.rs:379-457 | Without rules, a query scoped to a graph variable returns exactly the rows it returns on some named graph alone with the variable bound to that graph's node |
| ScopingLimits.ScopingToSeveralGraphs | crates/polargraph-query/src/datalog.rs:379-457 | For any number of graphs, scoped rules derive the same, and the scoped query has the same rows up to repetition, when copies of a triple agree |
| ScopingLimits.SeveralGraphsExact | crates/polargraph-query/src/datalog.rs:379-457 | All queries have the same rows scoped and restricted, up to repetition, iff copies of a triple in the named graphs agree |
| CypherCompiler.Compiler.NodeBinding | crates/polargraph-query/src/cypher.rs:2741-2772 | A lone node emits its label pattern, or a scan of its first property, and its filters |
| CypherCompiler.Compiler.Rel | crates/polargraph-query/src/cypher.rs:2651-2731 | A relationship emits its pattern by direction and kind, and the closure rules the first time its predicate is closed |
| CypherCompiler.Compiler.Path | crates/polargraph-query/src/cypher.rs:2619-2738 | A path emits its nodes and relationships in order |
| CypherCompiler.Compiler.BindFilters | crates/polargraph-query/src/cypher.rs:2470-2512 | Every filter variable no pattern mentions gets one scan of its first filter's property |
| CypherCompiler.CompileQuery | crates/polargraph-query/src/cypher.rs:2319-2588 | The accumulating compiler produces the specified patterns, rules and filters |
| CypherMeaning.CompileWellformed | crates/polargraph-query/src/cypher.rs:2673-2698 | Compiled rules are exactly one base and one recursive rule per predicate closed, however many hops use it |
| CypherRun.CompilationPreservesMeaning | crates/polargraph-query/src/cypher.rs:2319-2588 | Over the least model of the compiled rules, the answers of the compiled patterns and filters, without anonymous names, are exactly the matches of the query |
| CypherRun.ApplyValueFilters | crates/polargraph-query/src/cypher.rs:2819-2865 | Keeps the rows whose variables have every required property value, in order and with repetitions |
| CypherRun.RunCypher | crates/polargraph-server/src/service.rs:4085-4111 | Compile, derive, evaluate and filter, with or without rules: the rows as a multiset, and with fresh names exactly the matches of the query iff no row comes back or every lone bare node is found |
| CypherNames.AnonymousNamesDiffer | crates/polargraph-query/src/cypher.rs:2607-2616 | Two anonymous names are equal only for the same counter, so distinct anonymous positions never share a name |
| CypherNames.NamedRowsMatch | crates/polargraph-query/src/cypher.rs:2590-2738 | A row over named positions, without its anonymous names, lays every path into the store |
| CypherNames.MatchesAreNamed | crates/polargraph-query/src/cypher.rs:2590-2738 | Every match is a row over named positions: anonymous nodes can be named without clashing, given that no written variable is the name of one |
| CypherRun.RowsExact | crates/polargraph-query/src/cypher.rs:2319-2588 | With fresh names, the rows returned are the matches of the query iff there are none or every lone bare node is constrained elsewhere, and some node exists if one is anonymous |
| CypherRun.LoneNodeIsUnbound | crates/polargraph-query/src/cypher.rs:2741-2772 | `MATCH (n)` returns the single empty row, where the query has one row for each node |
| CypherRun.WrittenAnonymousName | crates/polargraph-query/src/cypher.rs:2607-2616 | `MATCH (__anon_0)-[:p]->()` returns its matches iff every node with a `p` edge has one to itself |
| Merge.ReadScopedMember | crates/polargraph-query/src/cypher.rs:664-683 | A scoped read returns exactly the triples visible in the graph, or in the union of all, that match subject and predicate |
| Merge.FindMatchingNode | crates/polargraph-query/src/cypher.rs:614-662 | The candidate loop returns the first candidate that has every property |
| Merge.MatchingNodeMeaning | crates/polargraph-query/src/cypher.rs:614-662 | With a label or property to go by, a node is found iff one meets the label and every property, and the node found does |
| Merge.WriteState.Merge | crates/polargraph-query/src/cypher.rs:510-551 | Buffers nothing for a node found and label then properties for one created, binds the variable, records the creation, and changes nothing on a bad id |
| Merge.CreatedStores | crates/polargraph-query/src/cypher.rs:510-551 | A creating MERGE, once committed, leaves under each name the last literal given for it, spelled out by kind, and nothing else, the label's class unless a property takes rdf:type, and every other node and graph untouched |
| Merge.SearchFindsStored | crates/polargraph-query/src/cypher.rs:614-662 | The search returns a node that carries the label and stores each literal, spelled out by kind, iff there is one |
| Merge.SearchDecides | crates/polargraph-query/src/cypher.rs:510-551 | Without an `id`, a node carrying all that is asked is taken as it is; else the minted node is written to |
| Merge.IdDecides | crates/polargraph-query/src/cypher.rs:510-551 | The first property named `id` decides alone: its node, written to iff nothing visible is about it, or failure when it is no id |
| Merge.RemergeWritesNothing | crates/polargraph-query/src/cypher.rs:510-551 | On any later snapshot holding the triples written, the same MERGE creates nothing and binds the given id or a node meeting label and properties |
| Merge.RemergeExact | crates/polargraph-query/src/cypher.rs:510-662 | On the snapshot right after its commit, the same MERGE finds the node iff an id is given, or something is asked for and no name is given two values; otherwise it creates again |
| Merge.CommitKeepsKeysDistinct | crates/polargraph-storage/src/store.rs:1972-2060 | Committing replacing writes keeps one live quad per key |
| TypeIndex.MirrorUnique | crates/polargraph-server/src/type_index.rs:35-42 | Two inverse maps without empty sets are determined by the membership relation |
| TypeIndex.CaughtUpIsRebuilt | crates/polargraph-server/src/type_index.rs:87-185 | An index that has caught up to a point of the log, by any route, equals one rebuilt from scratch there |
| TypeIndex.Index.constructor | crates/polargraph-server/src/type_index.rs:73-85 | A built index reflects the snapshot it was built at |
| TypeIndex.Index.Rebuild | crates/polargraph-server/src/type_index.rs:87-106 | Both maps list exactly the `rdf:type` pairs of the snapshot, with no empty set |
| TypeIndex.Index.ReadChanges | crates/polargraph-server/src/type_index.rs:109-142 | The batch loop ends past every commit that had landed when it started and has collected every subject whose membership changed in between |
| TypeIndex.Index.Refresh | crates/polargraph-server/src/type_index.rs:160-183 | Replacing one subject's classes by touching the differences keeps the maps inverse and free of empty sets, and reports exactly whether anything changed |
| TypeIndex.Index.RefreshAll | crates/polargraph-server/src/type_index.rs:144-184 | Refreshing the touched subjects brings the whole index to the later snapshot |
| TypeIndex.Index.Sync | crates/polargraph-server/src/type_index.rs:109-185 | After any catch-up, commits landing between batches or the log pruned, the index reflects the snapshot at `applied`, past every commit that had landed; a rebuild reports a change, any other catch-up exactly whether membership changed |
| TypeIndex.AlwaysReflects | crates/polargraph-server/src/type_index.rs:73-185 | At every moment of a server's life, through any sequence of commits, prunings and catch-ups, the index holds exactly the memberships of the snapshot at `applied` |
| TypeIndex.CaughtUpIsCurrent | crates/polargraph-server/src/type_index.rs:109-185 | Until another commit lands, an index that has caught up holds the memberships of the store as it stands |
| TypeIndex.Index.InstancesOf | crates/polargraph-server/src/type_index.rs:188-197 | Returns exactly the subjects that have one of the classes in that snapshot |
| RateLimit.RateLimiter.Call | crates/polargraph-server/src/rate_limit.rs:134-186 | One request updates counter, cleanup and bucket as specified, and admits or rejects accordingly |
| RateLimit.AdmittedExactly | crates/polargraph-server/src/rate_limit.rs:134-186 | A request is admitted iff nothing limits it, or from each limited request of its client on, itself included, the admissions and one more stay within the rate times one plus the seconds since |
| RateLimit.CleanupUnobservable | crates/polargraph-server/src/rate_limit.rs:151-178 | Every decision equals that of a bucket fed only the client's own requests and never cleaned up |
| RateLimit.TokensBounded | crates/polargraph-server/src/rate_limit.rs:158-178 | Tokens stay between zero and the rate over every run |
| RateLimit.WindowBound | crates/polargraph-server/src/rate_limit.rs:158-178 | In every window of every run one client is admitted at most rate times (one plus the window's seconds) |
| RateLimit.SpacedNeverRejected | crates/polargraph-server/src/rate_limit.rs:158-178 | A client whose requests are at least 1/rate seconds apart is never rejected |
| Explain.SolutionBinds | crates/polargraph-query/src/explain.rs:71-124 | Every solution reaching a step binds all variables the plan tracks and all graph variables, and beyond those only edge variables |
| Explain.PlanForetellsIndex | crates/polargraph-query/src/explain.rs:71-124 | The planned index kind is the one chosen for every solution reaching the step, under a condition on the query that is also necessary |
| Explain.EdgeVariablesAreUnforeseen | crates/polargraph-query/src/explain.rs:115-124 | A step whose end is an earlier edge variable is planned wrongly for exactly the solutions that bound it |
| Explain.ExplainQuery | crates/polargraph-query/src/explain.rs:49-89 | The plan has one step per pattern, each with its static index and newly bound variables, and flags exactly the rule sets with a body naming its head |
| Explain.PlannedKind | crates/polargraph-query/src/explain.rs:71-124 | The index reported for each of the eight combinations of bound slots, an end bound when an earlier pattern has it as an end |
| Explain.PlannedBinds | crates/polargraph-query/src/explain.rs:115-124 | A step reports its subject's variable and then its object's, unless seen before |
| Explain.BindsOnce | crates/polargraph-query/src/explain.rs:115-124 | No variable is reported as newly bound at two steps |
| Explain.BindsAll | crates/polargraph-query/src/explain.rs:115-124 | A variable is tracked iff some earlier step reported it |
| Aggregation.GroupKeyBytes | crates/polargraph-query/src/aggregation.rs:145-160 | The buffer loop produces the specified key |
| Aggregation.KeyBytesInjective | crates/polargraph-query/src/aggregation.rs:145-160 | Two bindings have equal keys iff they agree on every grouping variable, bound or not |
| Aggregation.FillBuckets | crates/polargraph-query/src/aggregation.rs:103-113 | Buckets hold exactly the bindings of each key, in order, and the key list is in order of first appearance |
| Aggregation.GroupRows | crates/polargraph-query/src/aggregation.rs:103-138 | One row per distinct key with the grouping values and all aggregates of its bucket |
| Aggregation.FirstAppearanceOrder | crates/polargraph-query/src/aggregation.rs:103-113 | Rows come in the order in which their keys first occur in the input |
| Aggregation.BucketsPartition | crates/polargraph-query/src/aggregation.rs:103-113 | Counting any property bucket by bucket and adding up counts it over the input |
| Aggregation.RowStandsForBucket | crates/polargraph-query/src/aggregation.rs:115-138 | A binding is in a row's bucket iff it has the row's grouping values |
| Aggregation.CellsAre | crates/polargraph-query/src/aggregation.rs:162-235 | A row's cell is the number of bindings it stands for, the number of those that bind the variable, or a combination of the nodes they bind it to |
| Aggregation.CountsAddUp | crates/polargraph-query/src/aggregation.rs:162-173 | A count column adds up to the count over the input; `count(*)` to the number of bindings |
| Aggregation.GatheredAddUp | crates/polargraph-query/src/aggregation.rs:162-235 | What collect, sum, avg, min and max combine, bucket by bucket, is each node exactly as often as in the whole input |
| Paging.ComparisonIsOrderExactly | crates/polargraph-query/src/aggregation.rs:303-317 | The comparison is transitive on a column iff its values are of one comparable type or all tie |
| Paging.RowsTransitive | crates/polargraph-query/src/aggregation.rs:260-277 | On sortable columns the multi-key comparison, directions included, is transitive |
| Paging.StableSortSorts | crates/polargraph-query/src/aggregation.rs:260-277 | A stable sort exists: ordered, a permutation, ties in input order |
| Paging.ArrangementUnique | crates/polargraph-query/src/aggregation.rs:260-277 | On sortable columns the sorted rows are uniquely determined, whatever stable algorithm is used |
| Paging.ResultRows.Cut | crates/polargraph-query/src/aggregation.rs:280-290 | Clearing, draining and truncating leave exactly rows `skip` up to `skip + limit` |
| Paging.ResultRows.OrderSkipLimit | crates/polargraph-query/src/aggregation.rs:254-290 | The rows become the slice from `skip` up to `skip + limit` of the stable sort |
| PageOrder.PageInOrder | crates/polargraph-query/src/aggregation.rs:254-317 | Of two rows of a page the earlier is not behind the later: on the first sort column in which they do not tie its cell comes first, in that column's direction |
| PageOrder.FirstColumnInOrder | crates/polargraph-query/src/aggregation.rs:254-317 | Ascending, the first sort column runs missing cells first, then integers and floats by size, text byte by byte, false before true; descending the other way |
| PageOrder.TiesKeepOrder | crates/polargraph-query/src/aggregation.rs:260-277 | Rows that tie in every sort column keep the order they came in |
| Paging.PageIs | crates/polargraph-query/src/aggregation.rs:280-290 | Row `i` of a page is row `skip + i`, up to the end of the rows or `limit` of them |
| Paging.PagesJoin | crates/polargraph-query/src/aggregation.rs:280-289 | Consecutive pages of one arrangement join without gap or overlap |
| Paging.ApplyAggregations | crates/polargraph-query/src/aggregation.rs:82-141 | Grouped rows, or the bindings as they are when nothing is aggregated, sorted and cut |

## Left out

- Storage itself (RocksDB, MVCC visibility, bitemporal ranges, HNSW, OWL inference, SHACL, replication): a snapshot is its live quads, in some scan order.
- xxHash: an arbitrary function of the canonical bytes; the evaluator re-checks decoded values, so no collision freedom is used.
- NaN and negative zero in stored and queried values: `Values` treats them bit by bit, but the query model works on values without them.
- Edge-annotation triples and their indexes, `EdgeProperty` and `EdgeRelation`: they never match a pattern of the modelled kinds.
- Schema-registry pruning and the pending-write overlay: both depend on which slots are bound at that moment, and pattern order would matter.
- Deadlines: every loop runs to its end.
- CypherRun.RunCypher: covers MATCH with labels, property maps, one-step, bounded and unbounded hops in both directions, and `=` conditions on nodes; non-equality node comparisons and minimum hop counts are dropped by the compiler itself, and regular-expression, text, vector, edge-annotation conditions, `USE GRAPH` and projections are not modelled.
- CypherRun.RowsExact: asks that no variable stand for both a node and a relationship, which is not Cypher; how often a row is repeated follows the scans, not the number of ways the anonymous positions can be filled.
- CypherRun.CompilationPreservesMeaning: asks that the `__tc_` name of a predicate the query closes is not used as a relationship type, nor as a property if such a property is stored; nothing in the compiler checks this.
- Joins.EvaluationIsJoin: an edge variable on a derived predicate holds an id drawn on every read, so its rows are not a function of the facts; `Yielding.SolveSound` and `Yielding.SolveComplete` say what holds of them.
- FixedPoint.ExecuteRecursive: the least-model clause asks that a head is seeded, headed by an earlier rule or not stored wherever a body names it, that the edge of a derived fact is not mentioned twice, and that a predicate variable is used once or stays clear of derived names.
- EdgeHeads.EndsIffEdgeHeadsIdle: asks that drawn ids are fresh, as random ids are but for collisions, and of the bodies what the least-model reading asks; for other programs `Leaks.EndsExactly` and `Leaks.EndsUnlessEdgesEscape` tell the end from the passes of the run.
- Scoping.ScopingIsRestriction: for patterns without bounded hops, which ignore graphs, and graph terms that name their graphs; a graph variable is covered for queries without rules only, and up to repetition.
- Scan order: the specification functions list a store's triples in one fixed order, where each index and the merge of named graphs has its own; the loops take any order and no result speaks of it, apart from the node a MERGE finds first among several.
- Explain.PlanForetellsIndex: compares the planned index with the one for the slots bound at run time; a step in a named graph or with bounded hops is served by its own scan.
- Explain.ExplainQuery: plan text, index descriptions and the names of node types are not modelled.
- Merge.RemergeExact: assumes the minted id is new to the store; CREATE, SET and DELETE are not modelled.
- TypeIndex.Index.Sync: asks that commit times increase and that each record names the subjects whose membership its commit changed; the access-control flags of the outcome are not modelled, and locks are taken as giving one catch-up at a time.
- RateLimit.RateLimiter.Call: real arithmetic for `f64`, one request at a time, clock readings non-decreasing; client address extraction is an input.
- Paging.ApplyAggregations: inherits from grouping that `collect`, `sum`, `avg`, `min` and `max` are arbitrary functions of the nodes they gather.
- Aggregation.GroupRows: `collect`, `sum`, `avg`, `min` and `max` are given as functions of the nodes they gather; the numbers read off those nodes, float folding and JSON text are not modelled, and at most 2^63 - 1 bindings are grouped.
- Paging.ResultRows.OrderSkipLimit: on columns the comparison does not order, only that the rows are some rearrangement, since the library sort promises nothing there.
- Name canonicalisation, skolem ids, views, projections, gRPC, REST, UI, clients and the importer: one-branch mappings or plumbing.
- The Cypher lexer and parser: the model starts from the syntax tree.
