# Verification of the whole-program passes

This project models the part of syntax-bridge that runs after the parallel C++
extraction, and the concurrency and solver code around it, and proves what
those parts promise.

* **The intermediate representation and its meaning.** `Ir`, `Occurrences` and
  `Interp`: types, expressions and statements; a big-step interpreter with
  frames, a store, a trace, exceptions and fuel for loops.  What a call does to
  the store and which class is a subclass of which are arbitrary.
* **Passes over the IR.** `Visitor`, `Rewriting`, `Everywhere`, `Fusion` (the
  shared traversal, and what it means for one body to be another rewritten);
  `Raii`, `Frames`, `Simulation`, `RaiiMeaning`, `RaiiLimits` (destructors to
  `try`/`finally`); `CallNames`, `Renames`, `Overloads`, `OverloadNames`,
  `OverloadPass` (overload names and the calls that follow them);
  `Disambiguation`, `RecordNames` (record names); `MixinForms`, `MixinSites`,
  `MixinOutcome` (classes to mixins, with factories); `BaseCalls` (qualified
  base calls against Dart's mixin linearization); `Reachability`, `IsChecks`,
  `CheckOccurrences`, `CheckMeaning` (ancestors and checks that are always
  true).
* **Extraction and merging.** `Extraction` (workers, cursor, cancel flag,
  counters and polls as interleaved atomic steps); `Dedup`, `Catalogs`,
  `CatalogContents`, `Merge`.
* **Solver and externals.** `Chains`, `Mapping`; `ExternalsText`, `FileFormat`,
  `ExternalsStore`, `Externals`, `ExternalsFormula`; `OriginLookup`; `Callers`.

`Strings` holds the order of strings, sorting, numerals and names with
ordinals; `Wrappers` the option type.

Where a promise is false of the code, the code is modelled as it is: a lemma
gives an input that breaks it (all of `RaiiLimits`,
`CheckMeaning.OtherOutcomesShrinkTheCapture`,
`BaseCalls.DeclaredButNotProvided`, `BaseCalls.MixinAppliedAmongOthers`,
`Overloads.OrdinalMeetsTypeName`, `Disambiguation.QualifiedMeetsBare`) and the
result is stated under a condition a caller can check, as an equivalence
wherever the members say "exactly".

Two places where code and documentation differ, and the model follows the code:
the set of mixins is closed over base and mixin edges
(`crates/server/src/emit/dart.rs:393-420`), not only the usrs some record lists;
and the ordinals of colliding record names follow list order, not usr order
(`crates/server/src/function_catalog.rs:1035-1042`).

A function that says what a pass computes is itself described apart from its
body: by positions in the lists it reads, by quantifiers, or by `Rewriting`'s
relation between a body and what became of it.

Loops over vectors and maps are methods proved against functions; passes that
rewrite a vector in place take an array (`Raii.ApplyScopeGuards`,
`Renames.ApplyRenames`, `Disambiguation.DisambiguateRecords`,
`BaseCalls.ResolveQualifiedBaseCalls`).  The solver's facts and the store of
external marks are classes.

## Model

| member | source | states |
|---|---|---|
| Raii.GuardBody | crates/server/src/function_catalog.rs:2315-2382 | Splits at the first guarded local and leaves prefix, binding (dropped when unmentioned, its initializer kept) and `try`/`finally`; which local that is and what is left is said of the records by `Raii.GuardedMeetsSpec` |
| Raii.GuardedMeetsSpec | crates/server/src/function_catalog.rs:2296-2382 | Without a top-level local whose class has a destructor among the records the body stays; otherwise, up to the first such local it stays, and from there on it is the declaration, or its initializer alone if nothing after it and nothing in the destructor uses the object, and the rest under `try` with the destructor of the last such record as `finally` |
| Raii.ApplyScopeGuards | crates/server/src/function_catalog.rs:2296-2313 | Over the array, in place: every function keeps everything but its body, and its body becomes that |
| Raii.StmtsReferenceIffUsed | crates/server/src/function_catalog.rs:2384-2568 | The name test holds exactly when the name occurs as a use outside lambda parameter defaults; an assignment target does not count |
| Raii.ReplaceStmtsOccs | crates/server/src/function_catalog.rs:2570-2802 | Replacing `this` turns each occurrence of `this` into the name and moves, drops or adds nothing else; `this` in a lambda parameter default stays |
| Raii.ReplacedStmts | crates/server/src/function_catalog.rs:2570-2802 | Node by node: the copy of a destructor is the destructor with each `this` outside lambda parameters made the local, of the same type and origin, and with no other difference |
| Simulation.SimStmts | crates/server/src/function_catalog.rs:2570-2802 | A body and its renamed copy run in step: related frames, the same store and trace, the same outcome, at every fuel |
| Frames.StmtsKeep | crates/server/src/function_catalog.rs:2315-2382 | Running statements leaves every watched local they do not assign as it was, and returns only where a `return` is written |
| RaiiMeaning.GuardPreservesMeaning | crates/server/src/function_catalog.rs:2315-2382 | For every body, records, store, fuel and world of calls: a body guarded as `Raii.ApplyScopeGuards` leaves it gives the store, trace and outcome of the original with the destructor of the last record of the class run at the exit of the scope of the first local that has one, normal, returning or throwing |
| RaiiLimits.ReturnInDestructorOverrides | crates/server/src/function_catalog.rs:2340-2382 | A `return` in the destructor would replace the result of the function |
| RaiiLimits.AssignedGuardIsNotDestroyed | crates/server/src/function_catalog.rs:2396 | After an assignment to the guarded local in the rest the destructor would run on another object |
| RaiiLimits.SharedNameIsCaptured | crates/server/src/function_catalog.rs:2570-2802 | A static the destructor reads is captured by a function parameter of the same name |
| RaiiLimits.GuardNameIsCaptured | crates/server/src/function_catalog.rs:2570-2802 | And by the guarded local, if it has that name |
| RaiiLimits.GuardNameIsHidden | crates/server/src/function_catalog.rs:2570-2802 | A local of the destructor with the guard's name hides the object from the rest of the destructor |
| RaiiLimits.ThisInDefaultStays | crates/server/src/function_catalog.rs:2700-2802 | `this` in a lambda parameter default of the destructor is not replaced, and outside a member nothing is captured for it |
| RaiiLimits.AssignedThisIsTheGuard | crates/server/src/function_catalog.rs:2570-2802 | An assignment to `this`, were there one, would become one to the local |
| RaiiLimits.DefaultsAreNotSearched | crates/server/src/function_catalog.rs:2482-2568 | A use only in a lambda parameter default is missed: the binding is dropped and the returned closure captures nothing |
| Everywhere.VisitedSs | crates/server/src/function_catalog.rs:1349-1708 | What the hooks of the shared traversal establish at a node holds of every node and every written type of a visited body, at any depth |
| Everywhere.CarriedSs | crates/server/src/function_catalog.rs:1349-1708 | What the hooks make of nodes and types known to meet one check, to meet another, holds at every node of a visited body |
| Rewriting.VisitedStmts | crates/server/src/function_catalog.rs:1349-1708 | A visited body is the body rewritten by what the hooks do: at every type, construction site and node of every statement, once, children first, and nowhere else |
| Rewriting.OneOfStmts | crates/server/src/function_catalog.rs:1349-1708 | And under a rule that leaves no choice there is one such body only |
| Fusion.FuseSs | crates/server/src/function_catalog.rs:1349-1708 | Two respelling traversals of a body in a row are the one traversal with composed hooks |
| Reachability.Visit | crates/server/src/function_catalog.rs:1998-2007 | The depth-first search ends on any graph, keeps what it had, adds only what is reached, and closes what it adds |
| Reachability.AncestorClosures | crates/server/src/function_catalog.rs:1992-2017 | Each record is mapped to exactly what one or more base or mixin edges reach, cycles included |
| Reachability.EdgesAreBases | crates/server/src/function_catalog.rs:1998-2007 | The edges followed are exactly the base and the mixins of the last record of a usr |
| IsChecks.CheckIsTrue | crates/server/src/function_catalog.rs:2235-2272 | One `this is T ? e : null` with T an ancestor has the result and effects of `e`, for every receiver that is the record or inherits from it |
| CheckMeaning.SimplificationPreservesMeaning | crates/server/src/function_catalog.rs:2235-2272 | A whole simplified body, lambda bodies included, runs exactly as before on every such receiver: frames, store, outcome |
| MixinOutcome.NoCheckIsLeft | crates/server/src/function_catalog.rs:1828-1847 | After the pass no body of a record, at any depth, tests `this` against a class the record is built from with null as the alternative |
| CheckOccurrences.AlikeSs | crates/server/src/function_catalog.rs:2235-2272 | Simplifying keeps what a body mentions and the order of first mention, so a lambda captures what it captured |
| CheckMeaning.OtherOutcomesShrinkTheCapture | crates/server/src/function_catalog.rs:2235-2272 | In a lambda, dropping a check that yields something other than `this` can leave `this` uncaptured |
| IsChecks.OutsideTheAncestryTheCheckMatters | crates/server/src/function_catalog.rs:2251-2263 | Where T is not an ancestor, dropping the check changes the result |
| BaseCalls.ApplicationOrderIsValid | crates/server/src/emit/dart.rs:445-472 | The expanded mixin list names each class the mixins are, or are built from, once, and each only after its own parts |
| BaseCalls.ListedOrderStays | crates/server/src/emit/dart.rs:445-472 | A mixin comes after those listed before it unless one of them needs it |
| BaseCalls.ResolveQualifiedBaseCalls | crates/server/src/function_catalog.rs:1873-1987 | Over the array, in place, with the last record of each usr as the hierarchy before the pass: every constructor, method and destructor body of every record has each qualified call, at any depth, left exactly when the target is the base it names and made a bailout otherwise, with every other node as it was; wherever the record runs, each call still naming a base reaches it exactly when it is visible there; nothing else in a record changes |
| BaseCalls.SuperTargetVersusDart | crates/server/src/function_catalog.rs:1914-1939 | In a class, the pass takes the first class of its line that declares the member, Dart the first that has an instance method with a body, in that line and then among the mixins further up the `extends` chain; they agree exactly when the first declaring class has one, or none declares it and none of those mixins has one |
| BaseCalls.MixinTargetVersusDart | crates/server/src/function_catalog.rs:1914-1939 | In a mixin, for every class that applies it and every position: the target is applied before it, and is what `super` reaches exactly when it provides the member and no mixin applied in between does (without a target, none before) |
| BaseCalls.KeptCallsAreSound | crates/server/src/function_catalog.rs:1941-1966 | Wherever a record's code runs: a kept qualified call reaches the base it names exactly when that base is visible there; any other becomes a bailout of the same type and origin; where the target is visible, or nothing is reached, a call is kept if and only if it reaches its base |
| BaseCalls.ResolvedBodiesReachTheirBases | crates/server/src/function_catalog.rs:1968-1987 | So does every call at any depth of a body that still names a base after the pass |
| BaseCalls.DeclaredButNotProvided | crates/server/src/function_catalog.rs:1914-1966 | `class C : A, B` with `run` defined in A and pure virtual in B: the call to A is dropped although `super` reaches it, the one to B kept although it does not |
| BaseCalls.MixinAppliedAlone | crates/server/src/function_catalog.rs:1873-1987 | Inside a mixin applied on its own, `super` is what the pass decided exactly when the target provides the member |
| BaseCalls.MixinAppliedAmongOthers | crates/server/src/function_catalog.rs:1873-1987 | Applied next to others it need not be: `class C with B, M` where M is built from A and B |
| Extraction.Reached | crates/server/src/extraction.rs:82-212 | Every state of every interleaving satisfies the invariant of claims, counters, joins and polls |
| Extraction.ClaimsAreExclusive | crates/server/src/extraction.rs:260-271 | No unit is claimed twice, the claimed units are a prefix of the list, the cursor overshoots by at most one draw per worker |
| Extraction.SuccessMeansComplete | crates/server/src/extraction.rs:114-164 | At quiescence every claimed unit has been processed exactly once; success means every unit was |
| Extraction.ProgressIsBounded | crates/server/src/extraction.rs:302-343 | Type, source, function and pointer counts stay in that order and never exceed the total |
| Extraction.WorkersMakeProgress | crates/server/src/extraction.rs:216-300 | Every move of a live worker brings the end closer, and nobody else's step takes it further away |
| Extraction.WorkersTerminate | crates/server/src/extraction.rs:216-300 | In any schedule the workers move at most seven times per unit and nine times per worker |
| Extraction.CancelStopsClaims | crates/server/src/extraction.rs:260-271 | After a cancellation each worker draws at most one more unit, in any schedule |
| Extraction.FailureMeansCancelled | crates/server/src/extraction.rs:153-164 | In every run a job that ends without success was cancelled |
| Extraction.JobFinishes | crates/server/src/extraction.rs:140-164 | Once the workers are done and no poll holds the outcome, the job ends, with success exactly if it was not cancelled when it looked |
| Extraction.PollsNeverGoBack | crates/server/src/server.rs:286-330 | Later polls report no earlier status and no earlier phase although eight counters are read at eight moments; a terminal report stays |
| Extraction.PollsReadCounters | crates/server/src/server.rs:303-310 | Every number a poll reports was the value of its counter at some moment of the run |
| Extraction.PollAnswers | crates/server/src/server.rs:286-330 | A poll of an ended job says how it ended; any other reports after its eight reads |
| Extraction.CancelIsReported | crates/server/src/server.rs:326-330 | Every poll filed after a cancellation reports it, until the job has ended |
| Extraction.PhaseMonotone | crates/server/src/jobs.rs:46-71 | Pointwise later counters never derive an earlier phase |
| Extraction.PhaseIsFirstOpenPass | crates/server/src/jobs.rs:46-71 | Before anything has started the phase is ingesting; afterwards it is that of the first of the four passes not done, or persisting |
| Extraction.ReportedSuccess | crates/server/src/jobs.rs:87-113 | A reported success means every unit was parsed once |
| Dedup.ParallelEqualsSequential | crates/server/src/function_catalog.rs:375-394 | For any chunks, deduplicating each and then the concatenation gives the list of one pass: order and representatives |
| Dedup.PassSelects | crates/server/src/function_catalog.rs:3291-3308 | One pass keeps one entry per identity in order of first occurrence, and of each identity the first definition or failing any the first entry |
| Dedup.MergeLists | crates/server/src/function_catalog.rs:375-388 | The merge with an index map beside the list is the pass over the concatenation |
| Catalogs.CatalogFunctions | crates/server/src/function_catalog.rs:375-394 | Declarations and calls after local passes and the merge are those of one sequential pass, for any split over workers |
| Catalogs.CatalogTypes | crates/server/src/type_catalog.rs:324-362 | Type declarations and usages, likewise |
| Catalogs.CatalogPointers | crates/server/src/pointer_catalog.rs:229-243 | Pointers, likewise |
| CatalogContents.FunctionsListed | crates/server/src/function_catalog.rs:3264-3308 | Declarations of one usr, or without a usr of one position, are one entry, in order of first mention, the first with a definition or failing any the first |
| CatalogContents.TypesListed | crates/server/src/type_catalog.rs:500-509 | Types likewise, the first mention counting |
| CatalogContents.PointersListed | crates/server/src/pointer_catalog.rs:500-509 | Pointers likewise |
| CatalogContents.WholesListed | crates/server/src/function_catalog.rs:3252-3260 | Calls, usages and dependencies are one entry exactly if equal |
| Catalogs.MergeDependencies | crates/server/src/type_catalog.rs:341-348 | The dependency merge is one pass over the stream without self-edges |
| Catalogs.DependenciesAgree | crates/server/src/type_catalog.rs:860-873 | Filtering and deduplicating per worker first makes no difference, and no self-edge is left |
| Catalogs.FinishSourceFiles | crates/server/src/source_catalog.rs:155-177 | Each path once, sorted, a translation unit if it is one, else a header |
| Catalogs.SourceFilesDetermined | crates/server/src/source_catalog.rs:155-177 | That determines the list, so every schedule gives exactly the same one |
| Merge.MergeIsUnion | crates/server/src/function_catalog.rs:396-440 | The merged catalog knows the union of what the partials know: functions, definitions, records, methods, bodies, constructors, destructors |
| Merge.ScheduleIndependent | crates/server/src/function_catalog.rs:338-440 | Any order of the same partials gives the same facts |
| Merge.EachUsrOnce | crates/server/src/function_catalog.rs:396-440 | Every function and record usr occurs once, and within a record every method and constructor usr |
| Merge.FirstDefinitionWins | crates/server/src/function_catalog.rs:396-429 | Defaults aside, the merged functions are those of one prototype-to-definition pass |
| Merge.FirstBodyWins | crates/server/src/function_catalog.rs:565-607 | Defaults aside, a record's merged methods are those of one pass in which a body makes the definition |
| Merge.FirstConstructorWins | crates/server/src/function_catalog.rs:620-647 | Of the constructors of a usr, defaults aside, the first is kept |
| Merge.FirstRecordWins | crates/server/src/function_catalog.rs:431-440 | Name, namespace, fields and bases of a merged record are those of the first record of its usr, and records come in order of first mention |
| Merge.FirstDestructorWins | crates/server/src/function_catalog.rs:543-555 | Its destructor is the first that any record of the usr has |
| Merge.DefaultsNeverShrink | crates/server/src/function_catalog.rs:565-647 | Through any number of merges an entry of constant arity keeps place and identity, and every slot that has some default keeps one |
| Merge.EveryMergeGrows | crates/server/src/function_catalog.rs:406-429 | Function, method and constructor merges all meet what that needs |
| Merge.FunctionDefaults | crates/server/src/function_catalog.rs:406-429 | A prototype and a definition share defaults; two of a kind keep the first one's; the merge commutes on defaults exactly when the kinds differ or the defaults agree |
| Merge.DefaultsOfMembers | crates/server/src/function_catalog.rs:406-429 | Slot by slot: the default of a function or method is its definition's or else its prototype's, of two of a kind the first's; of a constructor the first one given |
| Merge.CarryDefaults | crates/server/src/function_catalog.rs:409-416 | Fills exactly the missing defaults the other list has, position by position |
| Merge.MergeFunction | crates/server/src/function_catalog.rs:406-429 | One function met again is merged as the specification says, defaults and prototype flag |
| Merge.MergeFunctions | crates/server/src/function_catalog.rs:396-429 | The loop with its two maps is the fold of the function merge |
| Merge.MergeMethods | crates/server/src/function_catalog.rs:565-607 | The loop is the fold of the method merge; with repeated usrs the last is found, as the index map does |
| Merge.MergeConstructors | crates/server/src/function_catalog.rs:620-647 | The loop is the fold of the constructor merge, searching from the front |
| Merge.MergeRecords | crates/server/src/function_catalog.rs:431-440 | The loop is the fold of the record merge |
| Renames.CallsFollowTheirDeclarations | crates/server/src/function_catalog.rs:903-946 | If every function, method and walked call, at any depth and in defaults and initializers, is spelled as `names` says for its usr, after the pass each is spelled as the renamed `names` says |
| Renames.OnlyNamesChange | crates/server/src/function_catalog.rs:903-946 | Form by form, functions and records are what they were but for the names of functions, methods and calls |
| Renames.DestructorsAreLeftBehind | crates/server/src/function_catalog.rs:919-945 | A destructor stays as it is; its calls are still spelled right exactly when renaming them would have changed nothing |
| Renames.ApplyRenames | crates/server/src/function_catalog.rs:903-946 | Over both arrays, in place: every function and method, and every call in order and at any depth outside lambda parameter defaults and destructors, has the name the renaming has for its usr, or its own; nothing else changes |
| Renames.WalkedSs | crates/server/src/function_catalog.rs:2820-3055 | A walked body is the body but for the names of its calls, each of which, in order, is the one its usr and old name give |
| Renames.FuseSs | crates/server/src/function_catalog.rs:2820-2935 | Renaming a body twice is renaming it once by the composed naming |
| Overloads.OverloadRenames | crates/server/src/function_catalog.rs:683-897 | Every callable is spelled with its computed name and the ordinal of its rank by usr among those sharing it; what that name is `OverloadNames` says without the computation |
| OverloadNames.RenamesAreNumbered | crates/server/src/function_catalog.rs:683-897 | The spelling of a callable is the name its signature gives, decided by quantifiers over the declarations alone, and an ordinal if callables of its owner and name that get the same name have smaller usrs: how many, plus one |
| OverloadNames.AloneStays | crates/server/src/function_catalog.rs:720-723 | A callable without rivals keeps its name, without an ordinal |
| OverloadNames.StaticsAreMarked | crates/server/src/function_catalog.rs:739-746 | Where static and instance members share a name, static ones become the name with `Static`, instance ones keep it, before ordinals |
| OverloadNames.OneStaysNative | crates/server/src/function_catalog.rs:751-786 | Of the operators of one class, name and arity at most one stays native: the first that takes its class, or the first if none does |
| OverloadNames.OperatorsAreBridged | crates/server/src/function_catalog.rs:751-818 | An operator stays native exactly there, if the language has it with that arity; any other, free ones included, gets the bridge name and one suffix for each parameter in order |
| OverloadNames.FoldedExactly | crates/server/src/mapping.rs:740-894 | An overload set is judged foldable exactly if it has two members or more, is no operator, mixes no static member, is no const pair, no two members take as many parameters and all give the same |
| OverloadNames.PairsStay | crates/server/src/function_catalog.rs:819-824 | A const and a non-const member with equal parameters, alone of their name, keep it |
| OverloadNames.OthersAreTyped | crates/server/src/function_catalog.rs:836-848 | Any other overload is its name, one suffix for each parameter in order, and `Const` exactly if its signature is const |
| Overloads.GroupByName | crates/server/src/function_catalog.rs:685-699 | Each owner and name is mapped to exactly its callables, in order |
| Overloads.NumberName | crates/server/src/function_catalog.rs:888-896 | The first usr keeps the shared name, the others get ordinals from 2 in usr order, nobody else is touched |
| Overloads.NamesCollideExactly | crates/server/src/function_catalog.rs:856-897 | Two members of a group end up with one name if and only if one computed name is the other and then digits that run into an ordinal |
| Overloads.NamesDistinct | crates/server/src/function_catalog.rs:856-897 | Without such digits every member of a group has a name of its own |
| Overloads.OrdinalMeetsTypeName | crates/server/src/function_catalog.rs:856-897 | `f(Vec)` twice and `f(Vec2)` do collide |
| Overloads.NamesIgnoreOrder | crates/server/src/function_catalog.rs:677-897 | Operators aside, names do not depend on the order of declarations |
| Overloads.CallsResolve | crates/server/src/function_catalog.rs:677-946 | A call spelled like its callee resolves by name within the group to that callee and no other |
| OverloadPass.ApplyOverloadRenames | crates/server/src/function_catalog.rs:677-946 | The whole pass in place, parameters read off the module: if every walked declaration and call is spelled like the declaration of its usr, afterwards each is spelled with the numbered signature name of its usr, and without digit clashes a name stands for one member of its group; nothing but names changes |
| OverloadPass.GatherFacts | crates/server/src/function_catalog.rs:709-718 | Parameters by usr: those of the last function, and of the last method in record and method order, that has the usr |
| Disambiguation.FinalNamesDistinct | crates/server/src/function_catalog.rs:1012-1053 | Records sharing a bare name that is not all digits get pairwise distinct names, whatever their namespaces |
| Disambiguation.ModuleNamesDistinct | crates/server/src/function_catalog.rs:1012-1053 | All records of a module as lowered end up with different names if and only if no two of different bare names meet: equal stem and ordinal, or digits running into an ordinal |
| Disambiguation.QualifiedMeetsBare | crates/server/src/function_catalog.rs:1019-1042 | And they can: `a::X`, `b::X` and `AX` |
| Disambiguation.RecordRenames | crates/server/src/function_catalog.rs:1008-1050 | The renaming holds exactly the final names that differ from the bare ones |
| RecordNames.AskedNames | crates/server/src/function_catalog.rs:1008-1050 | By place in the list: a record alone with its bare name keeps it; any other gets its namespace in front and, if earlier records of its bare name are qualified alike, their number plus one behind |
| Disambiguation.PascalCaseBySegments | crates/server/src/function_catalog.rs:1115-1126 | A namespace is spelled segment by segment, each up to the next `::` with its first letter upper-cased: two laws that cover every text |
| Disambiguation.NumberCandidates | crates/server/src/function_catalog.rs:1035-1042 | Repeated candidates are numbered in list order |
| Disambiguation.RecordGetsFinal | crates/server/src/function_catalog.rs:1062-1099 | Every record type at any depth, every base and every construction of a record carries its target's final name |
| Disambiguation.FunctionGetsFinal | crates/server/src/function_catalog.rs:1056-1061 | The same of a function |
| RecordNames.RecordFollows | crates/server/src/function_catalog.rs:1062-1099 | In a record its own name, those of its bases, and the class names in types, constructions and, outside bodies, copies follow the renaming, form by form; every list keeps its length and order and nothing else changes |
| RecordNames.FunctionFollows | crates/server/src/function_catalog.rs:1056-1061 | The same of a function |
| Disambiguation.OnlyClassNamesChange | crates/server/src/function_catalog.rs:1710-1729 | Up to class names a renamed body is the body |
| Disambiguation.OnlyClassNamesChangeIn | crates/server/src/function_catalog.rs:1189-1223 | Up to class names a renamed default or initializer is what it was |
| Disambiguation.DisambiguateRecords | crates/server/src/function_catalog.rs:1004-1100 | The whole pass over both arrays, in place; nothing changes when no name collides |
| MixinForms.MixinUsrs | crates/server/src/emit/dart.rs:393-420 | The mixins are exactly the applied usrs and everything they are built from |
| Reachability.CloseOver | crates/server/src/emit/dart.rs:399-418 | The worklist returns exactly the starts and what they reach, on any graph |
| MixinForms.ApplyMixinForms | crates/server/src/function_catalog.rs:1765-1848 | The whole pass: migrated bases, siblings, factories, rewritten sites, simplified checks; nothing without mixins |
| MixinOutcome.WholeOutcome | crates/server/src/function_catalog.rs:1765-1848 | What it leaves, without its functions: each function and record with exactly the listed fields changed, bodies rewritten node by node, factories of the right name, usr, parameters and call after the own methods of each mixin constructed somewhere, sorted by index, and after the records one sibling for each such mixin, in order, that applies the mixin alone and has its constructors, or the one filling its fields |
| MixinOutcome.FactoriesMeanConstructors | crates/server/src/function_catalog.rs:2118-2176 | In the result each factory of a mixin constructs an instance of a sibling that is there and applies that mixin alone, by a constructor the sibling has of that index, with as many arguments as it takes |
| MixinForms.NoRecordExtendsAMixin | crates/server/src/function_catalog.rs:1774-1783 | Afterwards no record extends a mixin |
| MixinForms.MixinsExtendNothing | crates/server/src/function_catalog.rs:1774-1783 | And no mixin extends anything: what a mixin was built from has become a mixin too |
| MixinForms.MigrationKeepsAncestry | crates/server/src/function_catalog.rs:1785-1788 | The base graph is the same before and after bases migrate |
| MixinForms.DecisionIsStable | crates/server/src/function_catalog.rs:1765-1848 | The decision asked again of the result is the same |
| MixinForms.FactoryPerConstructor | crates/server/src/function_catalog.rs:2143-2176 | A factory of a name and parameters exists if and only if there is a constructor of that index and those parameters |
| MixinForms.FactoriesInResult | crates/server/src/function_catalog.rs:1803-1814 | In the finished record every constructor of a constructed mixin has its static factory |
| MixinSites.SitesFindTheirFactories | crates/server/src/function_catalog.rs:1816-1848 | If every site that constructs a mixin means a constructor of its index and arity, then in the result every site that constructs a mixin, at any depth of any function, method, constructor or destructor body, calls a static factory the finished mixin has and passes as many arguments as it takes |
| MixinSites.BuiltNeeds | crates/server/src/function_catalog.rs:2024-2050 | The mixins that get a sibling are exactly those some function, method, constructor or destructor body constructs |
| MixinForms.SitesNameTheMixin | crates/server/src/function_catalog.rs:1816-1820 | The class those sites name is the mixin itself |
| MixinForms.SynthesizedConstructorFillsTheAggregate | crates/server/src/function_catalog.rs:2080-2117 | The constructor made for an aggregate sets each field to the argument of its name and does nothing else |
| MixinForms.FactoryForwards | crates/server/src/function_catalog.rs:2143-2176 | A factory returns, or throws, what the sibling's constructor of the same index gives for the same arguments |
| Mapping.ProjectFacts.NewFull | crates/server/src/mapping.rs:123-192 | Each index says what the scan it stands for says |
| Mapping.IndicesAreInverse | crates/server/src/mapping.rs:133-161 | Base and subclass index are mutual inverses |
| Mapping.BasesByScan | crates/server/src/mapping.rs:133-161 | A base is indexed exactly when some usage in the span and file of a declaration of that usr names it |
| Mapping.SubclassesByScan | crates/server/src/mapping.rs:133-161 | A declaration is indexed under a base exactly when some usage in its span and file names the base |
| Mapping.IndexHierarchy | crates/server/src/mapping.rs:123-161 | The loop grouped by file computes both indices |
| Mapping.ProjectFacts.PossiblePointees | crates/server/src/mapping.rs:1436-1462 | Exactly the class and everything below it, the class first, each once, on any graph |
| Mapping.ProjectFacts.NarrowVisiting | crates/server/src/mapping.rs:1491-1530 | The recursion with its visited set and its length test is the search along the chain |
| Mapping.ProjectFacts.ForwardedCallee | crates/server/src/mapping.rs:1540-1559 | The first resolved callee, in call order, whose result the body returns |
| Mapping.NarrowedIsFirstEvidence | crates/server/src/mapping.rs:1491-1530 | The result is the first non-empty evidence along the chain of forwarded calls |
| Mapping.NarrowedWithoutEvidence | crates/server/src/mapping.rs:1491-1530 | Without evidence on the chain, ending or cyclic, the result is every candidate |
| Mapping.NarrowedIsSublist | crates/server/src/mapping.rs:1491-1530 | An order-preserving sublist, not empty if the candidates are not |
| ExternalsText.RoundTrip | crates/server/src/persistence/externals_store.rs:224-300 | Writing and reading gives the data back if and only if no field holds a separator, ids fit and each line ends in a non-space |
| ExternalsText.ParsedIsClean | crates/server/src/persistence/externals_store.rs:228-276 | Whatever is read from any text meets that condition |
| ExternalsText.RewritingIsStable | crates/server/src/persistence/externals_store.rs:224-300 | Reading what was written from what was read gives it again, for every text |
| ExternalsText.IntRoundTrip | crates/server/src/persistence/externals_store.rs:247-266 | A 64-bit id is read as it was written |
| ExternalsText.ParseText | crates/server/src/persistence/externals_store.rs:228-276 | The loop skips blanks and comments and reads each line as the specification does |
| FileFormat.MarkLinesAreRead | crates/server/src/persistence/externals_store.rs:237-246 | `mark`, then `include` or `exclude`, a usr and a date give that mark |
| FileFormat.RuleLinesAreRead | crates/server/src/persistence/externals_store.rs:247-265 | `name_regex` or `path_regex`, a number, a pattern and a date give that rule of names or paths, or nothing if the number is none |
| FileFormat.OtherLinesAreSkipped | crates/server/src/persistence/externals_store.rs:228-276 | White space around a line does not count; blank lines, comments and lines with other words or numbers of fields change nothing |
| FileFormat.LinesAreTaken | crates/server/src/persistence/externals_store.rs:230 | A line ends at a line feed, and one carriage return before it goes with it |
| FileFormat.NumbersAreRead | crates/server/src/persistence/externals_store.rs:248-258 | Decimal digits with an optional sign are read by their value, if 64 bits hold it |
| FileFormat.LinesAreWritten | crates/server/src/persistence/externals_store.rs:275-303 | What is written is one line each, word for word, for marks, rules of names, rules of paths and files, in order |
| ExternalsStore.MarkIsSet | crates/server/src/persistence/externals_store.rs:87-93 | After setting a mark its usr has that mark only, every other usr keeps its marks in order, the list is sorted |
| ExternalsStore.FileIsSet | crates/server/src/persistence/externals_store.rs:164-180 | The same of file marks |
| ExternalsStore.NextIdIsNew | crates/server/src/persistence/externals_store.rs:224-226 | A new id is above every id in use, so ids stay distinct |
| ExternalsStore.RulesExceptOf | crates/server/src/persistence/externals_store.rs:127-131 | Removing an id removes exactly its rules and keeps ids distinct |
| ExternalsStore.Store.SetMark | crates/server/src/persistence/externals_store.rs:87-93 | The file holds the updated data afterwards |
| ExternalsStore.Store.PruneMarks | crates/server/src/persistence/externals_store.rs:100-109 | Only marks of valid usrs remain; the file is untouched if all are valid |
| ExternalsStore.Store.AddNameRegex | crates/server/src/persistence/externals_store.rs:115-125 | The rule is added under the next id, unless ids have run out |
| ExternalsStore.Store.SetFileMark | crates/server/src/persistence/externals_store.rs:164-180 | Sets or clears the mark of one file |
| ExternalsStore.Store.MigrateFromLegacy | crates/server/src/persistence/externals_store.rs:203-222 | Never touches a file that exists and writes none for nothing |
| Externals.EffectiveExternalSet | crates/server/src/externals.rs:189-353 | Strictly sorted by usr, one status per usr with a source, its sources exactly those that apply in order and once, its verdict the formula's |
| ExternalsFormula.StatusesFollowTheFormula | crates/server/src/externals.rs:171-188 | Over the lists themselves: the last mark of a usr decides, or else any match of a compiling rule, a marked file, or a call while no function of the usr has a definition; the sources are exactly those reasons |
| Externals.NotesAreTheFormula | crates/server/src/externals.rs:218-316 | The sources the loops push are exactly those the formula names |
| Externals.MoreReasonsKeepExternal | crates/server/src/externals.rs:171-188 | More rules, marked files or calls never turn an external usr off |
| Externals.TidyKeeps | crates/server/src/externals.rs:325-335 | Sorting and dropping repeats leaves the same sources, strictly sorted |
| ExternalsFormula.SourcesInOrder | crates/server/src/externals.rs:73-95 | Sources are ordered by kind, marks first, and then by text |
| OriginLookup.LocateOrigin | crates/server/src/validate/dart.rs:199-238 | The origin of the greatest header found at or before the line, within the file; else none |
| OriginLookup.RangesPartition | crates/server/src/validate/dart.rs:210-232 | Ranges are ordered, non-empty, disjoint, gap-free, and cover from the first header found to the last line |
| OriginLookup.LocateRanges | crates/server/src/validate/dart.rs:210-232 | The loop with its open header and search position computes those ranges, missing markers included |
| OriginLookup.FindLineFinds | crates/server/src/validate/dart.rs:302-309 | The first line at or after the start that contains the needle |
| Callers.CollectChildren | crates/cli/src/commands/functions.rs:193-237 | The search with one shared visited set is the recursion over the path, and gives the set back as it was |
| Callers.BuildCallersTree | crates/cli/src/commands/functions.rs:167-190 | The tree is the root over its children; a failed request fails the tree |
| Callers.TreeIsRight | crates/cli/src/commands/functions.rs:167-237 | A node is marked exactly when it repeats an ancestor and is then a leaf; others list their callers in order, down to the depth |
| Callers.TreeIsShallow | crates/cli/src/commands/functions.rs:167-237 | Depth is bounded by the limit and by the number of functions |

## Left out

- BaseCalls.KeptCallsAreSound: requires an acyclic hierarchy in which a record that extends a class applies no mixins, as lowering builds records (`crates/server/src/lower/cpp.rs:1987-1994`); a mixin it speaks of extends nothing, which `MixinForms.MixinsExtendNothing` gives. Dart members other than methods, library privacy and a mixin printed as a class are not modelled.
- CheckMeaning.SimplificationPreservesMeaning: assignments have no conditional on the left, as `crates/server/src/ir/mod.rs:614-619` demands of them, and inside a lambda a dropped check yields `this`, the only form lowering produces (`crates/server/src/lower/cpp.rs:7885-7894`).
- RaiiMeaning.GuardPreservesMeaning: the destructor must not return, must not assign `this`, must leave it alone in lambda parameter defaults, must neither mention nor declare the guard's name, and must share no name with the function's parameters and earlier locals; the rest must not assign the guarded local, nor mention it in lambda parameter defaults only. Each of these has its counterexample in `RaiiLimits`; for shared names it is a parameter.
- Overloads.NamesIgnoreOrder: not for operators, where the first declaration may keep the native operator.
- Overloads.OverloadRenames: requires that a usr occurs once among the callables. Deduplication gives that but for declarations without a usr, which it tells apart by position (`crates/server/src/function_catalog.rs:3264-3273`) while the renaming is keyed by usr.
- Disambiguation.FinalNamesDistinct: names are distinct within one group, of a bare name that is not all digits; no lowered record has another kind (`crates/server/src/lower/cpp.rs:1968-1976`). Between groups `Disambiguation.ModuleNamesDistinct` says exactly when they are.
- MixinSites.SitesFindTheirFactories: bodies only, as in the pass; a construction in a parameter default or a field initializer is neither counted nor rewritten. Requires that no usr in use ends in the suffix of the synthesized records.
- Mapping.NarrowedIsFirstEvidence: requires that the owner is a registered declaration; the search of any other owner is `Mapping.ProjectFacts.NarrowVisiting`.
- MixinOutcome.WholeOutcome: requires that no two records share a usr and that no usr in use ends in the suffix of the synthesized records; without any mixin the pass changes nothing, which `MixinForms.ApplyMixinForms` says.
- OverloadPass.ApplyOverloadRenames: as `Overloads.OverloadRenames`.
- CatalogContents.FunctionsListed: requires that no usr is spelled like a positional key (`pos:…`), as none libclang gives is; the same of types and pointers.
- MixinForms.DecisionIsStable: requires that no usr in use ends in the suffix the synthesized records get.
- Merge.FunctionDefaults: default values may depend on the order of several prototypes, so they are not part of `Merge.ScheduleIndependent`.
- ExternalsStore.Store.AddNameRegex: the id after the largest 64-bit number is modelled as a refusal; the original overflows there.
- A representative subset of the expression and statement forms; statement origins; `library_base`.
- A lambda evaluates to the place it was written at and the values it captured, by value; later changes to a captured local and the running of a closure are not modelled.
- A destructor that throws while another exception is under way ends a C++ program; here its exception replaces the other.
- In-place rewriting inside a function or record (tree nodes, parameter lists) is modelled on values; only the lists of functions and records are arrays.
- Relaxed memory orderings: each atomic operation takes effect at one point of an interleaving.
- Logging, file reads, the rename that makes a write atomic, the text of the externals file's header (any comment lines), and I/O errors.
- Reading a C++ signature, the pieces of Dart names, upper-casing and the regex engine are arbitrary functions.
- The marker list of `locate_origin` is any list; its sorting, and line numbers beyond 32 bits, are not modelled.
- Reserved-word renaming, the rejection of undeclared enums, `options_for` and the Portuguese texts: one-branch passes that would only add easy members.
- libclang cursors, lowering, emission, the HTTP server and client, SQLite, archives and rendering.
