# Rules execution state

A model of the execution state of the Drupal Rules engine. It covers the
variables visible to one evaluation scope, the resolution of data selectors
such as `node:uid:entity:name` against those variables, and the set of
selectors whose data is saved once evaluation is over (`saveChangesLater` /
`autoSave`). It also models the execution state definition: the array of
context definitions that a state is built from.

The typed-data objects the engine works on belong to the host framework.
Here they are an arena: `TypedData.Graph` maps object handles to nodes. Each
node records which capabilities the object has:
- a data reference, with its target;
- translatable, with its translations by language code;
- a list, with its item 0;
- a complex structure or list, with its child lookup.

Each node also records its root object and its plain value. A child lookup
returns the child, NULL, or a failure with the framework's message.
`TypedData.Closed` says that no handle in the graph dangles, as PHP object
references never do.

Modules:
- `Selectors` — splitting a selector at `:` (PHP `explode`, with and without
  a limit) and `ctype_digit`.
- `TypedData` — the arena of typed-data objects.
- `Resolution` — the specification of `applyDataSelector`. `Resolve` splits
  off the variable name and then walks the segments. Each segment goes through
  four stages, in the source's order: dereference, translation, forwarding
  from a list to its first item, and descent. The module also holds the
  error messages.
- `DeferredSave` — the ordered, duplicate-free set of marked selectors and the
  commit that `autoSave` performs over them.
- `Engine` — the `ExecutionState` class. Its methods update the variables and
  the marked selectors in place. `ApplyDataSelector` and `AutoSave` are the
  source's loops, each proved equal to its specification.
- `Definitions` — the `ExecutionStateDefinition` class and PHP's
  left-biased array union.

On these points the code behaves as follows:
- The code appends the segment to the reported prefix before the descent
  (ExecutionState.php line 159), not after it. So a NULL reference names the
  prefix before the segment, while "not a list or complex structure" and a
  wrapped lookup failure name the prefix through the segment.
- A translatable object without the requested translation is used as it is.
  This is never an error.
- `autoSave` resolves every marked selector again each time it runs, and it
  never clears the marks.

## Model

| member | source | states |
|---|---|---|
| Selectors.Split | src/Engine/ExecutionState.php:134 | `explode(':', $rest)` yields at least one segment, and no segment contains the separator |
| Selectors.SplitFirst | src/Engine/ExecutionState.php:127 | `explode(':', $selector, 2)`: the head has no separator; without a rest the head is the whole selector, with one the selector is head, separator, rest |
| Selectors.SplitJoin | src/Engine/ExecutionState.php:127-134 | joining the segments of a string with `:` gives the string back, so the segments cover the selector exactly |
| Selectors.JoinSplit | src/Engine/ExecutionState.php:134 | segments free of separators survive a join followed by a split |
| Selectors.SplitAppend | src/Engine/ExecutionState.php:134 | appending `:name` to a selector appends exactly one segment `name` |
| Selectors.SplitFirstAgreesWithSplit | src/Engine/ExecutionState.php:127-134 | the limited split's head is the first segment of the full split, and its rest is the remaining segments |
| Selectors.IsDigits | src/Engine/ExecutionState.php:155 | `ctype_digit($name)`: the segment is non-empty and all decimal digits |
| TypedData.Get | src/Engine/ExecutionState.php:164-169 | `get($name)` on a list or complex structure: the recorded child, NULL, or an `\InvalidArgumentException` for a name the data does not know |
| TypedData.RootValue | src/Engine/ExecutionState.php:200 | `getRoot()->getValue()`: the value of the data's root object |
| TypedData.ClosedSaveable | src/Engine/ExecutionState.php:200 | in a closed graph every object has a live root, so `getRoot()->getValue()` can always be taken |
| Resolution.Message | src/Engine/ExecutionState.php:104-172 | the four exception texts; each starts with the unbound variable name or with the selector prefix the error names |
| Resolution.Dereference | src/Engine/ExecutionState.php:137-142 | fails exactly for a reference with a NULL target, naming the prefix consumed so far; otherwise the result is the data itself or its target, and data that is not a reference is kept |
| Resolution.Localize | src/Engine/ExecutionState.php:145-151 | the data or one of its translations, never an error; the requested translation whenever the data is translatable and has it |
| Resolution.ForwardToFirstItem | src/Engine/ExecutionState.php:155-157 | an all-digit segment keeps the data; any change is from a list to its item 0 |
| Resolution.Descend | src/Engine/ExecutionState.php:159-173 | succeeds only on a list or complex structure, with the child the lookup found or NULL; fails with "not a list or a complex structure" or a wrapped lookup failure naming the prefix through the segment |
| Resolution.Step | src/Engine/ExecutionState.php:135-173 | one segment's error is a NULL reference naming the prefix before the segment, or one of the two descent errors naming the prefix through it |
| Resolution.Walk | src/Engine/ExecutionState.php:134-174 | the loop over the segments never fails with the undefined-variable error, and its errors name a selector extending the starting prefix |
| Resolution.Resolve | src/Engine/ExecutionState.php:126-177 | `applyDataSelector`: the undefined-variable error arises exactly when the head is unbound, and names the head |
| Resolution.StepErrorMessage | src/Engine/ExecutionState.php:140-172 | a failed segment's message names the selector up to the segment: before it for a NULL reference, through `:name` otherwise |
| Resolution.ResolveVariable | src/Engine/ExecutionState.php:127-132 | a selector without `:` resolves to the bound data itself, or fails with the undefined-variable error |
| Resolution.ResolveUnboundHead | src/Engine/ExecutionState.php:127-128 | an unbound head fails with the undefined-variable error whatever follows it |
| Resolution.ResolveAppend | src/Engine/ExecutionState.php:133-174 | resolving `s:name` is resolving `s` and then applying one segment with `s` as the prefix; an error in `s` is the error of `s:name` |
| Resolution.WalkAppend | src/Engine/ExecutionState.php:134-174 | walking one more segment continues from where the walk over the earlier segments stopped, with their joined prefix |
| Resolution.ResolveDereference | src/Engine/ExecutionState.php:137-142 | a reference is replaced by its target once; a NULL target fails naming the prefix before the segment; otherwise translation, forwarding and descent run on the target |
| Resolution.ResolveTranslation | src/Engine/ExecutionState.php:145-151 | translatable data switches to the requested translation exactly when it exists, and continues unchanged otherwise |
| Resolution.ResolveListForwarding | src/Engine/ExecutionState.php:153-164 | a list addressed by a segment that is not all digits (the empty segment included) is replaced by item 0 before the lookup; an all-digit segment is looked up on the list |
| Resolution.ResolveDescent | src/Engine/ExecutionState.php:159-173 | only a list or complex structure is descended into; NULL or scalar data fails with "not a list or a complex structure"; a failed child lookup is wrapped with the prefix through the segment |
| Resolution.ResolveErrorPrefix | src/Engine/ExecutionState.php:128-173 | every error names the unbound head, the prefix before the failing segment (NULL reference), or a segment-aligned prefix of the selector ending at the failing segment |
| Resolution.WalkErrorPrefix | src/Engine/ExecutionState.php:134-174 | the prefix in a walk's error extends the starting prefix by whole segments |
| Resolution.ResolveStaysInGraph | src/Engine/ExecutionState.php:137-164 | in a closed graph with bound variables, successful resolution yields a live object or NULL |
| Resolution.WalkStaysInGraph | src/Engine/ExecutionState.php:134-174 | each walk from a live object ends on a live object or NULL |
| Resolution.DereferenceStaysInGraph | src/Engine/ExecutionState.php:137-142 | the target of a live reference is live |
| Resolution.LocalizeStaysInGraph | src/Engine/ExecutionState.php:145-151 | a translation of live data is live |
| Resolution.ForwardStaysInGraph | src/Engine/ExecutionState.php:155-157 | item 0 of a live list is live or NULL |
| Resolution.DescendStaysInGraph | src/Engine/ExecutionState.php:162-170 | a child found in live data is live or NULL |
| Resolution.StepStaysInGraph | src/Engine/ExecutionState.php:137-173 | each segment step from a live object ends on a live object or NULL |
| DeferredSave.MarkLater | src/Engine/ExecutionState.php:182-185 | marking adds the selector, keeps every earlier mark in its place, changes nothing if already marked, and keeps the marks duplicate-free |
| DeferredSave.MarkLaterIdempotent | src/Engine/ExecutionState.php:183 | marking a selector twice is marking it once |
| DeferredSave.Resolutions | src/Engine/ExecutionState.php:192-193 | there is one resolution per marked selector |
| DeferredSave.ResolutionAt | src/Engine/ExecutionState.php:193 | the i-th marked selector is resolved on its own, with the default language code |
| DeferredSave.ResolutionsAppend | src/Engine/ExecutionState.php:192-193 | the resolutions of concatenated marks are the concatenated resolutions |
| DeferredSave.ResolutionsLive | src/Engine/ExecutionState.php:192-196 | in a closed graph every successful resolution of a mark is live |
| DeferredSave.Commit | src/Engine/ExecutionState.php:192-202 | the commit saves at most one root per resolution, and a failure is the error of one of the resolutions |
| DeferredSave.CommitFrom | src/Engine/ExecutionState.php:192-202 | one loop iteration: an error stops the loop, NULL is skipped, and live data saves its root before the rest |
| DeferredSave.CommitStep | src/Engine/ExecutionState.php:192-201 | one iteration of the `autoSave` loop, from the saves so far: an error ends it, NULL keeps the saves, data appends its root's save |
| DeferredSave.AutoSavePlan | src/Engine/ExecutionState.php:190-204 | what `autoSave` does: at most one save per marked selector, and a failure is the resolution error of one of the marks |
| DeferredSave.CommitAppend | src/Engine/ExecutionState.php:192-202 | one more resolution (`Then`): a stopped commit stays as it was; otherwise the earlier saves are kept, an error stops the commit, NULL adds nothing, and data adds its root's save after them |
| DeferredSave.CommitStopsWithError | src/Engine/ExecutionState.php:192-193 | a failing resolution after a commit that has not stopped ends it with that error and the earlier saves, whatever follows |
| DeferredSave.CommitStopsAtFailure | src/Engine/ExecutionState.php:192-193 | once a resolution fails, no later selector is saved |
| DeferredSave.CommitSavesEveryRoot | src/Engine/ExecutionState.php:196-200 | when every mark resolves to data, each mark's root is saved in marking order, one save per mark even when roots coincide |
| DeferredSave.AutoSaveSkipsNull | src/Engine/ExecutionState.php:194-201 | a mark whose data is NULL adds neither a save nor an error |
| DeferredSave.AutoSaveStopsAtError | src/Engine/ExecutionState.php:192-193 | a mark that fails to resolve stops `autoSave` with its error, after the saves of the earlier marks |
| Engine.ExecutionState.constructor | src/Engine/ExecutionState.php:64-77 | the state holds exactly the given variables and no marks |
| Engine.ExecutionState.Clone | src/Engine/ExecutionState.php:20-25 | a clone is a fresh state with equal variables and marks |
| Engine.AddInNestedScope | src/Engine/ExecutionState.php:20-25 | a variable added to a clone is visible there and leaves the parent's bindings as they were |
| Engine.ExecutionState.AddVariableData | src/Engine/ExecutionState.php:94-97 | binds the name to the data, overwriting any earlier binding; `hasVariable` then holds and `getVariable` returns the data; every other binding is unchanged; the state itself is returned |
| Engine.ExecutionState.AddVariable | src/Engine/ExecutionState.php:82-89 | the data built by the factory is bound as by `addVariableData`; a factory failure leaves the variables unchanged |
| Engine.ExecutionState.GetVariable | src/Engine/ExecutionState.php:102-107 | succeeds exactly for bound names with the bound data, and fails with the undefined-variable error otherwise |
| Engine.ExecutionState.GetVariableValue | src/Engine/ExecutionState.php:112-114 | the plain value of the bound data, or exactly the `getVariable` error |
| Engine.ExecutionState.HasVariable | src/Engine/ExecutionState.php:119-121 | holds exactly when `getVariable` succeeds |
| Engine.ExecutionState.ApplyDataSelector | src/Engine/ExecutionState.php:126-177 | the loop computes `Resolution.Resolve` for the selector and language code |
| Engine.ApplySegment | src/Engine/ExecutionState.php:135-173 | one loop iteration computes `Resolution.Step`: dereference, translation, list forwarding, descent |
| Engine.ExecutionState.SaveChangesLater | src/Engine/ExecutionState.php:182-185 | the marks become `MarkLater` of the old marks and stay duplicate-free; the state itself is returned |
| Engine.ExecutionState.AutoSave | src/Engine/ExecutionState.php:190-204 | the saves made and the stopping error are exactly `AutoSavePlan` of the variables and marks, with at most one save per (distinct) marked selector |
| Definitions.Defaults | src/Engine/ExecutionStateDefinition.php:29-31 | the initial definition array holds only `'context'`, an empty context map |
| Definitions.LeftUnion | src/Engine/ExecutionStateDefinition.php:54 | PHP's `+`: every key of either side, with the left value on a shared key |
| Definitions.LeftUnionIsSwappedUnion | src/Engine/ExecutionStateDefinition.php:54 | PHP's `$a + $b` is Dafny's `b + a` |
| Definitions.MergedDefinition | src/Engine/ExecutionStateDefinition.php:29-55 | every supplied key, `'context'` included, keeps its value; the empty context map is added only when `'context'` is absent |
| Definitions.CreateWithoutValues | src/Engine/ExecutionStateDefinition.php:29-44 | `create()` without values holds only the empty context map |
| Definitions.ExecutionStateDefinition.constructor | src/Engine/ExecutionStateDefinition.php:42-55 | the definition is the supplied values merged over the defaults, and it has a context map |
| Definitions.ExecutionStateDefinition.SetContextDefinition | src/Engine/ExecutionStateDefinition.php:67-70 | binds the context, overwriting an earlier binding; other contexts and other keys are unchanged; the object itself is returned |
| Definitions.ExecutionStateDefinition.ToArray | src/Engine/ExecutionStateDefinition.php:79-86 | returns the stored definition unchanged; the converted local copy is discarded |
| Definitions.ToArrayTwice | src/Engine/ExecutionStateDefinition.php:79-86 | two calls return equal arrays, both equal to the stored definition |

## Left out

- The typed-data manager's `create` (ExecutionState.php lines 83-86) is a foreign call. `AddVariable` takes it as a function parameter that returns the new data or an error.
- `save()` on the root value is a foreign call with side effects. `Engine.ExecutionState.AutoSave` returns the values whose `save()` runs and the error that stops it, instead of `$this`. Exceptions thrown by `save()` are not modelled.
- Engine.ExecutionState.AutoSave: every mark is resolved against one fixed typed-data graph. The model assumes that `save()` on an earlier mark's root leaves the typed data unchanged. In PHP, `save()` runs before the next mark is resolved, and it can change what a later mark reaches: entity hooks, newly assigned ids, a changed reference. Such changes are not modelled.
- Engine.ExecutionState.AutoSave: a root whose value is not an object (so `->save()` would fail) is not modelled. Every root value counts as saveable.
- The framework's `get()` and `offsetGet()` cannot be seen. A child lookup is the node's map from names to child, NULL or failure. A name missing from that map fails with an empty message; the framework's own message is not modelled. `offsetGet(0)` is the node's `first` item, which is a node or NULL and never throws.
- `getTarget()` and `getTranslation()` are node fields. Calling them has no side effects in the model.
- Language codes are opaque strings. `LanguageInterface::LANGCODE_NOT_SPECIFIED` is the constant `"und"`.
- PHP turns integer-like array keys into integers. The marks and the variables are keyed by strings, which gives the same lookups because the keys are cast back to strings where they are used.
- The static `$blocked` list and the `$currentlyBlocked` property are declared but never used. They are not modelled.
- `get_object_vars` in `toArray` is reflection. It is a function parameter, and its results are discarded as in the source.
- Definitions.ExecutionStateDefinition.constructor: requires a supplied `'context'` entry to be a context map, as the documented "same format as `toArray()`" demands. A malformed `'context'` value is not modelled.
- The definition array's other settings are opaque values.
- Definitions.ExecutionStateDefinition.ToArray: PHP arrays keep insertion order, but the definition array and the context map are Dafny maps, which have none. The order of the returned array is not modelled: the supplied keys first, then `'context'` when it was added by the defaults, and contexts in the order they were set.
- src/Condition/ConditionManager.php is not part of this model. It is plugin-manager wiring that forwards to its parent constructor, and it does not parse as written.
- src/Entity/Controller/RulesComponentListBuilder.php is not part of this model. It renders an administration table through framework calls.
- src/Event/UserLoginEvent.php is not part of this model. It is an event object holding one public field.
