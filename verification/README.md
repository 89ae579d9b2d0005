# Recipe engine of the alchemy game, in Dafny

This project models the recipe-resolution and discovery-state engine of the browser game in
`script.js`. The player drops two elements into a crafting area. The engine looks up the
pair under a canonical key and records any outputs the player does not own yet.

The model covers:
- **Alias layer:** `norm` / `resolveAlias` (`Alias`, with `Text.Trim` as JavaScript's `trim`).
- **Unordered pair key:** `keyFor` (`PairKey`).
- **Index build:** the forward index `recipeMap` and the reverse index `producers` (`RecipeIndex`).
- **Legacy migration:** `migrateOldCombinations`, for data files in the legacy concatenated-key format (`Migration`).
- **Lookup:** `combineElements` (`RecipeIndex.Lookup`).
- **Discovery update:** the update done by `checkCombination`, plus the reset state and the story unlock rule (`Discovery`).
- **Still-combinable classifier:** `canProduceUndiscovered` (`Reachability`).
- **Provenance search:** `buildOnePathSummary` with `choosePairsFor` and `dfs` (`Provenance`, with the stable sort in `StableSort`).

Everything is pure functions over immutable sequences, sets and maps. The browser state
that the code reads and writes becomes arguments and results:
- `aliases`, `recipeMap`, `producers` and `discoveredElements`;
- the shared `visited` set and `steps` list of the search.

## Model

| member | source | states |
|---|---|---|
| Util.Dedup | script.js:177 | `Array.from(new Set(xs))` has no duplicates, holds exactly the elements of `xs`, and is no longer than `xs` |
| Util.DedupOrder | script.js:177 | the de-duplicated list keeps first-seen order: its elements appear in the order of their first occurrence in the input |
| Util.DedupOfNoDup | script.js:177 | de-duplicating a list without duplicates returns it unchanged |
| Util.DedupExtends | script.js:177 | de-duplicating a longer list only appends to the de-duplication of its prefix, so earlier outputs keep their places |
| Util.Reverse | script.js:626 | `steps.reverse()` puts at position i the element from the mirrored position |
| Util.ReverseReverse | script.js:626 | reversing twice gives the original list back |
| Text.Trim | script.js:26 | `norm` returns a string with no surrounding whitespace, and leaves an already trimmed string unchanged |
| Text.TrimIsSlice | script.js:26 | `norm` removes only whitespace: its result is a slice of the input with whitespace only before and after it |
| Text.TrimIdempotent | script.js:26 | trimming twice is trimming once |
| Text.Split | script.js:388 | `k.split` on the separator gives at least one field, no field contains the separator, and joining the fields with the separator gives `k` back |
| Text.SplitJoin | script.js:34 | splitting the separator-join of separator-free fields gives the same fields back |
| Text.SplitPair | script.js:388 | a key made of two separator-free names reads back as exactly those two names |
| Alias.Resolve | script.js:27-30 | `resolveAlias` returns the table entry for the trimmed name when that entry exists and is non-empty; otherwise it returns the trimmed name; any other result comes from the table |
| Alias.ResolveAll | script.js:175 | mapping `resolveAlias` over a list keeps its length and resolves each position |
| Alias.ResolveTrim | script.js:27-28 | resolution trims first, so trimming before resolving changes nothing |
| Alias.ResolveIdempotentIff | script.js:27-30 | resolving twice equals resolving once, for every name, exactly when the alias table has one layer |
| Alias.ResolveIdempotent | script.js:27-30 | with one layer of aliasing, a resolved name resolves to itself |
| Alias.NoChainsIsOneLayer | script.js:27-30 | if no non-empty alias target is itself rewritten (and every target is trimmed), the table has one layer |
| Alias.ResolveKeepsSepFree | script.js:27-30 | if neither the name nor any alias target contains the separator, the resolved name does not either |
| PairKey.Sort2 | script.js:33 | the two-element comparator sort returns the same two names |
| PairKey.Sort2Sorted | script.js:33 | with a consistent comparator, the sorted pair is in collation order |
| PairKey.Sort2Symmetric | script.js:33 | with a consistent comparator that never ties different names, the sorted pair does not depend on argument order |
| PairKey.CanonIdempotent | script.js:31-32 | with one layer of aliasing, a name already passed through `norm` and `resolveAlias` stays fixed when passed through again |
| PairKey.KeyForShape | script.js:31-34 | `keyFor(a, b)` is the two canonical names, in collation order, around one separator |
| PairKey.KeyForSplit | script.js:31-34 | a key of separator-free canonical names splits back into those two names, in one order or the other |
| PairKey.KeyForCommutesIff | script.js:31-34 | `keyFor(a, b) == keyFor(b, a)` exactly when the canonical names are equal or the collation does not tie them |
| PairKey.KeyForCommutesWhenOrdered | script.js:31-34 | when the canonical names are equal or not tied, the key is commutative, with no condition on the separator |
| PairKey.KeyForCommutes | script.js:31-34 | with a collation that never ties different names, `keyFor` is commutative |
| RecipeIndex.AddProducers | script.js:180-184 | after appending the pair for each output, an output lists the pair exactly when it is one of the outputs, and every earlier list is kept as a prefix |
| RecipeIndex.Merge | script.js:177 | the new outputs under the key have no duplicates, hold exactly the earlier and new outputs, and keep the earlier list as a prefix; no other key changes |
| RecipeIndex.MergeFirstSeen | script.js:177 | the merged outputs are in first-seen order over the earlier outputs followed by the new ones |
| RecipeIndex.EntryOf | script.js:171 | an entry takes part in the build exactly when its `inputs` is an array of two names |
| RecipeIndex.Entries | script.js:170-175 | the per-entry computation is applied to every recipe, position by position |
| RecipeIndex.BuildFrom | script.js:177 | every output list in the forward index is duplicate-free |
| RecipeIndex.BuildKeys | script.js:170-177 | a key is in the forward index exactly when some kept entry is filed under it |
| RecipeIndex.BuildForward | script.js:170-177 | an output is listed under a key exactly when some kept entry filed under that key lists it |
| RecipeIndex.BuildReverse | script.js:172-184 | a pair is listed for an output exactly when some kept entry with those resolved inputs lists that output |
| RecipeIndex.BuildIndexesEveryRecipe | script.js:172-184 | every kept entry's resolved pair is stored for each of its outputs, and each output is filed under the entry's key |
| RecipeIndex.BuildProducersFiled | script.js:172-184 | every stored producer pair of an output has that output filed under the pair's key |
| RecipeIndex.BuildFiledHasProducer | script.js:172-184 | every output filed under a key has a stored producer pair whose key it is |
| RecipeIndex.BuildConsistent | script.js:168-185 | the two indices built together agree in both directions |
| RecipeIndex.BuildOnlyAdds | script.js:177 | later entries never remove a key, and the earlier output list of a key is a prefix of the later one |
| RecipeIndex.LookupAfterBuild | script.js:326-329 | after the build, `combineElements` is `null` exactly when no kept entry is filed under the pair's key; otherwise it lists, without duplicates, exactly those entries' outputs |
| RecipeIndex.LookupCommutes | script.js:326-329 | `combineElements(a, b) == combineElements(b, a)` whenever `keyFor` commutes for the pair |
| Migration.KnownNames | script.js:194 | the known-name set has no duplicates, holds exactly the resolved element names, and lists them in the Set's insertion order (order of first appearance), which decides the first-match tie-break of the key split |
| Migration.FirstSplit | script.js:197-202 | the scan over known names stops at a name that splits the key, or at the end |
| Migration.FirstSplitIsFirst | script.js:197-202 | no known name before the one the scan stops at splits the key |
| Migration.TrySplit | script.js:195-204 | the two halves of a split concatenate back to the resolved key |
| Migration.TrySplitFirst | script.js:197-200 | both halves of a split are known names, and the first half is the earliest known name in set order that splits the key |
| Migration.TrySplitNoneIff | script.js:195-204 | `trySplit` returns `null` exactly when no known name splits the key |
| Migration.ResolveEntries | script.js:196-207 | each legacy key is trimmed and resolved and its outputs resolved, position by position |
| Migration.MigrateOne | script.js:205-207 | a legacy entry migrates exactly when its key splits, into a kept entry with the split as inputs and the same outputs |
| Migration.MigrateResolved | script.js:205-209 | migration produces no more entries than it reads, every one kept by the build, and exactly the entries whose key splits |
| Migration.MigrateOldCombinations | script.js:192-210 | the migrated list is no longer than the legacy one and every entry has two inputs |
| Migration.MigratedInputsSplitKey | script.js:194-207 | every migrated entry has two known names as inputs, which concatenate to the trimmed and resolved key of some legacy entry, and that entry's resolved outputs as outputs |
| Migration.SplittableIsMigrated | script.js:205-207 | a legacy entry whose key splits is migrated with the first split and its resolved outputs |
| Migration.MigrateAppend | script.js:205-209 | migration works entry by entry and keeps the legacy order |
| Migration.MigrateKeepsAllIff | script.js:205-208 | no legacy entry is dropped exactly when every key splits |
| Migration.RecipeSource | script.js:161-165 | the legacy object is migrated only when the file has `combinations` and no `recipes`; otherwise `recipes` is used, or the empty list |
| Discovery.Reset | script.js:409 | the reset state has the two seed elements and nothing combined |
| Discovery.ResetInv | script.js:409 | the reset state records no name twice |
| Discovery.Record | script.js:343-347 | an owned output leaves the state alone; a new one is appended to `combined` |
| Discovery.Discover | script.js:341-348 | the loop keeps `base`, only appends to `combined`, adds exactly the processed outputs not owned before, never records a name twice, and appends the new names in the order they first occur among the processed outputs |
| Discovery.AppendedInOrderStep | script.js:341-348 | one pass of the loop body keeps the appended names unowned before the loop and in first-occurrence order |
| Discovery.DiscoverOwnsAll | script.js:341-348 | after the loop the player owns every processed output |
| Discovery.DiscoverOwnedIsNoOp | script.js:341-348 | outputs the player already owns change nothing |
| Discovery.DiscoverIdempotent | script.js:341-348 | processing the same outputs twice is processing them once |
| Discovery.DiscoverGrowthBound | script.js:341-348 | `combined` grows by at most one name per processed output |
| Discovery.Processed | script.js:341-342 | the processed outputs are the first six results (or fewer), each resolved |
| Discovery.Combine | script.js:336-358 | nothing happens exactly when the lookup is `null` or empty, and then the state is unchanged; otherwise at most six outputs are reported, owned or not, and recorded; the invariant is kept |
| Discovery.CombineOwnsCreated | script.js:336-358 | after a combination the player owns every reported output, and `combined` gained at most six names |
| Discovery.CombineTwice | script.js:336-358 | repeating a combination leaves the state as the first one left it |
| Discovery.CombineCommutes | script.js:336 | dropping the two elements in either order gives the same result whenever `keyFor` commutes for them |
| Discovery.Discovered | script.js:486 | the discovered set holds exactly the resolved base and combined names |
| Discovery.DiscoveredGrows | script.js:486 | a combination only adds to the discovered set |
| Discovery.UnlockedMonotone | script.js:489 | a chapter without requirements is open, and an open chapter stays open as the discovered set grows |
| Discovery.StoryStaysUnlocked | script.js:489 | no combination closes a chapter that was open |
| Reachability.SplitSorted | script.js:388 | a key of two separator-free names splits back into the sorted pair |
| Reachability.KeyForCanonical | script.js:31-34 | on canonical names `keyFor` is the collation-sorted join |
| Reachability.KeyHitOfPair | script.js:388-392 | for a two-field key, the per-entry test means that `e` is one field, the other field is discovered, and some output is undiscovered |
| Reachability.PartnerInPair | script.js:389-391 | the partner the test picks, sorted with `e`, gives back the key's pair |
| Reachability.CanProduceSound | script.js:386-397 | if the classifier says yes, some discovered partner combines with `e` into a list holding an undiscovered output |
| Reachability.CanProduceComplete | script.js:386-397 | if some discovered partner combines with `e` into a list holding an undiscovered output, the classifier says yes |
| Reachability.CanProduceIffCombinable | script.js:386-397 | with well-keyed indices, `canProduceUndiscovered(e, D)` holds exactly when some `o` in `D` combines with `e` into an output not in `D` |
| Reachability.BuildWellKeyed | script.js:170-177 | with one layer of aliasing and no separator in names or alias targets, every forward key is the sorted join of two canonical separator-free names |
| StableSort.Insert | script.js:597-600 | inserting an element keeps every element and adds that one |
| StableSort.InsertDescending | script.js:597-600 | inserting into a list sorted highest key first keeps it sorted |
| StableSort.SortBy | script.js:595-601 | the sort is a permutation of its input, highest key first |
| StableSort.InsertWithKey | script.js:597-600 | inserting an element puts it first among elements with its key and moves no other key's elements |
| StableSort.SortByStable | script.js:595-601 | for every key, the sort keeps the input order of the elements with that key |
| Provenance.MakeCtx | script.js:587-594 | `baseSet` is exactly the resolved base names, `discSet` is exactly the resolved base and combined names, and the first lies inside the second |
| Provenance.Score | script.js:598-599 | a pair's score is at most four |
| Provenance.ChoosePairs | script.js:591-601 | `choosePairsFor(tgt)` is a permutation of the producer list of `tgt` |
| Provenance.ChoosePairsDescending | script.js:597-600 | `choosePairsFor` lists the pairs highest score first |
| Provenance.ChoosePairsStable | script.js:595-601 | pairs with equal score keep their producer-list order |
| Provenance.ChoosePairsMembers | script.js:591-601 | every pair `choosePairsFor` lists is a producer pair of the target |
| Provenance.ObtainedGrows | script.js:613-617 | an element that is available stays available as steps are added |
| Provenance.ChronologicalPush | script.js:616-617 | recording a step whose inputs are available keeps the step list chronological |
| Provenance.ValidPush | script.js:616-617 | recording a producer step whose inputs are available keeps the step list sound and chronological |
| Provenance.Dfs | script.js:604-622 | `dfs` only appends to the step list, never grows it past the step bound plus the depth still allowed, and when it succeeds for a non-base target its last step makes that target; termination follows from the depth and option measures |
| Provenance.Input | script.js:614-615 | evaluating `baseSet.has(x)` and, when it is false, `dfs(x, depth + 1)` only appends steps, and on success `x` is a base element or the last step makes it |
| Provenance.TryOptions | script.js:613-621 | the option loop only appends steps, adds at most one step beyond the nested bound, and on success its last step makes the target |
| Provenance.DfsValid | script.js:604-622 | every step the search records is a producer pair of its output, and its inputs are available before it |
| Provenance.InputValid | script.js:614-615 | one input keeps the recorded steps sound and chronological, and on success makes the input available |
| Provenance.TryOptionsValid | script.js:613-621 | the option loop keeps the recorded steps sound and chronological |
| Provenance.Search0 | script.js:604-626 | `dfs(resolveAlias(target), 0)` records at most 31 sound, chronological steps, the last making the target; the result is non-empty exactly when `dfs` succeeds on a target that is not a base element, so failure gives `[]` |
| Provenance.SoundReverse | script.js:626 | reversing sound steps keeps them sound |
| Provenance.PathSummaryAsWritten | script.js:584-627 | the summary as written has at most 31 steps, each a producer pair of its output, and its first step makes the target; it is `[]` exactly when the search fails or the resolved target is a base element |
| Provenance.PathSummary | script.js:624-626 | the summary in the promised order has at most 31 producer steps, each step's inputs made before it, and its last step makes the target; it is `[]` exactly when the search fails or the resolved target is a base element |
| Provenance.PathSummaryIsReversed | script.js:626 | the as-written summary is exactly the corrected one reversed |
| Provenance.BaseTargetHasEmptyPath | script.js:606 | a target that resolves to a base element has an empty summary |
| Provenance.NonEmptyPathMakesTarget | script.js:605-618 | a non-empty summary belongs to a non-base target, and its steps make that target |
| Provenance.ChoosePairsSingle | script.js:591-601 | a producer list with one pair is left as it is |
| Provenance.TwoStepInnerOption | script.js:613-618 | in the two-step world, the option `x + y` for `a` succeeds at once and records one step |
| Provenance.TwoStepInner | script.js:604-618 | in the two-step world, searching for `a` below `t` records the step making `a` |
| Provenance.TwoStepOption | script.js:613-618 | in the two-step world, the option `a + y` for `t` records its step after the step making `a` |
| Provenance.TwoStepSearch | script.js:625 | in the two-step world, the search pushes the step making `a` first and the step making `t` last |
| Provenance.AsWrittenIsNotChronological | script.js:624-626 | in the two-step world, the as-written summary lists `a + y → t` before the step making `a`, so it is not chronological; the corrected summary lists the leaves first |
| Provenance.TwoStepWorldExists | script.js:624-626 | a concrete two-step world exists: `Atomo` from the two seed elements, `Estrella` from `Atomo` and `Expansión` |

## Left out

- Browser and I/O work is not modelled: DOM updates, drag and touch handlers, `fetch`, JSON parsing, `localStorage`, the `vis` diagram, and UI strings. The parsed data file and the discovery state are parameters instead.
- The Spanish collation of `localeCompare(…, 'es')` is not modelled. It is an abstract three-way comparison. Properties that need it to be consistent or never to tie require `ValidCollation` / `Separating`.
- JavaScript's `String(x)` conversion of non-string names is not modelled. All names are strings.
- Prototype keys of a plain object (`aliases["constructor"]`) are not modelled. The alias table is a map.
- Only the first two fields of `k.split('|')` are read by `canProduceUndiscovered`, as in the code. Keys are assumed separator-free where the model needs them to read back.
- Set and object iteration orders (`new Set(...)`, `Object.entries`) are taken as the given sequence order.
- The `created` text, `saveGame`, `updateNonCombinableElements` and the explanation box in `checkCombination` are not modelled: they are display or I/O.
- The step strings `"a + b → x"` are not built; each step is the datatype `Provenance.Step`.
- StableSort.SortBy: the comparator sort (`score(q) - score(p)`) is modelled as an insertion sort. JavaScript's `Array.prototype.sort` is stable, and a stable sort by a key has only one possible result.
- Discovery.Combine: the cap of six outputs limits which outputs are granted, not only which are displayed, because the loop itself runs over `results.slice(0, 6)`. The model follows the code.
- RecipeIndex.Build: `keyFor` re-resolves names that are already resolved. This is modelled as written, and the lemmas that read keys back assume one layer of aliasing (`OneLayer`).
- Reachability.CanProduceIffCombinable: the iff is stated for well-keyed indices and separator-free canonical names. For other keys the `split('|')` reading does not match `keyFor`.
- Provenance.PathSummaryAsWritten: its contract does not state the chronological order, because the code as written does not give it (see Findings).

## Findings

| source | as written | input that shows it | evidently intended | confidence | as-written member | corrected member |
|---|---|---|---|---|---|---|
| script.js:624-626 | `dfs` pushes each step after the steps for its inputs, so `steps` is already ordered from the leaves to the target; `steps.reverse()` then puts the target's step first | base `Singularidad`, `Expansión`; `Atomo` from `Singularidad + Expansión`; `Estrella` from `Atomo + Expansión`; target `Estrella` gives `[Atomo + Expansión → Estrella, Singularidad + Expansión → Atomo]` | the comment promises chronological order (base to target): return `steps` without reversing | not executed | Provenance.PathSummaryAsWritten, Provenance.AsWrittenIsNotChronological | Provenance.PathSummary |
