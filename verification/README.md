# Verified models of kswitch

kswitch finds the contexts of many kubeconfig files in many stores, lets the user pick one, and edits kubeconfigs, aliases
and histories along the way. This project models the parts of it that carry guarantees and proves them for all inputs,
all runs and all interleavings.

| module | what it models |
|---|---|
| `FanIn`, `SearchRuns`, `FailedSearch` | a concurrent search as a state machine: the launching loop, one goroutine (pair) per store, one unbuffered result channel, a WaitGroup, and the closer that waits for it. The number of stores is unbounded, and every step is one send, one receive, one map update, one file write or one `Done`. |
| `StoreSearch`, `IndexRoundTrip` | what a single store hands out, live or from its index, when the index is consulted, and what a later search reads back |
| `Tree`, `Screen`, `LateResult` | the selection screen's state: a flat list that encodes a forest through parent paths, its filtered view, the cursor and the scroll window |
| `LazyInit`, `MemoryCache`, `AliasFiles`, `AliasRaces` | three protocols for any number of goroutines or processes: double-checked one-time initialisation, a cache that calls its upstream without holding its lock, alias files written through a temporary file and a rename |
| `AliasState` | the alias directory and the in-memory alias state, as one process sees them |
| `Yaml`, `Upsert`, `Kubeconfig`, `Merge` | kubeconfig documents as YAML node trees, the edits kswitch makes to them, and merging one into another |
| `ContextFilters` | the two filters that prune what a search found |
| `History`, `Gardener`, `Exec`, `Text` | the context history file, Gardener identifiers, quoting a command for a shell, and the string functions these rely on |
| `Lists` | sequence helpers |

Code that changes things step by step is a method, with the source's loops, proved equal to a function of its inputs or of
the old state. The lemmas are about those functions. A protocol has a `Step` datatype, `Enabled` and `Apply`; its
invariants are proved one step at a time and then for every legal run.

What comes from outside is a parameter: what each store finds and what fetching a path gives, the upstream of the cache,
the clock, the order in which a Go map is iterated or a directory is listed, the fuzzy search, and every choice of the
scheduler.

Where the code does not meet what one would expect of it, the model follows the code and a lemma says exactly when
it does:

- An expand result that arrives after its parent was collapsed away is appended without a parent
  (`pkg/tui/model.go:567-569`). `Screen.UpdateKeepsForestIff` shows that this is the only way to lose the forest.
  `Tree.LateCollapseEndsIff` says which collapses then still come back: those of the missing path itself, and of a path
  that all new items have. The ancestor walk of any other never ends. `LateResult.LateResultHangs` is a run of nine
  messages from the empty screen that ends this way.
- Clearing the query with ctrl+u and resizing the window do not scroll; `Screen.UpdateKeepsVisibleIff` gives the case in
  which the cursor leaves the window, and `Screen.ClearQueryHides` and `Screen.ResizeHides` three messages each that bring
  it about.
- A target kubeconfig whose section is present but not a sequence, such as `contexts: null`, swallows what is merged into
  it: `Merge.MergeDelivers`, and `Merge.NullSwallows` for that input.
- A name used twice in the middle operand breaks the associativity of merging: `Upsert.AssociativeIff`.
- The cache ignores tags, so it is transparent only for stores that do: `MemoryCache.TransparentIff`.
- The context filters can remove a cluster altogether, when contexts of one path belong to different clusters:
  `ContextFilters.ClusterVanishesIff`. The second filter can do it alone (`ContextFilters.ExternalCanHide`), the first
  cannot (`ContextFilters.KindFilterKeepsClusters`), and there are inputs where it takes both
  (`ContextFilters.ClusterCanVanish`). Where the contexts of each path agree on the cluster, none is lost:
  `ContextFilters.AgreeingPathsKeepClusters`.
- A history line of 64 KiB or more ends the reading of the history with an error: `History.ReadAfterAppends`, and
  `History.LongNameBreaksReading` for one such line.
- An index holds one path per context name, so it does not show again what a live search found unless the names are
  used consistently: `IndexRoundTrip.SameContextsIff` and `IndexRoundTrip.SameMultisetIff`, and
  `IndexRoundTrip.SameNameTwice` for one name in two files.
- When a required store fails, the search returns an error, and goroutines launched before that may be left behind,
  blocked on a channel nobody reads. `FailedSearch.AllFinishIff` and `FailedSearch.FailedRunSettles` say for which stores:
  exactly those that have anything to hand out. `FailedSearch.OneIsLeftBehind` is such a run.
- A process that reports success may not find its alias afterwards: `AliasRaces.EveryUpdateStaysIff` shows that this is
  ruled out exactly when the writers of one valid alias have one context and no writer's alias may be removed by others.
  In the run `AliasRaces.RaceLoses` two processes write one alias and both report success.
- A load fails when a file it has listed is removed before it is read. `AliasRaces.LoadsNeverFailIff` shows that this is
  ruled out exactly when no file that can be visible may be removed; `AliasFiles.ReadFailsIff` says which read fails.
- A failing file write returns an error with the in-memory aliases already rebound. They are the same as before exactly
  when the context already had that alias: `AliasState.ReboundSameIff`. `AliasState.FailedWrite` is a call that leaves the
  alias in memory and not on disk.
- The comment at `pkg/search.go:280` says that no index is ever written for the store of the `--kubeconfig-path` flag.
  `writeIndex` is called for it all the same, and a search that forces the index reads it:
  `SearchRuns.FlagStoreIndexed`.

## Model

| member | source | states |
|---|---|---|
| FanIn.StepKeepsInv | pkg/search.go:84-277 | Every step of every goroutine keeps the invariant: the WaitGroup equals the number of unfinished stores, the channel is closed only when all have finished, no send or close hits a closed channel, and every store has so far delivered a prefix of what it gives alone and remembered just the contexts it showed. |
| FanIn.ClosedIsFinal | pkg/search.go:271-276 | Once the channel is closed every store has finished and no step of any goroutine is possible, so nothing is ever sent after the close. |
| SearchRuns.Safety | pkg/search.go:84-277 | In every reachable state the WaitGroup is the number of unfinished stores, the channel has been closed at most once, and when it is closed none is unfinished and nothing can move. |
| SearchRuns.ClosedDelivers | pkg/search.go:125-158 | When the channel closes, the results of each store arrived in the order in which it gives them alone, the multiset delivered is the sum of all of these, and each store left the index files it should. |
| SearchRuns.SameDelivery | pkg/search.go:125-268 | Any two complete runs deliver the same multiset, whatever the interleaving and the map iteration orders. |
| SearchRuns.OrderIrrelevant | pkg/search.go:130-157 | The order in which an index is read does not change how often anything is shown. |
| SearchRuns.ErrorShownIff | pkg/search.go:181-192 | A search error of a store is handed out exactly when the store is not optional. |
| SearchRuns.Progress | pkg/search.go:88-276 | Until the channel is closed or the launch has failed, some step can be taken: no deadlock while the receiver drains. |
| SearchRuns.StepDecreases | pkg/search.go:88-276 | Every step lowers a lexicographic measure of the work left. |
| SearchRuns.EveryRunEnds | pkg/search.go:88-276 | Every run, however scheduled, ends: with the channel closed exactly when no store stops the launching loop, and otherwise failed at the first store that does. |
| FailedSearch.AllFinishIff | pkg/search.go:91-120 | When a launch has failed and nothing can move any more, a launched store's goroutine has finished exactly when the store is silent (skipped, an empty index, or a search that shows nothing and reports nothing); so all have finished, and the WaitGroup is down to the stores never launched, exactly when every store before the failing one is silent. |
| FailedSearch.FailedRunSettles | pkg/search.go:88-276 | Every run of a search some store fails comes to rest, failed at the first such store, with exactly the non-silent ones of the stores before it left behind. |
| FailedSearch.SilentIff | pkg/search.go:125-192 | A store is silent exactly when it hands out nothing on its own. |
| FailedSearch.FailureStrands | pkg/search.go:91-120 | From then on the channel is never closed, nothing is delivered, and a goroutine that holds a result keeps holding it. |
| FailedSearch.OneIsLeftBehind | pkg/search.go:91-120 | Two stores and four steps after which a goroutine is left behind. |
| SearchRuns.NextSearchAgrees | pkg/search.go:261-264 | From any complete search on: a later search with the same aliases that reads the written index shows the same contexts exactly when the noted names are consistent, and as often exactly when no name was noted twice. |
| IndexRoundTrip.SameContextsIff | pkg/search.go:228-264 | The index written after a live search, read back in any order with the same aliases, shows the same set of path, name, tags and alias exactly when a name noted twice had the same path and tags. |
| IndexRoundTrip.SameMultisetIff | pkg/main.go:184-204 | It shows the same multiset exactly when no name was noted twice. |
| IndexRoundTrip.SameNameTwice | pkg/search.go:253-257 | One context name in two files of a store: the index shows only the second. |
| IndexRoundTrip.LiveShown | pkg/search.go:181-259 | The contexts a live search hands out are exactly the showings of those it notes for the index, in the same order. |
| StoreSearch.GateAfterSave | pkg/index/index.go:111-136 | A freshly written index is read by a search exactly when the index is not disabled and is either forced or, except for the store of the command line flag, still fresh by the store's own or else the general setting. |
| SearchRuns.FlagStoreIndexed | pkg/search.go:261-285 | The index of the store of the command line flag is written whenever its search noted a context, and read by a later search exactly when that forces the index and does not disable it. |
| StoreSearch.SearchStore | pkg/search.go:172-259 | The live goroutine's loop hands out the emitted results of the store's actions and leaves the path and tag mappings of those actions. |
| StoreSearch.DiscoverContexts | pkg/search.go:228-258 | The loop over one kubeconfig's contexts does this for one result, after whatever came before it. |
| StoreSearch.ReadIndex | pkg/search.go:125-158 | The index goroutine hands out, for its iteration order, one result per display alias of every indexed context. |
| StoreSearch.StoreAliasesFromTags | pkg/search.go:299-312 | Filtering the split parts in place, on the array that is being read, gives exactly the non-empty parts in order. |
| StoreSearch.AliasTagRoundTrip | pkg/store/kubeconfig_store_kubernetes.go:265-277 | The list of aliases a store joins into its tag is read back by the search exactly when no alias is empty or holds a comma. |
| Tree.IsDescendant | pkg/tui/model.go:588-603 | Whenever the ancestor walk meets the top or the path, the loops end, and answer whether it meets the path. |
| Tree.BelowIff | pkg/tui/model.go:588-603 | In a forest the walk meets exactly the transitive ancestors. |
| Tree.ForestCollapses | pkg/tui/model.go:586-620 | In a forest every walk that a collapse makes ends. |
| Tree.MarkingKeepsForest | pkg/tui/model.go:520-528 | Marking an item as loading keeps the forest. |
| Tree.BatchKeepsForest | pkg/tui/model.go:140-271 | Arriving top-level items keep the forest. |
| Tree.ExpandKeepsForestIff | pkg/tui/model.go:531-583 | Integrating an expand result keeps the forest exactly when its parent is still in the list. |
| Tree.LateCollapseEndsIff | pkg/tui/model.go:567-603 | After a result whose parent is gone, collapsing a path comes back exactly when it is the missing path or the path of every new item. |
| LateResult.LateResultHangs | pkg/tui/model.go:140-271 | Eight messages from the empty screen, each of them sent and handled, after which pressing left never returns. |
| Tree.CollapseKeepsForest | pkg/tui/model.go:586-620 | Collapsing keeps the forest. |
| Tree.CollapseLeavesNone | pkg/tui/model.go:586-620 | After a collapse nothing is left below the path. |
| Tree.CollapseKeepsExactly | pkg/tui/model.go:605-616 | An item is kept, but for the flags of the collapsed one, exactly when it does not lie below the path. |
| Tree.ExpandCollapseRestores | pkg/tui/model.go:520-620 | From an idle item without descendants, marking it, expanding it with fresh children and collapsing it again restores the whole list in content and order. |
| Screen.KeepUncollapsed | pkg/tui/model.go:605-614 | The loop that filters a copied array while reading it yields the list without the descendants. |
| Screen.SpliceInPlace | pkg/tui/model.go:564-566 | The nested appends yield the items before, the children and the items after, also when the backing array has room to spare. |
| Screen.Model.ApplyExpandResult | pkg/tui/model.go:531-583 | The method moves the screen to the state after the expand result: list, flags, filtered view, cursor and window. |
| Screen.Model.CollapseItem | pkg/tui/model.go:586-620 | Whenever its walks end, the method moves the screen to the collapsed state. |
| Screen.Model.Update | pkg/tui/model.go:140-271 | Every message moves the screen to the state the specification gives, on any list; a key press that collapses only if the walks end. |
| Screen.ScrollShows | pkg/tui/model.go:435-445 | Scrolling makes the cursor visible and moves the window by the least amount that does. |
| Screen.MoveLands | pkg/tui/model.go:424-464 | A move lands on the shown item nearest to where it was headed, makes it visible and changes nothing else. |
| Screen.UpdateKeepsInv | pkg/tui/model.go:140-271 | Every message, late results included, keeps the filtered view in step with the list and the query, and the cursor a legal index. |
| Screen.UpdateKeepsForestIff | pkg/tui/model.go:140-271 | A message leaves the list a forest exactly when it is no late result. |
| Screen.UpdateKeepsVisibleIff | pkg/tui/model.go:240-245 | After any message a visible cursor is still visible, except exactly when clearing the query or resizing leaves the offset where it hides it. |
| Screen.ClearQueryHides | pkg/tui/model.go:240-245 | Three messages after which the cursor is out of sight. |
| Screen.ResizeHides | pkg/tui/model.go:143-146 | Three others. |
| Screen.Run | pkg/tui/model.go:140-271 | After every run of messages whatever, what is shown comes from the list and the cursor is legal. |
| Screen.RunKeepsForest | pkg/tui/model.go:140-271 | After every run without a late result the list is a forest, and whatever comes next is handled in finite time. |
| Screen.RunKeepsVisible | pkg/tui/model.go:435-464 | Over every run without those two messages, late results included, the cursor stays inside the window. |
| LazyInit.StepKeepsInv | pkg/store/lazy_init.go:41-65 | Every step keeps mutual exclusion, the bookkeeping of the flag and of the mutex, and that a ready flag stays set and starts nothing. |
| LazyInit.InitRunsOnce | pkg/store/lazy_init.go:41-60 | For any number of callers at most one init runs at a time, at most one ever succeeds, none starts after it, and a nil return implies ready. |
| LazyInit.DoneIsExact | pkg/store/lazy_init.go:63-65 | `done` is true only after a successful init completed, and from then on but for the one step that publishes it. |
| LazyInit.DoneIsStable | pkg/store/lazy_init.go:41-65 | Once done, always done, and nothing runs init again. |
| LazyInit.Retryable | pkg/store/lazy_init.go:41-60 | A failure leaves init retryable by any caller. |
| LazyInit.SomeoneCanMove | pkg/store/lazy_init.go:41-60 | No deadlock: a caller can move or waits for one that can. |
| MemoryCache.ValuesComeFromUpstream | pkg/cache/memory/memoryCache.go:49-70 | In every interleaving each stored value and each returned value or error came from an upstream call for that path; errors are never stored. |
| MemoryCache.StoredPathsStay | pkg/cache/memory/memoryCache.go:49-70 | Stored paths never vanish. |
| MemoryCache.TransparentIff | pkg/cache/memory/memoryCache.go:49-70 | The cache cannot be told from calling the upstream, in any interleaving, exactly when for fetchable paths the upstream ignores tags. |
| MemoryCache.SecondCallHits | pkg/cache/memory/memoryCache.go:49-58 | A second call for a stored path is answered with the first call's value, whatever its tags. |
| MemoryCache.OwnStepsServe | pkg/cache/memory/memoryCache.go:49-70 | A goroutine's steps without interference serve and store what the method does, and touch no other goroutine. |
| MemoryCache.Cache.GetKubeconfigForPath | pkg/cache/memory/memoryCache.go:49-70 | The method returns the stored or else the upstream's value and stores a success. |
| AliasFiles.StepKeepsTemps | pkg/subcommands/alias/state/alias.go:214-238 | Every step of any writer, whatever the aliases, keeps temporary files hidden, unshared and filled with a prefix of their writer's context, and leaves no other new hidden file. |
| AliasFiles.StepKeepsFiles | pkg/subcommands/alias/state/alias.go:183-238 | Every step keeps the visible files those of the renames and removals done one after the other, in the order of the history. |
| AliasFiles.StepKeepsLoaders | pkg/subcommands/alias/state/alias.go:61-82 | Every step keeps what a load has read whole, its mapping the one loaded from that, and a listed name missing exactly when it was removed since and not written again. |
| AliasFiles.LoadsSeeWholeFiles | pkg/subcommands/alias/state/alias.go:61-82 | In every interleaving of any writers and removals, racing for one alias or not, no load reads a temporary file or sees a half-written one, and it fails only at a name removed after it was listed. |
| AliasFiles.ReadFailsIff | pkg/subcommands/alias/state/alias.go:73-76 | The next read of a load fails exactly when its name has been removed since the listing and not written again. |
| AliasRaces.LoadsNeverFailIff | pkg/subcommands/alias/state/alias.go:61-82 | No load fails in any interleaving exactly when nothing that is there at first or that a writer can bring may be removed. |
| AliasFiles.FinishedLoad | pkg/subcommands/alias/state/alias.go:61-82 | A finished load has read every file that was visible when it listed the directory, each of them whole, and has the mapping that loading exactly these contents gives. |
| AliasFiles.NoLostUpdates | pkg/subcommands/alias/state/alias.go:120-193 | When all writers are through, the whole directory is what the successful writes and the removals, done one after the other in the order of their renames and removals, would have left; refused and failed writes leave nothing behind. |
| AliasFiles.LastChangeWins | pkg/subcommands/alias/state/alias.go:183-238 | The last such change of a name decides, and a name nobody changed is as it was. |
| AliasRaces.EveryUpdateStaysIff | pkg/subcommands/alias/state/alias.go:120-145 | Every writer that reports success finds its context in its file, in every interleaving, exactly when writers of one valid alias have one context and no writer's alias may be removed by others. |
| AliasRaces.InTurn | pkg/subcommands/alias/state/alias.go:214-238 | Of any two writers of one valid alias there is a complete run in which both succeed and the file holds the second one's context. |
| AliasRaces.RaceLoses | pkg/subcommands/alias/state/alias.go:214-238 | Two processes that do so with different contexts. |
| AliasState.ValidateAliasName | pkg/subcommands/alias/state/alias.go:200-212 | A name is accepted exactly when it is a plain visible file name. |
| AliasState.Alias.LoadFromDir | pkg/subcommands/alias/state/alias.go:61-82 | The loop loads every visible file with a non-blank context, a later file winning; the first one that cannot be read ends it with an error. |
| AliasState.Alias.ContainsAlias | pkg/subcommands/alias/state/alias.go:149-156 | Returns a context with that alias, and none only when there is none. |
| AliasState.Alias.WriteAlias | pkg/subcommands/alias/state/alias.go:120-145 | An invalid name changes nothing; a valid one replaces the alias' former context in memory, and then writes its file and reports the replaced context, or fails with the memory changed and the directory not. |
| AliasState.Alias.WriteAllAliases | pkg/subcommands/alias/state/alias.go:160-193 | The directory and the error for every combination of failing file operations: the first failing write ends it, failing removals are passed over. |
| AliasState.WriteAllIs | pkg/subcommands/alias/state/alias.go:160-193 | Whatever fails, each visible file holds what it held or a context of its alias; an error loses no file; without one every valid alias has its file and every other visible file is gone, if it could be removed. |
| AliasState.Alias.RemoveAlias | pkg/subcommands/alias/alias.go:93-129 | Removes every context of the alias and rewrites the directory as far as that succeeds, or reports an unknown alias and changes nothing. |
| AliasState.LoadedIs | pkg/subcommands/alias/state/alias.go:61-82 | A context is loaded exactly when some visible file reads as it, and then with such a file's name. |
| AliasState.LoadedInjective | pkg/subcommands/alias/state/alias.go:61-82 | Whatever is on disk, no alias is loaded for two contexts. |
| AliasState.StoreThenLoad | pkg/subcommands/alias/state/alias.go:160-193 | When all aliases have been written without an error and no stale file was left, loading the directory gives the mapping back, whatever was on disk and in whatever orders, exactly for injective maps with valid names and trimmed non-empty contexts. |
| AliasState.ReboundSameIff | pkg/subcommands/alias/state/alias.go:129-134 | Writing an alias leaves the mapping the same exactly when the alias is already the one of that context and that is reported; for an injective mapping, exactly when it already is. |
| AliasState.FailedWrite | pkg/subcommands/alias/state/alias.go:134-142 | A call whose file write fails: an error, the alias in memory, nothing on disk. |
| AliasState.RunInjective | pkg/subcommands/alias/state/alias.go:120-145 | The mapping stays injective over every run of loads, writes and removals. |
| Yaml.FindValue | pkg/util/kubectx_copied/contexts.go:139-149 | The loop finds the value of the first matching key. |
| Yaml.PutGet | pkg/subcommands/merge-to-default/merge.go:170-201 | A value written at a key is read back there and changes no other key. |
| Upsert.UpsertEntries | pkg/subcommands/merge-to-default/merge.go:150-167 | The nested loops upsert all named source entries in order. |
| Upsert.MergeLookup | pkg/subcommands/merge-to-default/merge.go:137-168 | Looking a name up in the result gives the last source entry of it, or else the first destination entry. |
| Upsert.MergeSlots | pkg/subcommands/merge-to-default/merge.go:150-167 | Every destination slot stays in place with its name, and only the first of a name the source has is overwritten. |
| Upsert.MergeKeepsUnmatched | pkg/subcommands/merge-to-default/merge.go:150-167 | Destination entries of names the source lacks stay in order. |
| Upsert.MergeIdempotent | pkg/subcommands/merge-to-default/merge.go:137-168 | Merging the same source twice is merging it once. |
| Upsert.AssociativeIff | pkg/subcommands/merge-to-default/merge.go:137-168 | Merging through a middle operand is associative as sequences, for all outer operands, exactly when the middle's names are distinct. |
| Upsert.RepeatBreaksAssociativity | pkg/subcommands/merge-to-default/merge.go:150-167 | For every middle operand with a repeated name a third operand shows the difference. |
| Kubeconfig.SetScalarIn | pkg/subcommands/merge-to-default/merge.go:170-181 | The loop replaces the text of the first such key or appends a pair. |
| Kubeconfig.Document.GetContexts | pkg/util/kubectx_copied/contexts.go:25-33 | The contexts, or the error for a missing or wrong section. |
| Kubeconfig.Document.ContextNode | pkg/util/kubectx_copied/contexts.go:35-50 | The first context of the name, or the error, as long as no context before it lacks a name. |
| Kubeconfig.Document.GetContextNames | pkg/util/kubectx_copied/contexts.go:61-82 | The names of the contexts in order. |
| Kubeconfig.Document.ModifyContextName | pkg/util/kubectx_copied/contextmodify.go:161-182 | Renames the first such context and nothing else, or fails and changes nothing. |
| Kubeconfig.Document.ReferencedContextField | pkg/util/kubectx_copied/contextmodify.go:252-268 | Exactly the names the contexts reference through the field. |
| Kubeconfig.Document.RemoveOrphaned | pkg/util/kubectx_copied/contextmodify.go:209-240 | Prunes a section to the named entries that are referenced. |
| Kubeconfig.Document.RemoveContext | pkg/util/kubectx_copied/contextmodify.go:184-207 | The document without the context and what became unreferenced, or the error and no change. |
| Kubeconfig.Document.SetContext | pkg/util/kubectx_copied/kubeconfig.go:93-114 | Renames the context behind an alias, prefix stripped, and makes it current; a failing rename leaves the document alone. |
| Kubeconfig.Document.SetNamespace | pkg/util/kubectx_copied/namespace.go:24-62 | Sets the namespace in the first such context, with or without a body. |
| Kubeconfig.Document.NamespaceOfContext | pkg/util/kubectx_copied/namespace.go:64-78 | The namespace, `default` when unset. |
| Kubeconfig.Document.SetNamespaceForCurrentContext | pkg/util/kubectx_copied/kubeconfig.go:144-155 | Sets the current context's namespace; without one, or when it is unknown, nothing changes. |
| Merge.SetScalarGet | pkg/subcommands/merge-to-default/merge.go:170-189 | A text that is set is read back, no other key changes, and the document stays well formed. |
| Kubeconfig.RemovedSections | pkg/util/kubectx_copied/contextmodify.go:184-268 | A removal leaves exactly the other contexts and exactly the named clusters and users they reference, in order, and the current context as it was. |
| Kubeconfig.RemoveCommutes | pkg/util/kubectx_copied/contextmodify.go:184-268 | Removals of two names commute on the whole document. |
| Kubeconfig.RemoveIdempotent | pkg/util/kubectx_copied/contextmodify.go:184-268 | Removing twice is removing once, on the whole document. |
| Merge.MergeSection | pkg/subcommands/merge-to-default/merge.go:137-168 | One section merged, including absent sections and ones that are not sequences. |
| Merge.MergeKubeconfigs | pkg/subcommands/merge-to-default/merge.go:114-135 | The whole merge: three sections, then the current context when the source has one. |
| Merge.MergeDelivers | pkg/subcommands/merge-to-default/merge.go:142-168 | All named source entries arrive exactly when the destination's section is absent or a sequence, or there were none. |
| Merge.NullSwallows | pkg/subcommands/merge-to-default/merge.go:142-168 | `contexts: null` in the target loses the one context merged into it. |
| Merge.MergedNames | pkg/subcommands/merge-to-default/merge.go:150-167 | A name is in the merged section exactly when one side has it. |
| Merge.MergeCloses | pkg/subcommands/merge-to-default/merge.go:114-168 | Merging closed documents gives a closed one, whose current context exists when both did. |
| Merge.RemoveCloses | pkg/util/kubectx_copied/contextmodify.go:184-268 | A removal keeps every remaining reference resolving. |
| Merge.RemoveKeepsCurrentIff | pkg/util/kubectx_copied/contextmodify.go:184-207 | The current context still exists after a removal exactly when another context was removed. |
| Merge.NamespaceRoundTrip | pkg/util/kubectx_copied/namespace.go:24-78 | A namespace set is read back from the same context; every other context and section is untouched. |
| Merge.SwitchFinds | pkg/util/kubectx_copied/kubeconfig.go:93-114 | Switching through an alias leaves the current context naming an existing, renamed context. |
| Merge.RunStaysClosed | pkg/subcommands/merge-to-default/merge.go:114-168 | Over any run of merges of closed documents, removals, namespace changes and switches, every reference keeps resolving. |
| Merge.RunKeepsCurrent | pkg/subcommands/merge-to-default/merge.go:114-135 | A run that never removes the current context nor switches to an unknown one keeps the current context valid. |
| ContextFilters.ClusterIdentityForContext | pkg/context_filters.go:156-187 | The identity of the cluster behind the current, or else the first, context. |
| ContextFilters.FilterKindDuplicates | pkg/context_filters.go:64-99 | The two loops drop exactly the filesystem contexts whose cluster has a kind entry. |
| ContextFilters.FilterPreferExternal | pkg/context_filters.go:107-143 | The grouping loops produce, path by path, what is kept of each. |
| ContextFilters.PreferExternalPerPath | pkg/context_filters.go:107-143 | Per path the result is exactly the `-external` contexts if any, else all, in order; paths keep their order of first occurrence and none disappears. |
| ContextFilters.DroppedHasKind | pkg/context_filters.go:64-99 | Every context the first filter drops has a kind entry of its cluster in that filter's output. |
| ContextFilters.FiltersIdempotent | pkg/context_filters.go:54-143 | Filtering a result again changes nothing, order included. |
| ContextFilters.KindEntryStays | pkg/context_filters.go:54-143 | A kind entry survives both filters exactly when it is external or its path has no external context left. |
| ContextFilters.ClusterVanishesIff | pkg/context_filters.go:54-143 | A cluster is missing from the result exactly when each of its contexts is a filesystem one of a cluster with a kind entry, or shares its path with an external context that is not. |
| ContextFilters.KindFilterKeepsClusters | pkg/context_filters.go:64-99 | The first filter alone loses no cluster. |
| ContextFilters.AgreeingPathsKeepClusters | pkg/context_filters.go:54-143 | Where the contexts of each path belong to one cluster, neither the second filter nor both together lose one. |
| ContextFilters.ClusterCanVanish | pkg/context_filters.go:54-143 | Three contexts from which both filters together remove a cluster that either alone keeps, when the filesystem context has a path of its own. |
| ContextFilters.ExternalCanHide | pkg/context_filters.go:107-143 | Two contexts of one path from which the second filter alone removes a cluster. |
| History.HistoryFile.GetLastLineWithSeek | pkg/subcommands/history/util/util.go:95-137 | The backward byte scan returns the text after the last line break that is not the final byte. |
| History.HistoryFile.AppendToHistory | pkg/subcommands/history/util/util.go:50-78 | Appends the line, unless it equals the last one. |
| History.HistoryFile.ReadHistory | pkg/subcommands/history/util/util.go:29-47 | The scanned lines in reverse, and whether a line did not fit. |
| History.LastLineOfLines | pkg/subcommands/history/util/util.go:95-137 | On a file of lines the scan gives exactly the last one with its newline. |
| History.AppendAllDedups | pkg/subcommands/history/util/util.go:50-78 | After any calls free of line breaks the file is the calls' lines without adjacent repeats. |
| History.DedupKeepsLines | pkg/subcommands/history/util/util.go:50-78 | Only repeats are dropped: exactly the lines called for are in the file. |
| History.ReadAfterAppends | pkg/subcommands/history/util/util.go:29-78 | Reading gives the reverse of those lines, and fails exactly when one does not fit the scanner's 64 KiB. |
| History.LongNameBreaksReading | pkg/subcommands/history/util/util.go:29-47 | A context name of 65533 characters makes a line after which the history cannot be read. |
| History.ParseLine | pkg/subcommands/history/util/util.go:82-92 | Parsing inverts printing exactly when the context neither holds `::` nor ends in a colon and the namespace holds neither `::` nor a space. |
| Exec.ShellCommand | pkg/subcommands/exec/exec.go:65-82 | The loop builds the script of quoted arguments, or passes a lone one through. |
| Exec.ScriptTokenises | pkg/subcommands/exec/exec.go:65-82 | Two or more arguments, whatever they hold, are recognised by the shell's quoting rules (sections 2.2.1 and 2.2.2 of the POSIX.1-2017 Shell Command Language) as exactly those words. |
| Exec.ScriptInjective | pkg/subcommands/exec/exec.go:65-82 | Different argument lists give different scripts. |
| Exec.LoneArgumentIsRaw | pkg/subcommands/exec/exec.go:65-70 | A single argument is not quoted: a space in it separates two words. |
| Gardener.ParseShoot | pkg/store/gardener/util.go:98-140 | Parsing a shoot identifier gives its parts and derived namespace back exactly when they are clean for the separator. |
| Gardener.ParseSeed | pkg/store/gardener/util.go:98-140 | The same for seed identifiers. |
| Text.SplitJoin | pkg/store/gardener/util.go:114-120 | Splitting on a doubled character inverts joining exactly when no part holds the separator and no part but the last ends in its character. |
| Text.FirstSeparator | pkg/store/gardener/util.go:114-120 | The leftmost separator after a part is the one that was inserted exactly when that part is clean. |

## Left out

- Store clients for clouds, Vault, Gardener and the rest, plugins and generated code: a store is the sequence of results its search sends, with what fetching each path gives. A search is taken to send nothing after it returns.
- Aliases failing to load at the start of a search (`pkg/search.go:74-77`): nothing has been started then. Log output and the redirection of standard output are not modelled either.
- Two stores with the same ID: they would share index files. Each store's index is its own here, and the index it reads is the one on disk when the search starts.
- The automatic alias for a cluster-name label during a search (`pkg/search.go:215-226`): a write to the alias directory that does not change what is shown, since aliases are loaded once before.
- The encoding of index and state files: a written index is read back as the same value, empty tags and absent tags being the same. Failing and partial writes leave the store without a usable index (`FanIn.Files`).
- Rendering, key decoding, previews, fuzzy scoring, word deletion and the registration of dynamic stores in the selection screen. A fuzzy search is any function from names to distinct indices in range.
- Screen.RunKeepsForest: late expand results are excluded by a guard, because they break the forest (`Screen.UpdateKeepsForestIff`); the cursor's invariants hold with them.
- Tree.BatchKeepsForest: items of equal path are taken to agree in parent and depth, as the discovery produces them.
- AliasFiles.NoLostUpdates: a removal of an alias or a rewrite of the whole directory takes part as its single file writes and removals, in any order; temporary names are never used twice, so the deferred removal after a rename cannot hit another writer's new file; crashes are not modelled.
- Sub-directories of the alias directory and the migration of the legacy alias file.
- AliasState.Alias.WriteAlias: giving another alias to a context that has one leaves the old file on disk, so memory and disk agree again only after all aliases are written; the contract gives both states and claims no agreement.
- YAML text, comments, tags and anchors. A document is a tree of immutable node values held in a field that the methods reassign, so nodes shared between two trees are not captured.
- Kubeconfig.Document.ContextNode: a context without a name makes the original crash when a lookup comes to it, so the methods that look contexts up require that there is none before the match; `RemoveContext` looks at all of them. Scalar context bodies are outside `Merge.TidyContext` too.
- The fields for the kswitch context and Gardener metadata (`pkg/util/kubectx_copied/contextmodify.go:28-138`): set in the same way as the current context.
- Bytes are modelled as characters, so multi-byte encodings cut by the backward scan of the history do not arise; files of the history are changed by one process at a time.
- Exec.ScriptTokenises: expansion of a shell's aliases and reserved words is not modelled; quoted words are not subject to it.
- The cluster cache, the registries, configuration loading, migration and validation, and the command line.
