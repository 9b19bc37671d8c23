# Search gateway: a verified model

The gateway speaks the Elasticsearch HTTP API in front of a Qdrant vector store. Several replicas
share one Redis/Valkey server that holds an index catalog, an administrative claim, a control hash
with an epoch and writer tokens, and disposable response entries. This project models that system
in Dafny and proves what it is for: a cached answer is an answer the stores would give now, a fast
path answers what the slow path would, and the catalog and the stored documents stay consistent.

| file | what it models |
|---|---|
| `Decimals`, `Scripts`, `ReadCache`, `Replies`, `Recovery` | epochs as decimal text; the server-side scripts, as functions on the shared keys and as methods of a class that changes them; when each gives which reply, read off the keys; recovery stopped after any of its writes |
| `CacheProtocol`, `CacheSafety`, `CacheTheorems`, `Progress` | replicas, requests, backend mutations, the claim, lost commands and entries, cancellation and the operator as one transition system; its invariant; what holds in every run; what undisturbed requests achieve |
| `Routes`, `MutationCompletion` | routing against the request classifications; tracked backend writes and their proof of completion |
| `Catalogs`, `Aliases` | name resolution; alias batches, index creation and deletion, mapping updates |
| `Merging`, `Markers`, `Documents`, `Interleavings`, `Bulk` | partial updates, execution markers in stored payloads, one index's document operations, many requests' operations interleaved with updates in flight, bulk requests |
| `Values`, `Ranking`, `Hits`, `Sequences`, `Scrolling` | JSON values and their order; stable sorting; sort keys and cursors; lists and scrolls |
| `Scan`, `SearchPages`, `OrderedScroll`, `Reachable` | the complete scan, response pages and a client reading page after page, the ordered-scroll fast path, the fast paths in reachable stores |
| `Intervals`, `Queries`, `Clauses`, `QueryCompiler`, `QueryMeaning`, `Compilable` | ranges of numbers and of dates, and when one bound follows from others; query bodies, the evaluator, what each clause asks of a document's values; compilation to backend filters, when it preserves meaning, and which queries it accepts |
| `Aggregations`, `Pushdown` | streaming reducers; exact counts and facets in their place |
| `Glob`, `EditDistance` | the gateway's own matching and distance algorithms |

Conventions. A method written with loops follows an imperative function of the source and is proved
equal to a specification function; the lemmas are about those functions. Where the source iterates
over a hash map or an ordered map, the order is a parameter (`Arrangement`, `KeyOrder`) of which only
"each key once" is assumed. JSON integers keep their 64-bit range; floats are the finite numbers they
denote. The text of floats, arrays and objects is a parameter (`Printer`) of which only the first
character is assumed. The moment a date string denotes is a parameter too (`Dates`); where a condition is
proved exact, dates are assumed to be dense and without a first or last one, as numbers are.

Where the code disagrees with what one might expect of it, the code is kept and the exact extent is
proved:

* Glob matching is exact for a value, over all patterns, if and only if the value contains no `*`
  (`Glob.GlobIsExact`).
* The sort order of JSON values is a total preorder if and only if numbers and strings are not mixed:
  9 < 10 < "1a" < 9 (`Values.TotalPreorderIff`).
* `from` and `to` share an operator with a plain bound, and the key that comes later in the object wins
  (keys arrive in ascending order, so `gte` and `gt` replace `from`, and `to` replaces `lt` and `lte`).
  A range of numbers or of dates selects the documents it means if and only if every bound follows from
  the compiled interval, and there is a bound or the backend lets dates into a range without one
  (`QueryMeaning.CompilationExact`). `{"from":5,"gte":3}` fails that, and so does
  `{"from":"2024-06-01T00:00:00Z","gte":"2024-01-01T00:00:00Z"}`; `{"from":3,"gte":5}` meets it
  (`QueryMeaning.CollidingBounds`).
* The evaluator used for post filters and filter aggregations looks for numbers and not at `from` and
  `to`. A validated range filters as the evaluator judges if and only if the compiled interval and the
  plain bounds imply each other, and the backend lets no date in for want of a bound
  (`QueryMeaning.AgreementExact`).
* Updates read and write in two steps, and of two that do not see each other the later write wins. A
  keyword that only the earlier one added then stays in the payload and not in the source, with a
  marker that says they agree (`Interleavings.UnseenUpdateLeavesStaleField`). Number markers survive
  every interleaving (`Interleavings.ClaimsAlwaysHold`); all markers are true if and only if no marked
  keyword field is in the payload of a document that lost it (`Interleavings.ReachableSoundIff`); and
  an aggregation plan reports what streaming reports if and only if no point lingers so with a value
  that one of its fast paths counts (`Reachable.ReachableAggregation`).
* Bulk batches do and report what single writes would, on every reachable index, if and only if the
  mapping does not declare a field `_es_id` of a type that is copied into the payload
  (`Bulk.BatchingExact`).
* Chained `search_after` pages are refused exactly at a page that ends on a document with an array or
  an object as a sort value (`SearchPages.ReadPages`).
* A covered facet fails exactly when it lists more than 10000 values, empty ones included, and streaming
  may still succeed then (`Pushdown.TryFastPath`).

## Model

| member | source | states |
|---|---|---|
| Decimals.LeIsNumericOrder | src/read_cache.rs:83 | on canonical decimals the script's length-then-text order is the numeric order |
| Decimals.DecimalIsBounded | src/read_cache.rs:79-82 | a canonical string passes `decimal` exactly when its value is at most 9223372036854775807 |
| Decimals.SuccIsNext | src/read_cache.rs:148-155 | the successor string is canonical, denotes one more, and stays `decimal` below the maximum |
| Decimals.Increment | src/read_cache.rs:148-155 | the right-to-left carry loop yields the canonical successor, for every canonical epoch |
| ReadCache.CacheServer.Validate | src/read_cache.rs:76-92 | accepts exactly a persistent hash and catalog with the expected schema, deployment, epoch and state |
| ReadCache.CacheServer.TokenFields | src/read_cache.rs:93-106 | accepts exactly when every extra field is a well-formed writer token no newer than the epoch |
| ReadCache.CacheServer.Lookup | src/read_cache.rs:108-125 | busy, hit, miss or failure as specified (`Replies.LookupAnswers` reads it off the keys), changing nothing |
| ReadCache.CacheServer.Publish | src/read_cache.rs:127-140 | stores the stamped response exactly when quiet and the epoch is the ticket's, and nothing else |
| ReadCache.CacheServer.Admit | src/read_cache.rs:142-163 | one step advances the epoch and records the token under it, or nothing changes |
| ReadCache.CacheServer.Release | src/read_cache.rs:165-172 | removes exactly the token recorded under the given epoch |
| ReadCache.CacheServer.Bootstrap | src/read_cache.rs:572-589 | the writes of bootstrap, stopped after any prefix, leave the specified keys |
| ReadCache.CacheServer.Recover | src/read_cache.rs:572-611 | the writes of recovery, stopped after any prefix, leave the specified keys |
| Replies.LookupAnswers | src/read_cache.rs:108-125 | busy exactly when open and not quiet; a hit exactly when open, quiet and a volatile, in-size entry carries the stamp and a body; otherwise a miss with the epoch and the catalog, if that fits; a failure exactly when not open or the catalog of a miss is too long |
| Replies.PublishAnswers | src/read_cache.rs:127-140 | stored exactly in an open, quiet cache at the ticket's epoch with a response in size, and then the next lookup hits it; nothing else changes |
| Replies.AdmitAnswers | src/read_cache.rs:142-163 | admitted exactly into an open cache without a claim with nothing but writers beside it and an epoch to spare; then the epoch is the next and the token's field is added |
| Replies.ReleaseAnswers | src/read_cache.rs:165-172 | the token's field goes exactly when it records the given epoch |
| Replies.AdministrationAnswers | src/read_cache.rs:572-611 | when bootstrap and recovery are allowed, and the fields they leave |
| Recovery.RecoverPrefix | src/read_cache.rs:598-610 | closed form of all shared keys after any number of recovery's writes |
| Recovery.PartialRecoveryRefuses | src/read_cache.rs:591-611 | recovery stopped between its first and its last write: every lookup, publication and admission is refused or busy |
| Recovery.CompletedRecovery | src/read_cache.rs:591-611 | completed recovery makes the new identity current, quiet and at epoch 0 whatever the control key held, and leaves catalog and entries alone |
| Recovery.RecoveryCanBeRetried | src/read_cache.rs:572-611 | however recovery was stopped, it can be run again under an identity never used: from the old lineage before it moved, from the new one after |
| Recovery.PartialBootstrap | src/read_cache.rs:582-589 | before its last write everything is refused and recovery can finish the job; after it the deployment is quiet at epoch 0 |
| Recovery.QuietMeansNoTokens | src/read_cache.rs:90-107 | four fields with the four fixed names present leave no writer token |
| CacheTheorems.CacheCoherence | src/cache_runtime.rs:82-184 | in every run, a hit is a response an uncached dispatch could give from exactly the catalog and backend of that moment |
| CacheTheorems.FenceHolds | src/cache_runtime.rs:51-81 | a request with an unproved mutation, a catalog command in flight or the claim keeps its token in the control hash and the cache closed |
| CacheTheorems.ClaimHasOneFencedHolder | src/shared_catalog.rs:185-266 | a held claim has exactly one holder, whose token fences the cache |
| CacheTheorems.QuietIdentityIsUnique | src/read_cache.rs:572-611 | no (deployment, epoch) pair names two different quiet states in a run, through loss of the control key and recovery |
| CacheTheorems.EpochsOnlyGrow | src/read_cache.rs:142-163 | between any two worlds of a run that show the same deployment the epoch does not decrease |
| CacheTheorems.NewEpochsAreBusy | src/read_cache.rs:142-163 | a step within a deployment that changes the epoch leaves the cache closed |
| CacheTheorems.InterruptedAdministrationStaysRefused | src/read_cache.rs:572-611 | after an interrupted recovery, or a bootstrap stopped after its first write, everything is refused in every later world, whatever happens, refused and interrupted operator steps included, until a recovery completes |
| CacheTheorems.CompletedRecoveryServesAgain | src/read_cache.rs:591-611 | a recovery that completes leaves the cache quiet at epoch 0 under the new identity |
| CacheTheorems.ReplayIsSerial | src/shared_catalog.rs:219-266 | a claim log that replays has its publications nested in claims, each starting from the previous catalog |
| CacheTheorems.CatalogIsSerial | src/main.rs:4589-4627 | in every run the published catalog is the initial one through the committed claims in order, with no lost update, and a claim is dropped unpublished only by a request that sent nothing |
| CacheTheorems.ReleaseUndoesAdmit | src/read_cache.rs:142-172 | releasing an admitted token restores every field but the epoch |
| CacheTheorems.StepKeepsInv | src/cache_runtime.rs:44-184 | every event of the system keeps the invariant |
| Progress.AdministrationCommits | src/shared_catalog.rs:185-266 | an administrative request that nothing disturbs publishes its catalog and changes the backend, and leaves the cache quiet one epoch later |
| Progress.AdministrationDrops | src/shared_catalog.rs:185-266 | one that sent nothing gives its claim back and leaves the catalog as it was |
| Progress.WriteCompletes | src/cache_runtime.rs:44-81 | a document write that nothing disturbs changes the backend and leaves the cache quiet one epoch later |
| Progress.ReadFillsTheCache | src/cache_runtime.rs:82-184 | a cacheable read that misses publishes its response, and the next lookup of it is a hit |
| Routes.WritersAreFenced | src/cache_runtime.rs:25-37 | every method and path routed to a handler that writes is classified as mutating |
| Routes.ReadersAreNotFenced | src/cache_runtime.rs:25-37 | searches and counts are not classified as mutating |
| Routes.IndexEndpoints | src/main.rs:4690-4856 | `/index/word` reaches the handler of the word and the verb |
| Routes.DocumentEndpoints | src/main.rs:4762-4822 | `/index/word/id` reaches the handler of the word and the verb |
| Routes.CatalogEndpoints | src/main.rs:4705-4732 | `/index` and `/_aliases` reach the handlers that change the catalog, by verb |
| Routes.ClaimsMatchRoutes | src/shared_catalog.rs:391-401 | the claim is taken exactly for the routes that change the catalog |
| Routes.ReadViewMatchesRoutes | src/shared_catalog.rs:405-419 | the immutable read view is used exactly for searches and document reads, never with a claim |
| MutationCompletion.WritesAreNotReads | src/mutation_completion.rs:47-86 | no request is both a tracked write and an untracked read |
| MutationCompletion.GatewayWritesAreTracked | src/mutation_completion.rs:47-73 | every write the gateway sends to a collection is tracked, with the proof its kind owes |
| MutationCompletion.ProofIs | src/mutation_completion.rs:35-45 | which acknowledgements prove a write of either kind |
| MutationCompletion.GatewayReadsAreUntracked | src/mutation_completion.rs:74-86 | every read the gateway sends to a collection goes untracked |
| MutationCompletion.SentIff | src/main.rs:257-293 | creating and dropping a collection is always sent, any other write exactly when it asks to wait |
| MutationCompletion.CollectionNamesArePlain | src/main.rs:493-505 | collection names contain nothing the classification would reject |
| MutationCompletion.Tracker.Begin | src/mutation_completion.rs:14-17 | opens one new attempt |
| MutationCompletion.Tracker.Complete | src/mutation_completion.rs:25-29 | closes exactly the owner's attempt |
| MutationCompletion.Tracker.IsComplete | src/mutation_completion.rs:20-22 | true exactly when no attempt is open |
| MutationCompletion.Tracker.Mutation | src/main.rs:257-293 | leaves an attempt open exactly when the write was sent and its acknowledgement proves nothing |
| MutationCompletion.Tracker.Request | src/main.rs:257-293 | over a request's writes the open attempts grow by the writes left in doubt, and completeness is reported exactly when nothing was open before and every sent write was proved complete |
| Aliases.Administrator.UpdateAliases | src/main.rs:4137-4329 | commits exactly when the batch is well formed, ends with single targets, had an effect and fits; then the table is the relation replayed in order; otherwise nothing changes |
| Aliases.BatchDoneIff | src/main.rs:4137-4329 | over the requests and the table themselves: done exactly when each request is well formed, some one adds or removes a pair of the table, every alias ends with one target at most, and the table fits |
| Aliases.RemovingNothingIsRefused | src/main.rs:4278-4301 | a batch of removals none of whose pairs is in the table is refused and changes nothing |
| Aliases.LastActionDecides | src/main.rs:4242-4296 | a pair is in the replayed relation exactly when the last action on it adds it, or none acts on it and it was there |
| Aliases.FinalTargets | src/main.rs:4242-4296 | the per-alias target sets are those of the replayed relation; success means some action took effect |
| Aliases.ApplyTargets | src/main.rs:4310-4324 | each named alias gets its single target or no row, others keep theirs |
| Aliases.OtherAliasesUntouched | src/main.rs:4236-4324 | a batch leaves the aliases it does not name alone |
| Aliases.Administrator.CreateIndex | src/main.rs:747-857 | adds the index exactly when its name and both collection names are free |
| Aliases.NamespaceIff | src/main.rs:549-599 | a name is free exactly when it is no index, no alias, and neither collection it would have is an index's |
| Aliases.CollectionNameIs | src/main.rs:493-505 | `es_` and the name with all but ASCII letters, digits, `_` and `-` replaced; `_documents` behind it |
| Aliases.Administrator.DeleteIndex | src/main.rs:875-922 | deletes a concrete index together with the aliases that name it, refuses an alias |
| Aliases.CatalogStaysConsistent | src/main.rs:549-599 | in every run alias and index names are disjoint, every alias names an existing index, no two indices share a collection |
| Aliases.AliasesResolve | src/shared_catalog.rs:37-49 | in a consistent catalog every alias resolves to the index it names |
| Merging.MergePartialDocument | src/main.rs:1066-1087 | computes the merge, and reports a change exactly when the result differs |
| Merging.MergeKeepsKeys | src/main.rs:1066-1087 | merging an object never removes a key |
| Merging.MergeTwice | src/main.rs:1066-1087 | merging the same patch again changes nothing |
| Merging.UnchangedIff | src/main.rs:1066-1087 | merging changes nothing exactly when the patch is already contained |
| Merging.MergedAt | src/main.rs:1066-1087 | path by path: what the patch holds is there, objects stay objects, and where it has nothing the target's value stays |
| Markers.ProjectedSearchPayload | src/main.rs:962-1026 | builds the specified payload for any iteration order of the mapping |
| Markers.ProjectedMarkers | src/main.rs:987-1024 | a fresh payload carries a marker exactly when mapping and value earn it |
| Markers.WhatIsEarned | src/main.rs:962-1056 | for a document and a declared type: the number marker exactly for a numeric type, a plain name and a number within 2^53 - 1 (an integer for integer types), the keyword marker exactly for `keyword` and strings or nulls; the value copied unless the type is text or a sparse vector |
| Markers.MergedIsSoundIff | src/main.rs:953-1050 | a payload merged over an older one has truthful markers exactly when the merged source still has every keyword field the older payload has |
| Documents.DocumentStore.WriteDocuments | src/main.rs:1218-1271 | if any source does not encode nothing is written; otherwise each written id reads back as its last document and every other id as before |
| Documents.DocumentStore.WriteDocument | src/main.rs:1273-1299 | the source reads back, the status tells whether one was stored before, other points stay |
| Documents.DocumentStore.CreateDocument | src/main.rs:1301-1314 | a stored source is a conflict and nothing changes; otherwise the new source reads back; other points stay |
| Documents.DocumentStore.DeleteDocument | src/main.rs:1346-1377 | afterwards the id has no source, other points stay, and it is reported missing exactly when it had none |
| Documents.UpsertSources | src/main.rs:1218-1271 | each written id reads back as its last document in the batch, every other id as before |
| Documents.DocumentStore.FinishUpdate | src/main.rs:1408-1514 | the write of an update, on each of its paths, whatever was stored since its read: the merge of what was read, a no-op exactly when that changes nothing; if nothing was read, `doc` where `doc_as_upsert` says so, else the `upsert`, else not found; created exactly when the written source encodes; other points untouched |
| Documents.AbsentStarts | src/main.rs:1411-1434 | an update that found nothing: the id reads back as `doc` or as the `upsert`, created if that encodes and refused otherwise, or nothing changes |
| Documents.FoundAnswers | src/main.rs:1436-1514 | the status of an update that found a source, over the bodies |
| Documents.PointsWritten | src/main.rs:1480-1510 | the point holds the projection of its source alone after a full write, and over what it held after an update that changes no text |
| Documents.DocumentStore.UpdateMapping | src/main.rs:4366-4465 | adds all fields or none |
| Documents.MappingAdds | src/main.rs:4366-4465 | over the body: exactly when it names nothing but `properties`, each field declared by a type, old ones unchanged, new ones neither text nor sparse vector, the reserved name absent and the whole in capacity, the fields are added; otherwise nothing changes |
| Documents.MappingOnlyGrows | src/main.rs:4402-4430 | a mapping update only adds fields, never the reserved one |
| Documents.UpdateReadsBack | src/main.rs:1436-1514 | an accepted update leaves the merge of what it read, on either storage path, so a write it did not see is lost; a point deleted meanwhile comes back only where text changed |
| Documents.UpdateTwice | src/main.rs:1436-1514 | sent again over what it left, an update is a no-op |
| Interleavings.ClaimsAlwaysHold | src/main.rs:962-1056 | in every store that interleaved operations can produce, number markers are true, and keyword markers wherever the document has the field |
| Interleavings.ReachableSoundIff | src/main.rs:962-1056 | there all markers are true exactly when no marked keyword field outlived its key in the source |
| Interleavings.LandingIsSoundIff | src/main.rs:1480-1510 | an update landing on a sound store keeps it sound exactly when what it merged has every keyword field of the point |
| Interleavings.UnseenUpdateLeavesStaleField | src/main.rs:1408-1510 | the run of two updates after which a keyword marker is false |
| Interleavings.MarkersAreSound | src/main.rs:962-1056 | if every update lands on the source it read, every marked field's payload is the document's value of the promised shape, or absent on both sides for keywords |
| Interleavings.ReachableIsKeyed | src/main.rs:962-1056 | while the mapping copies no field `_es_id`, every point carries the id it is stored under |
| Interleavings.UndisturbedUpdate | src/main.rs:1408-1514 | with nothing in between, reading and landing are the update |
| Interleavings.RemovalDeletes | src/main.rs:1346-1377 | a removal is a deletion, whether or not there is something to delete, and leaves updates in flight alone |
| Bulk.BulkStore.Bulk | src/main.rs:4037-4134 | the batching loop ends with the store and the items of running the actions one at a time |
| Bulk.BatchIsSequence | src/main.rs:4041-4097 | one batch with repeated ids does and reports what its actions would singly |
| Bulk.BatchStatuses | src/main.rs:4087-4095 | statuses from one lookup plus the ids already seen |
| Bulk.ItemsFollowActions | src/main.rs:4037-4134 | one item per action, in request order |
| Bulk.IndexActionDoes | src/main.rs:4041-4097 | an index action overwrites; 200 if a point carried the id, 201 if none did, 400 if the source does not encode |
| Bulk.CreateActionDoes | src/main.rs:1301-1314 | a create action never overwrites: 409 and nothing changed for a stored document, else 201 and it reads back, or 400 |
| Bulk.UpdateActionDoes | src/main.rs:1436-1514 | an update action on a stored document leaves the merge with 200, or nothing changes with noop or 400 |
| Bulk.AbsentUpdateDoes | src/main.rs:1411-1434 | on an absent one it creates `doc` or the `upsert` with 201, or fails with 404 or 400 |
| Bulk.DeleteActionDoes | src/main.rs:1346-1377 | a delete action removes a stored document with 200, and reports an absent one with 404 |
| Bulk.MissingIndexBatch | src/main.rs:4070-4095 | a batch on an unknown index fails item by item and writes nothing |
| Bulk.BatchingExact | src/main.rs:1180-1216 | batches do and report what single writes would, on every reachable index, exactly while the mapping copies no field `_es_id` |
| Bulk.RenamedMisleads | src/main.rs:1180-1216 | otherwise a reachable index and a batch whose reported items differ from those of single writes |
| Values.NumbersCompareExactly | src/main.rs:2693-2720 | on 64-bit integers and finite floats the comparison is the numeric order, without rounding |
| Values.TextIsLexicographic | src/main.rs:2720-2724 | text compares by its first difference |
| Values.TextsCompare | src/main.rs:2720-2724 | strings compare by themselves, nulls and booleans by their names |
| Values.DigitsCompare | src/main.rs:2720-2724 | against a string an integer compares by its digits |
| Values.KeysAgreeWithOrder | src/aggregations.rs:65-86 | two numbers share a terms bucket exactly when the comparison finds them equal |
| Values.TotalPreorderIff | src/main.rs:2693-2724 | the comparison is a total preorder on document values exactly when numbers and strings are not mixed |
| Hits.HitsTotallyOrdered | src/main.rs:3045-3057 | with the id as tie-break the hit comparison is a total order on documents |
| Hits.DottedField | src/main.rs:1599-1603 | a dotted name is looked up in what its first part leads to |
| Hits.SortValues | src/main.rs:3033-3043 | a hit's sort value: its id, null for the score, else its source value with `.keyword` dropped, or null |
| Hits.AfterCursorOf | src/main.rs:3059-3071 | a hit is after another's sort array exactly when it sorts strictly later |
| Ranking.SortIsStable | src/main.rs:3703-3714 | the sort is a sorted permutation that keeps the order of equals |
| Ranking.PageStep | src/main.rs:3606-3612 | sorting a page into the kept hits and truncating again leaves the first k of everything seen |
| Scan.ScanPage | src/main.rs:3570-3604 | one page's selected hits, and the count past the post filter |
| Scan.CompleteScan | src/main.rs:3532-3628 | for every split into pages: the first `window` of all selected documents, a total that ignores truncation and cursor, and failure exactly when the scroll does not advance |
| Scan.KeyByKeyIsLexicographic | src/main.rs:3702-3714 | stable sorts from the least significant key are one stable sort by the whole comparator, with mixed directions and ties |
| SearchPages.Deduplicate | src/main.rs:3630-3653 | keeps the first hit of each id |
| SearchPages.RetainAfter | src/main.rs:3757-3780 | keeps everything from the first hit past the cursor |
| SearchPages.RetainIsFilter | src/main.rs:3757-3780 | on sorted hits that drops nothing past the cursor and keeps nothing before it |
| SearchPages.FinalPage | src/main.rs:3630-3785 | the page agrees up to ties with the cut of the sorted scanned hits, whatever order the hash map chose |
| SearchPages.Search | src/main.rs:3292-3798 | refused exactly for an unusable cursor; the page holds min(size, rest) hits, the i-th level with the listing's hit at from + i, equal to it when the sort keys tell documents apart, without repetition; the total counts the documents past the filter |
| SearchPages.ListingIsOrdered | src/main.rs:3045-3071 | the listing holds exactly the documents past the filter and beyond the cursor, once each, where the first sort value that differs decides in its direction, and the id after that |
| SearchPages.ListingAfter | src/main.rs:3059-3071 | the documents past the i-th listed one are the rest of the listing |
| SearchPages.CursorOfIsUsable | src/main.rs:2815-2852 | a returned sort array is an accepted next cursor exactly when its values are scalars |
| SearchPages.ReadPages | src/main.rs:3292-3798 | searches that pass each page's last sort array on read the first k * size documents of the listing, every matching document once if that is enough, and stop early exactly at a page ending on a sort value that is no scalar |
| SearchPages.IdSeparates | src/main.rs:3045-3057 | any sort by `_id` tells documents apart |
| OrderedScroll.OrderedNumericHits | src/main.rs:3076-3182 | the fast path computes the specified result |
| OrderedScroll.TopDecides | src/main.rs:3126-3180 | the sorted window+1 extreme points are the whole listing, or show a boundary tie exactly where the listing has one, or start like the listing |
| OrderedScroll.TiesNeedTheFallback | src/main.rs:3170-3179 | any three documents tied on the sort field would be answered wrongly without the boundary check |
| OrderedScroll.FastPathRefinesScan | src/main.rs:3076-3182 | the fast path answers exactly when it applies, every matching point is covered and no tie crosses the edge; its answer is the complete scan's |
| OrderedScroll.AppliesIff | src/main.rs:3084-3114 | when the fast path applies, over request and mapping |
| OrderedScroll.HitOfDocument | src/main.rs:962-1064 | a stored document is found as itself, under its index |
| OrderedScroll.FilterSearch | src/main.rs:3418-3440 | a search that takes the fast path does so exactly where it answers; its page holds min(size, rest) hits, the i-th level with the scan's listing at from + i, equal to it when the keys tell documents apart; its total is that of the scan |
| Reachable.ReachableOrderedScroll | src/main.rs:3073-3182 | the same over every store that interleaved operations can produce, nothing assumed about markers |
| Reachable.ReachableAggregation | src/aggregations.rs:275-426 | over such a store an executed plan reports what streaming reports exactly when no point lingers with a value that one of its fast paths counts |
| Reachable.UndisturbedIsHarmless | src/aggregations.rs:275-426 | nothing lingers, whatever is asked, if every update lands on the source it read |
| Reachable.UnseenUpdateMisleads | src/aggregations.rs:287-375 | the run after which a covered facet and a covered exact count include a value that no document has |
| Queries.PercentIsTheLeastShare | src/main.rs:1835-1862 | a percentage asks for the least count that is at least that share, and for one clause when nothing else is required |
| Clauses.EnoughIff | src/main.rs:1835-1862 | a number of matching `should` clauses reaches the minimum exactly when it is at least one unless something is required, at least the integer asked for, in either form, at least the percentage asked for, or all of them |
| Clauses.BoolMeans | src/main.rs:1957-1979 | a bool query means all of `must` and `filter`, none of `must_not`, and enough of `should` |
| Clauses.BoolMatches | src/main.rs:1957-1979 | the evaluator decides it so |
| Clauses.BoolByDefault | src/main.rs:1857-1862 | without a minimum, for meaning and evaluator: something is required, or there is no `should`, or some `should` holds |
| Clauses.FirstKindJudges | src/main.rs:1905-1981 | the evaluator judges by the first kind present |
| Clauses.AnyInside | src/main.rs:1646-1653 | a value matches when something inside it, at any depth of arrays, does |
| Clauses.TermsMean | src/main.rs:1912-1928 | a term asks for its value under the field, terms for one of theirs, ids for the document's |
| Clauses.ExistsMeans | src/main.rs:1638-1644 | a field exists unless missing, null, or an array of nulls |
| Clauses.RangeMeans | src/main.rs:2055-2093 | each entry that bounds is null or obeyed, `from` and `to` including their end unless told otherwise |
| Clauses.PlainRangeMeans | src/main.rs:1929-1952 | the evaluator obeys the four plain bounds that are numbers, on numbers |
| Clauses.ValidatedIff | src/main.rs:1675-1823 | what the validator admits |
| Intervals.CoversIff | src/main.rs:2055-2098 | every number or date of an interval satisfies a bound exactly when the bound is null, the interval is empty, or it is of the bound's kind and its end on that side is as tight |
| Intervals.SameIntervalsIff | src/main.rs:2055-2098 | two intervals hold the same numbers and dates exactly when each covers the other |
| Queries.SourceMatchesIsPlainMeaning | src/main.rs:1905-1981 | on validated filters the evaluator computes the boolean meaning with `from` and `to` unread |
| Queries.PlainReadingExact | src/main.rs:1929-1952 | that reading of a range is its meaning, for every value, exactly when there are bounds and all follow from the plain numeric ones |
| Queries.SourceMatchesIsMeaning | src/main.rs:1905-1981 | where they do, the evaluator computes the meaning |
| QueryCompiler.WalkQuery | src/main.rs:1988-2169 | pushes exactly the specified conditions onto the caller's vectors, or fails |
| QueryCompiler.CompileRange | src/main.rs:2055-2093 | the operator map of a range, refusing unknown keys |
| Compilable.CompiledRange | src/main.rs:2055-2093 | each operator is bound by the entry that gives it, of two that mean the same the later key, and by no other |
| QueryCompiler.CompileFilter | src/main.rs:2170-2188 | the whole filter, none when there is nothing to filter |
| Compilable.CompilesIff | src/main.rs:1988-2169 | a query compiles exactly when it consists of objects of known kinds and range keys, without text under `must_not` or `should`; the text it requires is counted |
| QueryCompiler.CollectPatterns | src/main.rs:1529-1597 | pushes exactly the specified patterns, or fails |
| Compilable.CollectableIff | src/main.rs:1529-1597 | patterns are collected exactly when regular expressions parse and none stands under `should` or `must_not` |
| QueryMeaning.SelectsByCompiledRanges | src/main.rs:1983-2188 | for every query both passes accept, a document passes filter and patterns exactly when the query means it, each range read as the interval it compiles to |
| QueryMeaning.CompilationPreservesMeaning | src/main.rs:1983-2188 | where each range, of numbers or of dates, is faithful (its bounds follow from its interval), exactly when the query means it |
| QueryMeaning.CompilationExact | src/main.rs:2055-2098 | a range query, of numbers or of dates, selects the documents it means, all of them, exactly when it is faithful |
| QueryMeaning.CompiledFilterAgreesWithEvaluator | src/main.rs:1675-1823 | validated filters compile, and filter and evaluator agree on every document where both read the same interval from each range |
| QueryMeaning.AgreementExact | src/main.rs:1725-1758 | for a validated range they agree on all documents exactly when compiled interval and plain bounds imply each other and no date is let in for want of a bound |
| QueryMeaning.MisplacedPatternsAreRefused | src/main.rs:1576-1590 | a pattern anywhere under should or must_not is refused |
| QueryMeaning.CollectsWhatItHas | src/main.rs:1529-1597 | patterns are collected exactly when the query contains some |
| QueryMeaning.BoundLost | src/main.rs:2060-2093 | of any three ascending numbers or dates, the range from the greatest, at least the least, admits the middle one, which it does not mean |
| QueryMeaning.CollidingBounds | src/main.rs:2060-2093 | the concrete range of numbers and the one of dates whose stricter bound is lost, and one whose looser bound is |
| QueryMeaning.FromIsOnlyCompiled | src/main.rs:1929-1952 | the concrete query on which filter and evaluator disagree |
| Aggregations.Reducer.Observe | src/aggregations.rs:590-664 | updates the reducer as specified, or fails |
| Aggregations.StreamedTerms | src/aggregations.rs:622-642 | after streaming, each bucket counts the documents that have its key, and no other bucket exists |
| Aggregations.StreamSucceeds | src/aggregations.rs:622-642 | streaming fails only on a value that is no scalar or on too many distinct keys |
| Aggregations.StreamSucceedsIff | src/aggregations.rs:622-642 | terms are refused exactly when some value is no scalar or there are more than ten thousand distinct keys |
| Aggregations.TermsShowFirst | src/aggregations.rs:622-642 | each bucket shows the first value that fell into it |
| Aggregations.SameBucketIff | src/aggregations.rs:65-86 | two values share a bucket exactly when they are equal numbers or the same value |
| Aggregations.FieldValuesAre | src/aggregations.rs:55-61 | a field's values: none if missing or null, an array's elements that are not null, or itself |
| Aggregations.StreamedFilter | src/aggregations.rs:613-615 | a filter reports the number of documents it matches |
| Aggregations.MetricSucceedsIff | src/aggregations.rs:592-611 | a metric is refused exactly when some value is no number |
| Aggregations.StreamedMetric | src/aggregations.rs:592-611 | after streaming, a metric is the least (or greatest) number of the field over all documents, in exact arithmetic (the source rounds integers beyond 2^53 to floats) |
| Aggregations.TermsConserveTheTotal | src/aggregations.rs:673-682 | listed buckets plus the rest count every (document, distinct key) pair once |
| Aggregations.TermsListTheLargest | src/aggregations.rs:673-682 | the listed buckets are the largest in descending order, of equal counts the smaller value first, listed or cut, and the rest is summed |
| Pushdown.FacetCounts | src/aggregations.rs:516-552 | refuses malformed, repeated, overflowing or too many entries, then drops the empty ones |
| Pushdown.FacetRefusedIff | src/aggregations.rs:516-552 | which facets are refused |
| Pushdown.FacetBuckets | src/aggregations.rs:516-552 | the buckets are the entries that count anything |
| Pushdown.FacetExactIff | src/aggregations.rs:333-375 | a covered facet counts, for every value, the documents that have it exactly when no point lingers with a value its document lost |
| Pushdown.FacetEqualsStreamingIff | src/aggregations.rs:333-375 | a covered facet has the buckets and counts streaming would have exactly when nothing lingers |
| Pushdown.CountConditionIsFilter | src/aggregations.rs:430-489 | on a marked point the pushed condition holds exactly when the evaluator accepts the source or the point lingers with the value, never both |
| Pushdown.CountPushedIff | src/aggregations.rs:430-489 | which filters the backend counts, and with what condition |
| Pushdown.CountsExceedByLingering | src/aggregations.rs:287-325 | a covered exact count is what streaming the filter counts plus the points that linger |
| Pushdown.CountEqualsStreaming | src/aggregations.rs:287-325 | so it is streaming's count exactly when none does |
| Pushdown.TryFastPath | src/aggregations.rs:287-375 | which fast path applies, when it fails, and that its result is streaming's exactly when nothing lingers for it |
| Pushdown.StreamPages | src/aggregations.rs:376-419 | every remaining reducer sees every document of every page |
| Pushdown.Execute | src/aggregations.rs:275-426 | a plan mixing fast paths and streaming reports what streaming alone reports, for any split into pages, exactly when nothing lingers for a reducer that took one |
| Glob.GlobMatch | src/main.rs:2424-2451 | the loop with one remembered star terminates and computes the specified scan |
| Glob.GlobIsSound | src/main.rs:2424-2451 | it never accepts what the pattern does not match, for any value |
| Glob.GlobIsComplete | src/main.rs:2424-2451 | it accepts everything the pattern matches, for values without `*` |
| Glob.GlobIsExact | src/main.rs:2430-2438 | for a value, it is right about every pattern if and only if the value contains no `*` |
| EditDistance.EditDistance | src/main.rs:2542-2556 | the rolling row computes the distance |
| EditDistance.DistanceIsShortest | src/main.rs:2542-2556 | the distance is the cost of a cheapest insert/delete/substitute script |
| EditDistance.TriangleInequality | src/main.rs:2542-2556 | the distance satisfies the triangle inequality |
| EditDistance.DistanceIsMetric | src/main.rs:2542-2556 | it is symmetric and zero exactly for equal strings |

## Left out

- HTTP, transport, reconnection, timeouts and time-to-live: a remote command is atomic and either executes or does not, its reply may be lost, an entry may vanish at any time.
- Backend and SQLite internals: upserts replace a payload, set-payload merges top-level keys, ordered scrolls return extreme values, counts and facets are exact, tables are maps; a filter's leaf conditions mean the same to the backend and to the evaluator. A range with a bound that is neither null, a number nor a date, or with bounds of both kinds, is one that nothing satisfies; the backend refuses it. Whether a range without bounds admits dates besides numbers is a parameter.
- Fresh random tokens and claims, injective request digests and point ids: assumed, as distinctness of tokens and claims and as distinct keys.
- Operator reconciliation: that no request can still act is the precondition of recovery, bootstrap and repair, as the source demands it of its operator.
- The recomputed `took` field of a cached search response, response envelopes and their limits beyond the entry size.
- Document projection into a second collection and asynchronous writes: sources are embedded and each write is in force when its call returns; a mapping read before a write may be outdated.
- Within one update, the second look at the document on the text path, which decides only between two statuses; within one bulk request, other requests between its lookups and its writes.
- Failing backend calls inside document operations, bulk requests and index creation: those operations are modelled with every call succeeding; uncertain outcomes are modelled in the cache protocol.
- Ranked text search (BM25, `dis_max`, `match`, `fuzzy`), `more_like_this`, collapse, source filtering of responses, regular expressions beyond an abstract match, geo queries, date math, numbers in date fields, date histograms, named filters (`filters` aggregations count like `filter`).
- Multi-entry query objects with malformed entries: the evaluator's model looks at well-formed entries only; the validator admits single-entry objects.
- Rounding of 64-bit integers to floats in range filters and metrics, and overflow in the percentage product of `minimum_should_match`: arithmetic there is exact, and between any two numbers lies another.
- Lengths in bytes: string lengths are counted in characters, and index name rules and capacity limits are parameters.
- Option whitelists, analytics, deployment commands, server durability checks, environment parsing, sparse vector parsing (a parameter) and benchmarks.
- OrderedScroll.FilterSearch: the backend's exact count is taken as given, whether or not the request tracks totals.
- SearchPages.Search: with sort keys that do not tell documents apart the page is exact only up to ties, because the hits pass through a hash map.
- Bulk.BulkStore.Bulk: requires that no mapping copies a field `_es_id`, the exact condition of BatchingExact.
- QueryMeaning.CompilationPreservesMeaning: requires that each range is faithful, the exact condition of CompilationExact for a range by itself.
- SearchPages.ReadPages: every scan reads the same documents in the same order, split into pages in its own way.
- Scan.CompleteScan: requires that no sort field (or cursor value) mixes numbers with strings, since the comparison is no order otherwise, and a store that does not change during the scroll.
- OrderedScroll.FastPathRefinesScan: the coverage probe and the ordered scroll read one unchanging store; with writes in between the source only guards against non-numbers.
- Pushdown.Execute: the coverage probes, counts, facets and pages read one unchanging store.
- Interleavings.ClaimsAlwaysHold: starts from an empty index, so points written by versions without markers are not among its stores; those carry no marker and stay on the slow path. It follows one index from its creation on; that an index is deleted and created anew while a write to it is under way is not among the events.
