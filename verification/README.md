# FusionRide, verified

FusionRide puts one library in front of many Emby servers. Every item ID of an upstream is given to
clients under a virtual ID and turned back on the way to the upstream. This project models that engine
and the smaller stateful and parsing parts beside it, in Dafny 4.11, and proves what they promise.
`dafny verify dfyconfig.toml` checks everything.

| modules | part of the program |
|---|---|
| `IdMap`, `IdStore`, `StoreRuns`, `StoreInterleaving` | the ID store: its transitions, the object with its two indexes over two tables, sequential runs, and every interleaving of concurrent calls |
| `JsonTree`, `JsonIds` | the two walkers that rename IDs in JSON bodies, and the one that undoes it |
| `MediaOrder`, `Dedup`, `MergeResults`, `Aggregation` | merging the items of all upstreams and sending them out |
| `Paths`, `Playback`, `PlaybackRoundTrip` | request paths for one upstream, playback URLs there and back |
| `Serving` | a store at work from its construction on |
| `ImageCache`, `ImageCacheRuns` | the image cache and its use by the image route |
| `Meter` | the traffic meter |
| `AuthHeader`, `AuthRoundTrip`, `AuthSchemeless` | the Emby authorization header: built, rewritten, parsed |
| `Token`, `Hex` | login tokens |
| `UpstreamOrder` | the order of upstreams in memory and in the table |
| `Text`, `Sequences`, `Wrappers` | string functions of the standard library, a fact on lists, and two result types |

How the parts are modelled:

- A mutable object is a class whose methods are proved against transition functions on a plain state;
  theorems over several operations are about these functions.
- What goroutines do at once is a state machine with one event for each atomic step; theorems are
  about every sequence of possible events.
- Random bytes and the success of statements are two streams given to the store. A store is `Reliable`
  if its load was complete and none of the IDs drawn so far was in use then or came twice, and has
  `Worked` since some time if no call's first statement has failed since. Both look back only, at what
  has been drawn: contracts say what a call has done if the store is reliable when it returns, and
  `Valid`, which every constructed store has and every call keeps, is all they require.
- Iteration over a Go map, rows without an order, and an unstable sort are nondeterministic picks, and
  the contracts hold for every pick.
- Lower-casing, the HMAC, JSON encoding of the token payload, and what a fetch answers are parameters.

## Where the code does not do what one would expect

- The store notices neither an ignored INSERT nor a start-up query that ends early. Agreement of memory
  and table therefore rests on fresh IDs and a complete load, and on nothing else
  (`StoreRuns.RunCoherentIff`, `IdMap.LoadCoherentIff`).
- Instances are not loaded at start, and a non-empty cached list hides the table: after a restart, adding
  one instance makes the stored others unreachable (`StoreRuns.RestartHidesInstances`; exactly
  when: `StoreRuns.FoundIDLookupsIff`). A cleanup leaves cached instances of the cleaned server in
  other servers' mappings, and lookups still find them (`StoreRuns.CleanupLeavesInstance`; exactly when:
  `StoreRuns.CleanupKeepsLookupsIff`).
- The aggregator looks for virtual IDs after it has put in the upstream's user ID, and leaves out an
  upstream whose user ID is 32 hex digits and resolves to nothing (`Paths.UsersPathReachesIff`).
- Choosing the primary of a group never asks whether the first item's server has metadata priority, so
  the only one with it can be passed over (`Dedup.FirstPriorityPassedOver`; exactly when:
  `Dedup.ShownOnPriorityIff`).
- Items that share an Imdb ID are not merged when only one of them also has a Tmdb ID, and likewise along
  the list of providers (`MergeResults.ImdbApart`; exactly when: `MergeResults.SameKeyIff`).
- Items that share server and ID with their group's primary lose their media sources
  (`MergeResults.TwiceListedLosesSource`; exactly when: `MergeResults.SourcesConservedIff`).
- A colon in an item's type can make the keys of two different items run together
  (`MergeResults.ColonInType`).
- A playback URL with user information puts it into the path the client is given, and one with the original
  ID in two segments has both replaced and one put back; the upstream is then asked for another path than
  its own (`PlaybackRoundTrip.DoubledSegment`; exactly when: `PlaybackRoundTrip.LocationRoundTripIff`).
- A token is accepted for up to a second beyond its 24 hours (`Token.GoodForALittleMore`; exactly when:
  `Token.SignedVerifiesIff`).
- The parser takes the first word of a header for a scheme. Rewriting a blank header that is not empty, or
  one of fields without a scheme, yields one from which it does not read back the first field
  (`AuthSchemeless.NoBreakSpaceLosesClient`, `AuthSchemeless.SchemelessLosesClient`; exactly when, for blank
  headers, bare schemes, and fields joined by comma and blank with or without a scheme:
  `AuthSchemeless.FourFieldsIff`).
- A new upstream is last in memory and has priority 0 in the table, so that a restart puts it elsewhere if
  another has a higher one (`UpstreamOrder.AddAfterReorder`, `UpstreamOrder.AddAfterLoss`; exactly when:
  `UpstreamOrder.AddAgreesIff`). Reordering by a list that leaves an upstream out drops it from memory only,
  and by one that names it twice puts it into memory twice (`UpstreamOrder.ReorderDropsOne`,
  `UpstreamOrder.ReorderDoublesOne`; exactly when: `UpstreamOrder.ReorderAgreesIff`).
- The schema lets instance rows go with their mapping (`ON DELETE CASCADE`, internal/db/db.go:103), but
  the connection string (internal/db/db.go:28) does not turn foreign keys on, so nothing cascades here.

## Model

| member | source | states |
|---|---|---|
| `IdMap.KeyInjective` | internal/idmap/store.go:50 | The text `original:server` names its pair, whatever colons the original holds and whatever the sign of the server number |
| `IdMap.GeneratedShape` | internal/idmap/store.go:285-293 | A generated ID has the 32-hex shape the path rewriters look for, and decodes to the sixteen random bytes with the version 4 and variant bits set |
| `IdMap.GeneratedEqual` | internal/idmap/store.go:285-293 | Two draws give one ID exactly when they agree outside the six fixed bits |
| `IdMap.LoadCoherentIff` | internal/idmap/store.go:267-283 | A store loaded at start agrees with `id_mapping` exactly when every row was delivered; a failed or shortened query goes unnoticed |
| `IdMap.GetOrCreateCoherentIff` | internal/idmap/store.go:49-97 | A call keeps cache, reverse index and table in agreement if and only if, should it insert, the generated ID is not yet a key (`INSERT OR IGNORE` reports nothing) |
| `IdMap.GetOrCreateGrows` | internal/idmap/store.go:49-97 | No mapping, reverse-index entry or instance list is lost or changed by a call |
| `IdMap.GetOrCreateAnswers` | internal/idmap/store.go:66-97 | The ID returned is the one under which the pair is now kept and resolves back to it; after a failed INSERT it is the original ID and nothing has changed |
| `IdMap.ResolveCoherent` | internal/idmap/store.go:100-132 | On an agreeing store a lookup never changes anything and answers exactly for the keys of `id_mapping`, even if the read fails |
| `IdMap.AddInstanceCoherent` | internal/idmap/store.go:135-167 | Adding an instance keeps agreement and every mapping |
| `IdMap.CleanupCoherent` | internal/idmap/store.go:216-245 | Agreement survives a server cleanup, including one whose first or second statement fails |
| `IdStore.Store.constructor` | internal/idmap/store.go:38-46 | A new store holds exactly the delivered rows, in both indexes, and its invariant: as long as the load was complete and the random source repeats no ID, memory and table agree |
| `IdStore.Store.GetOrCreate` | internal/idmap/store.go:49-97 | The object with its text-keyed index makes the transition of the specification, error path included, returns its ID and keeps the invariant; if the store is still reliable, the ID of a new pair was in no row |
| `IdStore.Store.Resolve` | internal/idmap/store.go:100-132 | The object makes the transition of the specification; a row found late enters both indexes |
| `IdStore.Store.AddInstance` | internal/idmap/store.go:135-167 | Row and cached list are set together, an entry for the same server being overwritten; on error nothing changes |
| `IdStore.Store.GetInstances` | internal/idmap/store.go:170-213 | Either the primary and the cached list, or the primary and all rows in some order, or nothing if the query fails |
| `IdStore.Store.CleanupServer` | internal/idmap/store.go:216-245 | Rows of the server leave both tables and its mappings both indexes; stops where a statement fails |
| `IdStore.Store.LoadCache` | internal/idmap/store.go:267-283 | Each delivered row enters both indexes, without instances |
| `IdStore.IndexedAt` | internal/idmap/store.go:49-56 | Looking up the text key is looking up the pair |
| `IdStore.IndexedInsert` | internal/idmap/store.go:92-94 | Filing under a text key changes that pair and no other |
| `IdStore.IndexedRemove` | internal/idmap/store.go:237-242 | Deleting a text key removes that pair and no other |
| `IdStore.ListingAnswers` | internal/proxy/handler.go:1334-1339 | Whichever branch `GetInstances` took and in whatever order the rows came, the first entry for an upstream is the one the specification names |
| `IdStore.OriginalIDForUpstream` | internal/proxy/handler.go:1325-1340 | The name an upstream knows an item by: its own, else the first instance there, else none |
| `IdStore.NameItem` | internal/idmap/store.go:49-97 | As long as the source repeats no ID, a call gives the ID under which the pair is kept, or the original after a failed statement, and changes no entry |
| `StoreRuns.StepCoherentIff` | internal/idmap/store.go:49-245 | Each operation keeps agreement exactly unless it inserts an ID already in use |
| `StoreRuns.RunCoherentIff` | internal/idmap/store.go:49-245 | Over any sequence of calls with any failures, the cache is the table and the reverse index its inverse at every point, if and only if no acknowledged INSERT met a used ID |
| `StoreRuns.StartedRunCoherent` | internal/idmap/store.go:38-245 | The same from a complete start-up load on |
| `StoreRuns.IdsKept` | internal/idmap/store.go:49-132 | An ID once given out resolves to its pair, and asking for the pair gives the ID, until its server is cleaned up |
| `StoreRuns.CleanupForgetsExactly` | internal/idmap/store.go:216-245 | A successful cleanup forgets the IDs of that server and keeps all others |
| `StoreRuns.StepInstances` | internal/idmap/store.go:135-167 | One call keeps each cached list a selection of the rows, one for each server, and complete for IDs made since start |
| `StoreRuns.StartedRunInstances` | internal/idmap/store.go:135-213 | Without cleanups, over any run: the cached list of an ID made since start is exactly its rows; of one found at start, some of them |
| `StoreRuns.BranchesAgree` | internal/idmap/store.go:170-213 | For an ID made since start the cached answer of `GetInstances` and any answer from the rows are the same instances |
| `StoreRuns.CachedAnswersIff` | internal/idmap/store.go:175-182 | With a non-empty cached list all lookups come out as the table has them exactly when the list says the same as the rows of every server but the primary's; for a list made of rows, exactly when it covers them |
| `StoreRuns.RunServers` | internal/idmap/store.go:135-167 | Over any run without cleanups, the servers cached and stored for an ID grow by exactly those an instance was added for |
| `StoreRuns.FoundIDLookupsIff` | internal/idmap/store.go:135-213 | For an ID found at start, over any run without cleanups: all lookups come out as the table has them if and only if no instance was added since, or all that were stored have been again |
| `StoreRuns.RestartHidesInstances` | internal/idmap/store.go:175-182 | It need not: a stored instance becomes unreachable once another is added after a restart |
| `StoreRuns.CleanupKeepsListingIff` | internal/idmap/store.go:216-242 | A cleanup, whether or not its second statement succeeds, leaves the cached list of a mapping it keeps right exactly when it held no instance on that server |
| `StoreRuns.CleanupKeepsLookupsIff` | internal/idmap/store.go:216-242 | And it leaves the lookups of a mapping it keeps, right before, right exactly if the cached list has no instance on the cleaned server or that server is the mapping's own |
| `StoreRuns.CleanupLeavesInstance` | internal/idmap/store.go:216-242 | After a cleanup of its server an instance whose row is gone is still found |
| `StoreInterleaving.NextInv` | internal/idmap/store.go:49-132 | Every atomic step of any goroutine keeps the invariant of store, lock and threads, and takes no index entry back |
| `StoreInterleaving.OneIdForOnePair` | internal/idmap/store.go:49-97 | In every interleaving, two returned IDs are equal if and only if their pairs are (answers that are the original ID after a failed INSERT aside) |
| `StoreInterleaving.ResolvesEverAfter` | internal/idmap/store.go:49-132 | From the moment a call has returned an ID, every later `Resolve` of it that starts answers the pair at once |
| `StoreInterleaving.AnswersAgree` | internal/idmap/store.go:100-132 | `Resolve` never gives two answers for one ID, whether from the cache or from a row read before the lock |
| `StoreInterleaving.UnlockedAgrees` | internal/idmap/store.go:49-132 | Whenever nobody holds the write lock, cache, reverse index and table agree |
| `StoreInterleaving.WriterAlone` | internal/idmap/store.go:59-97 | Only one goroutine at a time is between its second look and its publishing |
| `StoreInterleaving.FillInv` | internal/idmap/store.go:120-129 | A late cache fill finds its row already in both indexes |
| `StoreInterleaving.GetOrCreateAlone` | internal/idmap/store.go:49-97 | Undisturbed, the steps of GetOrCreate do to the shared state and return what the sequential operation does to the store |
| `StoreInterleaving.ResolveAlone` | internal/idmap/store.go:100-132 | And so do the steps of Resolve |
| `JsonTree.SameLooksSameTree` | internal/proxy/json_ids.go:95-130 | A JSON tree is determined by what stands at its places |
| `JsonIds.WalkJSONIDs` | internal/proxy/json_ids.go:95-130 | The proxy's walk leaves a tree in which every string at an ID place is rewritten as the store now has it, and all else is as before, whatever order members are visited in |
| `JsonIds.WalkArray` | internal/proxy/json_ids.go:125-129 | Strings directly in an array that is under no ID-array key are not touched |
| `JsonIds.WalkMember` | internal/proxy/json_ids.go:99-123 | The three cases of a member: scalar ID key, ID array, anything else |
| `JsonIds.WalkIdArray` | internal/proxy/json_ids.go:107-118 | In an ID array the strings are rewritten and everything else walked |
| `JsonIds.VirtualizeJSON` | internal/proxy/json_ids.go:36-57 | On any store, as long as the random source repeats no ID: a body is virtualised for a server, the empty string and the proxy's user ID being kept, and no mapping is lost |
| `JsonIds.DevirtualizeJSON` | internal/proxy/json_ids.go:59-74 | On any store that agrees with its tables a body is devirtualised for an upstream, and the store does not change |
| `JsonIds.WalkAndVirtualize` | internal/aggregator/aggregator.go:622-638 | The aggregator's walk renames its seven fields and nothing else, and descends into everything |
| `JsonIds.NameFields` | internal/aggregator/aggregator.go:625-629 | Its first loop names exactly the fields that hold a non-empty string |
| `JsonIds.RewrittenAt` | internal/proxy/json_ids.go:95-130 | A walk changes the strings at ID places and nothing else, place by place |
| `JsonIds.AggregatorPlacesAreProxyPlaces` | internal/proxy/json_ids.go:156-168 | Every place the aggregator's walker renames is one the proxy's walker undoes |
| `JsonIds.NameUndone` | internal/proxy/handler.go:1325-1332 | The name given to a string on a server is undone there, also after the store has grown |
| `JsonIds.RoundTripIff` | internal/proxy/json_ids.go:36-130 | A body virtualised by either walker and later devirtualised by the proxy's is the same body if and only if no string the first walk left alone at a place of the second is undone to something else |
| `JsonIds.RoundTrip` | internal/proxy/json_ids.go:36-130 | For the proxy's own walker it suffices that the kept texts are no virtual IDs, whatever fails on the way back |
| `JsonIds.RoundTripWhenInsertsFail` | internal/proxy/json_ids.go:36-130 | With failing INSERTs it suffices that no ID string of the body is a virtual ID |
| `JsonIds.RenamingInjective` | internal/proxy/json_ids.go:36-57 | Over all bodies and both walkers: two ID strings become the same text exactly when they are the same string from the same server |
| `Dedup.GroupItems` | internal/aggregator/aggregator.go:379-383 | The groups partition the items by key, in their order |
| `Dedup.SelectPrimary` | internal/aggregator/aggregator.go:426-443 | The first later item on a metadata-priority server, else the first with a Chinese name, else the first |
| `Dedup.ShownOnPriorityIff` | internal/aggregator/aggregator.go:426-443 | A group is shown as an item of a priority server exactly if a later item is on one, or the first is and no Chinese name further down takes its place |
| `Dedup.FirstPriorityPassedOver` | internal/aggregator/aggregator.go:426-443 | A group of two whose only priority server is passed over |
| `Dedup.MergeGroup` | internal/aggregator/aggregator.go:386-405 | A merged group is its primary with a sorted arrangement of everybody's sources; unless a statement fails or the source repeats an ID, the store then has its ID and its last instance on each server, and nothing else has changed |
| `Dedup.Merge` | internal/aggregator/aggregator.go:378-409 | The whole of dedup, on any store and for any order of the groups: the merged list, no mapping lost, and every merged group registered to the end if the items differ in server or ID, or no two groups are shown as items of one server and ID |
| `Dedup.DistinctItemsPrimaries` | internal/aggregator/aggregator.go:392-402 | Items that differ in server or ID leave no two merged groups shown as items of one server and ID |
| `Dedup.RegisterOne` | internal/aggregator/aggregator.go:392-405 | Registering a group disturbs none of the groups registered before |
| `MergeResults.SameKeyIff` | internal/aggregator/aggregator.go:411-424 | Two items are merged exactly when they are known by the same kind of ID and ID and type read the same in a row; with no colon in the types, exactly when they agree in type and in what they are known by |
| `MergeResults.ColonInType` | internal/aggregator/aggregator.go:411-424 | With a colon in a type two different items run together |
| `MergeResults.ImdbApart` | internal/aggregator/aggregator.go:411-424 | Two items with one Imdb ID stay apart when one has a Tmdb ID too |
| `MergeResults.OneItemForEachKey` | internal/aggregator/aggregator.go:378-424 | Exactly one item results for each key present |
| `MergeResults.MergingAgain` | internal/aggregator/aggregator.go:378-409 | Merging a merged list gives the same items |
| `MergeResults.SourcesAccounted` | internal/aggregator/aggregator.go:392-405 | On all inputs, sources in = sources out + those of items that share server and ID with their group's primary without being it |
| `MergeResults.SourcesConservedIff` | internal/aggregator/aggregator.go:392-405 | Sources are conserved exactly if in no group an item with sources, other than the primary itself, has the primary's server and ID |
| `MergeResults.TwiceListedLosesSource` | internal/aggregator/aggregator.go:396-398 | An item an upstream lists twice with different sources loses one of them |
| `MergeResults.SourcesConserved` | internal/aggregator/aggregator.go:392-405 | In particular if no group has two items of one server and ID |
| `MergeResults.LastOtherIsLast` | internal/aggregator/aggregator.go:395-402 | On a server other than the primary's the registered instance is the last item of the group there |
| `MergeResults.MergedIdLeads` | internal/aggregator/aggregator.go:392-402 | A merged group's ID leads each of its servers to an item of the group there |
| `MediaOrder.CodecPriority` | internal/aggregator/aggregator.go:58-63 | A codec's priority is its distance from the end of the list, the last spelling deciding |
| `MediaOrder.PrioritiesFall` | internal/aggregator/aggregator.go:58-63 | With codecs different in lower case, priorities fall strictly along the list and every listed codec beats an unlisted one |
| `MediaOrder.StrictWeakOrder` | internal/aggregator/aggregator.go:446-469 | The five-level comparator is irreflexive, asymmetric, transitive, and so are its ties transitive |
| `MediaOrder.FirstExists` | internal/aggregator/aggregator.go:446-469 | Some source always may stand first |
| `MediaOrder.SortMediaSources` | internal/aggregator/aggregator.go:445-470 | The result is a permutation in which no source comes after one it should precede |
| `Aggregation.EncodeItems` | internal/aggregator/aggregator.go:287-299 | What is sent out is each merged item's own JSON under virtual IDs, and unless a statement fails every merged group is still registered after all of it is encoded |
| `Aggregation.SentID` | internal/aggregator/aggregator.go:472-485 | The `Id` sent for an item is the ID under which the store keeps its pair |
| `Aggregation.SentIDLeads` | internal/aggregator/aggregator.go:287-299 | A path holding just the ID sent for a merged group goes out to each server of the group with an ID of the group there |
| `Paths.RewritePathForUpstream` | internal/aggregator/aggregator.go:556-583 | On any store that agrees with its tables: the path for an upstream, or none exactly where a segment of virtual-ID shape has no original there |
| `Paths.RewriteForUpstream` | internal/proxy/handler.go:1279-1316 | On any store that agrees with its tables: the proxy's path and query for an upstream; what cannot be undone is passed on |
| `Paths.MergedPathLeads` | internal/aggregator/aggregator.go:556-601 | A path whose one virtual ID is a merged group's reaches every server of the group with that server's ID, even when reading the rows fails |
| `Paths.NamedPathComesBack` | internal/proxy/handler.go:1279-1316 | A path of names given on a server comes back to the originals |
| `Paths.UsersPathReachesIff` | internal/aggregator/aggregator.go:562-579 | A `/Users` path without other IDs goes out to an upstream exactly when the upstream's user ID lacks virtual-ID shape or resolves there, and with that user ID exactly when it lacks the shape or resolves to itself |
| `Paths.UsersPathIsDropped` | internal/aggregator/aggregator.go:562-579 | An upstream whose user ID is 32 hex digits is left out of such a request |
| `Playback.RewritePlaybackPath` | internal/proxy/playback_compat.go:378-390 | Each segment that is a key of the replacements is replaced, and no other |
| `Playback.ExtractStreamID` | internal/proxy/handler.go:1463-1471 | The segment after the first Videos or Audio segment that has one |
| `Playback.BuildProxyPlaybackURL` | internal/proxy/playback_compat.go:336-376 | Path and parameters of the client's URL in terms of the upstream's, none if that does not parse; the fragment is kept, and an opaque part or a user named in the URL ends up in the path |
| `Playback.StreamQuery` | internal/proxy/playback_compat.go:150-157 | On any store that agrees with its tables the four ID parameters are undone where they resolve, in all combinations |
| `PlaybackRoundTrip.UpstreamPath` | internal/proxy/playback_compat.go:209-210 | From the path a client was given for an item, the upstream's own path is made again |
| `PlaybackRoundTrip.PathRoundTrip` | internal/proxy/playback_compat.go:209-210 | If the original is the stream segment only, and the virtual ID is not in the path, the client's path names the virtual ID and putting the original back restores the path |
| `PlaybackRoundTrip.FirstThere` | internal/proxy/playback_compat.go:209-210 | The virtual ID first occurs where it was put in, not across a segment border |
| `PlaybackRoundTrip.ClientPathAbsolute` | internal/proxy/playback_compat.go:360-375 | Making the URL absolute changes nothing in a path that is |
| `PlaybackRoundTrip.QueryRoundTripIff` | internal/proxy/playback_compat.go:149-157 | Through the client and back MediaSourceId and ItemId come out as the originals and every other parameter but UserId and api_key as it was, exactly if no ID parameter left alone held a virtual ID; a media source without an ID included |
| `PlaybackRoundTrip.LocationRoundTripIff` | internal/proxy/playback_compat.go:133-157 | The upstream is asked for its own path exactly if its URL named no user and no second segment is the original ID; with one such segment, the ID in the request resolves to the item and its server |
| `PlaybackRoundTrip.DoubledSegment` | internal/proxy/playback_compat.go:209-210 | With the original ID twice in the path it is asked for another |
| `PlaybackRoundTrip.LocationRoundTrip` | internal/proxy/playback_compat.go:133-157 | Path and parameters together |
| `ImageCache.EvictLongest` | internal/proxy/image_cache.go:92-103 | What eviction keeps is the longest prefix within the budget |
| `ImageCache.Cache.Get` | internal/proxy/image_cache.go:35-53 | A hit gives the key's entry and moves it to the front; a miss changes nothing |
| `ImageCache.Cache.Put` | internal/proxy/image_cache.go:55-90 | An accepted body comes first, the other entries follow in order, and the old end is cut to the budget; an oversized one changes nothing, an older entry for the key included. List and index stay in bijection and the size is the sum |
| `ImageCache.Cache.EvictIfNeeded` | internal/proxy/image_cache.go:92-103 | Entries leave from the old end until the rest fits |
| `ImageCacheRuns.NewKeySurvivesIff` | internal/proxy/image_cache.go:55-103 | An accepted new entry survives exactly if it fits by itself |
| `ImageCacheRuns.HitIsLastAccepted` | internal/proxy/image_cache.go:35-103 | Over every run, each entry is the last one accepted for its key, and the total is within the budget |
| `ImageCacheRuns.HandleImage` | internal/proxy/handler.go:841-882 | Look in the cache, else fetch, and store what came with status 200 |
| `ImageCacheRuns.RequestStep` | internal/proxy/handler.go:841-882 | One request on a cut recency list gives the cut of the new recency list |
| `ImageCacheRuns.CacheIsRecencyPrefix` | internal/proxy/handler.go:841-877 | When each key has one response, the cache after any requests is the recency list cut to the byte budget |
| `ImageCacheRuns.HitIff` | internal/proxy/handler.go:841-877 | A request hits exactly when the key and all requested since fit together |
| `ImageCacheRuns.Inclusion` | internal/proxy/image_cache.go:35-103 | A larger cache holds the smaller one's list as a prefix at every moment, and hits whenever it hits |
| `ImageCacheRuns.HitIsTransparent` | internal/proxy/handler.go:841-882 | A hit shows what the fetch would have shown |
| `Meter.NoByteUnaccounted` | internal/traffic/meter.go:43-64 | In every interleaving of Add and flush steps, for each upstream and direction below 2^63 bytes: bytes added = table + live counter + in the flush's hands + lost with a failed INSERT |
| `Meter.InsertBalanced` | internal/traffic/meter.go:161-180 | The flush's INSERT moves what was swapped out into the table, or into the lost bytes |
| `Meter.KeyInvNext` | internal/traffic/meter.go:43-180 | Every step keeps the account, and no report exceeds what was added |
| `Meter.ReportBelowAdded` | internal/traffic/meter.go:108-137 | A total never exceeds the bytes added by the time it is returned |
| `Meter.LoadedExactly` | internal/traffic/meter.go:127-135 | What a total falls short by: bytes in the flush's hands, inserted since its query, or lost; it is exact if and only if there are none |
| `Meter.QuietLoadExact` | internal/traffic/meter.go:108-137 | With no flush step since the query, and none under way, each load is exact while Adds go on |
| `Meter.ReportBetween` | internal/traffic/meter.go:108-137 | With no flush from query to return and nothing lost of a key, the report on it, counter or not, lies between what was added at the query and at the return |
| `AuthHeader.ParseEmbyAuthorizationHeader` | internal/proxy/login_compat.go:178-206 | The loop over the parts computes the fields of the specification |
| `AuthRoundTrip.ParseIsAddAll` | internal/proxy/login_compat.go:178-206 | Any header of `Key="value"` fields parses to these fields |
| `AuthRoundTrip.BuiltParses` | internal/identity/spoof.go:118-126 | Parsing a built header gives exactly the profile's four fields |
| `AuthRoundTrip.ReplaceInParams` | internal/identity/spoof.go:136-144 | Replacing a pattern in a well-formed header replaces the fields of that key and no part of any other |
| `AuthRoundTrip.PutStep` | internal/identity/spoof.go:136-144 | One replace-or-append sets that key as the parser reads it, and keeps the header well formed |
| `AuthRoundTrip.RewrittenParses` | internal/identity/spoof.go:128-134 | Parsing a rewritten header gives the profile's four fields and every other field as it was |
| `AuthRoundTrip.BareSchemeParses` | internal/identity/spoof.go:128-144 | A header that is only a scheme gets the four fields |
| `AuthSchemeless.BlankLosesClient` | internal/identity/spoof.go:136-144 | From a rewritten blank header the client's name does not come out, whatever the name |
| `AuthSchemeless.FourFieldsIff` | internal/identity/spoof.go:128-144 | When the four fields come out of a rewritten header: of a blank one never, of one with a scheme always, of fields without a scheme exactly if the first key is none of the four or comes again |
| `AuthSchemeless.SchemelessParses` | internal/proxy/login_compat.go:178-206 | Of fields without a scheme the parser reads all but the first, and of that only what follows a blank in its value |
| `AuthSchemeless.SchemelessLosesClient` | internal/identity/spoof.go:128-144 | The header `Client="Emby"`, which the parser reads, loses the client for all three identities |
| `AuthSchemeless.NoBreakSpaceLosesClient` | internal/identity/spoof.go:107-114 | A header of one no-break space is not empty and loses the client for all three identities |
| `AuthRoundTrip.InfuseOk` | internal/identity/spoof.go:30-55 | The Infuse identity meets the conditions of these theorems |
| `AuthRoundTrip.WebOk` | internal/identity/spoof.go:30-55 | So does the web identity |
| `AuthRoundTrip.ClientOk` | internal/identity/spoof.go:30-55 | And the desktop client's |
| `Hex.RoundTrip` | internal/auth/admin.go:231-238 | Decoding undoes encoding |
| `Token.SplitJWT` | internal/auth/admin.go:240-258 | The loop cuts at the first two dots |
| `Token.SplitDotsRejoins` | internal/auth/admin.go:240-258 | At most three parts that join to the token, the first two free of dots |
| `Token.VerifyJWT` | internal/auth/admin.go:165-192 | A user name comes out of exactly the tokens accepted for it; a token is refused for its format exactly if it has less than two dots, and for its signature exactly if what follows the second is not the HMAC |
| `Token.SignedVerifiesIff` | internal/auth/admin.go:143-192 | A signed token gives its user name exactly while the clock is not past the second of the expiry |
| `Token.GoodForADay` | internal/auth/admin.go:143-192 | So up to and including 24 hours after signing, and never from a second after that |
| `Token.GoodForALittleMore` | internal/auth/admin.go:188-190 | In that second it can still be accepted |
| `Token.AcceptedIff` | internal/auth/admin.go:165-192 | Exactly the tokens with the right signature over their first two parts and a readable, unexpired payload are accepted |
| `UpstreamOrder.Manager.constructor` | internal/upstream/manager.go:417-475 | A load holds every delivered row once, by priority; rows that are not are missing |
| `UpstreamOrder.Manager.ByID` | internal/upstream/manager.go:100-109 | The upstream with the ID, or none if there is none |
| `UpstreamOrder.Manager.Add` | internal/upstream/manager.go:111-158 | The new upstream is last in memory and has the default priority in the table |
| `UpstreamOrder.Manager.Remove` | internal/upstream/manager.go:160-183 | The upstream leaves the table, and its first place the slice; the others keep their order |
| `UpstreamOrder.Manager.Reorder` | internal/upstream/manager.go:357-388 | The table has the positions of the IDs, and memory the known ones among them in that order, as often as named, each upstream with the priority of its last place |
| `UpstreamOrder.ReloadUnique` | internal/upstream/manager.go:417-426 | When memory and table are in step, a reload can only give the order of memory |
| `UpstreamOrder.ReorderInStep` | internal/upstream/manager.go:357-388 | IDs that name all current upstreams, and none twice, put them in step |
| `UpstreamOrder.KnownOfKnown` | internal/upstream/manager.go:376-386 | A permutation of the current IDs is the order memory gets |
| `UpstreamOrder.ReorderAgreesIff` | internal/upstream/manager.go:376-386 | For any IDs, memory and table: memory is what a reload could give exactly if no upstream at hand is named twice and the table holds just those at hand and named |
| `UpstreamOrder.RemoveKeepsStep` | internal/upstream/manager.go:160-183 | A removal keeps them in step |
| `UpstreamOrder.RemovalsKeepOrder` | internal/upstream/manager.go:160-183 | After any removals a reload gives the order of memory |
| `UpstreamOrder.AddAgreesIff` | internal/upstream/manager.go:121-152 | After an Add, for any memory and table: it can exactly if it could before and no other upstream has a positive priority |
| `UpstreamOrder.ReorderDropsOne` | internal/upstream/manager.go:376-386 | Reordering two upstreams by a list of one leaves memory with one and a restart with two |
| `UpstreamOrder.ReorderDoublesOne` | internal/upstream/manager.go:376-386 | Naming one of two upstreams twice puts it into memory twice; a removal then leaves it there |
| `UpstreamOrder.AddAfterReorder` | internal/upstream/manager.go:111-158 | After a reordering of two, a third is last in memory, where no restart puts it |
| `UpstreamOrder.AddAfterLoss` | internal/upstream/manager.go:111-158 | Also with all priorities 0: after a reordering that dropped an upstream no restart gives the order of memory |
| `Serving.ServeTwice` | internal/proxy/json_ids.go:36-74 | On any store a body virtualised, and undone after a request that merged items, is the same body, and the merged groups are registered, unless a statement failed, an ID was repeated or a kept text is a virtual ID |
| `Serving.ServeFirst` | internal/idmap/store.go:38-46 | All of it from a new store on, for a source that repeats nothing in its first 2^32 IDs |
| `Serving.NameFirst` | internal/idmap/store.go:38-97 | A new store gives the first pair the ID it is then kept under |

## Left out

- JsonIds.WalkJSONIDs: JSON trees are values, and the walk returns the changed tree instead of overwriting nodes in place; a freshly decoded tree has no shared nodes, so aliasing within a tree does not arise.
- JsonIds.WalkAndVirtualize: the same; the members of an object are rewritten one at a time in a map.
- JsonIds.VirtualizeJSON: what it does is stated for a store that is reliable when it returns; `StoreRuns.RunCoherentIff` says what happens to one that is not. The branch for bodies that do not decode returns the bytes untouched and is left out.
- JsonIds.DevirtualizeJSON: the branch for bodies that do not decode is left out here too.
- Aggregation.EncodeItems: an item whose raw JSON does not decode, and the enclosing response object, are left out.
- Dedup.Merge: with failing statements only the merged list and the mappings are described, not the instances.
- Paths.RewritePathForUpstream: works on the decoded path; the branch for a path that is no request URI, and escaping, belong to net/url.
- Paths.RewriteForUpstream: the query is a parameter map; its encoding belongs to net/url.
- Playback.BuildProxyPlaybackURL: decoded path and parameter map in place of URL text; parsing and escaping belong to net/url.
- IdStore.Store.GetInstances: a call that finds no cached list asks for rows and, before it has read them, resolves the ID; if the ID is not cached either, that second query waits for the one connection of the pool. The contract is about calls that return.
- StoreInterleaving.NextInv: item types and instances are not part of the interleaved model, nor is `CleanupServer`: a `Resolve` that has read a row can put it back into the cache after a cleanup removed it.
- AuthRoundTrip.RewrittenParses: for headers of `Key="value"` fields joined by comma and blank after one scheme word without a quote; values without quote and comma that do not end in an equals sign, and no other key ending in a rewritten name.
- AuthSchemeless.FourFieldsIff: for the same fields, with a scheme word or without one; other separators and unquoted values are not covered.
- AuthHeader.RewriteAuthorization: replacement texts with dollar signs would be expanded by the regular expression library; the three identities have none (`AuthRoundTrip.NoDollars`), custom ones could.
- Token.SignedVerifiesIff: takes as given that the payload the program encodes decodes to itself; the signature algorithm is a function of the text.
- UpstreamOrder.Manager.Add: the other columns, authentication and the HTTP client of an upstream.
- Integer widths: 64-bit wrap-around is modelled for the traffic counters, where sums grow without bound; IDs, bitrates, pixel counts and sizes are unbounded integers here.
- `Stats`, `RewriteIDsInJSON`, `Snapshots`, `RecentStats`: single queries and a loop of calls that are modelled.
- `walkProxyUserIdentity` and the remaining fields of `rewriteMediaSource`: one-pass replacements of fixed strings.
- `resolveStreamTarget` beyond its first branch, sessions, health checks, login, WebSockets, streaming copy loops, timeouts, the admin interface, configuration, logging and migrations.
- The order in which upstream answers arrive: the items to merge are an arbitrary list.
