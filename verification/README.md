# iot-ephemeral-value-store: verified model

This project models the core of the IoT ephemeral value store and proves properties of it. A
client uploads or patches a small document under an upload key; anyone with the derived download
key can read it until it expires. Three things are hard about that service, and they are what is
modelled here.

**The path-addressed document.** A document is a tree of nested string-keyed maps
(`Documents.dfy`). `Merge.dfy` states `MergeDataAtPath` as a pure function, `MergeLaws.dfy` and
`OrderIndependence.dfy` say exactly what it changes and when merges can be reordered,
`HeapMerge.dfy` is the cursor loop over map objects updated in place (`Heap.dfy` pictures the tree
they form by one object for each position), and `Json.dfy` converts between objects and stored
documents. `Paths.dfy`, `Traverse.dfy`, `HeapTraverse.dfy`, `Enumerate.dfy` and `EnumerateLaws.dfy`
are the string paths, the lookup and the listing of leaves; `PathReadings.dfy` and
`PlainDocuments.dfy` say for which paths and requests they agree with each other.

**The write protocol.** `Protocol.dfy` is a transition system: service calls with a program counter,
background transactions, the degraded flag, cancelled contexts, a clock, and a database of
documents with an expiry. A run is any sequence of enabled actions, so every lemma about a trace
is about every interleaving and every choice among ready select branches. `ProtocolCalls.dfy` and
`ProtocolPayload.dfy` hold the invariants; `ProtocolOutcomes.dfy`, `ProtocolHistory.dfy`,
`ProtocolBreaker.dfy`, `ProtocolPatch.dfy`, `ProtocolProvenance.dfy` and `ProtocolWitness.dfy` the
results. `Service.dfy` has the storage and the service as objects that serve one call at a time
over the heap merge, while the clock goes on and the context may be cancelled; a `Fate` says what the
surroundings have in store, and the contracts say that whatever is possible happens for some fate.
`ProtocolSolo.dfy` states that contract and proves that it describes exactly the runs of the
transition system in which no other call acts. `ProtocolChoices.dfy` says what remains possible when
others do: every ready select branch, a commit after the caller has given up, and that a call depends
on nothing but its own situation. `Expiry.dfy` says what sequential runs of calls show.

**The statistics.** `Stats.dfy` keeps hour buckets and a table of rate-limited addresses and is
compared with the event log of `EventLog.dfy`. `Timestamps.dfy`, `Domain.dfy` and `Base64.dfy` are
the key expansion, the key rules and the three-decoder fallback; `Base64Bits.dfy` compares the decoders
with the bits the characters stand for.

## Findings

Where the code does not do what its comments or documentation suggest, the model follows the code:

- `README.md:345-359` of the service patches at `living_room/` and shows the entries directly under
  `living_room`. The code splits the path without trimming, so they land below the empty key inside
  `living_room`: `PathReadings.LivingRoom` is that request, and `PathReadings.TrailingSlashIff` says
  that entries land directly under the trimmed path if and only if the path does not end in a slash.
- A merge takes the empty path to mean the root; a lookup takes it to mean the key `""`.
  `PathReadings.EmptyPathIff` says that they read every other path alike.
- The listing of leaves drops a leading empty key and does not escape slashes in keys.
  `EnumerateLaws.AgreesIff` gives the exact condition on a document under which listing and lookup
  agree, `PlainDocuments.PatchPlainIff` and `PlainDocuments.UploadPlainIff` the exact condition on a
  request, and `PlainDocuments.DisagreementIsReachable` runs that store documents on which they do not.
- The comment at `httphandler/downloadHandler.go:86` announces unpadded URL-safe input; the decoder
  used is the unpadded standard one. `Base64.UnpaddedUrlSafeIff` says for which bytes this matters, and
  `Base64.UnpaddedUrlSafeFails` shows one.
- Validation of an upload key ignores case and the derivation of its download key does not:
  `Domain.CaseMatters` says that a valid key and its lower-case form, which is valid too, share a
  download key only if they are equal.
- Two concurrent patches that both return without error can lose an update
  (`ProtocolWitness.LostUpdate`). `ProtocolPatch.AtomicIff` says exactly when patches act atomically.

## Assumptions

The database is an atomic map from keys to documents with an expiry; a transaction that reports an
error has not committed, and the lifetime of an entry counts from a moment between the start and the
commit of the transaction that stores it. An entry is visible strictly before its expiry. JSON
encoding loses nothing on trees with string leaves. The hash, the rendering of clock readings and the
lifetime of entries are parameters. Each locked method of the statistics is one step at one clock
reading.

## Model

| member | source | states |
|---|---|---|
| Documents.Extensionality | data/merge.go:8-38 | a document is determined by what is found at each position, so a law given position by position says everything about the result |
| Merge.GetAfterMerge | data/merge.go:8-38 | after a merge every position on the route holds a map, every position at or below a new entry shows that entry, and every other position shows the same value as before |
| MergeLaws.KindsAfterMerge | data/merge.go:8-38 | the same, for all positions at once, in terms of nothing, text or map |
| MergeLaws.MergeRefinesFlatMerge | data/merge.go:8-38 | on the flat path-to-text view a merge drops the leaves on the route and in replaced entries and adds the new leaves, nothing else |
| MergeLaws.LeavesAfterTextMerge | data/merge.go:8-38 | exact leaf set: old leaves, minus those at the path or a prefix of it, minus those at or under a written key, plus each parameter at its path |
| MergeLaws.CommuteIff | data/merge.go:8-38 | two merges commute, on whichever document, if and only if neither writes a leaf on the other's route and they agree where both write |
| Reordering.PermutedFold | data/merge.go:8-38 | folding pairwise commuting steps gives the same result for every permutation of the list |
| OrderIndependence.PatchApartFromTimestamp | data/data.go:75-77 | apart from the root timestamp, a patch does what a merge that writes nothing at or under that key does |
| OrderIndependence.PatchAllConcat | data/data.go:65-77 | a list of patches is applied one after the other from its front |
| OrderIndependence.AnyOrderIff | data/data.go:70-77 | every permutation of a list of patches gives the same document apart from the root timestamp if and only if the patches are pairwise independent outside that key |
| Heap.DocumentKinds | data/merge.go:18-37 | the document an unshared acyclic tree of map objects stands for has at each position what the objects have there |
| HeapMerge.GraftRefinesMerge | data/merge.go:16-37 | opening the route and copying the new entries into its last map yields a tree of objects that stands for the pure merge |
| HeapMerge.Descend | data/merge.go:30-35 | one step of the cursor keeps the tree unshared and true of the heap, opens the route by one map and changes at most the current map |
| HeapMerge.MergeLast | data/merge.go:20-28 | the last step turns an opened route into the pure merge of the document at the start |
| HeapMerge.MergeDataAtPath | data/merge.go:8-38 | from any unshared acyclic tree of map objects the loop ends in one that stands for the pure merge; only maps on the route are modified and every other object of the result is old, new data or fresh |
| HeapMerge.CopyEntries | data/merge.go:25-27 | copying in any key order leaves the target with its own entries overridden by the source's |
| Paths.SplitConcat | data/merge.go:16 | splitting p + "/" + x gives the segments of p followed by those of x |
| Paths.JoinSplit | data/traverse.go:11 | joining the segments of a path gives the path back |
| Paths.SplitJoin | httphandler/downloadHandler.go:198 | splitting a joined list of slash-free segments gives the list back |
| Paths.SplitChildPath | data/merge.go:9-16 | the path of a slash-free key below a merge path denotes the merge position followed by the key |
| PathReadings.EntryUnderTrimmed | data/merge.go:16-37 | what any document has directly under the trimmed path after a merge: the new entry if the path has no slash at its end, otherwise what was there, or a map at the empty key |
| PathReadings.TrailingSlashIff | data/merge.go:16-37 | entries land directly under the trimmed path, whatever was there, if and only if the path does not end in a slash |
| PathReadings.BelowEmptyKey | README.md:345-359 | parameters patched at any room followed by a slash are below the empty key in the room, and a lookup directly below the room finds nothing |
| PathReadings.LivingRoom | README.md:345-359 | the documented request: nothing at living_room/temp, the text below the empty key |
| PathReadings.EmptyPathIff | data/merge.go:9-16 | a merge and a lookup read a path alike, and the map merged into is found at the path, if and only if the path is not empty |
| HeapTraverse.TraverseField | data/traverse.go:10-26 | walking the map objects finds a slot that stands for the value at the position the path denotes; it fails as an invalid path exactly when a text lies above it and as not found otherwise, and changes nothing |
| Traverse.PutGet | data/merge.go:9-28 | what was written below a path is found at that path followed by its key |
| Traverse.GetOnRoute | data/merge.go:19-36 | the merge position and every position above it are found and hold the merged maps |
| Traverse.GetOffRoute | data/merge.go:19-36 | any other path finds the same value or fails the same way as before, except that a text replaced on the route turns an invalid path into a missing one |
| Enumerate.CollectAllPaths | httphandler/downloadHandler.go:188-214 | for every map iteration order the listing pairs each leaf, once, with the path built for it, and a string is listed exactly when it is the path of some leaf |
| EnumerateLaws.PlainKeysAgree | httphandler/downloadHandler.go:188-214 | with plain keys the listing has no duplicates and names exactly the paths at which a lookup finds a text |
| EnumerateLaws.AgreesIff | httphandler/downloadHandler.go:188-214 | listing and lookup agree if and only if no key above or at a leaf contains a slash and no leaf lies below the root key "" |
| PlainDocuments.UploadPlainIff | data/data.go:40-44 | an upload stores a document on which listing and lookup agree if and only if its keys have no slash |
| PlainDocuments.PatchPlainIff | data/data.go:65-77 | a patch keeps such a document such if and only if each of its entries that the timestamp does not overwrite has a slash-free key at a path without a leading slash |
| PlainDocuments.PlainRunsAgree | httphandler/downloadHandler.go:188-214 | in every run whose calls all have slash-free keys and no path with a leading slash, the listing of every stored document has no duplicates and names exactly the paths at which a lookup finds a text |
| PlainDocuments.LeadingSlashDisagrees | httphandler/downloadHandler.go:195-199 | the leaf patched at "/b" under a is found at "/b/a" and listed as "b/a", where nothing is found |
| PlainDocuments.SlashInKeyDisagrees | httphandler/downloadHandler.go:195-199 | the leaf of a root key "a/b" is listed as "a/b", where nothing is found |
| PlainDocuments.DisagreementIsReachable | httphandler/downloadHandler.go:188-214 | runs that store these documents |
| ServiceLaws.UploadedKind | data/data.go:40-44 | an uploaded document has its parameters and the root timestamp, which wins, and nothing else |
| ServiceLaws.PatchedKind | data/data.go:65-77 | position by position, a patched document is the merge with the root timestamp replaced |
| ServiceLaws.RootTimestamp | data/data.go:44-77 | uploads and patches leave their stamp under the root key "timestamp", over whatever was supplied there |
| ServiceLaws.SamePatchedIff | data/data.go:65-77 | a patch gives two documents the same result if and only if they agree wherever it leaves things as they are |
| Json.Unmarshal | storage/storage.go:293-297 | decoding a stored document gives a new unshared tree of map objects that stands for it |
| Json.MarshalAt | storage/storage.go:267-271 | encoding the map at a position of a tree gives the document it stands for |
| Service.SetTimestamp | data/data.go:77 | setting the root timestamp in place replaces whatever was at that key and keeps the rest |
| Service.PatchInPlace | data/data.go:70-77 | merging and stamping the retrieved objects in place yields the pure patched document |
| Service.StorageInstance.UpdateWithContext | storage/storage.go:206-231 | each outcome comes only in its own circumstances of flag, context and clock, and comes about if it is possible and the fate says so; a degraded or early cancelled write leaves the database alone, a nil return has written, one that gave up has written or not, a timeout has waited, and only a timeout sets the flag |
| Service.StorageInstance.Store | storage/storage.go:267-277 | the same with the document the map objects stand for at the call as payload |
| Service.StorageInstance.ViewWithContext | storage/storage.go:180-201 | a read without error looked at the database at a time during the call; an early cancelled read never did, and one is abandoned only if cancelled or, without a deadline, past the fallback timeout; each of these comes about if it is possible and the fate says so |
| Service.StorageInstance.Retrieve | storage/storage.go:279-300 | a read gives fresh objects that stand for the document visible at a time during the call, or for an empty one; an error has one of its three causes and changes nothing |
| Service.StorageInstance.GetJSON | storage/storage.go:254-265 | a read gives the document visible at a time during the call, and reports a missing key only if none is visible |
| Service.DataService.Upload | data/data.go:30-51 | the call ends in one of the ways a call on its own may, and in the way its fate says if that is one of them; without error it has served its request and returns objects that stand for what it stored; an invalid upload key is refused and changes nothing |
| Service.DataService.Patch | data/data.go:55-84 | the same for retrieving, merging in place, stamping and storing, each at its own clock reading |
| Service.DataService.Delete | data/data.go:113-128 | the same, and without error the key is gone |
| Service.DataService.DownloadJSON | data/data.go:87-94 | the read ends as one on its own may, and as its fate says if possible, with the document visible under the stripped key, and reports a missing key when there is none |
| Service.DataService.DownloadField | data/data.go:98-110 | a field read ends in the same ways, and its result stands for the lookup in the document it saw, or in an empty one |
| Service.PrefixedRead | domain/domain.go:26-28 | a read of a key with the prefix "d_" ends exactly as one of the bare key, with the document visible under the bare key |
| Domain.ValidIff | domain/domain.go:49-74 | an upload key is valid if and only if it is 64 hex digits of either case after its prefix; deriving the download key fails only for another length, so never for a valid key |
| Domain.StrippedKeys | domain/domain.go:14-28 | one "u_" is taken off an upload key and one "d_" off a download key, and a key without the prefix is kept |
| Domain.DerivedKeys | domain/domain.go:49-60 | the download key of a valid upload key is the hash of the key without its prefix; if the hash has no collisions, two valid keys derive the same one if and only if their bare keys are equal |
| Domain.CaseMatters | domain/domain.go:49-74 | a valid key and its lower-case form are both valid, and with such a hash derive the same download key if and only if they are equal |
| Domain.PrefixIrrelevant | domain/domain.go:21-23 | a bare key and its prefixed form are valid alike and derive the same download key, and a second prefix is refused |
| Expiry.Isolation | data/data.go:30-128 | requests whose derived key differs, and reads, are irrelevant to what a key holds |
| Expiry.UploadKeyIsolation | data/data.go:30-128 | if the hash has no collisions, requests with another bare upload key are irrelevant to what the download key of an upload key, the hash of its bare form, holds |
| Expiry.VisibleIsWindow | storage/storage.go:273-276 | after any writes to a key, each with its own times of reading, stamping and storing, a time after them sees the fold of the writes since the last upload, deletion or gap of at least the lifetime, until the lifetime after the last entry was made |
| Expiry.VisibleDocument | data/data.go:30-128 | the same for any sequential run of requests to any keys under a clock that does not go back |
| Expiry.WindowUnique | storage/storage.go:273-276 | there is only one such window |
| Expiry.PrefixedRequest | domain/domain.go:21-23 | a request with the prefixed form of a bare key changes the database as the bare one does |
| Protocol.PrefixRuns | storage/storage.go:180-231 | every prefix of a run is a run |
| ProtocolSolo.SoloCallMayEnd | storage/storage.go:180-231 | a call during which no other call acts ends in one of the ways the contract of the service allows, with that database, flag, clock and context |
| ProtocolSolo.MayEndIsSoloCall | storage/storage.go:180-231 | every way the contract allows is how some such call ends |
| ProtocolSolo.SoloIff | data/data.go:30-128 | from any point of any run, the contract of a single service call is exactly what the transition system lets that call do on its own |
| ProtocolChoices.WriterChoices | storage/storage.go:220-230 | at any point of any run a waiting writer can take exactly the select branches that are ready: the result of its transaction, its cancellation, its timeout |
| ProtocolChoices.ReaderChoices | storage/storage.go:194-200 | at any point of any run a reader can get its snapshot or fail, and go on with a snapshot it has even if its context is done; it can be abandoned, before or after the snapshot, exactly when its context is done |
| ProtocolChoices.TransactionChoices | storage/storage.go:215-218 | at any point of any run a transaction under way can commit the payload of its call, in an entry made at any moment since its start and no other, or fail, whatever its caller is doing or how it has returned |
| ProtocolChoices.CommitAfterReturn | storage/storage.go:215-230 | from any point of any run a write can time out or be cancelled in every way its contract allows, with nothing stored, and at any later moment one more action stores its payload: it commits after it has returned |
| ProtocolChoices.LateUpload | storage/storage.go:215-230 | such runs exist from the start, for a timeout and for a cancellation, for every configuration and parameter map |
| ProtocolChoices.SurroundingsChoices | storage/storage.go:206-242 | at any point of any run the clock can go on, a context be cancelled and the flag reset, each changing nothing else |
| ProtocolChoices.NewCall | data/data.go:30-128 | at any point of any run a new call can be made, whatever the flag and its context |
| ProtocolChoices.ResetReopens | storage/storage.go:207-242 | while the storage is degraded a new write on its own cannot succeed, and after a reset it can |
| ProtocolChoices.CancelledIff | storage/storage.go:211-223 | a context is cancelled if and only if its cancellation has happened |
| ProtocolChoices.StepFrame | storage/storage.go:180-231 | an action leaves every other call, its transaction and its context alone; only a tick moves the clock and only a commit changes the database |
| ProtocolChoices.StepIsLocal | storage/storage.go:180-231 | what a call can do, and where that takes it, depends on nothing but its own program counter, transaction and context, the clock, and, where it tests the flag or takes its snapshot, the flag or what its key shows |
| ProtocolCalls.StepKeepsCallInv | storage/storage.go:206-231 | every action keeps, for every call, the order of its landmarks and what its program counter and transaction say about them |
| ProtocolCalls.CallInvHolds | storage/storage.go:180-231 | that invariant holds of every call in every run |
| ProtocolCalls.OccursAtPlace | storage/storage.go:206-231 | in a trace that repeats no landmark of a call, a landmark occurs at the recorded index and nowhere else |
| ProtocolOutcomes.AtMostOnce | storage/storage.go:206-231 | no call starts, commits or returns twice in any run |
| ProtocolOutcomes.OutcomeClassification | storage/storage.go:206-231 | nil means exactly one commit, after the start and before the return; a degraded or early cancelled call, a read, and a patch that failed in its read never started a transaction; a failed write never committed; one that gave up started one and committed at most once |
| ProtocolOutcomes.TimeoutWasWaited | storage/storage.go:225-229 | a call that timed out had waited for the write timeout since its transaction started |
| ProtocolPayload.PayloadInvHolds | data/data.go:65-79 | in every run the payload a call carries, and the one its pending transaction holds, is the pure document of its operation on what the call read, stamped with the clock reading at which it was made |
| ProtocolPayload.StampedInTime | data/data.go:77-79 | that clock reading lies between the invocation of the call and the start of its transaction |
| ProtocolPayload.SeenAtSnapshot | storage/storage.go:279-299 | what a call read is what its key held, unexpired, when the snapshot was taken |
| ProtocolHistory.HistoryIsLegal | storage/storage.go:180-231 | commits and snapshots, in order, are a legal history of an atomic map whose clock does not go back and whose entries expire the configured lifetime after they were made; it ends in the database of the run |
| ProtocolHistory.HistoryMembers | storage/storage.go:180-231 | the effects in the history are exactly those of the actions of the run |
| ProtocolHistory.WrittenTakesEffect | storage/storage.go:206-222 | a write that returned nil is in the history with its key and payload, between call and return; its entry was made between the start and the commit |
| ProtocolHistory.FetchedTakesEffect | storage/storage.go:180-196 | a read that returned without error is in the history with the result it returned, between call and return |
| ProtocolHistory.PatchReadTakesEffect | data/data.go:65-79 | a committed patch has its read in the history before its own store, whose payload builds on that read |
| ProtocolHistory.StoresOf | storage/storage.go:206-231 | a call has at most one store in the history, possibly after it gave up (ProtocolChoices.CommitAfterReturn), and none if it was refused or failed |
| ProtocolHistory.RealTimeOrder | storage/storage.go:180-231 | a call that returned before another was invoked takes effect before it |
| ProtocolHistory.EffectInTime | storage/storage.go:180-231 | every effect has the clock reading of its action; every store is the payload of its call, stamped in time, in an entry made between the start and the commit |
| ProtocolHistory.Linearizable | storage/storage.go:180-231 | all of this together for every run: linearizability of the storage as an atomic map with the configured lifetime |
| ProtocolBreaker.BreakerBound | storage/storage.go:207-229 | from any degraded point on, without a reset, starts plus calls still between flag test and start never exceed the calls between them at that point, and every start is by one of those |
| ProtocolBreaker.StartsAfterTimeout | storage/storage.go:207-229 | after a timeout and until a reset, whoever starts a transaction had passed the flag test before that timeout, and there are at most as many as calls then in between |
| ProtocolBreaker.DegradedIff | storage/storage.go:225-247 | the storage is degraded if and only if a timeout was followed by no reset |
| ProtocolWitness.BreakerBoundIsReached | storage/storage.go:207-229 | the bound is exact: uncancelled calls in between can all still start |
| ProtocolPatch.CommitIsAtomicIff | data/data.go:65-79 | one commit equals its atomic counterpart if and only if what the patch read still agrees, where the patch leaves things alone, with what is visible |
| ProtocolPatch.AtomicIff | data/data.go:65-79 | the database is the fold of uploads, deletions and pure merges in commit order throughout a run if and only if the read of every committed patch is still good at its commit |
| ProtocolPatch.EntryKept | storage/storage.go:273-276 | without commits to it, the entry of a key stays as it is over any stretch of a run |
| ProtocolPatch.UndisturbedRunIsAtomic | data/data.go:65-79 | if no other write to the key commits, and the entry read does not expire, between read and commit of each patch, the database is that fold |
| ProtocolWitness.LostUpdate | data/data.go:65-79 | a run in which two patches of one key return nil and the document lacks what the first one wrote |
| ProtocolProvenance.Provenance | data/data.go:30-84 | in every run all stored, read and pending documents have only sourced leaves |
| ProtocolProvenance.StoredLeafHasSource | data/data.go:30-84 | every leaf of every stored document is a clock text at the root timestamp, or was supplied for that key at exactly that position by a call whose transaction has committed |
| EventLog.BetweenExactCounts | stats/stats.go:116-133 | the hourly count over 86400 seconds lies between the exact counts over 82800 and 86400 seconds |
| EventLog.HourOfIff | stats/stats.go:107-118 | the hour of a clock reading is the last multiple of 3600 seconds up to it |
| EventLog.AddHour | stats/stats.go:124-131 | counting one more hour adds the events of that hour |
| EventLog.HoursInInterval | stats/stats.go:116-133 | an interval of n hours contains at most n full hours |
| Stats.Stats.IncrementKind | stats/stats.go:58-86 | recording an event keeps totals and buckets equal to the counts of the log |
| Stats.Stats.AddToLast24h | stats/stats.go:106-114 | the bucket of the current hour gains the event, or is created with it, and no other bucket changes its meaning |
| Stats.Stats.SumAndPrune | stats/stats.go:120-132 | for any iteration order, the counters equal the logged events in the kept hours and exactly the buckets before the cutoff are removed |
| Stats.Stats.GetCurrentStats | stats/stats.go:50-56 | each 24h counter equals the logged events whose hour is not before the clock reading 86400 seconds ago, despite pruning; totals count everything; at most 25 buckets remain |
| Stats.Stats.RecordRateLimitHit | stats/stats.go:88-104 | the table goes on listing exactly the addresses hit, once each, in first-hit order, with their hits, which add up to the hit counter |
| Stats.TableUnique | stats/stats.go:88-104 | the recorded hits determine the table |
| Timestamps.AddTimestampToThisData | httphandler/datahandling.go:7-23 | the result has the original keys, for an empty path the companion of each original key, and "timestamp"; generated keys win and other values stay |
| Timestamps.GeneratedKeys | httphandler/datahandling.go:10-22 | the companion of a key is the key followed by "_timestamp", and "timestamp" is there in any case |
| Timestamps.ExpansionUnique | httphandler/datahandling.go:10-22 | the result does not depend on the iteration order |
| Base64.RoundTrip | httphandler/downloadHandler.go:75-87 | decoding what an encoding produced gives the bytes back |
| Base64.DecodersAgree | httphandler/downloadHandler.go:73-92 | any two decoders that accept an input decode it alike, so the order of attempts never matters |
| Base64.FallbackRoundTrip | httphandler/downloadHandler.go:73-92 | the fallback returns the bytes of padded standard, padded URL-safe and unpadded standard encodings |
| Base64Bits.SextetIsPlace | httphandler/downloadHandler.go:73-92 | a character means its place in the alphabet of section 4 or 5 of RFC 4648, written out, and any other character means nothing |
| Base64Bits.DecodeIff | httphandler/downloadHandler.go:73-92 | a decoder answers bytes if and only if the input, without line breaks, is characters of its alphabet with the padding they need, and the bits of the bytes are the six bits of each character, cut to whole bytes |
| Base64Bits.NewlinesLeftOut | httphandler/downloadHandler.go:73-92 | carriage returns and line feeds, and no other characters, are left out before |
| Base64Bits.FallbackIff | httphandler/downloadHandler.go:73-92 | the fallback answers what any of the three decoders answers, and nothing else |
| Base64Bits.StandardExample | httphandler/downloadHandler.go:75 | "+w==" decodes to the byte 251 |
| Base64.UnpaddedUrlSafeIff | httphandler/downloadHandler.go:86-91 | an unpadded URL-safe encoding is decoded if and only if it needs no padding or uses neither "-" nor "_" |
| Base64.UnpaddedUrlSafeFails | httphandler/downloadHandler.go:86-91 | the byte 251 encodes to "-w", which no decoder accepts |

## Left out

- HTTP handlers, routing, templates, CORS and static pages: input, output and user interface.
- The MCP server and tools: they delegate to the service.
- BadgerDB internals, value-log collection, disk checks, health reports and raw test writes.
- Documents that are not trees with string leaves: JSON null, numbers and arrays never come from the service.
- SHA-256, random keys, HTML escaping and URL building: library code.
- Token buckets, address parsing and trusted proxies: library code around a map.
- Lock mechanics, uptime and the start time of the statistics.
- The slice a statistics snapshot shares with later state: snapshots are values here.
- Service.StorageInstance.UpdateWithContext: serves a single caller; interference, and a commit after the return, are in the transition system (ProtocolChoices).
- Enumerate.CollectAllPaths: the alphabetical sort of its result for display is not modelled.
- Non-ASCII characters in keys: lower-casing is modelled on ASCII, where it can matter for hex digits.
