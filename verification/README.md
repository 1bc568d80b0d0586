# doclock in Dafny

A model of doclock's in-memory service layer, the document versioning and edit-lock service in
`internal/service` and `internal/domain`, with proofs about single calls and whole runs.

The service is one state machine over six coupled structures: collections, documents, revision
history, edit locks, the audit log and the idempotency cache. Seven keyed writes, a reaper and
seven reads act on it.

- `Domain.dfy` holds the entities, errors, requests and fingerprints as values. A call is an
  `Event`: the request, the clock reading it sees and the id it would generate.
- `Spec.dfy` says what each call does to the state and answers (`Step`), and what runs are. The
  operations that range over a Go map carry the iteration order of that call, so every order is
  covered.
- `Heap.dfy`, `Representation.dfy` and `Service.dfy` hold the service in the source's own form: a
  class whose maps hold mutable objects, changed in place and in loops, proved method by method
  against `Step`. `Isolation.dfy` draws the conclusion for callers.
- The other modules prove properties of `Step` and of runs: `Batch`, `History`, `Idempotency`,
  `Leases`, `LeaseTable`, `Reaper`, `AuditLog`, `Replica`, `Listing`, `Account`, `Validation`,
  `Answers`, `Naming`, `Concurrency`, `Keys` and `Tags`. `Validation` and `Answers` give every answer of
  every run from the calls before it, without naming the state: which calls run, and what each
  registration, creation, update, batch, lock call, history, lookup and listing then says. `Frames` says what each kind of call leaves alone; `Text`,
  `Sorting` and `Prelude` are vocabulary.

`dafny verify dfyconfig.toml` checks the whole project.

Where the code and its documentation differ the model follows the code:

- The repository's README says expired locks are also reaped on get. `GetLock` deletes nothing; it
  only answers "expired" instead of "not held" (`internal/service/locks.go:284-290`).
- It also says that a key reused with an identical body replays. The fingerprint leaves out the
  actor, and for a single update the reason, so bodies that differ only there replay too
  (`internal/service/documents.go:118`, `:220`). `Idempotency.RetryAnswersOriginal` says exactly
  which writes count as the same, and `Idempotency.OtherReasonReplays` shows the reason lost.
- It says collection ids must not contain `/`, but registration does not check it
  (`internal/service/collections.go:94-110`). Properties that depend on it say so, and what breaks
  otherwise is stated exactly: for the audit log in `Replica.SufficientIffSlashFree`, for lookups in
  `Naming.LookupsOwnIffNotNested`, for listings in `Listing.ListingFaithfulIffAlone`, for keys and
  prefix scans in `Keys.KeysCollideIffNested` and `Keys.PrefixExactly`, and for the key that one
  reap event names in `Replica.ReapNamesKeyIffSlashFree`.
- The audit log keeps whole seconds of a TTL, so replaying it gives expiries up to a second early;
  `Replica.ReplicaExactIffWhole` says, lock by lock for every run with slash-free collections,
  exactly when it is accurate.

Assumptions: fingerprints do not collide; strings are sequences of code points, whose order agrees
with the byte order of valid UTF-8; versions, sequence numbers and times are unbounded integers.

## Model

| member | source | states |
|---|---|---|
| Batch.FailuresExact | internal/service/documents.go:314-347 | The failures of a batch are exactly its failing items, ascending by index, each with the right reason; a duplicate names the first earlier item with the same id and a plausible version |
| Batch.ReasonUnique | internal/service/documents.go:317-347 | An item fails for at most one reason, so the exact list is the only one |
| Batch.RejectionAtomic | internal/service/documents.go:349-364 | A refused batch changes nothing but the audit log, which gains one `batch_rejected` event with the right counts; it answers the failures both in its result and in its error; some item does fail |
| Batch.RefusalReplays | internal/service/documents.go:289-306 | Every retry of a refused keyed batch changes nothing and answers the same result and the same error |
| Batch.AcceptedIffSinglesSucceed | internal/service/documents.go:309-347 | A batch is applied iff its document ids are pairwise distinct and each item alone would succeed as an `UpdateDocument` in the same state |
| Batch.BatchRefinesSingles | internal/service/documents.go:367-405 | Documents, history, locks, collections and cache after an applied batch equal those after running its single updates in order; every single succeeds; `Results[i]` is that single's answer and the final document |
| Batch.BatchStepAccepted | internal/service/documents.go:277-405 | The same for whole calls: a batch under a new key is applied iff it has items, their ids are distinct and each alone would succeed as a call of its own |
| Batch.BatchStepRefines | internal/service/documents.go:367-405 | An applied batch call leaves the documents, history, locks and collections of its single update calls run in order, and each result is that single's answer |
| Batch.BatchStepRefused | internal/service/documents.go:309-364 | Any other batch call with items is refused whole: unknown collection, or exactly the failing items in result and error, with all tables unchanged |
| Batch.BatchOrderIrrelevant | internal/service/documents.go:367-394 | Permuting the items of an accepted batch leaves it accepted, with the same documents and the same history for every key |
| Batch.ApplyFromPointwise | internal/service/documents.go:367-394 | With distinct ids each item patches its own document once, with one new revision, and every other document keeps its value and log |
| History.NoLostUpdates | internal/service/documents.go:244-252 | From the empty service a document of version v is one creation followed by successful updates (single or batch item) that expected 1, 2, ..., v - 1, and its log replays exactly those |
| History.HistoryIsReplay | internal/service/documents.go:469-493 | Every run keeps documents and logs consistent, and the log is the replay of the run's commits, numbered without gaps or repeats |
| History.StepFollows | internal/service/documents.go:145-169 | One call keeps: same keys in documents and history, log length = version, entry i has version i + 1, last entry matches the live document, normalized tags; it extends each log by exactly what it committed |
| History.HistoryOnlyGrows | internal/service/documents.go:483-491 | An earlier log is a prefix of every later one |
| History.AtMostOneWinner | internal/service/documents.go:244-250 | Of all calls of a run that compete for the same version of a document at most one succeeds |
| History.StoredTagsNormalized | internal/service/documents.go:476-478 | In every reachable state all stored tags, live and historical, are normalized |
| Idempotency.RetryElimination | internal/service/documents.go:117-135 | Deleting any keyed retries from any run leaves the final state and all other answers equal |
| Idempotency.RetryAnswersOriginal | internal/service/locks.go:61-79 | After the call that first used a key, every valid write with it changes nothing and answers what the first answered, value and error, iff it asks for the same operation with the same fields, actor and update reason aside; otherwise it answers an idempotency conflict |
| Idempotency.FingerprintIsPayload | internal/service/documents.go:118-123 | Two writes have equal fingerprints iff they agree on the operation and on every field but actor, key and, for a single update, reason |
| Idempotency.OtherReasonReplays | internal/service/documents.go:219-228 | From any state, an executed keyed update repeated for another reason by another actor changes nothing and repeats the answer |
| Idempotency.CachedHasOneOrigin | internal/service/collections.go:52-70 | A key is cached iff exactly one write of the run was executed under it |
| Idempotency.CacheKept | internal/service/locks.go:72-78 | Cached entries are written once and never change |
| Idempotency.ReplayNeverPanics | internal/service/documents.go:291-298 | In every reachable state every type assertion made by a replay succeeds |
| Idempotency.ExecuteTyped | internal/service/idempotency.go:18-22 | What an operation stores has the type that its replay asserts; a release stores no value |
| Idempotency.RetryRepeats | internal/service/documents.go:219-237 | From any state an immediate retry changes nothing and repeats the answer |
| Leases.LeaseExclusion | internal/service/locks.go:85-100 | If another holder is granted a document after h1's latest grant, then h1 released it in between or h1's lease had ended |
| Leases.LeaseStands | internal/service/locks.go:181-198 | Until its end, a lease its holder left alone stands in the lock table as granted |
| Leases.OthersAreRefused | internal/service/locks.go:92-98 | While a lease stands every other holder is refused and told whose it is and when it ends |
| Leases.OneHolderAtATime | internal/domain/lock.go:5-8 | At no instant are grants of two holders on one document both current: leases of distinct holders are disjoint stretches of time, whatever renewals and releases cut them |
| Leases.LeasesDisjoint | internal/domain/lock.go:9-12 | If a holder neither renews nor releases before another holder's grant, their two granted stretches of time are disjoint, whatever happens later |
| Leases.GrantEffect | internal/domain/lock.go:49-57 | A grant leaves its holder with a lock that ends after now and at most one hour later |
| Leases.LockPersists | internal/service/locks.go:246-262 | Only its holder, or its own expiry, can change a lock or take it away |
| LeaseTable.TableIsLastAnswer | internal/service/locks.go:81-139 | The live lock on a document is the last lock a call handed out for it unless released or expired; silent reclaims and reaps never show |
| LeaseTable.CallsDecidedByLastAnswer | internal/service/locks.go:177-211 | Every lock call on an existing document is answered from that lock alone: granted, extended, in conflict or not held |
| LeaseTable.GetLockIsLastAnswer | internal/service/locks.go:277-293 | At any point of a run `GetLock` answers the last lock handed out for the document, or that there is none if it was released or has expired |
| LeaseTable.TableIsExact | internal/service/locks.go:177-293 | In every run, whatever its clock does, the lock table holds exactly the answered locks that no release, no not-held answer (the silent drop) and no reap took away; `GetLock` tells ended from absent |
| LeaseTable.CallsDecidedByTable | internal/service/locks.go:81-139 | Every lock call on an existing document is decided by that table and the call's own clock reading |
| Answers.EndedLeaseFrees | internal/service/locks.go:86-135 | From the end of the last granted lease on, reaped or not: anyone who acquires is granted a new lock, a renewal or release finds no lock held, a read none, and a full reap leaves none |
| Answers.LockCallAnswered | internal/service/locks.go:81-211 | An executed lock call says which of collection and document is not there, or is decided by the standing lock that has not ended |
| Reaper.ReaperInvisible | internal/service/locks.go:298-321 | Two runs that differ only in their reap steps give the same answers everywhere but in audit contents and `GetLock`'s expired/not-held distinction, and end with the same documents, history, collections, cache and live locks |
| Reaper.ReapExact | internal/service/locks.go:306-320 | In any visiting order a reap removes exactly the expired locks, reports each of their documents once and logs one event for each |
| Replica.LogHasVersions | internal/service/documents.go:171-182 | Folding the log of any run, with any collection ids and any clock, gives exactly every document's current version |
| Replica.LogIsSufficient | internal/service/audit.go:11-18 | With slash-free collections it gives also a lock table containing the service's: same document, holder, acquisition time and renew count, expiry cut by less than a second; extra entries have expired by the latest clock reading, even if the clock goes back |
| Replica.SufficientIffSlashFree | internal/service/locks.go:306-333 | Whatever calls other than registrations follow a run, the folded log holds every lock of the service iff no registered collection id has a slash |
| Replica.SlashLosesLock | internal/service/locks.go:306-333 | From any run with a slashed collection, two creations, two grants and one reap that visits every lock once, under a clock that only goes on, lead to a lock that the folded log has lost |
| Replica.ReplicaExactIffWhole | internal/service/locks.go:104-134 | With slash-free collections, for every lock of every run, the folded entry is the lock itself iff the TTL of the last acquisition or renewal of it that ran was a whole number of seconds |
| Replica.ReapNamesKeyIffSlashFree | internal/service/locks.go:311-317 | A reap event names the key it removed iff the collection id has no slash |
| AuditLog.LogIsItsCalls | internal/service/audit.go:11-18 | The log of a run is the concatenation, call by call, of the events of its executed calls, which are read off the request, its answer, and the locks and collections the call met; failed, invalid and replayed calls add none (a refused batch adds its rejection) |
| AuditLog.EventHasOneCall | internal/service/audit.go:11-18 | Every event of the log was written by exactly one call of the run, which ran, and carries its time, actor and key; only reaps write reap events |
| AuditLog.LogAppendOnly | internal/service/audit.go:11-18 | Sequence numbers are always 1..n and every later log extends every earlier one |
| AuditLog.TailingIsGapFree | internal/service/audit.go:29-47 | An unlimited listing of an earlier state followed by the later state's listing from one past the earlier log equals the later full listing, for every filter |
| AuditLog.ListingExact | internal/service/audit.go:29-53 | A listing holds exactly the matching events in sequence order; a limit keeps the last so many |
| Listing.ListingCorrect | internal/service/documents.go:410-436 | If no registered id is nested with the collection's, a listing holds exactly the documents of the collection with all wanted tags, strictly ascending by id, cut to the limit |
| Listing.SlashFreeIsAlone | internal/service/documents.go:421-425 | Slash-free ids are never nested |
| Listing.ListingDeterministic | internal/service/documents.go:422-431 | Then the listing is the same for every map iteration order |
| Listing.ListingFaithfulIffAlone | internal/service/documents.go:419-435 | For a registered collection of any run: whatever calls other than registrations follow, no listing of it depends on the iteration order iff no registered id is nested with its own, and the same for never holding a foreign document |
| Listing.CollectionsCorrect | internal/service/collections.go:128-140 | Listing collections gives every registered one, strictly ascending by id, for every map iteration order |
| Concurrency.Serializable | internal/service/service.go:4-12 | Every interleaving of threads under the read/write lock gives the answers and final state of the sequential run in lock-acquisition order |
| Concurrency.ReadersSeeWholeBatches | internal/service/documents.go:414-415 | A reader inside the lock always faces the state between two whole calls, never a half-applied batch |
| Concurrency.AnsweredCallsComeFirst | internal/service/service.go:5-9 | A call that takes the lock comes after every call already answered |
| Concurrency.WorkStaysOnCourse | internal/service/documents.go:368-405 | After each step of a batch, what is left still leads to the outcome of the whole call |
| Concurrency.WorkProgresses | internal/service/documents.go:368-405 | Work inside the lock never stalls |
| Keys.SplitInvertsIffSlashFree | internal/service/locks.go:326-333 | Splitting a composite key recovers the collection iff its id has no slash |
| Keys.KeyInjective | internal/service/service.go:45-47 | With slash-free collections equal keys mean equal collection and document ids |
| Keys.KeysCollideIffNested | internal/service/service.go:45-47 | Two collections can share a key iff one id continues the other behind a slash |
| Keys.SlashMakesKeysCollide | internal/service/service.go:45-47 | A collection id with a slash always shares a key with a slash-free one |
| Naming.LookupsOwnIffNotNested | internal/service/documents.go:454-465 | In any reachable state: no creation can lead to a lookup that answers a document with other ids than asked for iff no registered collection id continues another behind a slash |
| Naming.NestingIsReachable | internal/service/collections.go:94-110 | For any nested pair of ids, two registrations and one creation reach a state where a lookup in one collection answers a document of the other |
| Naming.SlashFreeLookupsOwn | internal/service/documents.go:190-203 | With slash-free collections every lookup in every reachable state answers the document with the ids asked for |
| Naming.ReapEventsNameDocuments | internal/service/locks.go:306-317 | With slash-free collections every reap event in the log of a run stems from a reap that met an expired lock, and carries its holder, its expiry and the collection and document id of the document that was locked |
| Keys.PrefixIffSameCollection | internal/service/documents.go:421-425 | With slash-free ids the prefix scan finds a collection's own documents and no others |
| Keys.PrefixExactly | internal/service/documents.go:421-425 | For arbitrary ids, exactly which owners and documents the prefix scan also finds |
| Keys.SplitCollectionID | internal/service/locks.go:326-333 | The index loop returns the part before the first slash, or the whole key |
| Text.LessExactly | internal/service/documents.go:431 | Ids are ordered by their characters: one comes before another iff they agree up to where it ends or has the smaller character |
| Text.IsSpaceExactly | internal/service/documents.go:504 | Exactly the 25 code points of Unicode white space are trimmed |
| Tags.NormalizeTagsCollects | internal/service/documents.go:497-519 | Normalized tags are strictly sorted, trimmed, non-empty and exactly the trimmed non-empty inputs |
| Tags.NormalizeTagsCanonical | internal/service/documents.go:497-519 | Two inputs normalize equally iff they stand for the same set of tags |
| Tags.NormalizeTagsFixpoint | internal/service/documents.go:497-519 | Normalizing leaves exactly the normalized lists alone and is idempotent |
| Tags.NormalizeSlice | internal/service/documents.go:497-519 | The loop builds the normalized tags in fresh memory |
| Tags.HasAllTags | internal/service/documents.go:522-536 | The set loop decides whether every wanted tag is present |
| Domain.NormalizeTTL | internal/domain/lock.go:49-57 | A TTL is granted as asked iff it is positive and at most 3,600 s; otherwise it is 30 s or 3,600 s |
| Account.DocumentIsLastAnswer | internal/service/documents.go:184-203 | At any point of a run `GetDocument` answers the last document value that an executed create, update or batch answered for that key, and not found if there was none |
| Validation.RefusedIffFaulty | internal/service/collections.go:41-43 | In every run a call of any kind is refused for a field iff its own fields are at fault (blank name or title, expected version below 1, no items, no holder); it then names that field and changes nothing, whatever its key |
| Validation.RunsIffExecuted | internal/service/documents.go:117-135 | A write runs iff its fields are right and no earlier write with right fields used its key |
| Answers.RegistrationAnswered | internal/service/collections.go:72-110 | The first executed registration of an id answers the collection as asked for; every later one answers what the first did |
| Answers.CollectionRead | internal/service/collections.go:113-125 | `GetCollection` answers what every registration of the id was answered, or not found |
| Answers.CreationAnswered | internal/service/documents.go:137-186 | An executed creation answers the document as asked for at version 1, or that the collection is unknown, or that the document exists, told from earlier registrations and commits |
| Answers.UpdateAnswered | internal/service/documents.go:239-269 | An executed update succeeds iff it expects as many commits as its document has, and answers the last document patched; otherwise it says what is not there, or which version was expected and which there is |
| Answers.BatchAnswered | internal/service/documents.go:309-405 | The same for an executed batch: results are the last documents patched; a refusal lists exactly the refused items with reasons told from the commits of their documents |
| Answers.HistoryRead | internal/service/documents.go:440-451 | `GetDocumentHistory` answers the replay of all commits of the document, or not found if there are none |
| Answers.ReadAnswered | internal/service/documents.go:190-203 | A read of a run changes nothing and answers from the state left by the calls before it |
| Answers.ListingRead | internal/service/documents.go:410-436 | Told from the answers of a run: a listing holds exactly the last answered documents of the collection with all wanted tags, in character order of their ids, cut to the limit; an unknown collection is not found |
| Answers.CollectionsRead | internal/service/collections.go:128-140 | A listing of collections holds exactly the registered ones as first answered, in character order of their ids |
| Account.CollectionIsItsRegistration | internal/service/collections.go:72-125 | A collection is known iff an executed call registered it, and every such call was answered exactly what `GetCollection` gives ever after |
| Frames.CollectionsPermanent | internal/service/collections.go:99-101 | A registered collection never changes |
| ServiceImpl.Service.RegisterCollection | internal/service/collections.go:37-90 | The method on the mutable maps does the specified step; its result is a fresh copy and only fresh memory is kept |
| ServiceImpl.Service.CreateDocument | internal/service/documents.go:105-187 | The same; the request's tag slice is not kept |
| ServiceImpl.Service.UpdateDocument | internal/service/documents.go:207-270 | The same, patching the document object in place |
| ServiceImpl.Service.BatchUpdateDocuments | internal/service/documents.go:277-406 | The same for the validate and apply loops; results are deep copies |
| ServiceImpl.Service.AcquireLock | internal/service/locks.go:48-140 | The same for acquiring: silent reclaim, in-place renewal or a new lock |
| ServiceImpl.Service.RenewLock | internal/service/locks.go:144-212 | The same for renewal |
| ServiceImpl.Service.ReleaseLock | internal/service/locks.go:217-273 | The same for release |
| ServiceImpl.Service.ReapExpiredLocks | internal/service/locks.go:298-321 | The reaper's map loop does the specified reap in some visiting order that covers every key once |
| ServiceImpl.Service.GetLock | internal/service/locks.go:277-293 | A fresh copy of the live lock, expired and absent told apart, nothing deleted |
| ServiceImpl.Service.GetDocument | internal/service/documents.go:190-203 | A deep copy of the live document or the lookup error |
| ServiceImpl.Service.GetDocumentHistory | internal/service/documents.go:440-451 | A deep copy of the revision log |
| ServiceImpl.Service.GetCollection | internal/service/collections.go:113-125 | A fresh copy of the collection |
| ServiceImpl.Service.ListDocuments | internal/service/documents.go:410-436 | The map loop, sort and cut give the specified listing for the order visited, in fresh memory |
| ServiceImpl.Service.ListCollections | internal/service/collections.go:128-140 | The map loop and sort give the specified listing for the order visited |
| ServiceImpl.Service.ListAuditEvents | internal/service/audit.go:22-54 | The filter loop and cut give the specified listing |
| ServiceImpl.Service.ValidateBatch | internal/service/documents.go:314-347 | The validation loop with its `seen` map collects the specified failures |
| ServiceImpl.Service.ApplyBatch | internal/service/documents.go:367-394 | The apply loop, mutating one document per round, reaches the specified state and results |
| ServiceImpl.Service.ApplyUpdate | internal/service/documents.go:469-493 | In-place patch plus one appended revision |
| ServiceImpl.Service.AppendAudit | internal/service/audit.go:11-18 | Appends the event under the next sequence number |
| ServiceImpl.Service.Remember | internal/service/idempotency.go:47-88 | The cache keeps a deep copy of the outcome |
| ServiceImpl.Service.constructor | internal/service/service.go:57-76 | A new service is empty |
| Heap.Document.Clone | internal/domain/document.go:23-39 | A copy in fresh memory, tags included |
| Heap.CloneRevisions | internal/domain/document.go:73-82 | A copy of a log whose tags are all in fresh memory |
| Heap.BatchResult.Clone | internal/service/documents.go:75-93 | A copy of a batch result that shares nothing with it: struct, both slices, documents and tags are in fresh memory |
| Heap.Ref.Clone | internal/service/idempotency.go:47-88 | A copy of a cached value of any type that shares nothing with it |
| Isolation.CallerWritesAreInvisible | internal/service/service.go:14-15 | Any writes to objects the service does not hold leave it valid and in the same state |
| Isolation.Session | internal/service/service.go:14-15 | Over any calls of every kind, with arbitrary writes after each to everything the caller passed in or was ever handed, the service ends in the specified state and gives the specified answers, replays included; reaps and listings go over the whole map they range over, in some order |

## Left out

- HTTP transport and the server command: routing, JSON decoding, status codes, signals.
- JSON encoding and SHA-256 in `fingerprint`: a fingerprint is the tagged request payload itself.
- A pointer to a nil tag slice in an update, which encodes like a nil pointer: taken not to occur.
- Random id generation and the clock: both are inputs of each call. `appendAudit`'s second clock reading for a zero timestamp is not modelled.
- Context cancellation: an early return before any state is touched.
- The ticker of `StartReaper`: reaps are calls at arbitrary points of a run.
- Error texts and RFC 3339 strings: errors, failure reasons and event details are structured and keep the time values.
- 64-bit overflow of versions, sequence numbers and times.
- Audit type filters that name no event type: a filter names one of the nine types or none.
- The library sort: a stable insertion sort applied to an arbitrary iteration order; documents tie only when a registered id is nested with the collection's, see `Listing.ListingFaithfulIffAlone`.
- Memory sharing other than of documents, locks, collections, batch results with their two slices, and tag slices: the slices of revisions and of listings, audit details and errors are values, so the shallow copy of tags in audit details and the shared stored error are not captured.
- The mutex inside the class: `Service` methods are whole calls; `Concurrency` models the lock over the specification, with a batch in one step per item and every other call's body in one step.
