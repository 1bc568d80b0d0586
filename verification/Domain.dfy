/** Entities, errors and requests of the service, as values. */
module Domain {
  import opened Prelude

  // Nanoseconds since an arbitrary origin; durations are nanoseconds too.
  type Time = int
  type Duration = int

  const SECOND: Duration := 1_000_000_000
  const DEFAULT_LOCK_TTL: Duration := 30 * SECOND
  const MAX_LOCK_TTL: Duration := 3600 * SECOND

  datatype Collection = Collection(id: string, name: string, description: string, createdAt: Time)

  datatype Document = Document(
    id: string, collectionID: string, title: string, content: string, tags: seq<string>,
    version: int, createdAt: Time, updatedAt: Time)

  datatype Revision = Revision(
    version: int, title: string, content: string, tags: seq<string>,
    actor: string, reason: string, modifiedAt: Time)

  datatype Lock = Lock(documentID: string, holder: string, acquiredAt: Time, expiresAt: Time, renewCount: int) {

    // Valid only while now is before expiresAt.
    predicate IsExpired(now: Time) {
      now >= expiresAt
    }
  }

  function NormalizeTTL(ttl: Duration): (r: Duration)
    ensures 0 < r <= 3_600_000_000_000
    ensures r == ttl <==> 0 < ttl <= 3_600_000_000_000
    ensures ttl <= 0 ==> r == 30_000_000_000
    ensures ttl > 3_600_000_000_000 ==> r == 3_600_000_000_000
  {
    if ttl <= 0 then DEFAULT_LOCK_TTL
    else if ttl > MAX_LOCK_TTL then MAX_LOCK_TTL
    else ttl
  }

  datatype EventType =
    | CollectionCreated | DocumentCreated | DocumentUpdated | BatchApplied | BatchRejected
    | LockAcquired | LockRenewed | LockReleased | LockReaped

  // The details map of an audit event, one constructor for each set of keys.
  datatype Details =
    | CollectionDetails(name: string, description: string)
    | CreatedDetails(version: int, tags: seq<string>)
    | UpdatedDetails(fromVersion: int, toVersion: int, reason: string, batch: bool)
    | RejectedDetails(itemCount: nat, failureCount: nat)
    | AppliedDetails(itemCount: nat)
    | AcquiredDetails(ttlSeconds: int, holder: string)
    | RenewedDetails(ttlSeconds: int, renewCount: int)
    | ReleasedDetails(holder: string, renewCount: int)
    | ReapedDetails(holder: string, expiredAt: Time)

  datatype AuditEvent = AuditEvent(
    sequence: int, timestamp: Time, kind: EventType, actor: string,
    collectionID: string, documentID: string, idempotencyKey: string, details: Details)

  // Empty strings, None and non-positive numbers match everything.
  datatype AuditFilter = AuditFilter(
    collectionID: string, documentID: string, actor: string, kind: Option<EventType>,
    minSequence: int, limit: int)

  datatype FailureReason =
    | BadExpectedVersion
    | Duplicate(firstIndex: nat)
    | NoSuchDocument
    | WrongVersion(expected: int, actual: int)

  datatype BatchItemFailure = BatchItemFailure(index: nat, documentID: string, reason: FailureReason)

  datatype BatchItemResult = BatchItemResult(index: nat, document: Document)

  datatype BatchResult = BatchResult(applied: bool, results: seq<BatchItemResult>, failures: seq<BatchItemFailure>)

  datatype Error =
    | ValidationError(field: string, reason: string)
    | CollectionNotFound
    | DocumentNotFound
    | VersionConflict(documentID: string, expected: int, actual: int)
    | LockConflict(documentID: string, currentHolder: string, expiresAt: Time)
    | LockNotHeld
    | LockExpired
    | IdempotencyConflict(key: string)
    | BatchConflict(failures: seq<BatchItemFailure>)

  // Fields left None are not modified.
  datatype Patch = Patch(title: Option<string>, content: Option<string>, tags: Option<seq<string>>)

  datatype BatchItem = BatchItem(documentID: string, expectedVersion: int, patch: Patch, reason: string)

  /**
   The public operations. An empty key means no idempotency key. The `order` of the
   three operations that range over a Go map is the iteration order of that call.
   */
  datatype Request =
    | RegisterCollection(id: string, name: string, description: string, actor: string, key: string)
    | CreateDocument(collectionID: string, id: string, title: string, content: string,
                     tags: Option<seq<string>>, actor: string, key: string)
    | UpdateDocument(collectionID: string, documentID: string, expectedVersion: int, patch: Patch,
                     actor: string, reason: string, key: string)
    | BatchUpdate(collectionID: string, items: seq<BatchItem>, actor: string, key: string)
    | AcquireLock(collectionID: string, documentID: string, holder: string, ttl: Duration, actor: string, key: string)
    | RenewLock(collectionID: string, documentID: string, holder: string, ttl: Duration, actor: string, key: string)
    | ReleaseLock(collectionID: string, documentID: string, holder: string, actor: string, key: string)
    | ReapExpiredLocks(order: seq<string>)
    | GetCollection(id: string)
    | ListCollections(order: seq<string>)
    | GetDocument(collectionID: string, documentID: string)
    | GetDocumentHistory(collectionID: string, documentID: string)
    | ListDocuments(collectionID: string, wanted: seq<string>, limit: int, order: seq<string>)
    | GetLock(collectionID: string, documentID: string)
    | ListAuditEvents(filter: AuditFilter)

  // One call: the request, the clock reading it sees and the id it would generate.
  datatype Event = Event(req: Request, now: Time, freshID: string)

  datatype Value =
    | CollectionValue(collection: Collection)
    | DocumentValue(document: Document)
    | LockValue(lock: Lock)
    | BatchValue(batch: BatchResult)
    | ReapedValue(documentIDs: seq<string>)
    | CollectionsValue(collections: seq<Collection>)
    | HistoryValue(revisions: seq<Revision>)
    | DocumentsValue(documents: seq<Document>)
    | AuditValue(events: seq<AuditEvent>)

  // Panicked stands for a type assertion that failed while replaying.
  datatype Response =
    | Returned(value: Option<Value>, err: Option<Error>)
    | Panicked

  /** The hashed request parts. Equal fingerprints mean equal parts: no hash collisions. */
  datatype Fingerprint =
    | RegisterPrint(id: string, name: string, description: string)
    | CreatePrint(collectionID: string, id: string, title: string, content: string, tags: Option<seq<string>>)
    | UpdatePrint(collectionID: string, documentID: string, expectedVersion: int, patch: Patch)
    | BatchPrint(collectionID: string, items: seq<BatchItem>)
    | AcquirePrint(collectionID: string, documentID: string, holder: string, ttl: Duration)
    | RenewPrint(collectionID: string, documentID: string, holder: string, ttl: Duration)
    | ReleasePrint(collectionID: string, documentID: string, holder: string)

  datatype IdemEntry = IdemEntry(fingerprint: Fingerprint, err: Option<Error>, value: Option<Value>)
}
