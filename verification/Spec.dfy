/** What every public operation does to the state of the service and what it answers. */
module Spec {
  import opened Prelude
  import opened Domain
  import opened Keys
  import opened Sorting
  import opened Tags
  import opened Text

  datatype State = State(
    collections: map<string, Collection>,
    documents: map<string, Document>,
    history: map<string, seq<Revision>>,
    locks: map<string, Lock>,
    audit: seq<AuditEvent>,
    auditSeq: int,
    idem: map<string, IdemEntry>)

  const INIT := State(map[], map[], map[], map[], [], 0, map[])

  datatype Result = Result(state: State, response: Response)

  function Failed(s: State, err: Error): Result {
    Result(s, Returned(None, Some(err)))
  }

  function Success(s: State, value: Value): Result {
    Result(s, Returned(Some(value), None))
  }

  // ---- Idempotency prologue ----

  predicate IsWrite(req: Request) {
    req.RegisterCollection? || req.CreateDocument? || req.UpdateDocument? || req.BatchUpdate?
    || req.AcquireLock? || req.RenewLock? || req.ReleaseLock?
  }

  // The checks made before the lock is taken.
  function Validate(req: Request): Option<Error> {
    match req
    case RegisterCollection(_, name, _, _, _) =>
      if TrimSpace(name) == "" then Some(ValidationError("name", "must not be empty")) else None
    case CreateDocument(_, _, title, _, _, _, _) =>
      if TrimSpace(title) == "" then Some(ValidationError("title", "must not be empty")) else None
    case UpdateDocument(_, _, expected, _, _, _, _) =>
      if expected < 1 then Some(ValidationError("expected_version", "must be >= 1")) else None
    case BatchUpdate(_, items, _, _) =>
      if items == [] then Some(ValidationError("items", "must not be empty")) else None
    case AcquireLock(_, _, holder, _, _, _) =>
      if holder == "" then Some(ValidationError("holder", "must not be empty")) else None
    case RenewLock(_, _, holder, _, _, _) =>
      if holder == "" then Some(ValidationError("holder", "must not be empty")) else None
    case ReleaseLock(_, _, holder, _, _) =>
      if holder == "" then Some(ValidationError("holder", "must not be empty")) else None
    case _ => None
  }

  // The actor is never hashed, nor is the reason of a single update.
  function Fingerprinted(req: Request): Fingerprint
    requires IsWrite(req)
  {
    match req
    case RegisterCollection(id, name, description, _, _) => RegisterPrint(id, name, description)
    case CreateDocument(c, id, title, content, tags, _, _) => CreatePrint(c, id, title, content, tags)
    case UpdateDocument(c, d, expected, patch, _, _, _) => UpdatePrint(c, d, expected, patch)
    case BatchUpdate(c, items, _, _) => BatchPrint(c, items)
    case AcquireLock(c, d, holder, ttl, _, _) => AcquirePrint(c, d, holder, ttl)
    case RenewLock(c, d, holder, ttl, _, _) => RenewPrint(c, d, holder, ttl)
    case ReleaseLock(c, d, holder, _, _) => ReleasePrint(c, d, holder)
  }

  // Whether the type assertion made for an operation accepts a cached value.
  predicate CastSucceeds(fp: Fingerprint, v: Value) {
    match fp
    case RegisterPrint(_, _, _) => v.CollectionValue?
    case CreatePrint(_, _, _, _, _) => v.DocumentValue?
    case UpdatePrint(_, _, _, _) => v.DocumentValue?
    case BatchPrint(_, _) => v.BatchValue?
    case AcquirePrint(_, _, _, _) => v.LockValue?
    case RenewPrint(_, _, _, _) => v.LockValue?
    case ReleasePrint(_, _, _) => true
  }

  function Replay(e: IdemEntry, key: string, fp: Fingerprint): Response {
    if e.fingerprint != fp then Returned(None, Some(IdempotencyConflict(key)))
    else if e.value.None? || fp.ReleasePrint? then Returned(None, e.err)
    else if CastSucceeds(fp, e.value.value) then Returned(e.value, e.err)
    else Panicked
  }

  // The deferred store of an operation that missed the cache.
  function Remember(s: State, key: string, fp: Fingerprint, r: Response): State
    requires r.Returned?
  {
    if key == "" then s else s.(idem := s.idem[key := IdemEntry(fp, r.err, r.value)])
  }

  predicate Cached(s: State, req: Request) {
    IsWrite(req) && req.key != "" && req.key in s.idem
  }

  // The call gets past validation and the cache, so its body runs.
  predicate Runs(s: State, req: Request) {
    Validate(req).None? && !Cached(s, req)
  }

  function Step(s: State, e: Event): Result {
    if Validate(e.req).Some? then Failed(s, Validate(e.req).value)
    else if Cached(s, e.req) then Result(s, Replay(s.idem[e.req.key], e.req.key, Fingerprinted(e.req)))
    else
      var r := Execute(s, e.req, e.now, e.freshID);
      if IsWrite(e.req) then Result(Remember(r.state, e.req.key, Fingerprinted(e.req), r.response), r.response) else r
  }

  function Execute(s: State, req: Request, now: Time, freshID: string): (r: Result)
    ensures r.response.Returned?
  {
    match req
    case RegisterCollection(id, name, description, actor, key) =>
      ExecRegister(s, if id == "" then freshID else id, name, description, actor, key, now)
    case CreateDocument(c, id, title, content, tags, actor, key) =>
      ExecCreate(s, c, if id == "" then freshID else id, title, content, tags.GetOr([]), actor, key, now)
    case UpdateDocument(c, d, expected, patch, actor, reason, key) =>
      ExecUpdate(s, c, d, expected, patch, actor, reason, key, now)
    case BatchUpdate(c, items, actor, key) => ExecBatch(s, c, items, actor, key, now)
    case AcquireLock(c, d, holder, ttl, actor, key) => ExecAcquire(s, c, d, holder, ttl, actor, key, now)
    case RenewLock(c, d, holder, ttl, actor, key) => ExecRenew(s, c, d, holder, ttl, actor, key, now)
    case ReleaseLock(c, d, holder, actor, key) => ExecRelease(s, c, d, holder, actor, key, now)
    case ReapExpiredLocks(order) => ExecReap(s, order, now)
    case _ => Result(s, Read(s, req, now))
  }

  // ---- Shared helpers ----

  function AppendAudit(s: State, e: AuditEvent): State {
    s.(auditSeq := s.auditSeq + 1, audit := s.audit + [e.(sequence := s.auditSeq + 1)])
  }

  function LookupError(s: State, c: string, d: string): Option<Error> {
    if c !in s.collections then Some(CollectionNotFound)
    else if DocumentKey(c, d) !in s.documents then Some(DocumentNotFound)
    else None
  }

  function HistoryOf(s: State, k: string): seq<Revision> {
    if k in s.history then s.history[k] else []
  }

  // ---- Collections and documents ----

  function ExecRegister(s: State, id: string, name: string, description: string, actor: string, key: string,
                        now: Time): Result
  {
    if id in s.collections then Success(s, CollectionValue(s.collections[id]))
    else
      var col := Collection(id, name, description, now);
      Success(
        AppendAudit(
          s.(collections := s.collections[id := col]),
          AuditEvent(0, now, CollectionCreated, actor, id, "", key, CollectionDetails(name, description))),
        CollectionValue(col))
  }

  function RevisionOf(d: Document, actor: string, reason: string, now: Time): Revision {
    Revision(d.version, d.title, d.content, d.tags, actor, reason, now)
  }

  function InsertDocument(s: State, k: string, d: Document, actor: string, now: Time): State {
    s.(documents := s.documents[k := d], history := s.history[k := HistoryOf(s, k) + [RevisionOf(d, actor, "", now)]])
  }

  function ExecCreate(s: State, c: string, id: string, title: string, content: string, tags: seq<string>,
                      actor: string, key: string, now: Time): Result {
    if c !in s.collections then Failed(s, CollectionNotFound)
    else if DocumentKey(c, id) in s.documents then Failed(s, ValidationError("id", "document already exists"))
    else
      var d := Document(id, c, title, content, NormalizeTags(tags), 1, now, now);
      Success(
        AppendAudit(
          InsertDocument(s, DocumentKey(c, id), d, actor, now),
          AuditEvent(0, now, DocumentCreated, actor, c, id, key, CreatedDetails(1, d.tags))),
        DocumentValue(d))
  }

  function ApplyPatch(d: Document, p: Patch, now: Time): Document {
    d.(title := p.title.GetOr(d.title),
       content := p.content.GetOr(d.content),
       tags := if p.tags.Some? then NormalizeTags(p.tags.value) else d.tags,
       version := d.version + 1,
       updatedAt := now)
  }

  // The document found under k is changed in place; its revision goes under the key of its own ids.
  function ApplyUpdate(s: State, k: string, p: Patch, actor: string, reason: string, now: Time): State
    requires k in s.documents
  {
    var d := ApplyPatch(s.documents[k], p, now);
    var h := DocumentKey(d.collectionID, d.id);
    s.(documents := s.documents[k := d], history := s.history[h := HistoryOf(s,
                                                                             h) + [RevisionOf(d, actor, reason, now)]])
  }

  function ExecUpdate(s: State, c: string, d: string, expected: int, p: Patch, actor: string, reason: string,
                      key: string, now: Time): Result {
    var k := DocumentKey(c, d);
    if LookupError(s, c, d).Some? then Failed(s, LookupError(s, c, d).value)
    else if s.documents[k].version != expected then Failed(s, VersionConflict(d, expected, s.documents[k].version))
    else
      var s' := ApplyUpdate(s, k, p, actor, reason, now);
      Success(
        AppendAudit(s', AuditEvent(0, now, DocumentUpdated, actor, c, d, key,
                                   UpdatedDetails(expected, s'.documents[k].version, reason, false))),
        DocumentValue(s'.documents[k]))
  }

  // ---- Batches ----

  // The verdict of the validation loop on one item; seen maps a document id to the index recorded for it.
  function ItemFailure(s: State, c: string, item: BatchItem, seen: map<string, nat>): Option<FailureReason> {
    var k := DocumentKey(c, item.documentID);
    if item.expectedVersion < 1 then Some(BadExpectedVersion)
    else if item.documentID in seen then Some(Duplicate(seen[item.documentID]))
    else if LookupError(s, c, item.documentID).Some? then Some(NoSuchDocument)
    else if s.documents[k].version != item.expectedVersion then
      Some(WrongVersion(item.expectedVersion, s.documents[k].version))
    else None
  }

  // An item is recorded once its version is plausible, before its document is looked up.
  function Record(item: BatchItem, i: nat, seen: map<string, nat>): map<string, nat> {
    if item.expectedVersion < 1 || item.documentID in seen then seen else seen[item.documentID := i]
  }

  // The validation loop from item i on.
  function FailuresFrom(s: State, c: string, items: seq<BatchItem>, i: nat,
                        seen: map<string, nat>): seq<BatchItemFailure>
    requires i <= |items|
    decreases |items| - i
  {
    if i == |items| then []
    else
      var failure := ItemFailure(s, c, items[i], seen);
      (if failure.Some? then [BatchItemFailure(i, items[i].documentID, failure.value)] else [])
      + FailuresFrom(s, c, items, i + 1, Record(items[i], i, seen))
  }

  function Failures(s: State, c: string, items: seq<BatchItem>): seq<BatchItemFailure> {
    FailuresFrom(s, c, items, 0, map[])
  }

  predicate AllPresent(s: State, c: string, items: seq<BatchItem>) {
    forall i :: 0 <= i < |items| ==> DocumentKey(c, items[i].documentID) in s.documents
  }

  // One round of the apply loop.
  function ApplyItem(s: State, c: string, item: BatchItem, actor: string, now: Time): State
    requires DocumentKey(c, item.documentID) in s.documents
  {
    var k := DocumentKey(c, item.documentID);
    var s' := ApplyUpdate(s, k, item.patch, actor, item.reason, now);
    AppendAudit(s', AuditEvent(0, now, DocumentUpdated, actor, c, item.documentID, "",
                               UpdatedDetails(item.expectedVersion, s'.documents[k].version, item.reason, true)))
  }

  datatype Applied = Applied(state: State, results: seq<BatchItemResult>)

  // The apply loop from item i on.
  function ApplyFrom(s: State, c: string, items: seq<BatchItem>, i: nat, actor: string, now: Time): Applied
    requires i <= |items| && AllPresent(s, c, items)
    decreases |items| - i
  {
    if i == |items| then Applied(s, [])
    else
      var s' := ApplyItem(s, c, items[i], actor, now);
      var rest := ApplyFrom(s', c, items, i + 1, actor, now);
      Applied(rest.state, [BatchItemResult(i, s'.documents[DocumentKey(c, items[i].documentID)])] + rest.results)
  }

  function RejectBatch(s: State, c: string, items: seq<BatchItem>, actor: string, key: string, now: Time): Result {
    var failures := Failures(s, c, items);
    Result(
      AppendAudit(s, AuditEvent(0, now, BatchRejected, actor, c, "", key, RejectedDetails(|items|, |failures|))),
      Returned(Some(BatchValue(BatchResult(false, [], failures))), Some(BatchConflict(failures))))
  }

  function FinishBatch(s: State, c: string, items: seq<BatchItem>, results: seq<BatchItemResult>, actor: string,
                       key: string, now: Time): Result {
    Success(
      AppendAudit(s, AuditEvent(0, now, BatchApplied, actor, c, "", key, AppliedDetails(|items|))),
      BatchValue(BatchResult(true, results, [])))
  }

  lemma {:induction false} NoFailuresAllPresent(s: State, c: string, items: seq<BatchItem>, i: nat,
                                                seen: map<string, nat>)
    requires i <= |items| && FailuresFrom(s, c, items, i, seen) == []
    ensures forall j :: i <= j < |items| ==>
              items[j].expectedVersion >= 1 && LookupError(s, c, items[j].documentID).None?
              && s.documents[DocumentKey(c, items[j].documentID)].version == items[j].expectedVersion
    decreases |items| - i
  {
    if i < |items| {
      NoFailuresAllPresent(s, c, items, i + 1, Record(items[i], i, seen));
    }
  }

  function ExecBatch(s: State, c: string, items: seq<BatchItem>, actor: string, key: string, now: Time): Result {
    if c !in s.collections then Failed(s, CollectionNotFound)
    else if Failures(s, c, items) != [] then RejectBatch(s, c, items, actor, key, now)
    else
      NoFailuresAllPresent(s, c, items, 0, map[]);
      var applied := ApplyFrom(s, c, items, 0, actor, now);
      FinishBatch(applied.state, c, items, applied.results, actor, key, now)
  }

  // ---- Locks ----

  function WithoutLock(s: State, k: string): State {
    s.(locks := s.locks - {k})
  }

  // The lock found under k, unless it has expired.
  function LiveLock(s: State, k: string, now: Time): Option<Lock> {
    if k in s.locks && !s.locks[k].IsExpired(now) then Some(s.locks[k]) else None
  }

  function Renewed(s: State, c: string, d: string, ttl: Duration, actor: string, key: string, now: Time): Result
    requires DocumentKey(c, d) in s.locks
  {
    var held := s.locks[DocumentKey(c, d)];
    var lock := held.(expiresAt := now + NormalizeTTL(ttl), renewCount := held.renewCount + 1);
    Success(
      AppendAudit(
        s.(locks := s.locks[DocumentKey(c, d) := lock]),
        AuditEvent(0, now, LockRenewed, actor, c, d, key, RenewedDetails(NormalizeTTL(ttl) / SECOND, lock.renewCount))),
      LockValue(lock))
  }

  function Granted(s: State, c: string, d: string, holder: string, ttl: Duration, actor: string, key: string,
                   now: Time): Result {
    var lock := Lock(d, holder, now, now + NormalizeTTL(ttl), 0);
    Success(
      AppendAudit(
        s.(locks := s.locks[DocumentKey(c, d) := lock]),
        AuditEvent(0, now, LockAcquired, actor, c, d, key, AcquiredDetails(NormalizeTTL(ttl) / SECOND, holder))),
      LockValue(lock))
  }

  function ExecAcquire(s: State, c: string, d: string, holder: string, ttl: Duration, actor: string, key: string,
                       now: Time): Result {
    var k := DocumentKey(c, d);
    if LookupError(s, c, d).Some? then Failed(s, LookupError(s, c, d).value)
    else if k !in s.locks then Granted(s, c, d, holder, ttl, actor, key, now)
    else if s.locks[k].IsExpired(now) then Granted(WithoutLock(s, k), c, d, holder, ttl, actor, key, now)
    else if s.locks[k].holder != holder then Failed(s, LockConflict(d, s.locks[k].holder, s.locks[k].expiresAt))
    else Renewed(s, c, d, ttl, actor, key, now)
  }

  function ExecRenew(s: State, c: string, d: string, holder: string, ttl: Duration, actor: string, key: string,
                     now: Time): Result {
    var k := DocumentKey(c, d);
    if LookupError(s, c, d).Some? then Failed(s, LookupError(s, c, d).value)
    else if LiveLock(s, k, now).None? then Failed(WithoutLock(s, k), LockNotHeld)
    else if s.locks[k].holder != holder then Failed(s, LockConflict(d, s.locks[k].holder, s.locks[k].expiresAt))
    else Renewed(s, c, d, ttl, actor, key, now)
  }

  function ExecRelease(s: State, c: string, d: string, holder: string, actor: string, key: string, now: Time): Result {
    var k := DocumentKey(c, d);
    if LookupError(s, c, d).Some? then Failed(s, LookupError(s, c, d).value)
    else if LiveLock(s, k, now).None? then Failed(WithoutLock(s, k), LockNotHeld)
    else if s.locks[k].holder != holder then Failed(s, LockConflict(d, s.locks[k].holder, s.locks[k].expiresAt))
    else
      Result(
        AppendAudit(WithoutLock(s, k), AuditEvent(0, now, LockReleased, actor, c, d, key,
                                                  ReleasedDetails(s.locks[k].holder, s.locks[k].renewCount))),
        Returned(None, None))
  }

  // The reaper's visit to one key of the lock map.
  function ReapKey(s: State, k: string, now: Time): State {
    if k in s.locks && s.locks[k].IsExpired(now) then
      AppendAudit(WithoutLock(s, k), AuditEvent(0, now, LockReaped, "", CollectionIDFromKey(k), s.locks[k].documentID,
                                                "",
                                                ReapedDetails(s.locks[k].holder, s.locks[k].expiresAt)))
    else s
  }

  function ReapedID(s: State, k: string, now: Time): seq<string> {
    if k in s.locks && s.locks[k].IsExpired(now) then [s.locks[k].documentID] else []
  }

  function Reap(s: State, order: seq<string>, now: Time): State
    decreases |order|
  {
    if order == [] then s else Reap(ReapKey(s, order[0], now), order[1..], now)
  }

  function ReapedIDs(s: State, order: seq<string>, now: Time): seq<string>
    decreases |order|
  {
    if order == [] then [] else ReapedID(s, order[0], now) + ReapedIDs(ReapKey(s, order[0], now), order[1..], now)
  }

  function ExecReap(s: State, order: seq<string>, now: Time): Result {
    Success(Reap(s, order, now), ReapedValue(ReapedIDs(s, order, now)))
  }

  // ---- Reads ----

  function CollectionID(c: Collection): string { c.id }

  function DocumentID(d: Document): string { d.id }

  // The values of a map in its iteration order.
  function InOrder<T>(m: map<string, T>, order: seq<string>): seq<T> {
    if order == [] then []
    else (if order[0] in m then [m[order[0]]] else []) + InOrder(m, order[1..])
  }

  predicate Selected(k: string, d: Document, c: string, want: seq<string>) {
    HasPrefix(k, c + "/") && HasAll(d.tags, want)
  }

  function Scan(m: map<string, Document>, c: string, want: seq<string>, order: seq<string>): seq<Document> {
    if order == [] then []
    else
      (if order[0] in m && Selected(order[0], m[order[0]], c, want) then [m[order[0]]] else [])
      + Scan(m, c, want, order[1..])
  }

  function FirstN<T>(xs: seq<T>, limit: int): seq<T> {
    if limit > 0 && |xs| > limit then xs[..limit] else xs
  }

  function LastN<T>(xs: seq<T>, limit: int): seq<T> {
    if limit > 0 && |xs| > limit then xs[|xs| - limit..] else xs
  }

  predicate Matches(e: AuditEvent, f: AuditFilter) {
    && (f.collectionID != "" ==> e.collectionID == f.collectionID)
    && (f.documentID != "" ==> e.documentID == f.documentID)
    && (f.actor != "" ==> e.actor == f.actor)
    && (f.kind.Some? ==> e.kind == f.kind.value)
    && (f.minSequence > 0 ==> e.sequence >= f.minSequence)
  }

  function MatchingEvents(events: seq<AuditEvent>, f: AuditFilter): seq<AuditEvent> {
    if events == [] then []
    else (if Matches(events[0], f) then [events[0]] else []) + MatchingEvents(events[1..], f)
  }

  function Listing(s: State, c: string, tags: seq<string>, limit: int, order: seq<string>): seq<Document> {
    FirstN(SortBy(DocumentID, Scan(s.documents, c, NormalizeTags(tags), order)), limit)
  }

  function Read(s: State, req: Request, now: Time): (r: Response)
    ensures r.Returned?
  {
    match req
    case GetCollection(id) =>
      if id in s.collections then Returned(Some(CollectionValue(s.collections[id])), None)
      else Returned(None, Some(CollectionNotFound))
    case ListCollections(order) =>
      Returned(Some(CollectionsValue(SortBy(CollectionID, InOrder(s.collections, order)))), None)
    case GetDocument(c, d) =>
      if LookupError(s, c, d).Some? then Returned(None, LookupError(s, c, d))
      else Returned(Some(DocumentValue(s.documents[DocumentKey(c, d)])), None)
    case GetDocumentHistory(c, d) =>
      if DocumentKey(c, d) in s.documents then Returned(Some(HistoryValue(HistoryOf(s, DocumentKey(c, d)))), None)
      else Returned(None, Some(DocumentNotFound))
    case ListDocuments(c, tags, limit, order) =>
      if c !in s.collections then Returned(None, Some(CollectionNotFound))
      else Returned(Some(DocumentsValue(Listing(s, c, tags, limit, order))), None)
    case GetLock(c, d) =>
      if DocumentKey(c, d) !in s.locks then Returned(None, Some(LockNotHeld))
      else if LiveLock(s, DocumentKey(c, d), now).None? then Returned(None, Some(LockExpired))
      else Returned(Some(LockValue(s.locks[DocumentKey(c, d)])), None)
    case ListAuditEvents(f) =>
      Returned(Some(AuditValue(LastN(MatchingEvents(s.audit, f), f.limit))), None)
    case _ => Returned(None, None)
  }

  // ---- Answers ----

  function AnsweredDocument(r: Response): Option<Document> {
    if r.Returned? && r.err.None? && r.value.Some? && r.value.value.DocumentValue? then Some(r.value.value.document)
      else None
  }

  function AnsweredLock(r: Response): Option<Lock> {
    if r.Returned? && r.err.None? && r.value.Some? && r.value.value.LockValue? then Some(r.value.value.lock) else None
  }

  // A refused batch answers its result too, beside the error.
  function AnsweredBatch(r: Response): Option<BatchResult> {
    if r.Returned? && r.value.Some? && r.value.value.BatchValue? then Some(r.value.value.batch) else None
  }

  // ---- Runs ----

  function Run(s: State, es: seq<Event>): State
    decreases |es|
  {
    if es == [] then s else Run(Step(s, es[0]).state, es[1..])
  }

  function Responses(s: State, es: seq<Event>): (rs: seq<Response>)
    ensures |rs| == |es|
    decreases |es|
  {
    if es == [] then [] else [Step(s, es[0]).response] + Responses(Step(s, es[0]).state, es[1..])
  }

  ghost predicate SlashFreeCollections(s: State) {
    forall id :: id in s.collections ==> SlashFree(id)
  }

  // The clock never goes back, starting from t.
  predicate Monotone(es: seq<Event>, t: Time) {
    es == [] || (t <= es[0].now && Monotone(es[1..], es[0].now))
  }

  // No call reads a later time.
  ghost predicate EndsBy(es: seq<Event>, end: Time) {
    forall i :: 0 <= i < |es| ==> es[i].now <= end
  }

  lemma {:induction false} RunNothing(s: State, es: seq<Event>)
    ensures Run(s, es[..0]) == s
  {
    assert es[..0] == [];
  }

  lemma {:induction false} RunConcat(s: State, a: seq<Event>, b: seq<Event>)
    ensures Run(s, a + b) == Run(Run(s, a), b)
    ensures Responses(s, a + b) == Responses(s, a) + Responses(Run(s, a), b)
    decreases |a|
  {
    if a == [] {
      assert a + b == b;
    } else {
      assert (a + b)[0] == a[0] && (a + b)[1..] == a[1..] + b;
      RunConcat(Step(s, a[0]).state, a[1..], b);
    }
  }

  lemma {:induction false} ResponseAt(s: State, es: seq<Event>, i: nat)
    requires i < |es|
    ensures Responses(s, es)[i] == Step(Run(s, es[..i]), es[i]).response
    ensures Run(s, es[..i + 1]) == Step(Run(s, es[..i]), es[i]).state
    decreases |es|
  {
    var s' := Step(s, es[0]).state;
    assert es[..i + 1][1..] == es[1..][..i];
    if i != 0 {
      assert es[..i][1..] == es[1..][..i - 1];
      ResponseAt(s', es[1..], i - 1);
    }
  }
}
