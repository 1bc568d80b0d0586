/**
 What every executed call of a run answers, told from the calls before it: the registrations, the
 commits of a document, the last document answered and the locks answered.
 */
module Answers {
  import opened Prelude
  import opened Account
  import opened Batch
  import opened Domain
  import opened Frames
  import opened History
  import opened Keys
  import opened LeaseTable
  import opened Leases
  import opened Reaper
  import opened Sorting
  import opened Spec
  import opened Tags
  import opened Validation
  import L = Listing

  // ---- Collections ----

  function IDOf(e: Event): string
    requires e.req.RegisterCollection? || e.req.CreateDocument?
  {
    if e.req.id == "" then e.freshID else e.req.id
  }

  ghost predicate RegisteredBy(es: seq<Event>, i: nat, id: string)
    requires i < |es|
  {
    es[i].req.RegisterCollection? && IDOf(es[i]) == id && Executed(es, i)
  }

  // A call before n registered id.
  ghost predicate Known(es: seq<Event>, n: nat, id: string)
    requires n <= |es|
  {
    exists i: nat :: i < n && RegisteredBy(es, i, id)
  }

  lemma {:induction false} RegistersIff(es: seq<Event>, n: nat, i: nat, id: string)
    requires i < n <= |es|
    ensures Registers(es[..n], i, id) <==> RegisteredBy(es, i, id)
  {
    hide Run, Runs, Executed;
    assert es[..n][..i] == es[..i];
    RunsIffExecuted(es, i);
  }

  lemma {:induction false} KnownIsStored(es: seq<Event>, n: nat, id: string)
    requires n <= |es|
    ensures id in Run(INIT, es[..n]).collections <==> Known(es, n, id)
  {
    hide Run, Registers, RegisteredBy;
    CollectionIsItsRegistration(es[..n], id, 0);
    forall i: nat | i < n {
      RegistersIff(es, n, i, id);
    }
    if Known(es, n, id) {
      var i: nat :| i < n && RegisteredBy(es, i, id);
      assert Registers(es[..n], i, id);
    }
  }

  lemma {:induction false} PrefixAnswers(es: seq<Event>, n: nat, i: nat)
    requires i < n <= |es|
    ensures Responses(INIT, es[..n])[i] == Responses(INIT, es)[i]
  {
    hide Run, Step, Responses;
    assert es[..n][..i] == es[..i];
    ResponseAt(INIT, es[..n], i);
    ResponseAt(INIT, es, i);
  }

  /** A read of a collection answers what every registration of it was answered, or that it is not known. */
  lemma {:induction false} CollectionRead(es: seq<Event>, n: nat, id: string, now: Time)
    requires n <= |es|
    ensures var r := Read(Run(INIT, es[..n]), GetCollection(id), now);
            && (!Known(es, n, id) ==> r == Returned(None, Some(CollectionNotFound)))
            && (forall i: nat :: i < n && RegisteredBy(es, i, id) ==> r == Responses(INIT, es)[i])
  {
    KnownIsStored(es, n, id);
    CollectionIsItsRegistration(es[..n], id, now);
    hide Run, Registers, RegisteredBy, Responses;
    forall i: nat | i < n && RegisteredBy(es, i, id)
      ensures Read(Run(INIT, es[..n]), GetCollection(id), now) == Responses(INIT, es)[i]
    {
      RegistersIff(es, n, i, id);
      PrefixAnswers(es, n, i);
    }
  }

  lemma {:induction false} RegisterStep(s: State, e: Event)
    requires e.req.RegisterCollection? && Runs(s, e.req)
    ensures var id := IDOf(e);
            Step(s, e).response ==
            if id in s.collections then Returned(Some(CollectionValue(s.collections[id])), None)
            else Returned(Some(CollectionValue(Collection(id, e.req.name, e.req.description, e.now))), None)
  {
    StepOf(s, e);
    hide Step, Runs;
  }

  /** The first registration of an id makes the collection as asked for; every later one answers what the first did. */
  lemma {:induction false} RegistrationAnswered(es: seq<Event>, j: nat)
    requires j < |es| && es[j].req.RegisterCollection? && Executed(es, j)
    ensures var id, req := IDOf(es[j]), es[j].req;
            && (!Known(es, j, id) ==>
                  Responses(INIT, es)[j] ==
                  Returned(Some(CollectionValue(Collection(id, req.name, req.description, es[j].now))), None))
            && (forall i: nat :: i < j && RegisteredBy(es, i, id) ==> Responses(INIT, es)[j] == Responses(INIT, es)[i])
  {
    var s := Run(INIT, es[..j]);
    hide Run, Step, Runs, Executed, RegisteredBy, Responses;
    RunsIffExecuted(es, j);
    ResponseAt(INIT, es, j);
    RegisterStep(s, es[j]);
    KnownIsStored(es, j, IDOf(es[j]));
    CollectionRead(es, j, IDOf(es[j]), 0);
    forall i: nat | i < j && RegisteredBy(es, i, IDOf(es[j])) ensures Known(es, j, IDOf(es[j])) {
    }
  }

  // ---- Documents ----

  function CommitsBefore(es: seq<Event>, n: nat, k: string): seq<Commit>
    requires n <= |es|
  {
    Commits(INIT, es[..n], k)
  }

  function LastDocument(es: seq<Event>, n: nat, k: string): Option<Document>
    requires n <= |es|
  {
    LastAnswer(None, INIT, es[..n], k)
  }

  lemma {:induction false} StoredIsHistory(es: seq<Event>, n: nat, k: string)
    requires n <= |es|
    ensures var s, cs := Run(INIT, es[..n]), CommitsBefore(es, n, k);
            && (k in s.documents <==> cs != [])
            && (cs != [] ==> s.documents[k].version == |cs| && LastDocument(es, n, k) == Some(s.documents[k]))
            && HistoryOf(s, k) == Replayed([], cs)
  {
    hide Run, Commits, LastAnswer, Replayed;
    NoLostUpdates(es[..n], k);
    RunAnswers(INIT, es[..n], k);
    InitConsistent();
    HistoryIsReplay(INIT, es[..n], k);
  }

  /**
   The history of a document is the replay of all its commits, of whatever collection; without any
   it is not found.
   */
  lemma {:induction false} HistoryRead(es: seq<Event>, n: nat, c: string, d: string, now: Time)
    requires n <= |es|
    ensures var cs := CommitsBefore(es, n, DocumentKey(c, d));
            Read(Run(INIT, es[..n]), GetDocumentHistory(c, d), now) ==
            if cs == [] then Returned(None, Some(DocumentNotFound))
            else Returned(Some(HistoryValue(Replayed([], cs))), None)
  {
    StoredIsHistory(es, n, DocumentKey(c, d));
    hide Run, CommitsBefore, LastDocument, Replayed, DocumentKey;
  }

  lemma {:induction false} CreateStep(s: State, e: Event)
    requires e.req.CreateDocument? && Runs(s, e.req)
    ensures var req, id := e.req, IDOf(e);
            Step(s, e).response ==
            if req.collectionID !in s.collections then Returned(None, Some(CollectionNotFound))
            else if DocumentKey(req.collectionID, id) in s.documents then
              Returned(None, Some(ValidationError("id", "document already exists")))
            else
              var tags := if req.tags.Some? then req.tags.value else [];
              Returned(Some(DocumentValue(Document(id, req.collectionID, req.title, req.content, NormalizeTags(tags),
                                                   1, e.now, e.now))), None)
  {
    StepOf(s, e);
    hide Step, Runs, DocumentKey, NormalizeTags;
  }

  /** A creation answers the document as asked for, unless the collection is not known or its key has commits. */
  lemma {:induction false} CreationAnswered(es: seq<Event>, j: nat)
    requires j < |es| && es[j].req.CreateDocument? && Executed(es, j)
    ensures var req, id := es[j].req, IDOf(es[j]);
            Responses(INIT, es)[j] ==
            if !Known(es, j, req.collectionID) then Returned(None, Some(CollectionNotFound))
            else if CommitsBefore(es, j, DocumentKey(req.collectionID, id)) != [] then
              Returned(None, Some(ValidationError("id", "document already exists")))
            else
              var tags := if req.tags.Some? then req.tags.value else [];
              Returned(Some(DocumentValue(Document(id, req.collectionID, req.title, req.content, NormalizeTags(tags),
                                                   1, es[j].now, es[j].now))), None)
  {
    hide Run, Step, Runs, Executed, Responses, Known, CommitsBefore, LastDocument, Replayed, DocumentKey, NormalizeTags;
    RunsIffExecuted(es, j);
    ResponseAt(INIT, es, j);
    CreateStep(Run(INIT, es[..j]), es[j]);
    KnownIsStored(es, j, es[j].req.collectionID);
    StoredIsHistory(es, j, DocumentKey(es[j].req.collectionID, IDOf(es[j])));
  }

  // The document with the fields of p that are given, one version on.
  function Patched(doc: Document, p: Patch, now: Time): Document {
    Document(doc.id, doc.collectionID,
             if p.title.Some? then p.title.value else doc.title,
             if p.content.Some? then p.content.value else doc.content,
             if p.tags.Some? then NormalizeTags(p.tags.value) else doc.tags,
             doc.version + 1, doc.createdAt, now)
  }

  lemma {:induction false} UpdateStep(s: State, e: Event)
    requires e.req.UpdateDocument? && Runs(s, e.req)
    ensures var req, k := e.req, DocumentKey(e.req.collectionID, e.req.documentID);
            Step(s, e).response ==
            if req.collectionID !in s.collections then Returned(None, Some(CollectionNotFound))
            else if k !in s.documents then Returned(None, Some(DocumentNotFound))
            else if s.documents[k].version != req.expectedVersion then
              Returned(None, Some(VersionConflict(req.documentID, req.expectedVersion, s.documents[k].version)))
            else Returned(Some(DocumentValue(Patched(s.documents[k], req.patch, e.now))), None)
  {
    StepOf(s, e);
    hide Step, Runs, DocumentKey, NormalizeTags;
  }

  /**
   An update succeeds iff it expects as many commits as its document has, and then answers the last
   document patched; else it says what is not there, or which version it expected and which there is.
   */
  lemma {:induction false} UpdateAnswered(es: seq<Event>, j: nat)
    requires j < |es| && es[j].req.UpdateDocument? && Executed(es, j)
    ensures var req, k := es[j].req, DocumentKey(es[j].req.collectionID, es[j].req.documentID);
            var n := |CommitsBefore(es, j, k)|;
            && (n > 0 ==> LastDocument(es, j, k).Some?)
            && Responses(INIT, es)[j] ==
               if !Known(es, j, req.collectionID) then Returned(None, Some(CollectionNotFound))
               else if n == 0 then Returned(None, Some(DocumentNotFound))
               else if req.expectedVersion != n then
                 Returned(None, Some(VersionConflict(req.documentID, req.expectedVersion, n)))
               else Returned(Some(DocumentValue(Patched(LastDocument(es, j, k).value, req.patch, es[j].now))), None)
  {
    hide Run, Step, Runs, Executed, Responses, Known, CommitsBefore, LastDocument, Replayed, DocumentKey, Patched;
    RunsIffExecuted(es, j);
    ResponseAt(INIT, es, j);
    UpdateStep(Run(INIT, es[..j]), es[j]);
    KnownIsStored(es, j, es[j].req.collectionID);
    StoredIsHistory(es, j, DocumentKey(es[j].req.collectionID, es[j].req.documentID));
  }

  // ---- Batches ----

  function CommitCount(es: seq<Event>, j: nat, c: string, item: BatchItem): nat
    requires j <= |es|
  {
    |CommitsBefore(es, j, DocumentKey(c, item.documentID))|
  }

  // Why item i is refused, told from the commits of its document.
  ghost predicate RefusedFor(es: seq<Event>, j: nat, c: string, items: seq<BatchItem>, i: nat, reason: FailureReason)
    requires j <= |es| && i < |items|
  {
    var d, expected, n := items[i].documentID, items[i].expectedVersion, CommitCount(es, j, c, items[i]);
    match reason
    case BadExpectedVersion => expected < 1
    case Duplicate(first) => expected >= 1 && first < i && Records(items, first, d) && !HasEarlier(items, first, d)
    case NoSuchDocument => expected >= 1 && !HasEarlier(items, i, d) && n == 0
    case WrongVersion(e, actual) =>
      expected >= 1 && !HasEarlier(items, i, d) && n > 0 && e == expected && actual == n && n != expected
  }

  // The refused items, all of them, ascending and each with its reason.
  ghost predicate RefusedItems(es: seq<Event>, j: nat, c: string, items: seq<BatchItem>, fs: seq<BatchItemFailure>)
    requires j <= |es|
  {
    && (forall a :: 0 <= a < |fs| ==>
          fs[a].index < |items| && fs[a].documentID == items[fs[a].index].documentID
          && RefusedFor(es, j, c, items, fs[a].index, fs[a].reason))
    && (forall a, b :: 0 <= a < b < |fs| ==> fs[a].index < fs[b].index)
    && (forall i: nat, reason :: i < |items| && RefusedFor(es, j, c, items, i, reason) ==>
          exists a :: 0 <= a < |fs| && fs[a].index == i)
  }

  lemma {:induction false} FailsIffRefused(es: seq<Event>, j: nat, c: string, items: seq<BatchItem>, i: nat,
                                           reason: FailureReason)
    requires j <= |es| && i < |items| && c in Run(INIT, es[..j]).collections
    ensures FailsFor(Run(INIT, es[..j]), c, items, i, reason) <==> RefusedFor(es, j, c, items, i, reason)
  {
    hide Run, CommitsBefore, LastDocument, Replayed, DocumentKey, HasEarlier, Records;
    StoredIsHistory(es, j, DocumentKey(c, items[i].documentID));
  }

  lemma {:induction false} ExactIsRefused(es: seq<Event>, j: nat, c: string, items: seq<BatchItem>,
                                          fs: seq<BatchItemFailure>)
    requires j <= |es| && c in Run(INIT, es[..j]).collections && ExactFrom(Run(INIT, es[..j]), c, items, 0, fs)
    ensures RefusedItems(es, j, c, items, fs)
  {
    hide Run, FailsFor, RefusedFor;
    forall i: nat, reason | i < |items|
      ensures FailsFor(Run(INIT, es[..j]), c, items, i, reason) <==> RefusedFor(es, j, c, items, i, reason)
    {
      FailsIffRefused(es, j, c, items, i, reason);
    }
    forall i: nat, reason | i < |items| && RefusedFor(es, j, c, items, i, reason)
      ensures exists a :: 0 <= a < |fs| && fs[a].index == i
    {
      assert ItemFails(Run(INIT, es[..j]), c, items, i);
    }
  }

  // Each item expects as many commits as its document has, and no document is named twice.
  ghost predicate AllExpected(es: seq<Event>, j: nat, c: string, items: seq<BatchItem>)
    requires j <= |es|
  {
    && DistinctIDs(items)
    && forall i :: 0 <= i < |items| ==>
         items[i].expectedVersion >= 1 && items[i].expectedVersion == CommitCount(es, j, c, items[i])
  }

  lemma {:induction false} SingleSucceedsIff(s: State, c: string, item: BatchItem, actor: string, now: Time)
    ensures SucceedsAlone(s, c, item, actor, now) <==>
              && item.expectedVersion >= 1 && LookupError(s, c, item.documentID).None?
              && s.documents[DocumentKey(c, item.documentID)].version == item.expectedVersion
  {
    hide DocumentKey, NormalizeTags;
  }

  lemma {:induction false} AcceptableIffExpected(es: seq<Event>, j: nat, c: string, items: seq<BatchItem>,
                                                 actor: string, now: Time)
    requires j <= |es| && c in Run(INIT, es[..j]).collections
    ensures Acceptable(Run(INIT, es[..j]), c, items, actor, now) <==> AllExpected(es, j, c, items)
  {
    hide Run, CommitsBefore, LastDocument, Replayed, DocumentKey, DistinctIDs, SucceedsAlone;
    var s := Run(INIT, es[..j]);
    forall i | 0 <= i < |items|
      ensures SucceedsAlone(s, c, items[i], actor, now) <==>
                items[i].expectedVersion >= 1 && items[i].expectedVersion == CommitCount(es, j, c, items[i])
    {
      SingleSucceedsIff(s, c, items[i], actor, now);
      StoredIsHistory(es, j, DocumentKey(c, items[i].documentID));
    }
  }

  lemma {:induction false} ResultIsPatched(s: State, e: Event, i: nat)
    requires FreshBatch(s, e) && Step(s, e).response.Returned? && Step(s, e).response.err.None? && KeysMatch(s)
    requires i < |e.req.items|
    ensures var r, k := Step(s, e).response, DocumentKey(e.req.collectionID, e.req.items[i].documentID);
            && r.value.Some? && r.value.value.BatchValue? && |r.value.value.batch.results| == |e.req.items|
            && k in s.documents
            && r.value.value.batch.results[i] ==
               BatchItemResult(i, Patched(s.documents[k], e.req.items[i].patch, e.now))
  {
    var c, items, actor, key := e.req.collectionID, e.req.items, e.req.actor, e.req.key;
    var k := DocumentKey(c, items[i].documentID);
    BatchStepAccepted(s, e);
    BatchStepRuns(s, e);
    hide Step, DocumentKey, NormalizeTags, ExecBatch, Acceptable;
    AcceptedIffSinglesSucceed(s, c, items, actor, key, e.now);
    BatchRefinesSingles(s, c, items, actor, key, e.now);
    BatchIsItsItems(s, c, items, actor, key, e.now);
    hide ApplyFrom, DistinctIDs;
    ApplyFromPointwise(s, c, items, 0, actor, e.now, k);
  }

  /**
   A batch is applied iff each item expects as many commits as its document has and no document is
   named twice; each result is then the last document patched. Else it says that the collection is
   not known, or lists exactly the refused items in result and error.
   */
  lemma {:induction false} BatchAnswered(es: seq<Event>, j: nat)
    requires j < |es| && es[j].req.BatchUpdate? && Executed(es, j)
    ensures var c, items, r := es[j].req.collectionID, es[j].req.items, Responses(INIT, es)[j];
            && (!Known(es, j, c) ==> r == Returned(None, Some(CollectionNotFound)))
            && (Known(es, j, c) && AllExpected(es, j, c, items) ==>
                  && r.Returned? && r.err.None? && r.value.Some? && r.value.value.BatchValue?
                  && var b := r.value.value.batch;
                  && b.applied && b.failures == [] && |b.results| == |items|
                  && forall i :: 0 <= i < |items| ==>
                       var doc := LastDocument(es, j, DocumentKey(c, items[i].documentID));
                       doc.Some? && b.results[i] == BatchItemResult(i, Patched(doc.value, items[i].patch, es[j].now)))
            && (Known(es, j, c) && !AllExpected(es, j, c, items) ==>
                  exists fs :: fs != [] && RefusedItems(es, j, c, items, fs)
                    && r == Returned(Some(BatchValue(BatchResult(false, [], fs))), Some(BatchConflict(fs))))
  {
    var s, c, items := Run(INIT, es[..j]), es[j].req.collectionID, es[j].req.items;
    RunsIffExecuted(es, j);
    assert FreshBatch(s, es[j]) && items != [];
    hide Run, Step, Runs, Executed, Responses, Known, DocumentKey, FreshBatch, Fault;
    ResponseAt(INIT, es, j);
    KnownIsStored(es, j, c);
    BatchStepAccepted(s, es[j]);
    if Known(es, j, c) {
      AcceptableIffExpected(es, j, c, items, es[j].req.actor, es[j].now);
      if AllExpected(es, j, c, items) {
        BatchStepRefines(s, es[j]);
        InitConsistent();
        HistoryIsReplay(INIT, es[..j], "");
        forall i | 0 <= i < |items|
          ensures var doc := LastDocument(es, j, DocumentKey(c, items[i].documentID));
                  doc.Some? && Step(s, es[j]).response.value.value.batch.results[i] ==
                               BatchItemResult(i, Patched(doc.value, items[i].patch, es[j].now))
        {
          ResultIsPatched(s, es[j], i);
          StoredIsHistory(es, j, DocumentKey(c, items[i].documentID));
        }
      } else {
        BatchStepRefused(s, es[j]);
        ExactIsRefused(es, j, c, items, Step(s, es[j]).response.err.value.failures);
      }
    } else {
      UnknownNotAcceptable(s, c, items, es[j].req.actor, es[j].now);
      BatchStepRefused(s, es[j]);
    }
  }

  lemma {:induction false} UnknownNotAcceptable(s: State, c: string, items: seq<BatchItem>, actor: string, now: Time)
    requires c !in s.collections && items != []
    ensures !Acceptable(s, c, items, actor, now)
  {
    SingleSucceedsIff(s, c, items[0], actor, now);
    hide SucceedsAlone;
  }

  // ---- Locks ----

  lemma {:induction false} LockLookupStep(s: State, e: Event)
    requires (e.req.AcquireLock? || e.req.RenewLock? || e.req.ReleaseLock?) && Runs(s, e.req)
    ensures var c, k := e.req.collectionID, DocumentKey(e.req.collectionID, e.req.documentID);
            && (LookupError(s, c, e.req.documentID).None? <==> c in s.collections && k in s.documents)
            && (c !in s.collections ==> Step(s, e).response == Returned(None, Some(CollectionNotFound)))
            && (c in s.collections && k !in s.documents ==>
                Step(s, e).response == Returned(None, Some(DocumentNotFound)))
  {
    LockStep(s, e);
    hide Step, Runs, DocumentKey, NormalizeTTL;
  }

  /** A lock call says what is not there, or is decided by the lock that stands for its document and has not ended. */
  lemma {:induction false} LockCallAnswered(es: seq<Event>, j: nat)
    requires j < |es| && (es[j].req.AcquireLock? || es[j].req.RenewLock? || es[j].req.ReleaseLock?) && Executed(es, j)
    ensures var c, k := es[j].req.collectionID, DocumentKey(es[j].req.collectionID, es[j].req.documentID);
            Responses(INIT, es)[j] ==
            if !Known(es, j, c) then Returned(None, Some(CollectionNotFound))
            else if CommitsBefore(es, j, k) == [] then Returned(None, Some(DocumentNotFound))
            else Decide(Unexpired(Table(None, INIT, es[..j], k), es[j].now), es[j])
  {
    var s, k := Run(INIT, es[..j]), DocumentKey(es[j].req.collectionID, es[j].req.documentID);
    hide Run, Step, Runs, Executed, Responses, Known, CommitsBefore, LastDocument, Replayed, DocumentKey, Decide,
         Unexpired, Table, LookupError;
    RunsIffExecuted(es, j);
    ResponseAt(INIT, es, j);
    LockLookupStep(s, es[j]);
    KnownIsStored(es, j, es[j].req.collectionID);
    StoredIsHistory(es, j, k);
    if LookupError(s, es[j].req.collectionID, es[j].req.documentID).None? {
      CallsDecidedByTable(es, j);
    }
  }

  // Between events i and j, exclusive, nobody is granted the lock on k.
  ghost predicate NoGrant(es: seq<Event>, i: nat, j: nat, k: string)
    requires j <= |es|
  {
    forall p, h :: i < p < j ==> !Grants(Run(INIT, es[..p]), es[p], k, h)
  }

  lemma {:induction false} OnlyGrantsPut(s: State, e: Event, k: string)
    requires forall h :: !Grants(s, e, k, h)
    ensures k in Step(s, e).state.locks ==> k in s.locks && Step(s, e).state.locks[k] == s.locks[k]
  {
    StepKeepsTable(s, e, k);
    if (e.req.AcquireLock? || e.req.RenewLock?) && Runs(s, e.req) {
      assert !Grants(s, e, k, e.req.holder);
    } else if e.req.ReleaseLock? && Runs(s, e.req) && DocumentKey(e.req.collectionID, e.req.documentID) == k {
      ReleaseAnswersNoLock(s, e);
    }
    hide Step, Runs, DocumentKey;
  }

  lemma {:induction false} ReleaseAnswersNoLock(s: State, e: Event)
    requires e.req.ReleaseLock? && Runs(s, e.req)
    ensures AnsweredLock(Step(s, e).response).None?
  {
    LockStep(s, e);
    hide Step, Runs, DocumentKey;
  }

  lemma {:induction false} LastGrantStands(es: seq<Event>, i: nat, j: nat, k: string, h1: string)
    requires i < j <= |es| && Grants(Run(INIT, es[..i]), es[i], k, h1) && NoGrant(es, i, j, k)
    ensures k in Run(INIT, es[..j]).locks ==> Run(INIT, es[..j]).locks[k].expiresAt == LeaseEnd(es[i])
    decreases j
  {
    hide Run, Step, Grants;
    ResponseAt(INIT, es, j - 1);
    if j == i + 1 {
      GrantEffect(Run(INIT, es[..i]), es[i], k, h1);
    } else {
      LastGrantStands(es, i, j - 1, k, h1);
      OnlyGrantsPut(Run(INIT, es[..j - 1]), es[j - 1], k);
    }
  }

  // The lock as first granted.
  function NewLock(e: Event): Lock
    requires e.req.AcquireLock?
  {
    Lock(e.req.documentID, e.req.holder, e.now, e.now + NormalizeTTL(e.req.ttl), 0)
  }

  /**
   A lease that has ended frees the document, even if nothing was reaped: from its end on, and until the
   next grant, anyone who acquires is granted a new lock, a renewal or release finds no lock held, a
   read finds none, and a full reap leaves none.
   */
  lemma {:induction false} EndedLeaseFrees(es: seq<Event>, i: nat, j: nat, k: string, h1: string)
    requires i < j < |es| && Grants(Run(INIT, es[..i]), es[i], k, h1) && NoGrant(es, i, j, k)
    requires LeaseEnd(es[i]) <= es[j].now
    ensures var s, e, r := Run(INIT, es[..j]), es[j], Responses(INIT, es)[j];
            && ((e.req.AcquireLock? || e.req.RenewLock? || e.req.ReleaseLock?) && Executed(es, j)
                && DocumentKey(e.req.collectionID, e.req.documentID) == k && Known(es, j, e.req.collectionID) ==>
                  r == if e.req.AcquireLock? then Returned(Some(LockValue(NewLock(e))), None)
                       else Returned(None, Some(LockNotHeld)))
            && (e.req.GetLock? && DocumentKey(e.req.collectionID, e.req.documentID) == k ==>
                  r in {Returned(None, Some(LockNotHeld)), Returned(None, Some(LockExpired))})
            && (e.req.ReapExpiredLocks? && k in e.req.order ==> k !in Run(INIT, es[..j + 1]).locks)
  {
    var s, e := Run(INIT, es[..j]), es[j];
    hide *;
    EndedTable(es, i, j, k, h1);
    if (e.req.AcquireLock? || e.req.RenewLock? || e.req.ReleaseLock?) && Executed(es, j)
       && DocumentKey(e.req.collectionID, e.req.documentID) == k && Known(es, j, e.req.collectionID)
    {
      GrantedIsStored(es, i, j, k, h1);
      LockCallAnswered(es, j);
      NothingLive(e);
    } else if e.req.GetLock? && DocumentKey(e.req.collectionID, e.req.documentID) == k {
      ReadIsRead(e.req);
      ReadAnswered(es, j);
      EndedRead(s, e.req.collectionID, e.req.documentID, e.now);
    } else if e.req.ReapExpiredLocks? {
      ResponseAt(INIT, es, j);
      ReapStepState(s, e);
      ReapRemoves(s, e.req.order, e.now, k);
    }
  }

  lemma {:induction false} NothingLive(e: Event)
    requires e.req.AcquireLock? || e.req.RenewLock? || e.req.ReleaseLock?
    ensures Decide(None, e) ==
            if e.req.AcquireLock? then Returned(Some(LockValue(NewLock(e))), None)
            else Returned(None, Some(LockNotHeld))
  {
  }

  lemma {:induction false} ReadIsRead(req: Request)
    requires req.GetLock?
    ensures IsRead(req)
  {
  }

  lemma {:induction false} EndedTable(es: seq<Event>, i: nat, j: nat, k: string, h1: string)
    requires i < j < |es| && Grants(Run(INIT, es[..i]), es[i], k, h1) && NoGrant(es, i, j, k)
    requires LeaseEnd(es[i]) <= es[j].now
    ensures Unexpired(Table(None, INIT, es[..j], k), es[j].now) == None
    ensures var s := Run(INIT, es[..j]); k in s.locks ==> s.locks[k].expiresAt <= es[j].now
  {
    hide Run, Step, Grants, NoGrant, Table;
    LastGrantStands(es, i, j, k, h1);
    RunKeepsTable(INIT, es[..j], k);
  }

  lemma {:induction false} EndedRead(s: State, c: string, d: string, now: Time)
    requires DocumentKey(c, d) in s.locks ==> s.locks[DocumentKey(c, d)].expiresAt <= now
    ensures Read(s, GetLock(c, d), now) in {Returned(None, Some(LockNotHeld)), Returned(None, Some(LockExpired))}
  {
    hide DocumentKey;
  }

  lemma {:induction false} ReapStepState(s: State, e: Event)
    requires e.req.ReapExpiredLocks?
    ensures Step(s, e).state == Reap(s, e.req.order, e.now)
  {
    hide Reap;
  }

  // Only an existing document is granted, and documents stay.
  lemma {:induction false} GrantedIsStored(es: seq<Event>, i: nat, j: nat, k: string, h1: string)
    requires i < j <= |es| && Grants(Run(INIT, es[..i]), es[i], k, h1)
    ensures CommitsBefore(es, j, k) != []
  {
    var s := Run(INIT, es[..i]);
    assert k in s.documents by {
      LockLookupStep(s, es[i]);
      hide Run, Step, Runs, DocumentKey;
    }
    hide Run, Step, Grants, CommitsBefore, LastDocument, Replayed;
    StoredIsHistory(es, i, k);
    StoredIsHistory(es, j, k);
    HistoriesGrow(es, i, j, k);
    HistoryHasLength(es, i, k);
    HistoryHasLength(es, j, k);
  }

  lemma {:induction false} HistoryHasLength(es: seq<Event>, n: nat, k: string)
    requires n <= |es|
    ensures |HistoryOf(Run(INIT, es[..n]), k)| == |CommitsBefore(es, n, k)|
  {
    hide Run, Commits, Replayed;
    InitConsistent();
    HistoryIsReplay(INIT, es[..n], k);
  }

  // ---- Listings and reads ----

  /** A read changes nothing and answers from the state that the calls before it left. */
  lemma {:induction false} ReadAnswered(es: seq<Event>, j: nat)
    requires j < |es| && IsRead(es[j].req)
    ensures Responses(INIT, es)[j] == Read(Run(INIT, es[..j]), es[j].req, es[j].now)
    ensures Run(INIT, es[..j + 1]) == Run(INIT, es[..j])
  {
    ResponseAt(INIT, es, j);
    StepOf(Run(INIT, es[..j]), es[j]);
    hide Run, Read;
  }

  lemma {:induction false} ReachableIsConsistent(es: seq<Event>)
    ensures Consistent(Run(INIT, es))
  {
    InitConsistent();
    HistoryIsReplay(INIT, es, "");
  }

  ghost predicate IsLast(es: seq<Event>, k: string, d: Document) {
    LastAnswer(None, INIT, es, k) == Some(d)
  }

  lemma {:induction false} StoredIffLast(es: seq<Event>, k: string, d: Document)
    ensures Stored(Run(INIT, es), k) == Some(d) <==> IsLast(es, k, d)
  {
    RunAnswers(INIT, es, k);
    hide Run, LastAnswer;
  }

  // The documents that a listing of c should hold, told from the last answers.
  ghost predicate Listable(es: seq<Event>, c: string, tags: seq<string>, d: Document) {
    && d.collectionID == c
    && (exists k :: IsLast(es, k, d))
    && forall t :: t in TagSet(tags) ==> t in d.tags
  }

  lemma {:induction false} WantedIsListable(es: seq<Event>, c: string, tags: seq<string>, d: Document)
    ensures L.Wanted(Run(INIT, es), c, tags, d) <==> Listable(es, c, tags, d)
  {
    hide Run, IsLast, TagSet;
    var s := Run(INIT, es);
    if k :| k in s.documents && s.documents[k] == d {
      StoredIffLast(es, k, d);
    }
    if k :| IsLast(es, k, d) {
      StoredIffLast(es, k, d);
      assert k in s.documents && s.documents[k] == d;
    }
  }

  ghost predicate Lists(es: seq<Event>, c: string, tags: seq<string>, full: seq<Document>) {
    (forall d :: d in full <==> Listable(es, c, tags, d)) && StrictlyAscending(DocumentID, full)
  }

  lemma {:induction false} ListingIsExact(es: seq<Event>, c: string, tags: seq<string>, limit: int, order: seq<string>)
    requires Enumerates(order, Run(INIT, es).documents.Keys) && L.Alone(Run(INIT, es), c)
    ensures var full := Spec.Listing(Run(INIT, es), c, tags, 0, order);
            && Lists(es, c, tags, full)
            && Spec.Listing(Run(INIT, es), c, tags, limit, order) == if 0 < limit < |full| then full[..limit] else full
  {
    hide Run, Spec.Listing, StrictlyAscending, Listable, L.Wanted, L.Alone, Enumerates, Consistent;
    ReachableIsConsistent(es);
    L.ListingCorrect(Run(INIT, es), c, tags, limit, order);
    forall d {
      WantedIsListable(es, c, tags, d);
    }
  }

  lemma {:induction false} ListDocumentsRead(s: State, c: string, tags: seq<string>, limit: int, order: seq<string>,
                                             now: Time)
    ensures Read(s, ListDocuments(c, tags, limit, order), now) ==
            if c !in s.collections then Returned(None, Some(CollectionNotFound))
            else Returned(Some(DocumentsValue(Spec.Listing(s, c, tags, limit, order))), None)
  {
    hide Spec.Listing;
  }

  /**
   Told from the answers of a run: a listing of a known collection that is nested with none holds exactly
   its documents with all wanted tags, as last answered, strictly ascending, cut to the limit.
   */
  lemma {:induction false} ListingRead(es: seq<Event>, c: string, tags: seq<string>, limit: int, order: seq<string>,
                                       now: Time)
    returns (full: seq<Document>)
    requires Enumerates(order, Run(INIT, es).documents.Keys) && L.Alone(Run(INIT, es), c)
    ensures var r := Read(Run(INIT, es), ListDocuments(c, tags, limit, order), now);
            if !Known(es, |es|, c) then r == Returned(None, Some(CollectionNotFound))
            else
              && Lists(es, c, tags, full)
              && r == Returned(Some(DocumentsValue(if 0 < limit < |full| then full[..limit] else full)), None)
  {
    full := Spec.Listing(Run(INIT, es), c, tags, 0, order);
    hide *;
    assert es[..|es|] == es;
    KnownIsStored(es, |es|, c);
    ListingIsExact(es, c, tags, limit, order);
    ListDocumentsRead(Run(INIT, es), c, tags, limit, order, now);
  }

  ghost predicate ListsCollections(es: seq<Event>, out: seq<Collection>) {
    && (forall id :: Known(es, |es|, id) <==> exists x :: x in out && x.id == id)
    && (forall x, i: nat :: x in out && i < |es| && RegisteredBy(es, i, x.id) ==>
          Responses(INIT, es)[i] == Returned(Some(CollectionValue(x)), None))
    && StrictlyAscending(CollectionID, out)
  }

  lemma {:induction false} ListCollectionsRead(s: State, order: seq<string>, now: Time) returns (out: seq<Collection>)
    requires Consistent(s) && Enumerates(order, s.collections.Keys)
    ensures Read(s, ListCollections(order), now) == Returned(Some(CollectionsValue(out)), None)
    ensures forall x :: x in out <==> x.id in s.collections && s.collections[x.id] == x
    ensures forall id :: id in s.collections ==> s.collections[id] in out && s.collections[id].id == id
    ensures StrictlyAscending(CollectionID, out)
  {
    out := SortBy(CollectionID, InOrder(s.collections, order));
    L.CollectionsCorrect(s, order);
    hide KeysMatch, CompleteAt, SortBy, InOrder, Enumerates, StrictlyAscending;
  }

  lemma {:induction false} ListedAsAnswered(es: seq<Event>, i: nat, x: Collection)
    requires x.id in Run(INIT, es).collections && Run(INIT, es).collections[x.id] == x
    requires i < |es| && RegisteredBy(es, i, x.id)
    ensures Responses(INIT, es)[i] == Returned(Some(CollectionValue(x)), None)
  {
    hide Run, Known, RegisteredBy, Responses;
    assert es[..|es|] == es;
    CollectionRead(es, |es|, x.id, 0);
  }

  /** A listing of the collections holds exactly the known ones, as first answered, strictly ascending. */
  lemma {:induction false} CollectionsRead(es: seq<Event>, order: seq<string>, now: Time)
    requires Enumerates(order, Run(INIT, es).collections.Keys)
    ensures exists out :: ListsCollections(es, out)
              && Read(Run(INIT, es), ListCollections(order), now) == Returned(Some(CollectionsValue(out)), None)
  {
    hide Run, Read, Known, StrictlyAscending, Consistent, RegisteredBy, Responses, Enumerates;
    ReachableIsConsistent(es);
    var out := ListCollectionsRead(Run(INIT, es), order, now);
    assert es[..|es|] == es;
    forall id ensures Known(es, |es|, id) <==> exists x :: x in out && x.id == id {
      KnownIsStored(es, |es|, id);
    }
    forall x, i: nat | x in out && i < |es| && RegisteredBy(es, i, x.id)
      ensures Responses(INIT, es)[i] == Returned(Some(CollectionValue(x)), None)
    {
      ListedAsAnswered(es, i, x);
    }
    assert ListsCollections(es, out);
  }
}
