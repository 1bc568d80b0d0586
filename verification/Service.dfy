/**
 The service itself: maps of mutable objects, changed in place under the lock. Every method is
 proved against the specification step, and hands out and keeps copies only.
 */
module ServiceImpl {
  import opened Prelude
  import opened Heap
  import opened Idempotency
  import opened Keys
  import opened Representation
  import opened Sorting
  import opened Tags
  import opened Text
  import D = Domain
  import S = Spec

  class Service {
    var collections: map<string, Collection>
    var documents: map<string, Document>
    var history: map<string, seq<Revision>>
    var locks: map<string, Lock>
    var audit: seq<D.AuditEvent>
    var auditSeq: int
    var idem: map<string, IdemEntry>

    ghost var model: S.State        // the value this object stands for
    ghost var frozen: set<object>   // reachable objects that are never written again

    ghost predicate Valid()
      reads this, documents.Values, locks.Values, frozen
    {
      && this !in frozen && Live(documents, frozen) && Unlocked(locks, frozen)
      && Apart(documents) && Apart(locks)
      && CollectionsOk(collections, model.collections, frozen)
      && DocumentsOk(documents, model.documents, frozen)
      && HistoryOk(history, model.history, frozen)
      && LocksOk(locks, model.locks)
      && audit == model.audit && auditSeq == model.auditSeq
      && IdemOk(idem, model.idem, frozen)
      && CacheTyped(model)
    }

    // Neither the service nor anything it holds.
    ghost predicate Foreign(o: object)
      reads this
    {
      o != this && o !in frozen && (forall k :: k in documents ==> documents[k] != o)
        && (forall k :: k in locks ==> locks[k] != o)
    }

    // No live or cached state is reachable through these objects.
    ghost predicate Separate(objs: set<object>)
      reads this
    {
      Live(documents, objs) && Unlocked(locks, objs) && objs !! frozen && this !in objs
    }

    constructor ()
      ensures Valid() && model == S.INIT && frozen == {} && documents == map[] && locks == map[]
    {
      collections, documents, history, locks, idem := map[], map[], map[], map[], map[];
      audit, auditSeq := [], 0;
      model, frozen := S.INIT, {};
    }

    ghost method Freeze(objs: set<object>)
      requires Valid() && Separate(objs)
      modifies this`frozen
      ensures Valid() && frozen == old(frozen) + objs
    {
      FreezeMore(collections, documents, history, idem, model, frozen, frozen + objs);
      hide CollectionsOk, DocumentsOk, HistoryOk, LocksOk, IdemOk;
      frozen := frozen + objs;
    }

    method AppendAudit(e: D.AuditEvent)
      requires Valid()
      modifies this`audit, this`auditSeq, this`model
      ensures Valid() && model == S.AppendAudit(old(model), e)
    {
      hide CollectionsOk, DocumentsOk, HistoryOk, LocksOk, IdemOk;
      auditSeq := auditSeq + 1;
      audit := audit + [e.(sequence := auditSeq)];
      model := S.AppendAudit(model, e);
    }

    method StoreEntry(key: string, entry: IdemEntry, ghost v: D.IdemEntry)
      requires Valid() && EntryOk(entry, v, frozen) && EntryTyped(v)
      modifies this`idem, this`model
      ensures Valid() && model == old(model).(idem := old(model).idem[key := v])
    {
      hide CollectionsOk, DocumentsOk, HistoryOk, LocksOk, IdemOk, EntryTyped, EntryOk, Live, Unlocked, Apart;
      IdemPut(idem, model.idem, frozen, key, entry, v);
      idem := idem[key := entry];
      model := model.(idem := model.idem[key := v]);
    }

    // The deferred store: a deep copy of the result goes into the cache.
    method Remember(key: string, fp: D.Fingerprint, err: Option<D.Error>, value: Ref)
      requires Valid() && EntryTyped(D.IdemEntry(fp, err, value.Value()))
      modifies this`idem, this`model, this`frozen
      ensures Valid() && model == S.Remember(old(model), key, fp, D.Returned(old(value.Value()), err))
      ensures old(frozen) <= frozen && fresh(frozen - old(frozen))
    {
      hide Valid, EntryTyped, EntryOk;
      if key != "" {
        ghost var v := D.IdemEntry(fp, err, value.Value());
        var entry, objs := CloneEntry(fp, err, value);
        Freeze(objs);
        EntryFrozen(entry, v, objs, frozen);
        StoreEntry(key, entry, v);
      }
    }

    // The same, for a result that is handed out: it stays as it is, and apart from the service.
    method RememberResult(key: string, fp: D.Fingerprint, err: Option<D.Error>, value: Ref)
      requires Valid() && EntryTyped(D.IdemEntry(fp, err, value.Value())) && Separate(value.Objects())
      modifies this`idem, this`model, this`frozen
      ensures Valid() && model == S.Remember(old(model), key, fp, D.Returned(value.Value(), err))
      ensures old(frozen) <= frozen && fresh(frozen - old(frozen))
      ensures value.Value() == old(value.Value()) && value.Objects() == old(value.Objects())
              && Separate(value.Objects())
    {
      hide Valid, EntryTyped;
      ghost var objs := value.Objects();
      Remember(key, fp, err, value);
      assert value.Objects() == objs;
    }

    // ---- Documents ----

    // In-place patch of a document of the map.
    method PatchLive(ghost k: string, doc: Document, p: D.Patch, now: D.Time)
      requires Valid() && k in documents && documents[k] == doc
      modifies doc, this`model, this`frozen
      ensures Valid()
      ensures k in old(model).documents
      ensures var patched := S.ApplyPatch(old(model).documents[k], p, now);
              model == old(model).(documents := old(model).documents[k := patched])
      ensures doc.Value() == model.documents[k] && doc.tags in frozen
      ensures old(frozen) <= frozen && fresh(frozen - old(frozen))
    {
      hide S.ApplyPatch;
      hide CollectionsOk, DocumentsOk, HistoryOk, LocksOk, IdemOk, EntryTyped;
      PatchStored(documents, model.documents, frozen, k, doc, p, now);
      FreezeMore(collections, documents, history, idem, model, frozen, frozen + {doc.tags});
      model := model.(documents := model.documents[k := doc.Value()]);
      frozen := frozen + {doc.tags};
    }

    method StoreRevision(h: string, rev: Revision)
      requires Valid() && rev.tags in frozen
      modifies this`history, this`model
      ensures Valid()
      ensures model == old(model).(history := old(model).history[h := S.HistoryOf(old(model), h) + [rev.Value()]])
    {
      assert h in history <==> h in model.history by {
        hide LocksOk, IdemOk, CollectionsOk, DocumentsOk, RevisionsOk;
      }
      hide CollectionsOk, DocumentsOk, HistoryOk, LocksOk, IdemOk, EntryTyped, Live, Unlocked, Apart;
      HistoryPut(history, model.history, frozen, h, rev);
      history := history[h := (if h in history then history[h] else []) + [rev]];
      model := model.(history := model.history[h := S.HistoryOf(model, h) + [rev.Value()]]);
    }

    method AppendRevision(h: string, rev: Revision)
      requires Valid() && Separate({rev.tags})
      modifies this`history, this`model, this`frozen
      ensures Valid()
      ensures model == old(model).(history := old(model).history[h := S.HistoryOf(old(model), h) + [rev.Value()]])
      ensures frozen == old(frozen) + {rev.tags}
    {
      hide Valid;
      Freeze({rev.tags});
      StoreRevision(h, rev);
    }

    method ApplyUpdate(ghost k: string, doc: Document, p: D.Patch, actor: string, reason: string, now: D.Time)
      requires Valid() && k in documents && documents[k] == doc
      modifies doc, this`history, this`model, this`frozen
      ensures Valid() && k in old(model).documents
      ensures model == S.ApplyUpdate(old(model), k, p, actor, reason, now)
      ensures old(frozen) <= frozen && fresh(frozen - old(frozen))
    {
      hide Valid, S.ApplyPatch, DocumentKey;
      PatchLive(k, doc, p, now);
      var copied := CloneStrings(doc.tags);
      AppendRevision(DocumentKey(doc.collectionID, doc.id),
                     Revision(doc.version, doc.title, doc.content, copied, actor, reason, now));
    }

    // ---- What callers can rely on ----

    // Whatever the service came to hold is new: nothing that existed before was taken in.
    twostate predicate TookNothing()
      reads this
    {
      && fresh(frozen - old(frozen))
      && (forall k :: k in documents ==>
            fresh(documents[k]) || (k in old(documents) && documents[k] == old(documents)[k]))
      && (forall k :: k in locks ==> fresh(locks[k]) || (k in old(locks) && locks[k] == old(locks)[k]))
    }

    twostate lemma {:induction false} NothingTaken()
      requires unchanged(`documents, `locks, `frozen)
      ensures TookNothing()
    {
    }

    lemma {:induction false} Represents()
      requires Valid()
      ensures collections.Keys == model.collections.Keys && documents.Keys == model.documents.Keys
      ensures locks.Keys == model.locks.Keys && idem.Keys == model.idem.Keys
      ensures forall k :: k in collections ==> collections[k].Value() == model.collections[k]
      ensures forall k :: k in documents ==> documents[k].Value() == model.documents[k]
      ensures forall k :: k in locks ==> locks[k].Value() == model.locks[k]
    {
      hide HistoryOk, EntryOk, CacheTyped;
    }

    lemma {:induction false} RepresentsLock(k: string)
      requires Valid()
      ensures k in locks <==> k in model.locks
      ensures k in locks ==> locks[k].Value() == model.locks[k]
    {
      hide HistoryOk, EntryOk, CacheTyped, DocumentsOk, CollectionsOk;
    }

    // The lookup shared by all document and lock operations.
    function GetDocumentUnlocked(c: string, d: string): (r: (Document?, Option<D.Error>))
      reads this`collections, this`documents
      ensures r.0 == null <==> r.1.Some?
    {
      if c !in collections then (null, Some(D.CollectionNotFound))
      else if DocumentKey(c, d) !in documents then (null, Some(D.DocumentNotFound))
      else (documents[DocumentKey(c, d)], None)
    }

    lemma {:induction false} LookupRepresented(c: string, d: string)
      requires Valid()
      ensures var r, k := GetDocumentUnlocked(c, d), DocumentKey(c, d);
              && r.1 == S.LookupError(model, c, d)
              && (r.1.None? ==>
                    && k in documents && documents[k] == r.0
                    && k in model.documents && r.0.Value() == model.documents[k])
    {
      hide HistoryOk, EntryOk, CacheTyped, LocksOk, DocumentKey;
    }

    method StoreDocument(k: string, doc: Document)
      requires Valid() && doc !in frozen && Live(documents, {doc}) && doc.tags in frozen
      modifies this`documents, this`model
      ensures Valid()
      ensures documents == old(documents)[k := doc]
      ensures model == old(model).(documents := old(model).documents[k := doc.Value()])
    {
      hide CollectionsOk, DocumentsOk, HistoryOk, LocksOk, IdemOk, EntryTyped, Live, Unlocked, Apart;
      DocumentPut(documents, model.documents, frozen, k, doc);
      documents := documents[k := doc];
      model := model.(documents := model.documents[k := doc.Value()]);
    }

    method InsertLive(k: string, doc: Document)
      requires Valid() && Foreign(doc) && Separate({doc.tags})
      modifies this`documents, this`model, this`frozen
      ensures Valid()
      ensures documents == old(documents)[k := doc]
      ensures model == old(model).(documents := old(model).documents[k := doc.Value()])
      ensures frozen == old(frozen) + {doc.tags}
    {
      hide Valid;
      Freeze({doc.tags});
      StoreDocument(k, doc);
    }

    // The copy handed to the caller.
    method CopyOut(doc: Document) returns (out: Document)
      ensures fresh(out) && fresh(out.tags) && Foreign(out) && Foreign(out.tags)
      ensures out.Value() == doc.Value()
    {
      out := doc.Clone();
    }

    method InsertDocument(k: string, id: string, c: string, title: string, content: string, tags: seq<string>,
                          actor: string, now: D.Time) returns (doc: Document)
      requires Valid()
      modifies this`documents, this`history, this`model, this`frozen
      ensures Valid() && TookNothing()
      ensures doc.Value() == D.Document(id, c, title, content, NormalizeTags(tags), 1, now, now)
      ensures model == S.InsertDocument(old(model), k, doc.Value(), actor, now)
    {
      hide Valid, NormalizeTags;
      var normalized := NormalizeSlice(tags);
      doc := new Document(id, c, title, content, normalized, 1, now, now);
      InsertLive(k, doc);
      var copied := CloneStrings(doc.tags);
      AppendRevision(k, Revision(1, doc.title, doc.content, copied, actor, "", now));
    }

    method CreateNew(c: string, id: string, title: string, content: string, tags: seq<string>, actor: string,
                     key: string, now: D.Time) returns (out: Document)
      requires Valid() && c in model.collections && DocumentKey(c, id) !in model.documents
      modifies this`documents, this`history, this`audit, this`auditSeq, this`model, this`frozen
      ensures Valid() && TookNothing()
      ensures S.ExecCreate(old(model), c, id, title, content, tags, actor, key, now) ==
              S.Success(model, D.DocumentValue(out.Value()))
      ensures fresh(out) && fresh(out.tags) && Foreign(out) && Foreign(out.tags)
    {
      hide Valid, DocumentKey, NormalizeTags, Foreign, S.InsertDocument;
      var doc := InsertDocument(DocumentKey(c, id), id, c, title, content, tags, actor, now);
      AppendAudit(D.AuditEvent(0, now, D.DocumentCreated, actor, c, id, key, D.CreatedDetails(1, doc.tags[..])));
      out := CopyOut(doc);
    }

    method CreateRun(c: string, id: string, title: string, content: string, tags: seq<string>, actor: string,
                     key: string, now: D.Time) returns (out: Document?, err: Option<D.Error>)
      requires Valid()
      modifies this`documents, this`history, this`audit, this`auditSeq, this`model, this`frozen
      ensures Valid() && TookNothing()
      ensures var r := S.ExecCreate(old(model), c, id, title, content, tags, actor, key, now);
              model == r.state && r.response == DocumentAnswer(out, err)
      ensures out != null ==> fresh(out) && fresh(out.tags) && Foreign(out) && Foreign(out.tags)
    {
      Represents();
      hide Valid, DocumentKey, NormalizeTags, Foreign;
      if c !in collections {
        out, err := null, Some(D.CollectionNotFound);
      } else if DocumentKey(c, id) in documents {
        out, err := null, Some(D.ValidationError("id", "document already exists"));
      } else {
        hide TookNothing;
        out := CreateNew(c, id, title, content, tags, actor, key, now);
        err := None;
      }
    }

    method UpdateFound(c: string, d: string, doc: Document, expected: int, p: D.Patch, actor: string, reason: string,
                       key: string, now: D.Time) returns (out: Document)
      requires Valid() && DocumentKey(c, d) in documents && documents[DocumentKey(c, d)] == doc
      requires S.LookupError(model, c, d).None? && model.documents[DocumentKey(c, d)].version == expected
      modifies this`history, this`audit, this`auditSeq, this`model, this`frozen, doc
      ensures Valid() && fresh(frozen - old(frozen))
      ensures S.ExecUpdate(old(model), c, d, expected, p, actor, reason, key, now) ==
              S.Success(model, D.DocumentValue(out.Value()))
      ensures fresh(out) && fresh(out.tags) && Foreign(out) && Foreign(out.tags)
    {
      hide Valid, DocumentKey, S.ApplyPatch, S.ApplyUpdate, Foreign;
      ApplyUpdate(DocumentKey(c, d), doc, p, actor, reason, now);
      Represents();
      AppendAudit(D.AuditEvent(0, now, D.DocumentUpdated, actor, c, d, key,
                               D.UpdatedDetails(expected, doc.version, reason, false)));
      out := CopyOut(doc);
    }

    method UpdateRun(c: string, d: string, expected: int, p: D.Patch, actor: string, reason: string, key: string,
                     now: D.Time)
      returns (out: Document?, err: Option<D.Error>)
      requires Valid()
      modifies this`history, this`audit, this`auditSeq, this`model, this`frozen, documents.Values
      ensures Valid() && fresh(frozen - old(frozen))
      ensures var r := S.ExecUpdate(old(model), c, d, expected, p, actor, reason, key, now);
              model == r.state && r.response == DocumentAnswer(out, err)
      ensures out != null ==> fresh(out) && fresh(out.tags) && Foreign(out) && Foreign(out.tags)
    {
      hide Valid, DocumentKey, S.ApplyUpdate, Foreign;
      LookupRepresented(c, d);
      var (doc, lookup) := GetDocumentUnlocked(c, d);
      if lookup.Some? {
        out, err := null, lookup;
      } else if doc.version != expected {
        out, err := null, Some(D.VersionConflict(d, expected, doc.version));
      } else {
        out := UpdateFound(c, d, doc, expected, p, actor, reason, key, now);
        err := None;
      }
    }

    // A cached document result, type assertion included.
    method ReplayDocument(key: string, fp: D.Fingerprint) returns (out: Document?, err: Option<D.Error>)
      requires Valid() && key in idem && (fp.CreatePrint? || fp.UpdatePrint?)
      ensures key in model.idem && S.Replay(model.idem[key], key, fp) == DocumentAnswer(out, err)
      ensures out != null ==> fresh(out) && fresh(out.tags) && Foreign(out) && Foreign(out.tags)
    {
      assert EntryOk(idem[key], model.idem[key], frozen) && EntryTyped(model.idem[key]);
      hide Valid;
      var entry := idem[key];
      if entry.fingerprint != fp {
        out, err := null, Some(D.IdempotencyConflict(key));
      } else if entry.value.Nothing? {
        out, err := null, entry.err;
      } else {
        out := CopyOut(entry.value.document);
        err := entry.err;
      }
    }

    method CreateDocument(c: string, id: string, title: string, content: string, tags: Option<array<string>>,
                          actor: string, key: string, now: D.Time, freshID: string)
      returns (out: Document?, err: Option<D.Error>)
      requires Valid()
      modifies this
      ensures Valid() && TookNothing()
      ensures var req := D.CreateDocument(c, id, title, content, old(SliceValue(tags)), actor, key);
              var r := S.Step(old(model), D.Event(req, now, freshID));
              model == r.state && r.response == DocumentAnswer(out, err)
      ensures out != null ==> fresh(out) && fresh(out.tags) && Foreign(out) && Foreign(out.tags)
    {
      var ts := SliceValue(tags);
      var fp := D.CreatePrint(c, id, title, content, ts);
      ghost var e := D.Event(D.CreateDocument(c, id, title, content, ts, actor, key), now, freshID);
      hide Valid, S.Step, S.ExecCreate, EntryTyped, TrimSpace, S.Replay;
      StepIsKeyed(model, e);
      Represents();
      if TrimSpace(title) == "" {
        out, err := null, Some(D.ValidationError("title", "must not be empty"));
      } else if key != "" && key in idem {
        out, err := ReplayDocument(key, fp);
      } else {
        out, err := CreateRun(c, if id == "" then freshID else id, title, content, ts.GetOr([]), actor, key, now);
        Remember(key, fp, err, DocumentRefOf(out));
      }
    }

    method UpdateDocument(c: string, d: string, expected: int, patch: Patch, actor: string, reason: string,
                          key: string, now: D.Time) returns (out: Document?, err: Option<D.Error>)
      requires Valid()
      modifies this`history, this`audit, this`auditSeq, this`idem, this`model, this`frozen, documents.Values
      ensures Valid() && fresh(frozen - old(frozen))
      ensures var req := D.UpdateDocument(c, d, expected, old(patch.Value()), actor, reason, key);
              var r := S.Step(old(model), D.Event(req, now, ""));
              model == r.state && r.response == DocumentAnswer(out, err)
      ensures out != null ==> fresh(out) && fresh(out.tags) && Foreign(out) && Foreign(out.tags)
    {
      var p := patch.Value();
      var fp := D.UpdatePrint(c, d, expected, p);
      ghost var e := D.Event(D.UpdateDocument(c, d, expected, p, actor, reason, key), now, "");
      hide Valid, S.Step, S.ExecUpdate, EntryTyped, S.Replay;
      StepIsKeyed(model, e);
      Represents();
      if expected < 1 {
        out, err := null, Some(D.ValidationError("expected_version", "must be >= 1"));
      } else if key != "" && key in idem {
        out, err := ReplayDocument(key, fp);
      } else {
        out, err := UpdateRun(c, d, expected, p, actor, reason, key, now);
        Remember(key, fp, err, DocumentRefOf(out));
      }
    }

    method GetDocument(c: string, d: string, ghost now: D.Time) returns (out: Document?, err: Option<D.Error>)
      requires Valid()
      ensures S.Read(model, D.GetDocument(c, d), now) == DocumentAnswer(out, err)
      ensures out != null ==> fresh(out) && fresh(out.tags) && Foreign(out) && Foreign(out.tags)
    {
      hide Valid, DocumentKey, Foreign;
      LookupRepresented(c, d);
      var (doc, lookup) := GetDocumentUnlocked(c, d);
      err := lookup;
      if lookup.Some? {
        out := null;
      } else {
        out := CopyOut(doc);
      }
    }

    method GetDocumentHistory(c: string, d: string, ghost now: D.Time)
      returns (out: seq<Revision>, err: Option<D.Error>)
      requires Valid()
      ensures err.Some? ==> S.Read(model, D.GetDocumentHistory(c, d), now) == D.Returned(None, err)
      ensures err.None? ==>
                S.Read(model, D.GetDocumentHistory(c, d), now) ==
                D.Returned(Some(D.HistoryValue(RevisionsValue(out))), None)
      ensures forall i :: 0 <= i < |out| ==> fresh(out[i].tags)
    {
      hide DocumentKey;
      var k := DocumentKey(c, d);
      if k !in documents {
        out, err := [], Some(D.DocumentNotFound);
      } else {
        out, err := [], None;
        if k in history {
          assert RevisionsOk(history[k], model.history[k], frozen);
          out := CloneRevisions(history[k]);
        }
        assert RevisionsValue(out) == S.HistoryOf(model, k);
      }
    }

    // ---- Collections ----

    method StoreCollection(id: string, col: Collection)
      requires Valid() && col in frozen
      modifies this`collections, this`model
      ensures Valid()
      ensures model == old(model).(collections := old(model).collections[id := col.Value()])
    {
      hide CollectionsOk, DocumentsOk, HistoryOk, LocksOk, IdemOk, EntryTyped, Live, Unlocked, Apart;
      CollectionPut(collections, model.collections, frozen, id, col);
      collections := collections[id := col];
      model := model.(collections := model.collections[id := col.Value()]);
    }

    method RegisterNew(id: string, name: string, description: string, actor: string, key: string, now: D.Time)
      returns (out: Collection)
      requires Valid() && id !in model.collections
      modifies this`collections, this`audit, this`auditSeq, this`model, this`frozen
      ensures Valid() && fresh(frozen - old(frozen))
      ensures S.ExecRegister(old(model), id, name, description, actor, key, now) ==
              S.Success(model, D.CollectionValue(out.Value()))
      ensures fresh(out) && Foreign(out)
    {
      hide Valid;
      var col := new Collection(id, name, description, now);
      Freeze({col});
      StoreCollection(id, col);
      AppendAudit(D.AuditEvent(0, now, D.CollectionCreated, actor, id, "", key,
                               D.CollectionDetails(name, description)));
      out := col.Clone();
    }

    method RegisterRun(id: string, name: string, description: string, actor: string, key: string, now: D.Time)
      returns (out: Collection)
      requires Valid()
      modifies this`collections, this`audit, this`auditSeq, this`model, this`frozen
      ensures Valid() && fresh(frozen - old(frozen))
      ensures S.ExecRegister(old(model), id, name, description, actor, key, now) ==
              S.Success(model, D.CollectionValue(out.Value()))
      ensures fresh(out) && Foreign(out)
    {
      Represents();
      hide Valid;
      if id in collections {
        out := collections[id].Clone();
      } else {
        out := RegisterNew(id, name, description, actor, key, now);
      }
    }

    method ReplayCollection(key: string, fp: D.Fingerprint) returns (out: Collection?, err: Option<D.Error>)
      requires Valid() && key in idem && fp.RegisterPrint?
      ensures key in model.idem && S.Replay(model.idem[key], key, fp) == CollectionAnswer(out, err)
      ensures out != null ==> fresh(out) && Foreign(out)
    {
      assert EntryOk(idem[key], model.idem[key], frozen) && EntryTyped(model.idem[key]);
      hide Valid;
      var entry := idem[key];
      if entry.fingerprint != fp {
        out, err := null, Some(D.IdempotencyConflict(key));
      } else if entry.value.Nothing? {
        out, err := null, entry.err;
      } else {
        out := entry.value.collection.Clone();
        err := entry.err;
      }
    }

    method RegisterCollection(id: string, name: string, description: string, actor: string, key: string, now: D.Time,
                              freshID: string)
      returns (out: Collection?, err: Option<D.Error>)
      requires Valid()
      modifies this`collections, this`audit, this`auditSeq, this`idem, this`model, this`frozen
      ensures Valid() && fresh(frozen - old(frozen))
      ensures var req := D.RegisterCollection(id, name, description, actor, key);
              var r := S.Step(old(model), D.Event(req, now, freshID));
              model == r.state && r.response == CollectionAnswer(out, err)
      ensures out != null ==> fresh(out) && Foreign(out)
    {
      var fp := D.RegisterPrint(id, name, description);
      hide Valid, S.Step, S.ExecRegister, EntryTyped, TrimSpace, S.Replay;
      StepIsKeyed(model, D.Event(D.RegisterCollection(id, name, description, actor, key), now, freshID));
      Represents();
      if TrimSpace(name) == "" {
        out, err := null, Some(D.ValidationError("name", "must not be empty"));
      } else if key != "" && key in idem {
        out, err := ReplayCollection(key, fp);
      } else {
        out := RegisterRun(if id == "" then freshID else id, name, description, actor, key, now);
        err := None;
        Remember(key, fp, err, CollectionRef(out));
      }
    }

    method GetCollection(id: string, ghost now: D.Time) returns (out: Collection?, err: Option<D.Error>)
      requires Valid()
      ensures S.Read(model, D.GetCollection(id), now) == CollectionAnswer(out, err)
      ensures out != null ==> fresh(out) && Foreign(out)
    {
      Represents();
      hide Valid;
      if id in collections {
        out := collections[id].Clone();
        err := None;
      } else {
        out, err := null, Some(D.CollectionNotFound);
      }
    }

    // ---- Locks ----

    method StoreLock(k: string, lock: Lock)
      requires Valid() && lock !in frozen && Unlocked(locks, {lock})
      modifies this`locks, this`model
      ensures Valid() && locks == old(locks)[k := lock]
      ensures model == old(model).(locks := old(model).locks[k := lock.Value()])
    {
      hide CollectionsOk, DocumentsOk, HistoryOk, LocksOk, IdemOk, EntryTyped, Live, Unlocked, Apart;
      LockPut(locks, model.locks, frozen, k, lock);
      locks := locks[k := lock];
      model := model.(locks := model.locks[k := lock.Value()]);
    }

    method RemoveLock(k: string)
      requires Valid()
      modifies this`locks, this`model
      ensures Valid() && locks == old(locks) - {k}
      ensures model == S.WithoutLock(old(model), k)
    {
      hide CollectionsOk, DocumentsOk, HistoryOk, LocksOk, IdemOk, EntryTyped, Live, Unlocked, Apart;
      LockDrop(locks, model.locks, frozen, k);
      locks := locks - {k};
      model := S.WithoutLock(model, k);
    }

    // Extends a lock of the table in place.
    method ExtendLock(ghost k: string, lock: Lock, expiresAt: D.Time)
      requires Valid() && k in locks && locks[k] == lock
      modifies lock, this`model
      ensures Valid() && k in old(model).locks
      ensures var held := old(model).locks[k];
              lock.Value() == held.(expiresAt := expiresAt, renewCount := held.renewCount + 1)
      ensures model == old(model).(locks := old(model).locks[k := lock.Value()])
    {
      hide CollectionsOk, DocumentsOk, HistoryOk, LocksOk, IdemOk, EntryTyped, Live;
      ExtendStored(locks, model.locks, k, lock, expiresAt);
      model := model.(locks := model.locks[k := lock.Value()]);
    }

    method RenewHeld(c: string, d: string, lock: Lock, ttl: D.Duration, actor: string, key: string, now: D.Time)
      requires Valid() && DocumentKey(c, d) in locks && locks[DocumentKey(c, d)] == lock
      modifies this`audit, this`auditSeq, this`model, lock
      ensures Valid() && DocumentKey(c, d) in old(model).locks
      ensures S.Renewed(old(model), c, d, ttl, actor, key, now) == S.Success(model, D.LockValue(lock.Value()))
    {
      hide Valid, DocumentKey, D.NormalizeTTL;
      var t := D.NormalizeTTL(ttl);
      ExtendLock(DocumentKey(c, d), lock, now + t);
      AppendAudit(D.AuditEvent(0, now, D.LockRenewed, actor, c, d, key,
                               D.RenewedDetails(t / D.SECOND, lock.renewCount)));
    }

    method GrantNew(c: string, d: string, holder: string, ttl: D.Duration, actor: string, key: string, now: D.Time)
      returns (lock: Lock)
      requires Valid()
      modifies this`locks, this`audit, this`auditSeq, this`model
      ensures Valid() && fresh(lock) && locks == old(locks)[DocumentKey(c, d) := lock]
      ensures S.Granted(old(model), c, d, holder, ttl, actor, key, now) == S.Success(model, D.LockValue(lock.Value()))
    {
      hide Valid, DocumentKey, D.NormalizeTTL;
      var t := D.NormalizeTTL(ttl);
      lock := new Lock(d, holder, now, now + t, 0);
      StoreLock(DocumentKey(c, d), lock);
      AppendAudit(D.AuditEvent(0, now, D.LockAcquired, actor, c, d, key, D.AcquiredDetails(t / D.SECOND, holder)));
    }

    method CopyLock(lock: Lock) returns (out: Lock)
      ensures fresh(out) && Foreign(out) && out.Value() == lock.Value()
    {
      out := lock.Clone();
    }

    // A lapsed lock is reclaimed silently, then the new one is granted.
    method GrantOver(c: string, d: string, holder: string, ttl: D.Duration, actor: string, key: string, now: D.Time)
      returns (out: Lock)
      requires Valid()
      modifies this`locks, this`audit, this`auditSeq, this`model
      ensures Valid() && TookNothing()
      ensures S.Granted(S.WithoutLock(old(model), DocumentKey(c, d)), c, d, holder, ttl, actor, key, now) ==
              S.Success(model, D.LockValue(out.Value()))
      ensures fresh(out) && Foreign(out)
    {
      hide Valid, DocumentKey, Foreign, S.Granted, S.WithoutLock;
      RemoveLock(DocumentKey(c, d));
      var lock := GrantNew(c, d, holder, ttl, actor, key, now);
      out := CopyLock(lock);
    }

    method RenewLive(c: string, d: string, lock: Lock, ttl: D.Duration, actor: string, key: string, now: D.Time)
      returns (out: Lock)
      requires Valid() && DocumentKey(c, d) in locks && locks[DocumentKey(c, d)] == lock
      modifies this`audit, this`auditSeq, this`model, lock
      ensures Valid() && DocumentKey(c, d) in old(model).locks
      ensures S.Renewed(old(model), c, d, ttl, actor, key, now) == S.Success(model, D.LockValue(out.Value()))
      ensures fresh(out) && Foreign(out)
    {
      hide Valid, DocumentKey, Foreign, S.Renewed;
      RenewHeld(c, d, lock, ttl, actor, key, now);
      out := CopyLock(lock);
    }

    method AcquireRun(c: string, d: string, holder: string, ttl: D.Duration, actor: string, key: string, now: D.Time)
      returns (out: Lock?, err: Option<D.Error>)
      requires Valid()
      modifies this`locks, this`audit, this`auditSeq, this`model, locks.Values
      ensures Valid() && TookNothing()
      ensures var r := S.ExecAcquire(old(model), c, d, holder, ttl, actor, key, now);
              model == r.state && r.response == LockAnswer(out, err)
      ensures out != null ==> fresh(out) && Foreign(out)
    {
      var k := DocumentKey(c, d);
      RepresentsLock(k);
      AcquireCases(model, c, d, holder, ttl, actor, key, now);
      hide Valid, TookNothing, DocumentKey, Foreign, S.Granted, S.Renewed, S.WithoutLock, S.ExecAcquire, S.LookupError;
      LookupRepresented(c, d);
      var (doc, lookup) := GetDocumentUnlocked(c, d);
      err := None;
      if lookup.Some? {
        out, err := null, lookup;
        NothingTaken();
      } else if k !in locks || locks[k].IsExpired(now) {
        out := GrantOver(c, d, holder, ttl, actor, key, now);
      } else if locks[k].holder != holder {
        out, err := null, Some(D.LockConflict(d, locks[k].holder, locks[k].expiresAt));
        NothingTaken();
      } else {
        out := RenewLive(c, d, locks[k], ttl, actor, key, now);
        NothingTaken();
      }
    }

    // A renewal or release that finds no live lock drops what has lapsed.
    method NotHeld(k: string) returns (err: Option<D.Error>)
      requires Valid()
      modifies this`locks, this`model
      ensures Valid() && TookNothing() && model == S.WithoutLock(old(model), k)
      ensures err == Some(D.LockNotHeld)
    {
      hide Valid;
      RemoveLock(k);
      err := Some(D.LockNotHeld);
    }

    method RenewRun(c: string, d: string, holder: string, ttl: D.Duration, actor: string, key: string, now: D.Time)
      returns (out: Lock?, err: Option<D.Error>)
      requires Valid()
      modifies this`locks, this`audit, this`auditSeq, this`model, locks.Values
      ensures Valid() && TookNothing()
      ensures var r := S.ExecRenew(old(model), c, d, holder, ttl, actor, key, now);
              model == r.state && r.response == LockAnswer(out, err)
      ensures out != null ==> fresh(out) && Foreign(out)
    {
      var k := DocumentKey(c, d);
      RepresentsLock(k);
      hide Valid, TookNothing, DocumentKey, Foreign, S.Renewed;
      LookupRepresented(c, d);
      var (doc, lookup) := GetDocumentUnlocked(c, d);
      out, err := null, None;
      if lookup.Some? {
        err := lookup;
        NothingTaken();
      } else if k !in locks || locks[k].IsExpired(now) {
        err := NotHeld(k);
      } else if locks[k].holder != holder {
        err := Some(D.LockConflict(d, locks[k].holder, locks[k].expiresAt));
        NothingTaken();
      } else {
        out := RenewLive(c, d, locks[k], ttl, actor, key, now);
        NothingTaken();
      }
    }

    method DropHeld(c: string, d: string, lock: Lock, actor: string, key: string, now: D.Time)
      requires Valid() && DocumentKey(c, d) in locks && locks[DocumentKey(c, d)] == lock
      modifies this`locks, this`audit, this`auditSeq, this`model
      ensures Valid() && TookNothing()
      ensures model == S.AppendAudit(S.WithoutLock(old(model), DocumentKey(c, d)),
                                     D.AuditEvent(0, now, D.LockReleased, actor, c, d, key,
                                                  D.ReleasedDetails(lock.Value().holder, lock.Value().renewCount)))
    {
      hide Valid, DocumentKey;
      RemoveLock(DocumentKey(c, d));
      AppendAudit(D.AuditEvent(0, now, D.LockReleased, actor, c, d, key,
                               D.ReleasedDetails(lock.holder, lock.renewCount)));
    }

    method ReleaseRun(c: string, d: string, holder: string, actor: string, key: string, now: D.Time)
      returns (err: Option<D.Error>)
      requires Valid()
      modifies this`locks, this`audit, this`auditSeq, this`model
      ensures Valid() && TookNothing()
      ensures S.ExecRelease(old(model), c, d, holder, actor, key, now) == S.Result(model, D.Returned(None, err))
    {
      var k := DocumentKey(c, d);
      RepresentsLock(k);
      hide Valid, TookNothing, DocumentKey;
      LookupRepresented(c, d);
      var (doc, lookup) := GetDocumentUnlocked(c, d);
      err := None;
      if lookup.Some? {
        err := lookup;
        NothingTaken();
      } else if k !in locks || locks[k].IsExpired(now) {
        err := NotHeld(k);
      } else if locks[k].holder != holder {
        err := Some(D.LockConflict(d, locks[k].holder, locks[k].expiresAt));
        NothingTaken();
      } else {
        DropHeld(c, d, locks[k], actor, key, now);
      }
    }

    method ReplayLock(key: string, fp: D.Fingerprint) returns (out: Lock?, err: Option<D.Error>)
      requires Valid() && key in idem && (fp.AcquirePrint? || fp.RenewPrint?)
      ensures key in model.idem && S.Replay(model.idem[key], key, fp) == LockAnswer(out, err)
      ensures out != null ==> fresh(out) && Foreign(out)
    {
      assert EntryOk(idem[key], model.idem[key], frozen) && EntryTyped(model.idem[key]);
      hide Valid;
      var entry := idem[key];
      if entry.fingerprint != fp {
        out, err := null, Some(D.IdempotencyConflict(key));
      } else if entry.value.Nothing? {
        out, err := null, entry.err;
      } else {
        out := CopyLock(entry.value.lock);
        err := entry.err;
      }
    }

    method AcquireLock(c: string, d: string, holder: string, ttl: D.Duration, actor: string, key: string, now: D.Time)
      returns (out: Lock?, err: Option<D.Error>)
      requires Valid()
      modifies this`locks, this`audit, this`auditSeq, this`idem, this`model, this`frozen, locks.Values
      ensures Valid() && TookNothing()
      ensures var r := S.Step(old(model), D.Event(D.AcquireLock(c, d, holder, ttl, actor, key), now, ""));
              model == r.state && r.response == LockAnswer(out, err)
      ensures out != null ==> fresh(out) && Foreign(out)
    {
      var fp := D.AcquirePrint(c, d, holder, ttl);
      hide Valid, S.Step, S.ExecAcquire, EntryTyped, S.Replay;
      StepIsKeyed(model, D.Event(D.AcquireLock(c, d, holder, ttl, actor, key), now, ""));
      Represents();
      if holder == "" {
        out, err := null, Some(D.ValidationError("holder", "must not be empty"));
      } else if key != "" && key in idem {
        out, err := ReplayLock(key, fp);
      } else {
        out, err := AcquireRun(c, d, holder, ttl, actor, key, now);
        Remember(key, fp, err, LockRefOf(out));
      }
    }

    method RenewLock(c: string, d: string, holder: string, ttl: D.Duration, actor: string, key: string, now: D.Time)
      returns (out: Lock?, err: Option<D.Error>)
      requires Valid()
      modifies this`locks, this`audit, this`auditSeq, this`idem, this`model, this`frozen, locks.Values
      ensures Valid() && TookNothing()
      ensures var r := S.Step(old(model), D.Event(D.RenewLock(c, d, holder, ttl, actor, key), now, ""));
              model == r.state && r.response == LockAnswer(out, err)
      ensures out != null ==> fresh(out) && Foreign(out)
    {
      var fp := D.RenewPrint(c, d, holder, ttl);
      hide Valid, S.Step, S.ExecRenew, EntryTyped, S.Replay;
      StepIsKeyed(model, D.Event(D.RenewLock(c, d, holder, ttl, actor, key), now, ""));
      Represents();
      if holder == "" {
        out, err := null, Some(D.ValidationError("holder", "must not be empty"));
      } else if key != "" && key in idem {
        out, err := ReplayLock(key, fp);
      } else {
        out, err := RenewRun(c, d, holder, ttl, actor, key, now);
        Remember(key, fp, err, LockRefOf(out));
      }
    }

    method ReleaseLock(c: string, d: string, holder: string, actor: string, key: string, now: D.Time)
      returns (err: Option<D.Error>)
      requires Valid()
      modifies this`locks, this`audit, this`auditSeq, this`idem, this`model, this`frozen
      ensures Valid() && TookNothing()
      ensures S.Step(old(model), D.Event(D.ReleaseLock(c, d, holder, actor, key), now, "")) ==
              S.Result(model, D.Returned(None, err))
    {
      var fp := D.ReleasePrint(c, d, holder);
      hide Valid, S.Step, S.ExecRelease, EntryTyped, S.Replay;
      StepIsKeyed(model, D.Event(D.ReleaseLock(c, d, holder, actor, key), now, ""));
      Represents();
      if holder == "" {
        err := Some(D.ValidationError("holder", "must not be empty"));
      } else if key != "" && key in idem {
        err := ReplayRelease(key, fp);
      } else {
        err := ReleaseRun(c, d, holder, actor, key, now);
        Remember(key, fp, err, Nothing);
      }
    }

    method ReplayRelease(key: string, fp: D.Fingerprint) returns (err: Option<D.Error>)
      requires Valid() && key in idem && fp.ReleasePrint?
      ensures key in model.idem && S.Replay(model.idem[key], key, fp) == D.Returned(None, err)
    {
      EntryRepresented(key);
      hide Valid;
      err := if idem[key].fingerprint != fp then Some(D.IdempotencyConflict(key)) else idem[key].err;
    }

    lemma {:induction false} EntryRepresented(key: string)
      requires Valid() && key in idem
      ensures key in model.idem && model.idem[key].fingerprint == idem[key].fingerprint
              && model.idem[key].err == idem[key].err
    {
      assert EntryOk(idem[key], model.idem[key], frozen);
    }

    method GetLock(c: string, d: string, now: D.Time) returns (out: Lock?, err: Option<D.Error>)
      requires Valid()
      ensures S.Read(model, D.GetLock(c, d), now) == LockAnswer(out, err)
      ensures out != null ==> fresh(out) && Foreign(out)
    {
      Represents();
      hide Valid, DocumentKey, Foreign;
      var k := DocumentKey(c, d);
      if k !in locks {
        out, err := null, Some(D.LockNotHeld);
      } else if locks[k].IsExpired(now) {
        out, err := null, Some(D.LockExpired);
      } else {
        out := CopyLock(locks[k]);
        err := None;
      }
    }

    // The reaper's visit to one key.
    method ReapOne(k: string, now: D.Time) returns (reaped: seq<string>)
      requires Valid()
      modifies this`locks, this`audit, this`auditSeq, this`model
      ensures Valid() && model == S.ReapKey(old(model), k, now) && reaped == S.ReapedID(old(model), k, now)
      ensures locks == old(locks) || locks == old(locks) - {k}
    {
      Represents();
      hide Valid, CollectionIDFromKey;
      reaped := [];
      if k in locks && locks[k].IsExpired(now) {
        var lock := locks[k];
        RemoveLock(k);
        reaped := [lock.documentID];
        var c := SplitCollectionID(k);
        AppendAudit(D.AuditEvent(0, now, D.LockReaped, "", c, lock.documentID, "",
                                 D.ReapedDetails(lock.holder, lock.expiresAt)));
      }
    }

    // Go visits the map in an arbitrary order; order records the one taken.
    method ReapExpiredLocks(now: D.Time) returns (reaped: seq<string>, ghost order: seq<string>)
      requires Valid()
      modifies this`locks, this`audit, this`auditSeq, this`model
      ensures Valid() && TookNothing()
      ensures Enumerates(order, old(model).locks.Keys)
      ensures S.ExecReap(old(model), order, now) == S.Success(model, D.ReapedValue(reaped))
    {
      Represents();
      hide Valid, S.ReapKey, S.ReapedID, Visiting, Enumerates;
      reaped, order := [], [];
      var todo := locks.Keys;
      VisitStart(locks.Keys);
      while todo != {}
        invariant Valid() && Visiting(old(model).locks.Keys, order, todo)
        invariant model == S.Reap(old(model), order, now) && reaped == S.ReapedIDs(old(model), order, now)
        invariant forall k :: k in locks ==> k in old(locks) && locks[k] == old(locks)[k]
        decreases |todo|
      {
        var k :| k in todo;
        VisitNext(old(model).locks.Keys, order, todo, k);
        todo := todo - {k};
        ReapSnoc(old(model), order, k, now);
        var ids := ReapOne(k, now);
        reaped := reaped + ids;
        order := order + [k];
      }
      VisitDone(old(model).locks.Keys, order);
    }

    // ---- Batches ----

    method JudgeItem(c: string, item: D.BatchItem, seen: map<string, nat>) returns (failure: Option<D.FailureReason>)
      requires Valid()
      ensures failure == S.ItemFailure(model, c, item, seen)
    {
      LookupRepresented(c, item.documentID);
      hide Valid, DocumentKey, S.LookupError;
      var (doc, lookup) := GetDocumentUnlocked(c, item.documentID);
      failure := None;
      if item.expectedVersion < 1 {
        failure := Some(D.BadExpectedVersion);
      } else if item.documentID in seen {
        failure := Some(D.Duplicate(seen[item.documentID]));
      } else if lookup.Some? {
        failure := Some(D.NoSuchDocument);
      } else if doc.version != item.expectedVersion {
        failure := Some(D.WrongVersion(item.expectedVersion, doc.version));
      }
    }

    method ValidateBatch(c: string, items: seq<D.BatchItem>) returns (failures: seq<D.BatchItemFailure>)
      requires Valid()
      ensures failures == S.Failures(model, c, items)
    {
      hide Valid, S.ItemFailure, S.FailuresFrom;
      failures := [];
      var seen: map<string, nat> := map[];
      for i := 0 to |items|
        invariant failures + S.FailuresFrom(model, c, items, i, seen) == S.Failures(model, c, items)
      {
        var failure := JudgeItem(c, items[i], seen);
        FailuresStep(model, c, items, i, seen);
        if failure.Some? {
          failures := failures + [D.BatchItemFailure(i, items[i].documentID, failure.value)];
        }
        if items[i].expectedVersion >= 1 && items[i].documentID !in seen {
          seen := seen[items[i].documentID := i];
        }
      }
      FailuresEnd(model, c, items, seen);
    }

    method ApplyFound(c: string, item: D.BatchItem, doc: Document, actor: string, now: D.Time) returns (out: Document)
      requires Valid() && DocumentKey(c, item.documentID) in documents
               && documents[DocumentKey(c, item.documentID)] == doc
      requires DocumentKey(c, item.documentID) in model.documents
      modifies this`history, this`audit, this`auditSeq, this`model, this`frozen, doc
      ensures Valid() && fresh(frozen - old(frozen))
      ensures model == S.ApplyItem(old(model), c, item, actor, now)
      ensures DocumentKey(c, item.documentID) in model.documents
              && out.Value() == model.documents[DocumentKey(c, item.documentID)]
      ensures fresh(out) && fresh(out.tags)
    {
      hide Valid, DocumentKey, S.ApplyPatch, S.ApplyUpdate;
      ApplyUpdate(DocumentKey(c, item.documentID), doc, item.patch, actor, item.reason, now);
      Represents();
      AppendAudit(D.AuditEvent(0, now, D.DocumentUpdated, actor, c, item.documentID, "",
                               D.UpdatedDetails(item.expectedVersion, doc.version, item.reason, true)));
      out := doc.Clone();
    }

    // One round of the apply loop; the copy goes into the result.
    method ApplyOne(c: string, item: D.BatchItem, actor: string, now: D.Time) returns (out: Document)
      requires Valid() && DocumentKey(c, item.documentID) in model.documents
      modifies this`history, this`audit, this`auditSeq, this`model, this`frozen, documents.Values
      ensures Valid() && fresh(frozen - old(frozen))
      ensures model == S.ApplyItem(old(model), c, item, actor, now)
      ensures DocumentKey(c, item.documentID) in model.documents
              && out.Value() == model.documents[DocumentKey(c, item.documentID)]
      ensures fresh(out) && fresh(out.tags)
    {
      Represents();
      hide Valid, DocumentKey, S.ApplyItem;
      out := ApplyFound(c, item, documents[DocumentKey(c, item.documentID)], actor, now);
    }

    method ApplyBatch(c: string, items: seq<D.BatchItem>, actor: string, now: D.Time) returns (results: seq<ItemResult>)
      requires Valid() && S.AllPresent(model, c, items)
      modifies this`history, this`audit, this`auditSeq, this`model, this`frozen, documents.Values
      ensures Valid() && fresh(frozen - old(frozen))
      ensures var applied := S.ApplyFrom(old(model), c, items, 0, actor, now);
              model == applied.state && ResultsValue(results) == applied.results
    {
      hide Valid, DocumentKey, S.AllPresent, S.ApplyItem, S.ApplyFrom, Rest;
      results := [];
      ghost var values: seq<D.BatchItemResult> := [];
      for i := 0 to |items|
        invariant Valid() && fresh(frozen - old(frozen)) && S.AllPresent(model, c, items)
        invariant Rest(model, c, items, i, actor, now, values) == Rest(old(model), c, items, 0, actor, now, [])
        invariant |results| == i && Copies(results, values)
        invariant forall j :: 0 <= j < i ==> fresh(results[j].document) && fresh(results[j].document.tags)
      {
        RestStep(model, c, items, i, actor, now, values);
        var copied := ApplyOne(c, items[i], actor, now);
        results := results + [ItemResult(i, copied)];
        values := values + [D.BatchItemResult(i, copied.Value())];
      }
      RestDone(model, c, items, actor, now, values);
      RestDone(old(model), c, items, actor, now, []);
      assert ResultsValue(results) == values;
    }

    method CopyBatch(b: BatchResult) returns (out: BatchResult)
      ensures fresh(BatchRef(out).Objects()) && Separate(BatchRef(out).Objects())
      ensures BatchRef(out).Value() == Some(D.BatchValue(old(b.Value())))
    {
      out := b.Clone();
    }

    method RejectRun(c: string, items: seq<D.BatchItem>, failures: seq<D.BatchItemFailure>, actor: string,
                     key: string, now: D.Time)
      returns (out: BatchResult, err: Option<D.Error>)
      requires Valid() && failures == S.Failures(model, c, items)
      modifies this`audit, this`auditSeq, this`model
      ensures Valid()
      ensures S.RejectBatch(old(model), c, items, actor, key, now) == S.Result(model, Answer(BatchRef(out), err))
      ensures fresh(BatchRef(out).Objects()) && Separate(BatchRef(out).Objects())
    {
      hide Valid, S.Failures, Separate;
      AppendAudit(D.AuditEvent(0, now, D.BatchRejected, actor, c, "", key, D.RejectedDetails(|items|, |failures|)));
      var none := ResultSlice([]);
      var slice := FailureSlice(failures);
      var res := new BatchResult(false, none, slice);
      assert ResultsValue(res.results[..]) == [];
      out := CopyBatch(res);
      err := Some(D.BatchConflict(failures));
    }

    method AcceptRun(c: string, items: seq<D.BatchItem>, actor: string, key: string, now: D.Time)
      returns (out: BatchResult)
      requires Valid() && S.AllPresent(model, c, items)
      modifies this`history, this`audit, this`auditSeq, this`model, this`frozen, documents.Values
      ensures Valid() && fresh(frozen - old(frozen))
      ensures var applied := S.ApplyFrom(old(model), c, items, 0, actor, now);
              S.FinishBatch(applied.state, c, items, applied.results, actor, key, now) ==
              S.Result(model, Answer(BatchRef(out), None))
      ensures fresh(BatchRef(out).Objects()) && Separate(BatchRef(out).Objects())
    {
      hide Valid, S.ApplyFrom, Separate;
      var results := ApplyBatch(c, items, actor, now);
      ghost var values := ResultsValue(results);
      AppendAudit(D.AuditEvent(0, now, D.BatchApplied, actor, c, "", key, D.AppliedDetails(|items|)));
      forall i | 0 <= i < |results| ensures ResultsValue(results)[i] == values[i] {
        assert results[i].document.Value() == values[i].document;
      }
      assert ResultsValue(results) == values;
      var slice := ResultSlice(results);
      var none := FailureSlice([]);
      var res := new BatchResult(true, slice, none);
      assert ResultsValue(res.results[..]) == values;
      out := CopyBatch(res);
    }

    method BatchRun(c: string, items: seq<D.BatchItem>, actor: string, key: string, now: D.Time)
      returns (out: BatchResult?, err: Option<D.Error>)
      requires Valid()
      modifies this`history, this`audit, this`auditSeq, this`model, this`frozen, documents.Values
      ensures Valid() && fresh(frozen - old(frozen))
      ensures S.ExecBatch(old(model), c, items, actor, key, now) == S.Result(model, Answer(BatchRefOf(out), err))
      ensures fresh(BatchRefOf(out).Objects()) && Separate(BatchRefOf(out).Objects())
    {
      hide Valid, S.ExecBatch, S.Failures, S.RejectBatch, S.ApplyFrom, S.FinishBatch, S.AllPresent;
      Represents();
      BatchCases(model, c, items, actor, key, now);
      if c !in collections {
        out, err := null, Some(D.CollectionNotFound);
      } else {
        var failures := ValidateBatch(c, items);
        if failures != [] {
          out, err := RejectRun(c, items, failures, actor, key, now);
        } else {
          out := AcceptRun(c, items, actor, key, now);
          err := None;
        }
      }
    }

    method RunAndRememberBatch(c: string, items: seq<D.BatchItem>, actor: string, key: string, now: D.Time,
                               fp: D.Fingerprint)
      returns (out: BatchResult?, err: Option<D.Error>)
      requires Valid()
      requires var r := S.ExecBatch(model, c, items, actor, key, now).response;
               EntryTyped(D.IdemEntry(fp, r.err, r.value))
      modifies this`history, this`audit, this`auditSeq, this`idem, this`model, this`frozen, documents.Values
      ensures Valid() && fresh(frozen - old(frozen))
      ensures var r := S.ExecBatch(old(model), c, items, actor, key, now);
              model == S.Remember(r.state, key, fp, r.response) && r.response == Answer(BatchRefOf(out), err)
      ensures fresh(BatchRefOf(out).Objects()) && Separate(BatchRefOf(out).Objects())
    {
      hide Valid, S.ExecBatch, S.Remember, EntryTyped, Separate;
      out, err := BatchRun(c, items, actor, key, now);
      RememberResult(key, fp, err, BatchRefOf(out));
    }

    method ReplayBatch(key: string, fp: D.Fingerprint) returns (out: BatchResult?, err: Option<D.Error>)
      requires Valid() && key in idem && fp.BatchPrint?
      ensures key in model.idem && S.Replay(model.idem[key], key, fp) == Answer(BatchRefOf(out), err)
      ensures fresh(BatchRefOf(out).Objects()) && Separate(BatchRefOf(out).Objects())
    {
      assert EntryOk(idem[key], model.idem[key], frozen) && EntryTyped(model.idem[key]);
      hide Valid;
      var entry := idem[key];
      if entry.fingerprint != fp {
        out, err := null, Some(D.IdempotencyConflict(key));
      } else if entry.value.Nothing? {
        out, err := null, entry.err;
      } else {
        out := CopyBatch(entry.value.batch);
        err := entry.err;
      }
    }

    method BatchUpdateDocuments(c: string, items: seq<BatchItem>, actor: string, key: string, now: D.Time)
      returns (out: BatchResult?, err: Option<D.Error>)
      requires Valid()
      modifies this`history, this`audit, this`auditSeq, this`idem, this`model, this`frozen, documents.Values
      ensures Valid() && fresh(frozen - old(frozen))
      ensures S.Step(old(model), D.Event(D.BatchUpdate(c, old(ItemsValue(items)), actor, key), now, "")) ==
              S.Result(model, Answer(BatchRefOf(out), err))
      ensures fresh(BatchRefOf(out).Objects()) && Separate(BatchRefOf(out).Objects())
    {
      var vs := ItemsValue(items);
      var fp := D.BatchPrint(c, vs);
      hide Valid, S.Step, S.ExecBatch, S.Remember, EntryTyped, S.Replay, ItemsValue;
      StepIsKeyed(model, D.Event(D.BatchUpdate(c, vs, actor, key), now, ""));
      Represents();
      if vs == [] {
        out, err := null, Some(D.ValidationError("items", "must not be empty"));
      } else if key != "" && key in idem {
        out, err := ReplayBatch(key, fp);
      } else {
        out, err := RunAndRememberBatch(c, vs, actor, key, now, fp);
      }
    }

    // ---- Listings ----

    method ListDocuments(c: string, wanted: seq<string>, limit: int, ghost now: D.Time)
      returns (out: seq<DocumentStruct>, err: Option<D.Error>, ghost order: seq<string>)
      requires Valid()
      ensures err.Some? ==> S.Read(model, D.ListDocuments(c, wanted, limit, order), now) == D.Returned(None, err)
      ensures err.None? ==>
                && Enumerates(order, model.documents.Keys)
                && S.Read(model, D.ListDocuments(c, wanted, limit, order), now) ==
                   D.Returned(Some(D.DocumentsValue(StructsValue(out))), None)
      ensures forall x :: x in out ==> fresh(x.tags)
    {
      Represents();
      hide Valid, NormalizeTags, Enumerates, SortBy, S.Scan, S.FirstN, S.Read, StructsValue;
      out, err, order := [], None, [];
      if c !in collections {
        err := Some(D.CollectionNotFound);
      } else {
        var want := NormalizeSlice(wanted);
        out, order := ScanDocuments(documents, model.documents, c, want[..]);
        out := SortAndCut(out, S.Scan(model.documents, c, want[..], order), limit);
      }
      ReadListing(model, c, wanted, limit, order, now);
    }

    method ListCollections(ghost now: D.Time) returns (out: seq<D.Collection>, ghost order: seq<string>)
      requires Valid()
      ensures Enumerates(order, model.collections.Keys)
      ensures S.Read(model, D.ListCollections(order), now) == D.Returned(Some(D.CollectionsValue(out)), None)
    {
      Represents();
      hide Valid, Visiting, Enumerates, SortBy;
      out, order := [], [];
      var todo := collections.Keys;
      VisitStart(collections.Keys);
      while todo != {}
        invariant Visiting(collections.Keys, order, todo) && todo <= collections.Keys
        invariant out == S.InOrder(model.collections, order)
        decreases |todo|
      {
        var k :| k in todo;
        VisitNext(collections.Keys, order, todo, k);
        InOrderSnoc(model.collections, order, k);
        todo := todo - {k};
        order := order + [k];
        var col := collections[k];
        out := out + [D.Collection(col.id, col.name, col.description, col.createdAt)];
      }
      VisitDone(collections.Keys, order);
      out := SortBy(S.CollectionID, out);
    }

    method ListAuditEvents(f: D.AuditFilter, ghost now: D.Time) returns (out: seq<D.AuditEvent>)
      requires Valid()
      ensures S.Read(model, D.ListAuditEvents(f), now) == D.Returned(Some(D.AuditValue(out)), None)
    {
      assert audit == model.audit;
      hide Valid, S.MatchingEvents;
      out := FilterEvents(audit, f);
      out := S.LastN(out, f.limit);
    }
  }
}
