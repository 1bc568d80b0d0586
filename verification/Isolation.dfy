/** Callers and the service share no memory: what a caller writes between calls cannot be seen. */
module Isolation {
  import opened Prelude
  import opened Heap
  import opened Representation
  import opened ServiceImpl
  import opened Sorting
  import D = Domain
  import S = Spec

  /**
   Whatever happens to objects the service does not hold, the service stays valid and stands
   for the same state, so no later answer changes.
   */
  twostate lemma {:induction false} CallerWritesAreInvisible(svc: Service, objs: set<object>)
    requires old(svc.Valid()) && old(svc.Separate(objs))
    requires forall o: object :: old(allocated(o)) && o !in objs ==> unchanged(o)
    ensures svc.Valid() && svc.model == old(svc.model)
  {
  }

  // ---- Calls made by a caller that owns memory ----

  // The objects that in-place changes may hit.
  ghost function Held(svc: Service): set<object>
    reads svc
  {
    svc.documents.Values + svc.locks.Values
  }

  // The call that was made in state s: as asked for, in some order that goes over all of the map it ranges over.
  ghost predicate SameCall(asked: D.Event, made: D.Event, s: S.State) {
    && made == asked.(req := made.req)
    && match asked.req
       case ReapExpiredLocks(_) => made.req.ReapExpiredLocks? && Enumerates(made.req.order, s.locks.Keys)
       case ListCollections(_) => made.req.ListCollections? && Enumerates(made.req.order, s.collections.Keys)
       case ListDocuments(c, wanted, limit, _) =>
         && made.req.ListDocuments? && made.req == D.ListDocuments(c, wanted, limit, made.req.order)
         && (c in s.collections ==> Enumerates(made.req.order, s.documents.Keys))
       case _ => made == asked
  }

  lemma {:induction false} FreshIDUnused(s: S.State, e: D.Event)
    requires !e.req.RegisterCollection? && !e.req.CreateDocument?
    ensures S.Step(s, e) == S.Step(s, D.Event(e.req, e.now, ""))
  {
    hide S.Fingerprinted, S.Validate, S.Remember, S.Replay, S.ExecUpdate, S.ExecBatch, S.ExecAcquire, S.ExecRenew,
         S.ExecRelease, S.ExecReap, S.Read;
  }

  lemma {:induction false} ReadStep(s: S.State, e: D.Event)
    requires !S.IsWrite(e.req) && !e.req.ReapExpiredLocks?
    ensures S.Step(s, e) == S.Result(s, S.Read(s, e.req, e.now))
  {
    hide S.Read;
  }

  lemma {:induction false} ReapStep(s: S.State, e: D.Event)
    requires e.req.ReapExpiredLocks?
    ensures S.Step(s, e) == S.ExecReap(s, e.req.order, e.now)
  {
    hide S.ExecReap;
  }

  // Request slices are the caller's own memory.
  method BuildSlice(tags: seq<string>) returns (a: array<string>)
    ensures fresh(a) && a[..] == tags
  {
    a := new string[|tags|](i requires 0 <= i < |tags| => tags[i]);
  }

  method BuildPatch(p: D.Patch) returns (q: Patch)
    ensures q.Value() == p && fresh(q.Slice())
  {
    if p.tags.Some? {
      var a := BuildSlice(p.tags.value);
      q := Patch(p.title, p.content, Some(a));
    } else {
      q := Patch(p.title, p.content, None);
    }
  }

  method BuildItems(items: seq<D.BatchItem>) returns (built: seq<BatchItem>)
    ensures ItemsValue(built) == items && fresh(ItemSlices(built))
  {
    if items == [] {
      built := [];
    } else {
      var p := BuildPatch(items[0].patch);
      var rest := BuildItems(items[1..]);
      built := [BatchItem(items[0].documentID, items[0].expectedVersion, p, items[0].reason)] + rest;
      assert built[1..] == rest && p.Value() == items[0].patch;
    }
  }

  // A call of a caller that owns mine: its answer r, and all it has been handed or has passed in.
  method CallCreate(svc: Service, e: D.Event, ghost mine: set<object>)
    returns (ghost r: D.Response, ghost objs: set<object>)
    requires svc.Valid() && svc.Separate(mine) && e.req.CreateDocument?
    modifies svc
    ensures svc.Valid() && fresh(objs) && svc.Separate(mine + objs) && fresh(Held(svc) - old(Held(svc)))
    ensures S.Step(old(svc.model), e) == S.Result(svc.model, r)
  {
    hide S.Step, Service.Valid;
    var tags: Option<array<string>> := None;
    if e.req.tags.Some? {
      var a := BuildSlice(e.req.tags.value);
      tags := Some(a);
    }
    var out, err := svc.CreateDocument(e.req.collectionID, e.req.id, e.req.title, e.req.content, tags, e.req.actor,
                                       e.req.key,
                                       e.now, e.freshID);
    r := DocumentAnswer(out, err);
    objs := (if out == null then {} else {out, out.tags}) + (if tags.None? then {} else {tags.value});
  }

  // The patch and the batch items hold slices of the caller.
  method UpdateWith(svc: Service, e: D.Event, patch: Patch, ghost mine: set<object>)
    returns (ghost r: D.Response, ghost objs: set<object>)
    requires svc.Valid() && svc.Separate(mine) && e.freshID == "" && e.req.UpdateDocument?
             && patch.Value() == e.req.patch
    modifies svc, svc.documents.Values
    ensures svc.Valid() && fresh(objs) && svc.Separate(mine) && svc.Separate(objs) && Held(svc) == old(Held(svc))
    ensures S.Step(old(svc.model), e) == S.Result(svc.model, r)
  {
    hide S.Step, Service.Valid;
    var out, err := svc.UpdateDocument(e.req.collectionID, e.req.documentID, e.req.expectedVersion, patch, e.req.actor,
                                       e.req.reason, e.req.key, e.now);
    r := DocumentAnswer(out, err);
    objs := if out == null then {} else {out, out.tags};
  }

  method CallUpdate(svc: Service, e: D.Event, ghost mine: set<object>)
    returns (ghost r: D.Response, ghost objs: set<object>)
    requires svc.Valid() && svc.Separate(mine) && e.freshID == "" && e.req.UpdateDocument?
    modifies svc, svc.documents.Values
    ensures svc.Valid() && fresh(objs) && svc.Separate(mine + objs) && Held(svc) == old(Held(svc))
    ensures S.Step(old(svc.model), e) == S.Result(svc.model, r)
  {
    hide S.Step, Service.Valid;
    var patch := BuildPatch(e.req.patch);
    r, objs := UpdateWith(svc, e, patch, mine + patch.Slice());
    objs := objs + patch.Slice();
  }

  method BatchWith(svc: Service, e: D.Event, items: seq<BatchItem>, ghost mine: set<object>)
    returns (ghost r: D.Response, ghost objs: set<object>)
    requires svc.Valid() && svc.Separate(mine) && e.freshID == "" && e.req.BatchUpdate?
             && ItemsValue(items) == e.req.items
    modifies svc, svc.documents.Values
    ensures svc.Valid() && fresh(objs) && svc.Separate(mine) && svc.Separate(objs) && Held(svc) == old(Held(svc))
    ensures S.Step(old(svc.model), e) == S.Result(svc.model, r)
  {
    hide S.Step, Service.Valid;
    var out, err := svc.BatchUpdateDocuments(e.req.collectionID, items, e.req.actor, e.req.key, e.now);
    r := Answer(BatchRefOf(out), err);
    objs := BatchRefOf(out).Objects();
  }

  method CallBatch(svc: Service, e: D.Event, ghost mine: set<object>)
    returns (ghost r: D.Response, ghost objs: set<object>)
    requires svc.Valid() && svc.Separate(mine) && e.freshID == "" && e.req.BatchUpdate?
    modifies svc, svc.documents.Values
    ensures svc.Valid() && fresh(objs) && svc.Separate(mine + objs) && Held(svc) == old(Held(svc))
    ensures S.Step(old(svc.model), e) == S.Result(svc.model, r)
  {
    hide S.Step, Service.Valid;
    var items := BuildItems(e.req.items);
    r, objs := BatchWith(svc, e, items, mine + ItemSlices(items));
    objs := objs + ItemSlices(items);
  }

  method CallRegister(svc: Service, e: D.Event, ghost mine: set<object>)
    returns (ghost r: D.Response, ghost objs: set<object>)
    requires svc.Valid() && svc.Separate(mine) && e.req.RegisterCollection?
    modifies svc
    ensures svc.Valid() && fresh(objs) && svc.Separate(mine + objs) && fresh(Held(svc) - old(Held(svc)))
    ensures S.Step(old(svc.model), e) == S.Result(svc.model, r)
  {
    hide S.Step, Service.Valid;
    var out, err := svc.RegisterCollection(e.req.id, e.req.name, e.req.description, e.req.actor, e.req.key, e.now,
                                           e.freshID);
    r := CollectionAnswer(out, err);
    objs := if out == null then {} else {out};
  }

  method CallLock(svc: Service, e: D.Event, ghost mine: set<object>)
    returns (ghost r: D.Response, ghost objs: set<object>)
    requires svc.Valid() && svc.Separate(mine) && e.freshID == ""
    requires e.req.AcquireLock? || e.req.RenewLock? || e.req.ReleaseLock?
    modifies svc, svc.locks.Values
    ensures svc.Valid() && fresh(objs) && svc.Separate(mine) && svc.Separate(objs) && fresh(Held(svc) - old(Held(svc)))
    ensures S.Step(old(svc.model), e) == S.Result(svc.model, r)
  {
    hide S.Step, Service.Valid;
    var out: Lock?, err := null, None;
    if e.req.AcquireLock? {
      out, err := svc.AcquireLock(e.req.collectionID, e.req.documentID, e.req.holder, e.req.ttl, e.req.actor,
                                  e.req.key, e.now);
    } else if e.req.RenewLock? {
      out, err := svc.RenewLock(e.req.collectionID, e.req.documentID, e.req.holder, e.req.ttl, e.req.actor, e.req.key,
                                e.now);
    } else {
      err := svc.ReleaseLock(e.req.collectionID, e.req.documentID, e.req.holder, e.req.actor, e.req.key, e.now);
    }
    r := LockAnswer(out, err);
    objs := if out == null then {} else {out};
  }

  method CallReap(svc: Service, e: D.Event, ghost mine: set<object>) returns (ghost made: D.Event, ghost r: D.Response)
    requires svc.Valid() && svc.Separate(mine) && e.req.ReapExpiredLocks?
    modifies svc
    ensures svc.Valid() && svc.Separate(mine) && fresh(Held(svc) - old(Held(svc)))
    ensures SameCall(e, made, old(svc.model)) && S.Step(old(svc.model), made) == S.Result(svc.model, r)
  {
    hide S.Step, Service.Valid;
    ghost var was := svc.model;
    var reaped, order := svc.ReapExpiredLocks(e.now);
    made := e.(req := D.ReapExpiredLocks(order));
    r := D.Returned(Some(D.ReapedValue(reaped)), None);
    ReapStep(was, made);
  }

  method CallRead(svc: Service, e: D.Event) returns (ghost made: D.Event, ghost r: D.Response, ghost objs: set<object>)
    requires svc.Valid() && !S.IsWrite(e.req) && !e.req.ReapExpiredLocks?
    ensures svc.Valid() && fresh(objs) && svc.Separate(objs)
    ensures SameCall(e, made, svc.model) && S.Step(svc.model, made) == S.Result(svc.model, r)
  {
    hide S.Step, S.Read, Service.Valid;
    made, objs := e, {};
    match e.req {
      case GetCollection(id) =>
        var out, err := svc.GetCollection(id, e.now);
        r, objs := CollectionAnswer(out, err), if out == null then {} else {out};
      case GetDocument(c, d) =>
        var out, err := svc.GetDocument(c, d, e.now);
        r, objs := DocumentAnswer(out, err), if out == null then {} else {out, out.tags};
      case GetLock(c, d) =>
        var out, err := svc.GetLock(c, d, e.now);
        r, objs := LockAnswer(out, err), if out == null then {} else {out};
      case GetDocumentHistory(c, d) =>
        var out, err := svc.GetDocumentHistory(c, d, e.now);
        r := if err.Some? then D.Returned(None, err) else D.Returned(Some(D.HistoryValue(RevisionsValue(out))), None);
        objs := RevisionSlices(out);
      case ListDocuments(c, wanted, limit, _) =>
        var out, err, order := svc.ListDocuments(c, wanted, limit, e.now);
        made := e.(req := D.ListDocuments(c, wanted, limit, order));
        ReadListing(svc.model, c, wanted, limit, order, e.now);
        r := if err.Some? then D.Returned(None, err) else D.Returned(Some(D.DocumentsValue(StructsValue(out))), None);
        objs := StructSlices(out);
      case ListCollections(_) =>
        var out, order := svc.ListCollections(e.now);
        made := e.(req := D.ListCollections(order));
        r := D.Returned(Some(D.CollectionsValue(out)), None);
      case ListAuditEvents(f) =>
        var out := svc.ListAuditEvents(f, e.now);
        r := D.Returned(Some(D.AuditValue(out)), None);
    }
    ReadStep(svc.model, made);
  }

  // Any call at all.
  method Call(svc: Service, e: D.Event, ghost mine: set<object>)
    returns (ghost made: D.Event, ghost r: D.Response, ghost objs: set<object>)
    requires svc.Valid() && svc.Separate(mine)
    modifies svc, svc.documents.Values, svc.locks.Values
    ensures svc.Valid() && fresh(objs) && svc.Separate(mine + objs) && fresh(Held(svc) - old(Held(svc)))
    ensures SameCall(e, made, old(svc.model)) && S.Step(old(svc.model), made) == S.Result(svc.model, r)
  {
    hide S.Step, Service.Valid;
    made, objs := e, {};
    var plain := D.Event(e.req, e.now, "");
    if !e.req.RegisterCollection? && !e.req.CreateDocument? {
      FreshIDUnused(svc.model, e);
    }
    if e.req.RegisterCollection? {
      r, objs := CallRegister(svc, e, mine);
    } else if e.req.CreateDocument? {
      r, objs := CallCreate(svc, e, mine);
    } else if e.req.UpdateDocument? {
      r, objs := CallUpdate(svc, plain, mine);
    } else if e.req.BatchUpdate? {
      r, objs := CallBatch(svc, plain, mine);
    } else if e.req.ReapExpiredLocks? {
      made, r := CallReap(svc, e, mine);
    } else if e.req.AcquireLock? || e.req.RenewLock? || e.req.ReleaseLock? {
      r, objs := CallLock(svc, plain, mine);
    } else {
      made, r, objs := CallRead(svc, e);
    }
  }

  // The caller writes whatever it likes to whatever it owns.
  method WriteAnything(svc: Service, ghost mine: set<object>)
    requires svc.Valid() && svc.Separate(mine)
    modifies mine
    ensures svc.Valid() && svc.model == old(svc.model) && svc.Separate(mine) && Held(svc) == old(Held(svc))
  {
    modify mine;
  }

  /**
   A session: any calls in any order, and after each of them arbitrary writes to everything the
   caller passed in or was ever handed. The service answers, and ends, as if nothing was written.
   */
  method Session(svc: Service, calls: seq<D.Event>, ghost mine: set<object>)
    returns (ghost made: seq<D.Event>, ghost answers: seq<D.Response>)
    requires svc.Valid() && svc.Separate(mine)
    modifies svc, svc.documents.Values, svc.locks.Values, mine
    ensures svc.Valid()
    ensures |made| == |calls|
    ensures forall i :: 0 <= i < |calls| ==> SameCall(calls[i], made[i], S.Run(old(svc.model), made[..i]))
    ensures svc.model == S.Run(old(svc.model), made)
    ensures answers == S.Responses(old(svc.model), made)
  {
    hide S.Step, Service.Valid, Service.Separate, SameCall;
    made, answers := [], [];
    ghost var owned := mine;
    for i := 0 to |calls|
      invariant svc.Valid() && svc.Separate(owned)
      invariant fresh(owned - mine) && fresh(Held(svc) - old(Held(svc)))
      invariant |made| == i && forall j :: 0 <= j < i ==> SameCall(calls[j], made[j], S.Run(old(svc.model), made[..j]))
      invariant svc.model == S.Run(old(svc.model), made) && answers == S.Responses(old(svc.model), made)
    {
      ghost var e, r, objs;
      e, r, objs := Call(svc, calls[i], owned);
      S.RunConcat(old(svc.model), made, [e]);
      assert forall j :: 0 <= j < i ==> (made + [e])[..j] == made[..j];
      assert (made + [e])[..i] == made;
      made, answers, owned := made + [e], answers + [r], owned + objs;
      WriteAnything(svc, owned);
    }
  }
}
