/**
 How the maps of objects that the service keeps represent maps of values, and the work it does
 on one object, one entry or one loop round.
 */
module Representation {
  import opened Prelude
  import opened Frames
  import opened Heap
  import opened Idempotency
  import opened Keys
  import opened Sorting
  import opened Tags
  import opened Text
  import D = Domain
  import S = Spec

  ghost predicate CollectionsOk(cs: map<string, Collection>, m: map<string, D.Collection>, frozen: set<object>)
    reads frozen
  {
    && cs.Keys == m.Keys
    && forall k :: k in cs ==> cs[k] in frozen && cs[k].Value() == m[k]
  }

  ghost predicate DocumentsOk(ds: map<string, Document>, m: map<string, D.Document>, frozen: set<object>)
    reads ds.Values, frozen
  {
    && ds.Keys == m.Keys
    && forall k :: k in ds ==> ds[k].tags in frozen && ds[k].Value() == m[k]
  }

  ghost predicate RevisionsOk(h: seq<Revision>, m: seq<D.Revision>, frozen: set<object>)
    reads frozen
  {
    && |h| == |m|
    && forall i :: 0 <= i < |h| ==> h[i].tags in frozen && h[i].Value() == m[i]
  }

  ghost predicate HistoryOk(h: map<string, seq<Revision>>, m: map<string, seq<D.Revision>>, frozen: set<object>)
    reads frozen
  {
    && h.Keys == m.Keys
    && forall k :: k in h ==> RevisionsOk(h[k], m[k], frozen)
  }

  ghost predicate LocksOk(ls: map<string, Lock>, m: map<string, D.Lock>)
    reads ls.Values
  {
    && ls.Keys == m.Keys
    && forall k :: k in ls ==> ls[k].Value() == m[k]
  }

  ghost predicate EntryOk(e: IdemEntry, m: D.IdemEntry, frozen: set<object>)
    reads frozen
  {
    && e.value.Roots() <= frozen && e.value.Arrays() <= frozen && e.value.Cells() <= frozen
       && e.value.Objects() <= frozen
    && m == D.IdemEntry(e.fingerprint, e.err, e.value.Value())
  }

  ghost predicate IdemOk(idem: map<string, IdemEntry>, m: map<string, D.IdemEntry>, frozen: set<object>)
    reads frozen
  {
    && idem.Keys == m.Keys
    && forall k :: k in idem ==> EntryOk(idem[k], m[k], frozen)
  }

  // Documents and locks change in place, so none of them is frozen.
  ghost predicate Live(ds: map<string, Document>, frozen: set<object>) {
    forall k :: k in ds ==> ds[k] !in frozen
  }

  ghost predicate Unlocked(ls: map<string, Lock>, frozen: set<object>) {
    forall k :: k in ls ==> ls[k] !in frozen
  }

  // Different keys hold different objects.
  ghost predicate Apart<T>(m: map<string, T>) {
    forall j, k :: j in m && k in m && j != k ==> m[j] != m[k]
  }

  // Freezing more objects keeps every representation.
  lemma {:induction false} FreezeMore(cs: map<string, Collection>, ds: map<string, Document>,
                                      h: map<string, seq<Revision>>, idem: map<string, IdemEntry>, m: S.State,
                                      f: set<object>, g: set<object>)
    requires f <= g
    ensures CollectionsOk(cs, m.collections, f) ==> CollectionsOk(cs, m.collections, g)
    ensures DocumentsOk(ds, m.documents, f) ==> DocumentsOk(ds, m.documents, g)
    ensures HistoryOk(h, m.history, f) ==> HistoryOk(h, m.history, g)
    ensures IdemOk(idem, m.idem, f) ==> IdemOk(idem, m.idem, g)
  {
  }

  // In-place patch of one document.
  method PatchDocument(doc: Document, p: D.Patch, now: D.Time)
    modifies doc
    ensures doc.Value() == S.ApplyPatch(old(doc.Value()), p, now)
    ensures doc.tags == old(doc.tags) || fresh(doc.tags)
  {
    if p.title.Some? {
      doc.title := p.title.value;
    }
    if p.content.Some? {
      doc.content := p.content.value;
    }
    if p.tags.Some? {
      var normalized := NormalizeSlice(p.tags.value);
      doc.tags := normalized;
    }
    doc.version := doc.version + 1;
    doc.updatedAt := now;
  }

  // The same on a document stored among others.
  method PatchStored(ghost ds: map<string, Document>, ghost m: map<string, D.Document>, ghost frozen: set<object>,
                     ghost k: string, doc: Document, p: D.Patch, now: D.Time)
    requires DocumentsOk(ds, m, frozen) && Live(ds, frozen) && Apart(ds)
    requires k in ds && ds[k] == doc
    modifies doc
    ensures k in m && doc.Value() == S.ApplyPatch(m[k], p, now)
    ensures doc.tags in frozen || fresh(doc.tags)
    ensures DocumentsOk(ds, m[k := doc.Value()], frozen + {doc.tags})
  {
    assert doc.tags in frozen && doc.Value() == m[k];
    PatchDocument(doc, p, now);
    hide S.ApplyPatch;
  }

  // ---- The prologue that every keyed write shares ----

  ghost function Keyed(s: S.State, key: string, fp: D.Fingerprint, invalid: Option<D.Error>, run: S.Result): S.Result
    requires run.response.Returned?
  {
    if invalid.Some? then S.Failed(s, invalid.value)
    else if key != "" && key in s.idem then S.Result(s, S.Replay(s.idem[key], key, fp))
    else S.Result(S.Remember(run.state, key, fp, run.response), run.response)
  }

  lemma {:induction false} StepIsKeyed(s: S.State, e: D.Event)
    requires S.IsWrite(e.req)
    ensures S.Step(s, e) ==
            Keyed(s, e.req.key, S.Fingerprinted(e.req), S.Validate(e.req), S.Execute(s, e.req, e.now, e.freshID))
    ensures var r := S.Execute(s, e.req, e.now, e.freshID).response;
            EntryTyped(D.IdemEntry(S.Fingerprinted(e.req), r.err, r.value))
  {
    ExecuteTyped(s, e.req, e.now, e.freshID);
    hide S.Execute, S.Validate, S.Fingerprinted, S.Replay;
  }

  // Extends one lock among others.
  method ExtendStored(ghost ls: map<string, Lock>, ghost m: map<string, D.Lock>, ghost k: string, lock: Lock,
                      expiresAt: D.Time)
    requires LocksOk(ls, m) && Apart(ls) && k in ls && ls[k] == lock
    modifies lock
    ensures k in m && lock.Value() == m[k].(expiresAt := expiresAt, renewCount := m[k].renewCount + 1)
    ensures LocksOk(ls, m[k := lock.Value()])
  {
    assert lock.Value() == m[k];
    lock.expiresAt := expiresAt;
    lock.renewCount := lock.renewCount + 1;
  }

  lemma {:induction false} ReadListing(s: S.State, c: string, wanted: seq<string>, limit: int, order: seq<string>,
                                       now: D.Time)
    ensures S.Read(s, D.ListDocuments(c, wanted, limit, order), now) ==
            if c !in s.collections then D.Returned(None, Some(D.CollectionNotFound))
            else D.Returned(Some(D.DocumentsValue(
              S.FirstN(SortBy(S.DocumentID, S.Scan(s.documents, c, NormalizeTags(wanted), order)), limit))), None)
  {
    hide NormalizeTags, SortBy, S.Scan, S.FirstN;
  }

  lemma {:induction false} MatchingStep(audit: seq<D.AuditEvent>, f: D.AuditFilter, i: nat)
    requires i < |audit|
    ensures S.MatchingEvents(audit[i..], f) ==
            (if Passes(audit[i], f) then [audit[i]] else []) + S.MatchingEvents(audit[i + 1..], f)
  {
    hide S.Matches, Passes;
    assert audit[i..][0] == audit[i] && audit[i..][1..] == audit[i + 1..];
  }

  method FilterEvents(audit: seq<D.AuditEvent>, f: D.AuditFilter) returns (out: seq<D.AuditEvent>)
    ensures out == S.MatchingEvents(audit, f)
  {
    out := [];
    assert audit[0..] == audit;
    for i := 0 to |audit|
      invariant out + S.MatchingEvents(audit[i..], f) == S.MatchingEvents(audit, f)
    {
      hide Passes, S.MatchingEvents;
      MatchingStep(audit, f, i);
      if Passes(audit[i], f) {
        out := out + [audit[i]];
      }
    }
    assert out + [] == out;
  }

  method MatchesFilter(k: string, doc: Document, c: string, want: seq<string>) returns (yes: bool)
    ensures yes == S.Selected(k, doc.Value(), c, want)
  {
    if !HasPrefix(k, c + "/") {
      yes := false;
    } else if |want| > 0 {
      yes := HasAllTags(doc.tags, want);
    } else {
      yes := true;
    }
  }

  // The scan of the document map, in whatever order it is visited.
  method ScanDocuments(ds: map<string, Document>, ghost m: map<string, D.Document>, c: string, want: seq<string>)
    returns (found: seq<DocumentStruct>, ghost order: seq<string>)
    requires ds.Keys == m.Keys && forall k :: k in ds ==> ds[k].Value() == m[k]
    ensures Enumerates(order, m.Keys)
    ensures StructCopies(found, S.Scan(m, c, want, order))
    ensures forall x :: x in found ==> fresh(x.tags)
  {
    hide S.Selected, Visiting, Enumerates, S.Scan;
    found, order := [], [];
    var todo := ds.Keys;
    VisitStart(ds.Keys);
    ScanNone(m, c, want);
    while todo != {}
      invariant Visiting(ds.Keys, order, todo) && todo <= ds.Keys
      invariant StructCopies(found, S.Scan(m, c, want, order))
      invariant forall x :: x in found ==> fresh(x.tags)
      decreases |todo|
    {
      var k :| k in todo;
      VisitNext(ds.Keys, order, todo, k);
      ScanSnoc(m, c, want, order, k);
      todo := todo - {k};
      order := order + [k];
      var selected := MatchesFilter(k, ds[k], c, want);
      if selected {
        var copied := ds[k].CloneStruct();
        found := found + [copied];
      }
    }
    VisitDone(ds.Keys, order);
  }

  method SortAndCut(found: seq<DocumentStruct>, ghost vs: seq<D.Document>, limit: int)
    returns (out: seq<DocumentStruct>)
    requires StructCopies(found, vs)
    ensures StructsValue(out) == S.FirstN(SortBy(S.DocumentID, vs), limit)
    ensures forall x :: x in out ==> x in found
  {
    SortCopies(found, vs);
    hide SortBy;
    out := S.FirstN(SortBy(StructID, found), limit);
    assert StructsValue(out) == S.FirstN(SortBy(S.DocumentID, vs), limit);
  }

  // The chain of skips in the audit listing.
  predicate Passes(e: D.AuditEvent, f: D.AuditFilter)
    ensures Passes(e, f) == S.Matches(e, f)
  {
    if f.collectionID != "" && e.collectionID != f.collectionID then false
    else if f.documentID != "" && e.documentID != f.documentID then false
    else if f.actor != "" && e.actor != f.actor then false
    else if f.kind.Some? && e.kind != f.kind.value then false
    else if f.minSequence > 0 && e.sequence < f.minSequence then false
    else true
  }

  function StructID(d: DocumentStruct): string { d.id }

  ghost function StructSlices(ds: seq<DocumentStruct>): set<array<string>> {
    set i | 0 <= i < |ds| :: ds[i].tags
  }

  ghost function StructsValue(ds: seq<DocumentStruct>): seq<D.Document>
    reads StructSlices(ds)
  {
    seq(|ds|, i requires 0 <= i < |ds| reads StructSlices(ds) => ds[i].Value())
  }

  ghost predicate StructCopies(ds: seq<DocumentStruct>, vs: seq<D.Document>)
    reads StructSlices(ds)
  {
    |ds| == |vs| && forall i :: 0 <= i < |ds| ==> ds[i].Value() == vs[i]
  }

  lemma {:induction false} ScanNone(m: map<string, D.Document>, c: string, want: seq<string>)
    ensures S.Scan(m, c, want, []) == []
  {
  }

  lemma {:induction false} ScanSnoc(m: map<string, D.Document>, c: string, want: seq<string>, order: seq<string>,
                                    k: string)
    ensures S.Scan(m, c, want, order + [k]) ==
            S.Scan(m, c, want, order) + if k in m && S.Selected(k, m[k], c, want) then [m[k]] else []
  {
    hide S.Selected;
    if order == [] {
      assert order + [k] == [k] && [k][1..] == [];
    } else {
      assert (order + [k])[0] == order[0] && (order + [k])[1..] == order[1..] + [k];
      ScanSnoc(m, c, want, order[1..], k);
    }
  }

  lemma {:induction false} InOrderSnoc(m: map<string, D.Collection>, order: seq<string>, k: string)
    ensures S.InOrder(m, order + [k]) == S.InOrder(m, order) + if k in m then [m[k]] else []
  {
    if order == [] {
      assert order + [k] == [k] && [k][1..] == [];
    } else {
      var rest := order[1..];
      var first, last := if order[0] in m then [m[order[0]]] else [], if k in m then [m[k]] else [];
      calc {
        S.InOrder(m, order + [k]);
        { assert (order + [k])[0] == order[0] && (order + [k])[1..] == rest + [k]; }
        first + S.InOrder(m, rest + [k]);
        { InOrderSnoc(m, rest, k); }
        first + (S.InOrder(m, rest) + last);
        first + S.InOrder(m, rest) + last;
        S.InOrder(m, order) + last;
      }
    }
  }

  lemma {:induction false} InsertCopies(d: DocumentStruct, v: D.Document, ds: seq<DocumentStruct>, vs: seq<D.Document>)
    requires d.Value() == v && StructCopies(ds, vs)
    ensures StructCopies(InsertBy(StructID, d, ds), InsertBy(S.DocumentID, v, vs))
    ensures forall x :: x in InsertBy(StructID, d, ds) ==> x == d || x in ds
  {
    if ds != [] && Less(ds[0].id, d.id) {
      InsertCopies(d, v, ds[1..], vs[1..]);
    }
  }

  // Sorting structs sorts the values they stand for.
  lemma {:induction false} SortCopies(ds: seq<DocumentStruct>, vs: seq<D.Document>)
    requires StructCopies(ds, vs)
    ensures StructCopies(SortBy(StructID, ds), SortBy(S.DocumentID, vs))
    ensures forall x :: x in SortBy(StructID, ds) ==> x in ds
  {
    if ds != [] {
      SortCopies(ds[1..], vs[1..]);
      InsertCopies(ds[0], vs[0], SortBy(StructID, ds[1..]), SortBy(S.DocumentID, vs[1..]));
    }
  }

  // What a caller sees, as a response of the specification.
  ghost function Answer(r: Ref, err: Option<D.Error>): D.Response
    reads r.Roots(), r.Arrays(), r.Cells(), r.Objects()
  {
    D.Returned(r.Value(), err)
  }

  function BatchRefOf(out: BatchResult?): Ref {
    if out == null then Nothing else BatchRef(out)
  }

  lemma {:induction false} FailuresStep(s: S.State, c: string, items: seq<D.BatchItem>, i: nat, seen: map<string, nat>)
    requires i < |items|
    ensures var failure := S.ItemFailure(s, c, items[i], seen);
            S.FailuresFrom(s, c, items, i, seen) ==
            (if failure.Some? then [D.BatchItemFailure(i, items[i].documentID, failure.value)] else [])
            + S.FailuresFrom(s, c, items, i + 1, S.Record(items[i], i, seen))
  {
    hide S.ItemFailure;
  }

  lemma {:induction false} FailuresEnd(s: S.State, c: string, items: seq<D.BatchItem>, seen: map<string, nat>)
    ensures S.FailuresFrom(s, c, items, |items|, seen) == []
  {
  }

  // The branches of a batch.
  lemma {:induction false} BatchCases(s: S.State, c: string, items: seq<D.BatchItem>, actor: string, key: string,
                                      now: D.Time)
    ensures c !in s.collections ==> S.ExecBatch(s, c, items, actor, key, now) == S.Failed(s, D.CollectionNotFound)
    ensures c in s.collections && S.Failures(s, c, items) != [] ==>
              S.ExecBatch(s, c, items, actor, key, now) == S.RejectBatch(s, c, items, actor, key, now)
    ensures c in s.collections && S.Failures(s, c, items) == [] ==>
              && S.AllPresent(s, c, items)
              && var a := S.ApplyFrom(s, c, items, 0, actor, now);
                 S.ExecBatch(s, c, items, actor, key, now) ==
                   S.FinishBatch(a.state, c, items, a.results, actor, key, now)
  {
    if S.Failures(s, c, items) == [] {
      S.NoFailuresAllPresent(s, c, items, 0, map[]);
    }
    hide S.Failures, S.RejectBatch, S.ApplyFrom, S.FinishBatch;
  }

  // Finishing the apply loop from item i on top of the results so far.
  ghost function Rest(s: S.State, c: string, items: seq<D.BatchItem>, i: nat, actor: string, now: D.Time,
                      so: seq<D.BatchItemResult>): S.Applied
    requires i <= |items| && S.AllPresent(s, c, items)
  {
    var rest := S.ApplyFrom(s, c, items, i, actor, now);
    S.Applied(rest.state, so + rest.results)
  }

  lemma {:induction false} RestStep(s: S.State, c: string, items: seq<D.BatchItem>, i: nat, actor: string,
                                    now: D.Time, so: seq<D.BatchItemResult>)
    requires i < |items| && S.AllPresent(s, c, items)
    ensures DocumentKey(c, items[i].documentID) in s.documents
    ensures var k, s' := DocumentKey(c, items[i].documentID), S.ApplyItem(s, c, items[i], actor, now);
            && S.AllPresent(s', c, items) && k in s'.documents
            && Rest(s', c, items, i + 1, actor, now, so + [D.BatchItemResult(i, s'.documents[k])]) ==
               Rest(s, c, items, i, actor, now, so)
  {
    ItemKeepsPresent(s, c, items, i, actor, now);
    hide DocumentKey, S.ApplyItem;
  }

  lemma {:induction false} RestDone(s: S.State, c: string, items: seq<D.BatchItem>, actor: string, now: D.Time,
                                    so: seq<D.BatchItemResult>)
    requires S.AllPresent(s, c, items)
    ensures Rest(s, c, items, |items|, actor, now, so) == S.Applied(s, so)
    ensures so == [] ==> Rest(s, c, items, 0, actor, now, so) == S.ApplyFrom(s, c, items, 0, actor, now)
  {
    hide DocumentKey, S.ApplyItem;
  }

  // The results built so far stand for these values.
  ghost predicate Copies(rs: seq<ItemResult>, vs: seq<D.BatchItemResult>)
    reads Documents(rs), Slices(rs)
  {
    |rs| == |vs| && forall j :: 0 <= j < |rs| ==> vs[j] == D.BatchItemResult(rs[j].index, rs[j].document.Value())
  }

  // The branches of acquiring; without a live lock the grant starts from the table without it.
  lemma {:induction false} AcquireCases(s: S.State, c: string, d: string, holder: string, ttl: D.Duration,
                                        actor: string, key: string, now: D.Time)
    ensures var k := DocumentKey(c, d);
            S.ExecAcquire(s, c, d, holder, ttl, actor, key, now) ==
            if S.LookupError(s, c, d).Some? then S.Failed(s, S.LookupError(s, c, d).value)
            else if k !in s.locks || s.locks[k].IsExpired(now) then
              S.Granted(S.WithoutLock(s, k), c, d, holder, ttl, actor, key, now)
            else if s.locks[k].holder != holder
              then S.Failed(s, D.LockConflict(d, s.locks[k].holder, s.locks[k].expiresAt))
            else S.Renewed(s, c, d, ttl, actor, key, now)
  {
    hide DocumentKey, S.LookupError;
    var k := DocumentKey(c, d);
    if k !in s.locks {
      assert s.locks - {k} == s.locks;
    }
  }

  // A loop over a map: the keys in order have been visited, those in todo have not.
  ghost predicate Visiting(keys: set<string>, order: seq<string>, todo: set<string>) {
    && Distinct(order)
    && (forall k :: k in keys <==> k in order || k in todo)
    && (forall k :: k in todo ==> k !in order)
  }

  lemma {:induction false} VisitStart(keys: set<string>)
    ensures Visiting(keys, [], keys)
  {
  }

  lemma {:induction false} VisitNext(keys: set<string>, order: seq<string>, todo: set<string>, k: string)
    requires Visiting(keys, order, todo) && k in todo
    ensures Visiting(keys, order + [k], todo - {k})
  {
  }

  lemma {:induction false} VisitDone(keys: set<string>, order: seq<string>)
    requires Visiting(keys, order, {})
    ensures Enumerates(order, keys)
  {
  }

  lemma {:induction false} ReapSnoc(s: S.State, order: seq<string>, k: string, now: D.Time)
    ensures S.Reap(s, order + [k], now) == S.ReapKey(S.Reap(s, order, now), k, now)
    ensures S.ReapedIDs(s, order + [k], now) == S.ReapedIDs(s, order, now) + S.ReapedID(S.Reap(s, order, now), k, now)
    decreases |order|
  {
    hide S.ReapKey, S.ReapedID;
    if order == [] {
      assert order + [k] == [k] && [k][1..] == [];
    } else {
      assert (order + [k])[0] == order[0] && (order + [k])[1..] == order[1..] + [k];
      ReapSnoc(S.ReapKey(s, order[0], now), order[1..], k, now);
    }
  }

  ghost function CollectionAnswer(out: Collection?, err: Option<D.Error>): D.Response
    reads out
  {
    D.Returned(if out == null then None else Some(D.CollectionValue(out.Value())), err)
  }

  ghost function LockAnswer(out: Lock?, err: Option<D.Error>): D.Response
    reads out
  {
    D.Returned(if out == null then None else Some(D.LockValue(out.Value())), err)
  }

  function LockRefOf(out: Lock?): Ref {
    if out == null then Nothing else LockRef(out)
  }

  lemma {:induction false} CollectionPut(cs: map<string, Collection>, m: map<string, D.Collection>,
                                         frozen: set<object>, id: string, col: Collection)
    requires CollectionsOk(cs, m, frozen) && col in frozen
    ensures CollectionsOk(cs[id := col], m[id := col.Value()], frozen)
  {
  }

  lemma {:induction false} LockPut(ls: map<string, Lock>, m: map<string, D.Lock>, frozen: set<object>, k: string,
                                   lock: Lock)
    requires LocksOk(ls, m) && Unlocked(ls, frozen) && Apart(ls)
    requires lock !in frozen && Unlocked(ls, {lock})
    ensures LocksOk(ls[k := lock], m[k := lock.Value()]) && Unlocked(ls[k := lock], frozen) && Apart(ls[k := lock])
  {
  }

  lemma {:induction false} LockDrop(ls: map<string, Lock>, m: map<string, D.Lock>, frozen: set<object>, k: string)
    requires LocksOk(ls, m) && Unlocked(ls, frozen) && Apart(ls)
    ensures LocksOk(ls - {k}, m - {k}) && Unlocked(ls - {k}, frozen) && Apart(ls - {k})
  {
  }

  function SliceValue(tags: Option<array<string>>): Option<seq<string>>
    reads if tags.Some? then {tags.value} else {}
  {
    if tags.Some? then Some(tags.value[..]) else None
  }

  function DocumentRefOf(out: Document?): Ref {
    if out == null then Nothing else DocumentRef(out)
  }

  ghost function RevisionSlices(revs: seq<Revision>): set<array<string>> {
    set i | 0 <= i < |revs| :: revs[i].tags
  }

  ghost function RevisionsValue(revs: seq<Revision>): seq<D.Revision>
    reads RevisionSlices(revs)
  {
    seq(|revs|, i requires 0 <= i < |revs| reads RevisionSlices(revs) => revs[i].Value())
  }

  // What a caller of a document operation sees, as a response of the specification.
  ghost function DocumentAnswer(out: Document?, err: Option<D.Error>): D.Response
    reads out, if out == null then {} else {out.tags}
  {
    D.Returned(if out == null then None else Some(D.DocumentValue(out.Value())), err)
  }

  lemma {:induction false} DocumentPut(ds: map<string, Document>, m: map<string, D.Document>, frozen: set<object>,
                                       k: string, doc: Document)
    requires DocumentsOk(ds, m, frozen) && Live(ds, frozen) && Apart(ds)
    requires doc.tags in frozen && doc !in frozen && Live(ds, {doc})
    ensures DocumentsOk(ds[k := doc], m[k := doc.Value()], frozen) && Live(ds[k := doc], frozen) && Apart(ds[k := doc])
  {
  }

  method CloneEntry(fp: D.Fingerprint, err: Option<D.Error>, value: Ref) returns (e: IdemEntry, ghost objs: set<object>)
    ensures fresh(objs)
    ensures EntryOk(e, D.IdemEntry(fp, err, old(value.Value())), objs)
  {
    var copied := value.Clone();
    CellsAreObjects(copied);
    e, objs := IdemEntry(fp, err, copied), copied.Objects();
  }

  lemma {:induction false} CellsAreObjects(r: Ref)
    ensures r.Roots() <= r.Objects() && r.Arrays() <= r.Objects() && r.Cells() <= r.Objects()
  {
  }

  lemma {:induction false} EntryFrozen(e: IdemEntry, m: D.IdemEntry, f: set<object>, g: set<object>)
    requires EntryOk(e, m, f) && f <= g
    ensures EntryOk(e, m, g)
  {
  }

  lemma {:induction false} IdemPut(idem: map<string, IdemEntry>, m: map<string, D.IdemEntry>, frozen: set<object>,
                                   k: string, e: IdemEntry, v: D.IdemEntry)
    requires IdemOk(idem, m, frozen) && EntryOk(e, v, frozen)
    ensures IdemOk(idem[k := e], m[k := v], frozen)
  {
    hide EntryOk;
  }

  lemma {:induction false} HistoryPut(h: map<string, seq<Revision>>, m: map<string, seq<D.Revision>>,
                                      frozen: set<object>, k: string, rev: Revision)
    requires HistoryOk(h, m, frozen) && rev.tags in frozen
    ensures HistoryOk(h[k := (if k in h then h[k] else []) + [rev]],
                      m[k := (if k in m then m[k] else []) + [rev.Value()]], frozen)
  {
  }
}
