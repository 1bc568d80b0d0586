/** The mutable objects of the service: what Go reaches through pointers and slices. */
module Heap {
  import opened Prelude
  import D = Domain

  method CloneStrings(a: array<string>) returns (b: array<string>)
    ensures fresh(b) && b[..] == a[..]
  {
    b := new string[a.Length](i requires 0 <= i < a.Length reads a => a[i]);
  }

  class Collection {
    var id: string
    var name: string
    var description: string
    var createdAt: D.Time

    constructor (id: string, name: string, description: string, createdAt: D.Time)
      ensures Value() == D.Collection(id, name, description, createdAt)
    {
      this.id, this.name, this.description, this.createdAt := id, name, description, createdAt;
    }

    ghost function Value(): D.Collection
      reads this
    {
      D.Collection(id, name, description, createdAt)
    }

    method Clone() returns (c: Collection)
      ensures fresh(c) && c.Value() == Value()
    {
      c := new Collection(id, name, description, createdAt);
    }
  }

  class Lock {
    var documentID: string
    var holder: string
    var acquiredAt: D.Time
    var expiresAt: D.Time
    var renewCount: int

    constructor (documentID: string, holder: string, acquiredAt: D.Time, expiresAt: D.Time, renewCount: int)
      ensures Value() == D.Lock(documentID, holder, acquiredAt, expiresAt, renewCount)
    {
      this.documentID, this.holder := documentID, holder;
      this.acquiredAt, this.expiresAt, this.renewCount := acquiredAt, expiresAt, renewCount;
    }

    ghost function Value(): D.Lock
      reads this
    {
      D.Lock(documentID, holder, acquiredAt, expiresAt, renewCount)
    }

    predicate IsExpired(now: D.Time)
      reads this
      ensures IsExpired(now) == Value().IsExpired(now)
    {
      !(now < expiresAt)
    }

    method Clone() returns (c: Lock)
      ensures fresh(c) && c.Value() == Value()
    {
      c := new Lock(documentID, holder, acquiredAt, expiresAt, renewCount);
    }
  }

  class Document {
    var id: string
    var collectionID: string
    var title: string
    var content: string
    var tags: array<string>
    var version: int
    var createdAt: D.Time
    var updatedAt: D.Time

    constructor (id: string, collectionID: string, title: string, content: string, tags: array<string>, version: int,
                 createdAt: D.Time, updatedAt: D.Time)
      ensures this.tags == tags
      ensures Value() == D.Document(id, collectionID, title, content, tags[..], version, createdAt, updatedAt)
    {
      this.id, this.collectionID, this.title, this.content := id, collectionID, title, content;
      this.tags, this.version, this.createdAt, this.updatedAt := tags, version, createdAt, updatedAt;
    }

    ghost function Value(): D.Document
      reads this, tags
    {
      D.Document(id, collectionID, title, content, tags[..], version, createdAt, updatedAt)
    }

    // A deep copy: the tags are copied too.
    method Clone() returns (c: Document)
      ensures fresh(c) && fresh(c.tags) && c.Value() == Value()
    {
      var copied := CloneStrings(tags);
      c := new Document(id, collectionID, title, content, copied, version, createdAt, updatedAt);
    }

    method CloneStruct() returns (c: DocumentStruct)
      ensures fresh(c.tags) && c.Value() == Value()
    {
      var copied := CloneStrings(tags);
      c := DocumentStruct(id, collectionID, title, content, copied, version, createdAt, updatedAt);
    }
  }

  // A document as a struct held by value in a slice; only its tags are shared memory.
  datatype DocumentStruct = DocumentStruct(
    id: string, collectionID: string, title: string, content: string, tags: array<string>,
    version: int, createdAt: D.Time, updatedAt: D.Time)
  {
    ghost function Value(): D.Document
      reads tags
    {
      D.Document(id, collectionID, title, content, tags[..], version, createdAt, updatedAt)
    }
  }

  // A revision, held the same way.
  datatype Revision = Revision(
    version: int, title: string, content: string, tags: array<string>,
    actor: string, reason: string, modifiedAt: D.Time)
  {
    ghost function Value(): D.Revision
      reads tags
    {
      D.Revision(version, title, content, tags[..], actor, reason, modifiedAt)
    }

    method Clone() returns (c: Revision)
      ensures fresh(c.tags) && c.Value() == Value()
    {
      var copied := CloneStrings(tags);
      c := this.(tags := copied);
    }
  }

  method CloneRevisions(revs: seq<Revision>) returns (out: seq<Revision>)
    ensures |out| == |revs|
    ensures forall i :: 0 <= i < |out| ==> fresh(out[i].tags) && out[i].Value() == revs[i].Value()
  {
    out := [];
    for i := 0 to |revs|
      invariant |out| == i
      invariant forall j :: 0 <= j < i ==> fresh(out[j].tags) && out[j].Value() == revs[j].Value()
    {
      var c := revs[i].Clone();
      out := out + [c];
    }
  }

  datatype ItemResult = ItemResult(index: nat, document: Document)

  ghost function Documents(rs: seq<ItemResult>): set<Document> {
    set i | 0 <= i < |rs| :: rs[i].document
  }

  ghost function Slices(rs: seq<ItemResult>): set<array<string>>
    reads Documents(rs)
  {
    set i | 0 <= i < |rs| :: rs[i].document.tags
  }

  ghost function ResultsValue(rs: seq<ItemResult>): seq<D.BatchItemResult>
    reads Documents(rs), Slices(rs)
  {
    seq(|rs|, i requires 0 <= i < |rs| reads Documents(rs), Slices(rs) =>
        D.BatchItemResult(rs[i].index, rs[i].document.Value()))
  }

  method ResultSlice(rs: seq<ItemResult>) returns (a: array<ItemResult>)
    ensures fresh(a) && a[..] == rs
  {
    a := new ItemResult[|rs|](i requires 0 <= i < |rs| => rs[i]);
  }

  method FailureSlice(fs: seq<D.BatchItemFailure>) returns (a: array<D.BatchItemFailure>)
    ensures fresh(a) && a[..] == fs
  {
    a := new D.BatchItemFailure[|fs|](i requires 0 <= i < |fs| => fs[i]);
  }

  class BatchResult {
    var applied: bool
    var results: array<ItemResult>
    var failures: array<D.BatchItemFailure>

    constructor (applied: bool, results: array<ItemResult>, failures: array<D.BatchItemFailure>)
      ensures this.applied == applied && this.results == results && this.failures == failures
    {
      this.applied, this.results, this.failures := applied, results, failures;
    }

    ghost function Value(): D.BatchResult
      reads this, results, failures, Documents(results[..]), Slices(results[..])
    {
      D.BatchResult(applied, ResultsValue(results[..]), failures[..])
    }

    // A deep copy: both slices, the documents and their tags are copied.
    method Clone() returns (c: BatchResult)
      ensures fresh(c) && fresh(c.results) && fresh(c.failures)
      ensures fresh(Documents(c.results[..])) && fresh(Slices(c.results[..]))
      ensures c.Value() == old(Value())
    {
      ghost var was := results[..];
      var rs: seq<ItemResult> := [];
      for i := 0 to results.Length
        invariant |rs| == i && results[..] == was
        invariant forall j :: 0 <= j < i ==> fresh(rs[j].document) && fresh(rs[j].document.tags)
        invariant forall j :: 0 <= j < i ==>
                    rs[j].index == was[j].index && rs[j].document.Value() == was[j].document.Value()
      {
        var d := results[i].document.Clone();
        rs := rs + [ItemResult(results[i].index, d)];
      }
      var rSlice := ResultSlice(rs);
      var fSlice := FailureSlice(failures[..]);
      c := new BatchResult(applied, rSlice, fSlice);
      assert ResultsValue(rs) == ResultsValue(was);
    }
  }

  // What the idempotency cache keeps: a pointer of some type, or nil.
  datatype Ref =
    | Nothing
    | CollectionRef(collection: Collection)
    | DocumentRef(document: Document)
    | LockRef(lock: Lock)
    | BatchRef(batch: BatchResult)
  {
    ghost function Roots(): set<object> {
      match this
      case Nothing => {}
      case CollectionRef(c) => {c}
      case DocumentRef(d) => {d}
      case LockRef(l) => {l}
      case BatchRef(b) => {b}
    }

    ghost function Arrays(): set<object>
      reads Roots()
    {
      match this
      case BatchRef(b) => {b, b.results, b.failures}
      case _ => Roots()
    }

    ghost function Cells(): set<object>
      reads Roots(), Arrays()
    {
      match this
      case BatchRef(b) => {b, b.results, b.failures} + Documents(b.results[..])
      case _ => Roots()
    }

    // Everything reachable.
    ghost function Objects(): set<object>
      reads Roots(), Arrays(), Cells()
    {
      match this
      case DocumentRef(d) => {d, d.tags}
      case BatchRef(b) => {b, b.results, b.failures} + Documents(b.results[..]) + Slices(b.results[..])
      case _ => Roots()
    }

    ghost function Value(): Option<D.Value>
      reads Roots(), Arrays(), Cells(), Objects()
    {
      match this
      case Nothing => None
      case CollectionRef(c) => Some(D.CollectionValue(c.Value()))
      case DocumentRef(d) => Some(D.DocumentValue(d.Value()))
      case LockRef(l) => Some(D.LockValue(l.Value()))
      case BatchRef(b) => Some(D.BatchValue(b.Value()))
    }

    // A copy that shares nothing with the original.
    method Clone() returns (c: Ref)
      ensures fresh(c.Objects()) && c.Value() == old(Value())
    {
      match this
      case Nothing => c := Nothing;
      case CollectionRef(x) => var y := x.Clone(); c := CollectionRef(y);
      case DocumentRef(x) => var y := x.Clone(); c := DocumentRef(y);
      case LockRef(x) => var y := x.Clone(); c := LockRef(y);
      case BatchRef(x) => var y := x.Clone(); c := BatchRef(y);
    }
  }

  datatype IdemEntry = IdemEntry(fingerprint: D.Fingerprint, err: Option<D.Error>, value: Ref)

  // Request payloads arrive with slices that belong to the caller.
  datatype Patch = Patch(title: Option<string>, content: Option<string>, tags: Option<array<string>>)
  {
    function Slice(): set<array<string>> {
      if tags.Some? then {tags.value} else {}
    }

    function Value(): D.Patch
      reads Slice()
    {
      D.Patch(title, content, if tags.Some? then Some(tags.value[..]) else None)
    }
  }

  datatype BatchItem = BatchItem(documentID: string, expectedVersion: int, patch: Patch, reason: string)

  function ItemSlices(items: seq<BatchItem>): set<array<string>> {
    if items == [] then {} else items[0].patch.Slice() + ItemSlices(items[1..])
  }

  function ItemsValue(items: seq<BatchItem>): (vs: seq<D.BatchItem>)
    reads ItemSlices(items)
    ensures |vs| == |items|
  {
    if items == [] then []
    else
      [D.BatchItem(items[0].documentID, items[0].expectedVersion, items[0].patch.Value(), items[0].reason)]
      + ItemsValue(items[1..])
  }
}
