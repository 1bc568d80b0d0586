/** Listings do not depend on the order in which Go visits a map. */
module Listing {
  import opened Prelude
  import opened Batch
  import opened Domain
  import opened Frames
  import opened History
  import opened Keys
  import opened Sorting
  import opened Spec
  import opened Tags
  import opened Text

  // ---- Documents ----

  ghost predicate Listed(m: map<string, Document>, c: string, want: seq<string>, d: Document, keys: seq<string>) {
    exists k :: k in keys && k in m && Selected(k, m[k], c, want) && m[k] == d
  }

  lemma {:induction false} ScanMembers(m: map<string, Document>, c: string, want: seq<string>, order: seq<string>)
    ensures forall d :: d in Scan(m, c, want, order) <==> Listed(m, c, want, d, order)
  {
    hide Selected;
    if order != [] {
      var rest := order[1..];
      ScanMembers(m, c, want, rest);
      assert order == [order[0]] + rest;
      forall d ensures Listed(m, c, want, d, order) <==>
                       Listed(m, c, want, d, rest)
                       || (order[0] in m && Selected(order[0], m[order[0]], c, want) && m[order[0]] == d)
      {
        if Listed(m, c, want, d, order) {
          var k :| k in order && k in m && Selected(k, m[k], c, want) && m[k] == d;
          assert k == order[0] || k in rest;
        }
      }
    }
  }

  ghost predicate IDsDiffer(m: map<string, Document>, c: string, want: seq<string>) {
    forall k1, k2 | k1 in m && k2 in m && k1 != k2 && Selected(k1, m[k1], c, want) && Selected(k2, m[k2], c, want) ::
      m[k1].id != m[k2].id
  }

  lemma {:induction false} ScanDistinct(m: map<string, Document>, c: string, want: seq<string>, order: seq<string>)
    requires Distinct(order) && IDsDiffer(m, c, want)
    ensures KeysDistinct(DocumentID, Scan(m, c, want, order))
  {
    hide Selected;
    if order != [] {
      var k, rest := order[0], Scan(m, c, want, order[1..]);
      ScanDistinct(m, c, want, order[1..]);
      ScanMembers(m, c, want, order[1..]);
      if k in m && Selected(k, m[k], c, want) {
        forall j | 0 <= j < |rest| ensures DocumentID(m[k]) != DocumentID(rest[j]) {
          assert Listed(m, c, want, rest[j], order[1..]);
          var k2 :| k2 in order[1..] && k2 in m && Selected(k2, m[k2], c, want) && m[k2] == rest[j];
        }
      }
    }
  }

  // No registered id continues c behind a slash, or the other way round.
  ghost predicate Alone(s: State, c: string) {
    forall o :: o in s.collections ==> !Nested(o, c) && !Nested(c, o)
  }

  /** Slash-free ids are never nested. */
  lemma {:induction false} SlashFreeIsAlone(s: State, c: string)
    requires SlashFreeCollections(s) && SlashFree(c)
    ensures Alone(s, c)
  {
    forall o | o in s.collections ensures !Nested(o, c) && !Nested(c, o) {
      NestedHasSlash(o, c);
      NestedHasSlash(c, o);
    }
  }

  // Then the scan selects by the stored collection and tags.
  lemma {:induction false} SelectedByFields(s: State, c: string, tags: seq<string>, k: string)
    requires Consistent(s) && Alone(s, c) && k in s.documents
    ensures Selected(k, s.documents[k], c, NormalizeTags(tags)) <==>
              s.documents[k].collectionID == c && forall t :: t in TagSet(tags) ==> t in s.documents[k].tags
  {
    var d := s.documents[k];
    assert CompleteAt(s, k);
    PrefixExactly(c, d.collectionID, d.id);
    NormalizeTagsCollects(tags);
    hide DocumentKey, Complete, Normalized, NormalizeTags, TagSet;
  }

  lemma {:induction false} SelectedDiffer(s: State, c: string, tags: seq<string>)
    requires Consistent(s) && Alone(s, c)
    ensures IDsDiffer(s.documents, c, NormalizeTags(tags))
  {
    forall k | k in s.documents {
      SelectedByFields(s, c, tags, k);
    }
    hide DocumentKey, CompleteAt, NormalizeTags, TagSet, Selected;
  }

  // The documents a listing should hold.
  ghost predicate Wanted(s: State, c: string, tags: seq<string>, d: Document) {
    && (exists k :: k in s.documents && s.documents[k] == d)
    && d.collectionID == c
    && forall t :: t in TagSet(tags) ==> t in d.tags
  }

  /**
   With no nested collection a listing holds exactly the documents of the collection that carry
   all wanted tags, strictly ascending by id; a limit keeps the first so many.
   */
  lemma {:induction false} ListingCorrect(s: State, c: string, tags: seq<string>, limit: int, order: seq<string>)
    requires Consistent(s) && Alone(s, c) && Enumerates(order, s.documents.Keys)
    ensures var full := Spec.Listing(s, c, tags, 0, order);
            && (forall d :: d in full <==> Wanted(s, c, tags, d))
            && StrictlyAscending(DocumentID, full)
            && Spec.Listing(s, c, tags, limit, order) == if 0 < limit < |full| then full[..limit] else full
  {
    var found := Scan(s.documents, c, NormalizeTags(tags), order);
    var full := Spec.Listing(s, c, tags, 0, order);
    SelectedDiffer(s, c, tags);
    ScanDistinct(s.documents, c, NormalizeTags(tags), order);
    SortByStrict(DocumentID, found);
    ScanMembers(s.documents, c, NormalizeTags(tags), order);
    hide Consistent, Alone, NormalizeTags, TagSet, Selected, SortBy, StrictlyAscending;
    forall d ensures d in full <==> Wanted(s, c, tags, d) {
      assert d in full <==> d in multiset(full);
      ListedIsWanted(s, c, tags, order, d);
    }
  }

  lemma {:induction false} ListedIsWanted(s: State, c: string, tags: seq<string>, order: seq<string>, d: Document)
    requires Consistent(s) && Alone(s, c) && Enumerates(order, s.documents.Keys)
    ensures Listed(s.documents, c, NormalizeTags(tags), d, order) <==> Wanted(s, c, tags, d)
  {
    forall k | k in s.documents {
      SelectedByFields(s, c, tags, k);
    }
    hide Consistent, Alone, NormalizeTags, TagSet, Selected;
    if Wanted(s, c, tags, d) {
      var k :| k in s.documents && s.documents[k] == d;
      assert k in order;
    }
  }

  /** So the answer is the same whatever order the map is visited in. */
  lemma {:induction false} ListingDeterministic(s: State, c: string, tags: seq<string>, limit: int, o1: seq<string>,
                                                o2: seq<string>)
    requires Consistent(s) && Alone(s, c)
    requires Enumerates(o1, s.documents.Keys) && Enumerates(o2, s.documents.Keys)
    ensures Spec.Listing(s, c, tags, limit, o1) == Spec.Listing(s, c, tags, limit, o2)
  {
    hide Consistent, Alone, Spec.Listing, Wanted, StrictlyAscending;
    ListingCorrect(s, c, tags, limit, o1);
    ListingCorrect(s, c, tags, limit, o2);
    StrictlyAscendingUnique(DocumentID, Spec.Listing(s, c, tags, 0, o1), Spec.Listing(s, c, tags, 0, o2));
  }

  // ---- When listings go astray ----

  // No listing of c depends on the order in which the documents are visited.
  ghost predicate OrderFree(s: State, c: string) {
    forall tags, limit, o1, o2 :: Enumerates(o1, s.documents.Keys) && Enumerates(o2, s.documents.Keys) ==>
      Spec.Listing(s, c, tags, limit, o1) == Spec.Listing(s, c, tags, limit, o2)
  }

  // No listing of c holds a document of another collection.
  ghost predicate OwnOnly(s: State, c: string) {
    forall tags, limit, o, d :: Enumerates(o, s.documents.Keys) && d in Spec.Listing(s, c, tags, limit, o) ==>
      d.collectionID == c
  }

  lemma {:induction false} AloneIsFaithful(s: State, c: string)
    requires Consistent(s) && Alone(s, c)
    ensures OrderFree(s, c) && OwnOnly(s, c)
  {
    hide Consistent, Alone, Spec.Listing, Enumerates;
    forall tags, limit, o1, o2 | Enumerates(o1, s.documents.Keys) && Enumerates(o2, s.documents.Keys)
      ensures Spec.Listing(s, c, tags, limit, o1) == Spec.Listing(s, c, tags, limit, o2)
    {
      ListingDeterministic(s, c, tags, limit, o1, o2);
    }
    forall tags, limit, o, d | Enumerates(o, s.documents.Keys) && d in Spec.Listing(s, c, tags, limit, o)
      ensures d.collectionID == c
    {
      ListingCorrect(s, c, tags, limit, o);
      assert d in Spec.Listing(s, c, tags, 0, o) && Wanted(s, c, tags, d);
    }
  }

  // Longer than every key and every tag.
  lemma {:induction false} LongerThanAll(m: map<string, Document>) returns (n: nat)
    ensures forall k :: k in m ==> |k| < n && forall t :: t in m[k].tags ==> |t| < n
    decreases |m.Keys|
  {
    if k :| k in m {
      var rest := m - {k};
      SmallerSet(rest.Keys, m.Keys);
      n := LongerThanAll(rest);
      var l := LongerThanTags(m[k].tags);
      n := n + |k| + l + 1;
      forall j | j in m ensures |j| < n && forall t :: t in m[j].tags ==> |t| < n {
        assert j != k ==> j in rest && rest[j] == m[j];
      }
    } else {
      n := 0;
    }
  }

  lemma {:induction false} LongerThanTags(tags: seq<string>) returns (n: nat)
    ensures forall t :: t in tags ==> |t| < n
  {
    if tags == [] {
      n := 0;
    } else {
      var rest := LongerThanTags(tags[1..]);
      n := rest + |tags[0]| + 1;
      assert tags == [tags[0]] + tags[1..];
    }
  }

  function MakeTagged(c: string, d: string, tag: string): Event {
    Event(CreateDocument(c, d, "x", "", Some([tag]), "", ""), 0, "")
  }

  lemma {:induction false} TaggedStep(s: State, c: string, d: string, tag: string)
    requires c in s.collections && d != "" && DocumentKey(c, d) !in s.documents && tag != "" && Trimmed(tag)
    ensures var s' := Step(s, MakeTagged(c, d, tag)).state;
            && s'.collections == s.collections
            && s'.documents == s.documents[DocumentKey(c, d) := Document(d, c, "x", "", [tag], 1, 0, 0)]
  {
    TrimSpaceFixes("x");
    assert Normalized([tag]);
    NormalizeTagsFixpoint([tag]);
    StepOf(s, MakeTagged(c, d, tag));
    hide Step, DocumentKey, NormalizeTags, TrimSpace, Normalized;
  }

  lemma {:induction false} ScanNothing(m: map<string, Document>, c: string, want: seq<string>, order: seq<string>)
    requires forall k :: k in order && k in m ==> !Selected(k, m[k], c, want)
    ensures Scan(m, c, want, order) == []
  {
    hide Selected;
    if order != [] {
      assert order == [order[0]] + order[1..];
      ScanNothing(m, c, want, order[1..]);
    }
  }

  // Two documents with one id, alone with their tag, are listed in the order in which they are visited.
  lemma {:induction false} TieIsListed(s: State, c: string, tag: string, k1: string, k2: string, others: seq<string>)
    requires k1 in s.documents && k2 in s.documents && s.documents[k1].id == s.documents[k2].id
    requires HasPrefix(k1, c + "/") && HasPrefix(k2, c + "/")
    requires s.documents[k1].tags == s.documents[k2].tags == [tag]
    requires forall k :: k in others && k in s.documents ==> tag !in s.documents[k].tags
    requires tag != "" && Trimmed(tag)
    ensures Spec.Listing(s, c, [tag], 0, [k1, k2] + others) == [s.documents[k1], s.documents[k2]]
  {
    var m, order, d1, d2 := s.documents, [k1, k2] + others, s.documents[k1], s.documents[k2];
    assert Normalized([tag]);
    NormalizeTagsFixpoint([tag]);
    forall k | k in others && k in m ensures !Selected(k, m[k], c, [tag]) {
      assert tag in [tag];
    }
    ScanNothing(m, c, [tag], others);
    assert Selected(k1, d1, c, [tag]) && Selected(k2, d2, c, [tag]);
    hide Selected, NormalizeTags, Normalized, Trimmed, Less;
    assert order[1..] == [k2] + others && order[1..][1..] == others;
    assert Scan(m, c, [tag], order) == [d1] + ([d2] + []);
    LessIrreflexive(d1.id);
    assert SortBy(DocumentID, [d2]) == [d2];
    assert SortBy(DocumentID, [d1, d2]) == InsertBy(DocumentID, d1, [d2]) == [d1] + [d2];
  }

  // Keys and an id that make a tie in c, one of two nested collections.
  lemma {:induction false} TiedKeys(c: string, outer: string, inner: string, z: string) returns (id: string)
    requires Nested(outer, inner) && (c == outer || c == inner)
    ensures HasPrefix(DocumentKey(outer, id), c + "/") && HasPrefix(DocumentKey(inner, id), c + "/")
    ensures |z| <= |id| && DocumentKey(outer, id) != DocumentKey(inner, id)
  {
    var rest := inner[|outer| + 1..];
    assert inner == outer + "/" + rest;
    id := if c == outer then z else rest + "/" + z;
    assert DocumentKey(inner, id) == DocumentKey(outer, rest + "/" + id);
    if c == inner {
      assert DocumentKey(outer, id) == DocumentKey(inner, z);
    }
    assert |DocumentKey(outer, id)| < |DocumentKey(inner, id)|;
  }

  // Documents of two collections with one id, the only ones with their tag.
  ghost predicate TieAt(s: State, tag: string, k1: string, k2: string) {
    && k1 in s.documents && k2 in s.documents && k1 != k2
    && s.documents[k1].id == s.documents[k2].id && s.documents[k1].collectionID != s.documents[k2].collectionID
    && s.documents[k1].tags == s.documents[k2].tags == [tag]
    && forall k :: k in s.documents && k != k1 && k != k2 ==> tag !in s.documents[k].tags
  }

  // Free keys in both collections and a tag that no document has.
  ghost predicate Unused(s: State, outer: string, inner: string, id: string, tag: string) {
    && outer != inner && id != "" && tag != "" && Trimmed(tag) && DocumentKey(outer, id) != DocumentKey(inner, id)
    && DocumentKey(outer, id) !in s.documents && DocumentKey(inner, id) !in s.documents
    && forall k :: k in s.documents ==> tag !in s.documents[k].tags
  }

  lemma {:induction false} FreshTag(m: map<string, Document>) returns (z: string)
    ensures z != "" && Trimmed(z) && forall k :: k in m ==> |k| < |z| && z !in m[k].tags
  {
    var n := LongerThanAll(m);
    z := seq(n + 1, i => 'z');
    assert z[0] == 'z' && z[|z| - 1] == 'z';
  }

  lemma {:induction false} FreshTie(s: State, c: string, outer: string, inner: string) returns (id: string, tag: string)
    requires Nested(outer, inner) && (c == outer || c == inner)
    ensures Unused(s, outer, inner, id, tag)
    ensures HasPrefix(DocumentKey(outer, id), c + "/") && HasPrefix(DocumentKey(inner, id), c + "/")
  {
    assert |outer| < |inner|;
    hide *;
    tag := FreshTag(s.documents);
    id := TiedKeys(c, outer, inner, tag);
    KeysAreLonger(outer, id);
    KeysAreLonger(inner, id);
    UnusedIf(s, outer, inner, id, tag);
  }

  lemma {:induction false} UnusedIf(s: State, outer: string, inner: string, id: string, tag: string)
    requires outer != inner && tag != "" && Trimmed(tag) && DocumentKey(outer, id) != DocumentKey(inner, id)
    requires |tag| <= |id| < |DocumentKey(outer, id)| && |id| < |DocumentKey(inner, id)|
    requires forall k :: k in s.documents ==> |k| < |tag| && tag !in s.documents[k].tags
    ensures Unused(s, outer, inner, id, tag)
  {
    hide DocumentKey, Trimmed;
  }

  lemma {:induction false} TieIsMade(s: State, outer: string, inner: string, id: string, tag: string)
    requires outer in s.collections && inner in s.collections && Unused(s, outer, inner, id, tag)
    ensures TieAt(Step(Step(s, MakeTagged(outer, id, tag)).state, MakeTagged(inner, id, tag)).state, tag,
                  DocumentKey(outer, id), DocumentKey(inner, id))
  {
    hide Trimmed, DocumentKey, Step;
    TaggedStep(s, outer, id, tag);
    TaggedStep(Step(s, MakeTagged(outer, id, tag)).state, inner, id, tag);
  }

  // Such a tie shows the order, and one of its documents is of another collection.
  lemma {:induction false} TieShows(s: State, c: string, tag: string, k1: string, k2: string)
    requires TieAt(s, tag, k1, k2) && tag != "" && Trimmed(tag)
    requires HasPrefix(k1, c + "/") && HasPrefix(k2, c + "/")
    ensures !OrderFree(s, c) && !OwnOnly(s, c)
  {
    var keys := s.documents.Keys;
    var others := EnumerationOf(keys - {k1, k2});
    assert Enumerates([k1, k2] + others, keys) && Enumerates([k2, k1] + others, keys);
    hide Spec.Listing, HasPrefix, Trimmed, Enumerates;
    TieIsListed(s, c, tag, k1, k2, others);
    TieIsListed(s, c, tag, k2, k1, others);
    var d1, d2 := s.documents[k1], s.documents[k2];
    assert [d1, d2][0] != [d2, d1][0];
    assert d1 in [d1, d2] && d2 in [d1, d2];
  }

  // Two creations lead from nested collections to a listing that depends on the order and holds a foreign document.
  lemma {:induction false} NestedListsForeign(s: State, c: string, outer: string, inner: string)
    returns (more: seq<Event>)
    requires outer in s.collections && inner in s.collections && Nested(outer, inner) && (c == outer || c == inner)
    ensures NoRegistrations(more) && !OrderFree(Run(s, more), c) && !OwnOnly(Run(s, more), c)
  {
    hide *;
    var id, z := FreshTie(s, c, outer, inner);
    TieIsMade(s, outer, inner, id, z);
    more := [MakeTagged(outer, id, z), MakeTagged(inner, id, z)];
    MakesNoRegistrations(outer, inner, id, z);
    RunTwo(s, more);
    UnusedTag(s, outer, inner, id, z);
    TieShows(Run(s, more), c, z, DocumentKey(outer, id), DocumentKey(inner, id));
  }

  lemma {:induction false} UnusedTag(s: State, outer: string, inner: string, id: string, tag: string)
    requires Unused(s, outer, inner, id, tag)
    ensures tag != "" && Trimmed(tag)
  {
  }

  lemma {:induction false} MakesNoRegistrations(outer: string, inner: string, d: string, tag: string)
    ensures NoRegistrations([MakeTagged(outer, d, tag), MakeTagged(inner, d, tag)])
  {
  }

  lemma {:induction false} RunTwo(s: State, es: seq<Event>)
    requires |es| == 2
    ensures Run(s, es) == Step(Step(s, es[0]).state, es[1]).state
  {
    hide Step;
    assert es[1..] == [es[1]] && [es[1]][1..] == [];
    RunNothing(Step(Step(s, es[0]).state, es[1]).state, []);
    assert Run(s, es) == Run(Step(s, es[0]).state, [es[1]]);
  }

  lemma {:induction false} KeysAreLonger(c: string, d: string)
    ensures |d| < |DocumentKey(c, d)|
  {
  }

  /**
   Exactly when listings can be trusted: a listing of c can come to depend on the order in which the
   map is visited, or to hold a document of another collection, iff some registered id is nested with c.
   */
  lemma {:induction false} ListingFaithfulIffAlone(es: seq<Event>, c: string)
    requires c in Run(INIT, es).collections
    ensures Alone(Run(INIT, es), c) <==> forall more :: NoRegistrations(more) ==> OrderFree(Run(INIT, es + more), c)
    ensures Alone(Run(INIT, es), c) <==> forall more :: NoRegistrations(more) ==> OwnOnly(Run(INIT, es + more), c)
  {
    hide Run, Consistent, OrderFree, OwnOnly, NoRegistrations, Nested;
    var s := Run(INIT, es);
    if Alone(s, c) {
      forall more | NoRegistrations(more)
        ensures OrderFree(Run(INIT, es + more), c) && OwnOnly(Run(INIT, es + more), c)
      {
        InitConsistent();
        HistoryIsReplay(INIT, es + more, "");
        RunConcat(INIT, es, more);
        RunRegistersNothing(s, more);
        AloneIsFaithful(Run(INIT, es + more), c);
      }
    } else {
      var o :| o in s.collections && (Nested(o, c) || Nested(c, o));
      var more;
      if Nested(o, c) {
        more := NestedListsForeign(s, c, o, c);
      } else {
        more := NestedListsForeign(s, c, c, o);
      }
      RunConcat(INIT, es, more);
    }
  }

  // ---- Collections ----

  lemma {:induction false} InOrderMembers(m: map<string, Collection>, order: seq<string>)
    requires Distinct(order) && forall k :: k in m ==> m[k].id == k
    ensures forall x :: x in InOrder(m, order) <==> x.id in order && x.id in m && m[x.id] == x
    ensures KeysDistinct(CollectionID, InOrder(m, order))
  {
    if order != [] {
      InOrderMembers(m, order[1..]);
      assert order == [order[0]] + order[1..];
      var rest := InOrder(m, order[1..]);
      forall j | 0 <= j < |rest| ensures rest[j].id != order[0] {
        assert rest[j] in rest;
      }
    }
  }

  /** Listing collections gives every registered one, strictly ascending by id, in any visiting order. */
  lemma {:induction false} CollectionsCorrect(s: State, order: seq<string>)
    requires Consistent(s) && Enumerates(order, s.collections.Keys)
    ensures var out := SortBy(CollectionID, InOrder(s.collections, order));
            && (forall x :: x in out <==> x.id in s.collections && s.collections[x.id] == x)
            && StrictlyAscending(CollectionID, out)
  {
    var found := InOrder(s.collections, order);
    InOrderMembers(s.collections, order);
    SortByStrict(CollectionID, found);
    hide KeysMatch, CompleteAt, SortBy, InOrder;
    forall x ensures x in SortBy(CollectionID, found) <==> x in found {
      assert x in SortBy(CollectionID, found) <==> x in multiset(SortBy(CollectionID, found));
    }
  }
}
