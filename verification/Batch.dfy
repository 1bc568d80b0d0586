/** Atomic batches: exact rejection, refinement of single updates, independence of item order. */
module Batch {
  import opened Prelude
  import opened Domain
  import opened Frames
  import opened Idempotency
  import opened Keys
  import opened Sorting
  import opened Spec
  import opened Tags

  // ---- Which items fail ----

  // Item j is the one recorded as seen for document d.
  ghost predicate Records(items: seq<BatchItem>, j: nat, d: string) {
    j < |items| && items[j].documentID == d && items[j].expectedVersion >= 1
  }

  ghost predicate HasEarlier(items: seq<BatchItem>, i: nat, d: string) {
    exists j: nat :: j < i && Records(items, j, d)
  }

  // Why item i is refused, stated without the loop.
  ghost predicate FailsFor(s: State, c: string, items: seq<BatchItem>, i: nat, reason: FailureReason)
    requires i < |items|
  {
    var d, expected, k := items[i].documentID, items[i].expectedVersion, DocumentKey(c, items[i].documentID);
    match reason
    case BadExpectedVersion => expected < 1
    case Duplicate(first) => expected >= 1 && first < i && Records(items, first, d) && !HasEarlier(items, first, d)
    case NoSuchDocument => expected >= 1 && !HasEarlier(items, i, d) && LookupError(s, c, d).Some?
    case WrongVersion(e, actual) =>
      expected >= 1 && !HasEarlier(items, i, d) && LookupError(s, c, d).None?
      && e == expected && actual == s.documents[k].version && actual != expected
  }

  ghost predicate ItemFails(s: State, c: string, items: seq<BatchItem>, i: nat)
    requires i < |items|
  {
    exists reason :: FailsFor(s, c, items, i, reason)
  }

  ghost predicate SeenBefore(items: seq<BatchItem>, i: nat, seen: map<string, nat>)
    requires i <= |items|
  {
    forall d :: (d in seen <==> HasEarlier(items, i, d))
             && (d in seen ==> seen[d] < i && Records(items, seen[d], d) && !HasEarlier(items, seen[d], d))
  }

  // A list of failures names exactly the failing items from i on, in order and with their reasons.
  ghost predicate ExactFrom(s: State, c: string, items: seq<BatchItem>, i: nat, fs: seq<BatchItemFailure>) {
    && (forall a :: 0 <= a < |fs| ==>
          i <= fs[a].index < |items| && fs[a].documentID == items[fs[a].index].documentID
          && FailsFor(s, c, items, fs[a].index, fs[a].reason))
    && (forall a, b :: 0 <= a < b < |fs| ==> fs[a].index < fs[b].index)
    && (forall j: nat :: i <= j < |items| && ItemFails(s, c, items, j) ==>
          exists a :: 0 <= a < |fs| && fs[a].index == j)
  }

  lemma {:induction false} SeenGrows(items: seq<BatchItem>, i: nat, seen: map<string, nat>)
    requires i < |items| && SeenBefore(items, i, seen)
    ensures SeenBefore(items, i + 1, Record(items[i], i, seen))
  {
    var d, seen' := items[i].documentID, Record(items[i], i, seen);
    forall x ensures x in seen' <==> HasEarlier(items, i + 1, x) {
      if HasEarlier(items, i, x) {
        var j: nat :| j < i && Records(items, j, x);
        assert j < i + 1;
      }
      if x == d && items[i].expectedVersion >= 1 {
        assert Records(items, i, x);
      }
    }
  }

  lemma {:induction false} VerdictIsExact(s: State, c: string, items: seq<BatchItem>, i: nat, seen: map<string, nat>)
    requires i < |items| && SeenBefore(items, i, seen)
    ensures var failure := ItemFailure(s, c, items[i], seen);
            if failure.Some? then FailsFor(s, c, items, i, failure.value) else !ItemFails(s, c, items, i)
  {
    var d := items[i].documentID;
    assert d in seen <==> HasEarlier(items, i, d);
    assert forall j: nat :: j < i && Records(items, j, d) ==> HasEarlier(items, i, d);
  }

  lemma {:induction false} ExactCons(s: State, c: string, items: seq<BatchItem>, i: nat, f: BatchItemFailure,
                                     rest: seq<BatchItemFailure>)
    requires i < |items| && ExactFrom(s, c, items, i + 1, rest)
    requires f.index == i && f.documentID == items[i].documentID && FailsFor(s, c, items, i, f.reason)
    ensures ExactFrom(s, c, items, i, [f] + rest)
  {
    var fs := [f] + rest;
    forall j: nat | i <= j < |items| && ItemFails(s, c, items, j)
      ensures exists a :: 0 <= a < |fs| && fs[a].index == j
    {
      if j == i {
        assert fs[0].index == j;
      } else {
        var a :| 0 <= a < |rest| && rest[a].index == j;
        assert fs[a + 1].index == j;
      }
    }
  }

  lemma {:induction false} ExactSkip(s: State, c: string, items: seq<BatchItem>, i: nat, rest: seq<BatchItemFailure>)
    requires i < |items| && ExactFrom(s, c, items, i + 1, rest) && !ItemFails(s, c, items, i)
    ensures ExactFrom(s, c, items, i, rest)
  {
    hide FailsFor;
  }

  lemma {:induction false} FailuresExactFrom(s: State, c: string, items: seq<BatchItem>, i: nat, seen: map<string, nat>)
    requires i <= |items| && SeenBefore(items, i, seen)
    ensures ExactFrom(s, c, items, i, FailuresFrom(s, c, items, i, seen))
    decreases |items| - i
  {
    if i < |items| {
      hide ExactFrom, SeenBefore, FailsFor, ItemFailure, Record, ItemFails;
      SeenGrows(items, i, seen);
      VerdictIsExact(s, c, items, i, seen);
      var seen' := Record(items[i], i, seen);
      FailuresExactFrom(s, c, items, i + 1, seen');
      var failure, rest := ItemFailure(s, c, items[i], seen), FailuresFrom(s, c, items, i + 1, seen');
      if failure.Some? {
        ExactCons(s, c, items, i, BatchItemFailure(i, items[i].documentID, failure.value), rest);
      } else {
        assert FailuresFrom(s, c, items, i, seen) == rest;
        ExactSkip(s, c, items, i, rest);
      }
    }
  }

  /** A batch reports exactly its failing items, ascending, each with its own reason. */
  lemma {:induction false} FailuresExact(s: State, c: string, items: seq<BatchItem>)
    ensures ExactFrom(s, c, items, 0, Failures(s, c, items))
  {
    assert SeenBefore(items, 0, map[]);
    FailuresExactFrom(s, c, items, 0, map[]);
  }

  /** An item has at most one reason to fail, so the list above is the only exact one. */
  lemma {:induction false} ReasonUnique(s: State, c: string, items: seq<BatchItem>, i: nat, r1: FailureReason,
                                        r2: FailureReason)
    requires i < |items| && FailsFor(s, c, items, i, r1) && FailsFor(s, c, items, i, r2)
    ensures r1 == r2
  {
    if r1.Duplicate? && r2.Duplicate? {
      assert forall x: nat, y: nat, d :: x < y && Records(items, x, d) ==> HasEarlier(items, y, d);
    }
  }

  /** A refused batch touches nothing but the audit log, which gains one event. */
  lemma {:induction false} RejectionAtomic(s: State, c: string, items: seq<BatchItem>, actor: string, key: string,
                                           now: Time)
    requires c in s.collections && ExecBatch(s, c, items, actor, key, now).response.err.Some?
    ensures var r := ExecBatch(s, c, items, actor, key, now);
            && r.state == s.(audit := r.state.audit, auditSeq := s.auditSeq + 1)
            && |r.state.audit| == |s.audit| + 1 && s.audit <= r.state.audit
            && r.state.audit[|s.audit|] ==
               AuditEvent(s.auditSeq + 1, now, BatchRejected, actor, c, "", key,
                          RejectedDetails(|items|, |Failures(s, c, items)|))
            && r.response == Returned(Some(BatchValue(BatchResult(false, [], Failures(s, c, items)))),
                                      Some(BatchConflict(Failures(s, c, items))))
            && (exists i: nat :: i < |items| && ItemFails(s, c, items, i))
  {
    FailuresExact(s, c, items);
    var f := Failures(s, c, items)[0];
    assert ItemFails(s, c, items, f.index);
  }

  /** The caller of a refused batch gets the failures both as result and as error, and so does every retry. */
  lemma {:induction false} RefusalReplays(s: State, e: Event, retry: Event)
    requires e.req.BatchUpdate? && e.req.key != "" && Runs(s, e.req)
    requires e.req.collectionID in s.collections && Step(s, e).response.err.Some?
    requires IsWrite(retry.req) && retry.req.key == e.req.key && SamePayload(retry.req, e.req)
             && Validate(retry.req).None?
    ensures var fs := Failures(s, e.req.collectionID, e.req.items);
            && Step(s, e).response == Returned(Some(BatchValue(BatchResult(false, [], fs))), Some(BatchConflict(fs)))
            && Step(Step(s, e).state, retry) == Step(s, e)
  {
    RetryRepeats(s, e, retry);
    StepOf(s, e);
    RejectionAtomic(s, e.req.collectionID, e.req.items, e.req.actor, e.req.key, e.now);
    hide Step, ExecBatch, Failures, SamePayload;
  }

  // ---- When a batch is accepted ----

  ghost predicate DistinctIDs(items: seq<BatchItem>) {
    forall i, j :: 0 <= i < j < |items| ==> items[i].documentID != items[j].documentID
  }

  // The item as a request of its own.
  function Single(c: string, item: BatchItem, actor: string): Request {
    UpdateDocument(c, item.documentID, item.expectedVersion, item.patch, actor, item.reason, "")
  }

  ghost predicate SucceedsAlone(s: State, c: string, item: BatchItem, actor: string, now: Time) {
    Step(s, Event(Single(c, item, actor), now, "")).response.err.None?
  }

  ghost predicate Acceptable(s: State, c: string, items: seq<BatchItem>, actor: string, now: Time) {
    && DistinctIDs(items)
    && forall i :: 0 <= i < |items| ==> SucceedsAlone(s, c, items[i], actor, now)
  }

  ghost predicate Accepted(s: State, c: string, items: seq<BatchItem>, actor: string, key: string, now: Time) {
    ExecBatch(s, c, items, actor, key, now).response.err.None?
  }

  /** A batch is applied iff its ids are distinct and each item alone would succeed. */
  lemma {:induction false} AcceptedIffSinglesSucceed(s: State, c: string, items: seq<BatchItem>, actor: string,
                                                     key: string, now: Time)
    requires items != []
    ensures Accepted(s, c, items, actor, key, now) <==> Acceptable(s, c, items, actor, now)
  {
    hide DocumentKey, NormalizeTags;
    FailuresExact(s, c, items);
    if Accepted(s, c, items, actor, key, now) {
      NoFailuresAllPresent(s, c, items, 0, map[]);
      forall i, j | 0 <= i < j < |items| ensures items[i].documentID != items[j].documentID {
        if items[i].documentID == items[j].documentID {
          DuplicateFails(s, c, items, i, j);
        }
      }
    } else if c in s.collections {
      var f := Failures(s, c, items)[0];
      assert FailsFor(s, c, items, f.index, f.reason);
      assert f.reason.Duplicate? || !SucceedsAlone(s, c, items[f.index], actor, now);
    } else {
      assert !SucceedsAlone(s, c, items[0], actor, now);
    }
  }

  lemma {:induction false} DuplicateFails(s: State, c: string, items: seq<BatchItem>, i: nat, j: nat)
    requires i < j < |items| && items[i].documentID == items[j].documentID
    requires items[i].expectedVersion >= 1
    ensures ItemFails(s, c, items, j)
  {
    if items[j].expectedVersion >= 1 {
      var first := FirstRecord(items, i, items[j].documentID);
      assert FailsFor(s, c, items, j, Duplicate(first));
    } else {
      assert FailsFor(s, c, items, j, BadExpectedVersion);
    }
  }

  lemma {:induction false} FirstRecord(items: seq<BatchItem>, i: nat, d: string) returns (first: nat)
    requires Records(items, i, d)
    ensures first <= i && Records(items, first, d) && !HasEarlier(items, first, d)
  {
    if HasEarlier(items, i, d) {
      var j: nat :| j < i && Records(items, j, d);
      first := FirstRecord(items, j, d);
    } else {
      first := i;
    }
  }

  // ---- A batch is its single updates, in order ----

  function Singles(c: string, items: seq<BatchItem>, i: nat, actor: string, now: Time): (es: seq<Event>)
    requires i <= |items|
    ensures |es| == |items| - i
    ensures forall j :: 0 <= j < |es| ==> es[j] == Event(Single(c, items[i + j], actor), now, "")
    decreases |items| - i
  {
    if i == |items| then []
    else [Event(Single(c, items[i], actor), now, "")] + Singles(c, items, i + 1, actor, now)
  }

  // Equal but for the audit log.
  ghost predicate SameStore(s: State, t: State) {
    s == t.(audit := s.audit, auditSeq := s.auditSeq)
  }

  ghost predicate ReadyFrom(s: State, c: string, items: seq<BatchItem>, i: nat) {
    && AllPresent(s, c, items)
    && c in s.collections
    && forall j :: i <= j < |items| ==>
         items[j].expectedVersion >= 1
         && s.documents[DocumentKey(c, items[j].documentID)].version == items[j].expectedVersion
  }

  lemma {:induction false} ReadyAfterItem(s: State, c: string, items: seq<BatchItem>, i: nat, actor: string, now: Time)
    requires i < |items| && DistinctIDs(items) && ReadyFrom(s, c, items, i)
    ensures ReadyFrom(ApplyItem(s, c, items[i], actor, now), c, items, i + 1)
  {
    hide DocumentKey, NormalizeTags;
    forall j | i < j < |items|
      ensures DocumentKey(c, items[j].documentID) != DocumentKey(c, items[i].documentID)
    {
      KeyInjectiveInCollection(c, items[i].documentID, items[j].documentID);
    }
  }

  lemma {:induction false} UnnamedStay(s: State, c: string, items: seq<BatchItem>, i: nat, actor: string, now: Time,
                                       k: string)
    requires i <= |items| && AllPresent(s, c, items) && k in s.documents
    requires forall j :: i <= j < |items| ==> DocumentKey(c, items[j].documentID) != k
    ensures var s' := ApplyFrom(s, c, items, i, actor, now).state;
            k in s'.documents && s'.documents[k] == s.documents[k]
    decreases |items| - i
  {
    hide DocumentKey, NormalizeTags, ApplyPatch, RevisionOf;
    if i < |items| {
      UnnamedStay(ApplyItem(s, c, items[i], actor, now), c, items, i + 1, actor, now, k);
    }
  }

  lemma {:induction false} ResultsAreFinal(s: State, c: string, items: seq<BatchItem>, i: nat, actor: string, now: Time)
    requires i <= |items| && AllPresent(s, c, items) && DistinctIDs(items)
    ensures var a := ApplyFrom(s, c, items, i, actor, now);
            && AllPresent(a.state, c, items) && |a.results| == |items| - i
            && (forall j :: 0 <= j < |a.results| ==>
                  a.results[j] ==
                  BatchItemResult(i + j, a.state.documents[DocumentKey(c, items[i + j].documentID)]))
    decreases |items| - i
  {
    hide DocumentKey, ApplyItem;
    if i < |items| {
      var s' := ApplyItem(s, c, items[i], actor, now);
      ItemKeepsPresent(s, c, items, i, actor, now);
      ResultsAreFinal(s', c, items, i + 1, actor, now);
      forall j | i < j < |items|
        ensures DocumentKey(c, items[j].documentID) != DocumentKey(c, items[i].documentID)
      {
        KeyInjectiveInCollection(c, items[i].documentID, items[j].documentID);
      }
      UnnamedStay(s', c, items, i + 1, actor, now, DocumentKey(c, items[i].documentID));
    }
  }

  lemma {:induction false} ItemIsSingle(s: State, t: State, c: string, items: seq<BatchItem>, i: nat, actor: string,
                                        now: Time)
    requires i < |items| && SameStore(s, t) && ReadyFrom(s, c, items, i)
    ensures var s', r := ApplyItem(s, c, items[i], actor, now), Step(t, Event(Single(c, items[i], actor), now, ""));
            && SameStore(s', r.state) && DocumentKey(c, items[i].documentID) in s'.documents
            && r.response == Returned(Some(DocumentValue(s'.documents[DocumentKey(c, items[i].documentID)])), None)
  {
    hide DocumentKey, NormalizeTags;
  }

  lemma {:induction false} ApplyIsSingles(s: State, t: State, c: string, items: seq<BatchItem>, i: nat, actor: string,
                                          now: Time)
    requires i <= |items| && SameStore(s, t) && DistinctIDs(items) && ReadyFrom(s, c, items, i)
    ensures var a, es := ApplyFrom(s, c, items, i, actor, now), Singles(c, items, i, actor, now);
            && SameStore(a.state, Run(t, es))
            && |Responses(t, es)| == |a.results| == |es|
            && forall j :: 0 <= j < |es| ==>
                 Responses(t, es)[j] == Returned(Some(DocumentValue(a.results[j].document)), None)
    decreases |items| - i
  {
    hide DocumentKey, Step, ApplyItem;
    if i < |items| {
      var es := Singles(c, items, i, actor, now);
      ItemIsSingle(s, t, c, items, i, actor, now);
      ReadyAfterItem(s, c, items, i, actor, now);
      ApplyIsSingles(ApplyItem(s, c, items[i], actor, now), Step(t, es[0]).state, c, items, i + 1, actor, now);
      assert es[1..] == Singles(c, items, i + 1, actor, now);
    }
  }

  /**
   An applied batch leaves the store that its single updates, run in order, leave; each
   single update succeeds, and Results[i] is both its answer and the final document.
   */
  lemma {:induction false} BatchRefinesSingles(s: State, c: string, items: seq<BatchItem>, actor: string, key: string,
                                               now: Time)
    requires items != [] && Accepted(s, c, items, actor, key, now)
    ensures var r, es := ExecBatch(s, c, items, actor, key, now), Singles(c, items, 0, actor, now);
            && SameStore(r.state, Run(s, es))
            && r.response.value.Some? && r.response.value.value.BatchValue?
            && var res := r.response.value.value.batch;
            && res.applied && res.failures == [] && |res.results| == |items| == |Responses(s, es)|
            && forall i :: 0 <= i < |items| ==>
                 && res.results[i].index == i
                 && DocumentKey(c, items[i].documentID) in r.state.documents
                 && res.results[i].document == r.state.documents[DocumentKey(c, items[i].documentID)]
                 && Responses(s, es)[i] == Returned(Some(DocumentValue(res.results[i].document)), None)
  {
    hide DocumentKey, NormalizeTags, Step;
    AcceptedIffSinglesSucceed(s, c, items, actor, key, now);
    NoFailuresAllPresent(s, c, items, 0, map[]);
    ApplyIsSingles(s, s, c, items, 0, actor, now);
    ResultsAreFinal(s, c, items, 0, actor, now);
  }

  // ---- The same about whole calls ----

  ghost predicate FreshBatch(s: State, e: Event) {
    e.req.BatchUpdate? && (e.req.key == "" || e.req.key !in s.idem)
  }

  lemma {:induction false} BatchStepRuns(s: State, e: Event)
    requires FreshBatch(s, e)
    ensures var r := ExecBatch(s, e.req.collectionID, e.req.items, e.req.actor, e.req.key, e.now);
            && (e.req.items != [] ==>
                  && Step(s, e).response == r.response && Step(s, e).state == r.state.(idem := Step(s, e).state.idem))
            && (e.req.items == [] ==> Step(s, e).response.Returned? && Step(s, e).response.err.Some?)
  {
    StepOf(s, e);
    hide ExecBatch;
  }

  /**
   A batch under a new key is applied iff it has items, their ids are distinct and each of them
   alone would succeed.
   */
  lemma {:induction false} BatchStepAccepted(s: State, e: Event)
    requires FreshBatch(s, e)
    ensures Step(s, e).response.Returned?
    ensures Step(s, e).response.err.None? <==>
              e.req.items != [] && Acceptable(s, e.req.collectionID, e.req.items, e.req.actor, e.now)
  {
    BatchStepRuns(s, e);
    BatchAnswersSomething(s, e.req.collectionID, e.req.items, e.req.actor, e.req.key, e.now);
    hide Step, ExecBatch, Acceptable;
    if e.req.items != [] {
      AcceptedIffSinglesSucceed(s, e.req.collectionID, e.req.items, e.req.actor, e.req.key, e.now);
    }
  }

  lemma {:induction false} BatchAnswersSomething(s: State, c: string, items: seq<BatchItem>, actor: string,
                                                 key: string, now: Time)
    ensures ExecBatch(s, c, items, actor, key, now).response.Returned?
  {
    hide Failures, ApplyFrom;
  }

  // Equal but for the audit log and the cache.
  ghost predicate SameTables(s: State, t: State) {
    s == t.(audit := s.audit, auditSeq := s.auditSeq, idem := s.idem)
  }

  /**
   Then it leaves what its single updates leave when run in order, and answers for each item what
   the single answers.
   */
  lemma {:induction false} BatchStepRefines(s: State, e: Event)
    requires FreshBatch(s, e) && Step(s, e).response.Returned? && Step(s, e).response.err.None?
    ensures var items, r := e.req.items, Step(s, e);
            var es := Singles(e.req.collectionID, items, 0, e.req.actor, e.now);
            && SameTables(r.state, Run(s, es))
            && r.response.value.Some? && r.response.value.value.BatchValue?
            && var res := r.response.value.value.batch;
            && res.applied && res.failures == [] && |res.results| == |items| == |Responses(s, es)|
            && forall i :: 0 <= i < |items| ==>
                 && res.results[i].index == i
                 && Responses(s, es)[i] == Returned(Some(DocumentValue(res.results[i].document)), None)
  {
    BatchStepRuns(s, e);
    hide Step, ExecBatch, DocumentKey, Run, Responses;
    BatchRefinesSingles(s, e.req.collectionID, e.req.items, e.req.actor, e.req.key, e.now);
  }

  /** Otherwise it is refused whole: unknown collection, or exactly the failing items in result and error. */
  lemma {:induction false} BatchStepRefused(s: State, e: Event)
    requires FreshBatch(s, e) && e.req.items != [] && Step(s, e).response.Returned? && Step(s, e).response.err.Some?
    ensures var r, c := Step(s, e), e.req.collectionID;
            && (c !in s.collections ==>
                  r.response == Returned(None, Some(CollectionNotFound)) && r.state == s.(idem := r.state.idem))
            && (c in s.collections ==>
                  && r.response.err.value.BatchConflict?
                  && var fs := r.response.err.value.failures;
                  && r.response.value == Some(BatchValue(BatchResult(false, [], fs)))
                  && ExactFrom(s, c, e.req.items, 0, fs) && fs != []
                  && SameTables(r.state, s))
  {
    BatchStepRuns(s, e);
    hide Step, ExactFrom;
    if e.req.collectionID in s.collections {
      RejectionAtomic(s, e.req.collectionID, e.req.items, e.req.actor, e.req.key, e.now);
      FailuresExact(s, e.req.collectionID, e.req.items);
      RefusalHasFailures(s, e.req.collectionID, e.req.items, e.req.actor, e.req.key, e.now);
      hide ExecBatch, Failures;
    }
  }

  lemma {:induction false} RefusalHasFailures(s: State, c: string, items: seq<BatchItem>, actor: string, key: string,
                                              now: Time)
    requires c in s.collections && ExecBatch(s, c, items, actor, key, now).response.err.Some?
    ensures Failures(s, c, items) != []
  {
    hide Failures, ApplyFrom;
  }

  // ---- Item order does not matter ----

  // Every document is stored under the key of its own ids.
  ghost predicate KeysMatch(s: State) {
    && s.documents.Keys == s.history.Keys
    && forall k :: k in s.documents ==> DocumentKey(s.documents[k].collectionID, s.documents[k].id) == k
  }

  ghost predicate PatchedBy(s: State, s': State, k: string, item: BatchItem, actor: string, now: Time)
    requires k in s.documents
  {
    var d := ApplyPatch(s.documents[k], item.patch, now);
    && k in s'.documents && s'.documents[k] == d
    && HistoryOf(s', k) == HistoryOf(s, k) + [RevisionOf(d, actor, item.reason, now)]
  }

  ghost predicate Untouched(s: State, s': State, k: string)
    requires k in s.documents
  {
    && k in s'.documents && s'.documents[k] == s.documents[k]
    && HistoryOf(s', k) == HistoryOf(s, k)
  }

  lemma {:induction false} ApplyKeepsKeys(s: State, c: string, items: seq<BatchItem>, i: nat, actor: string, now: Time)
    requires i <= |items| && AllPresent(s, c, items) && KeysMatch(s)
    ensures var s' := ApplyFrom(s, c, items, i, actor, now).state;
            KeysMatch(s') && s'.documents.Keys == s.documents.Keys
    decreases |items| - i
  {
    hide DocumentKey, NormalizeTags;
    if i < |items| {
      ApplyKeepsKeys(ApplyItem(s, c, items[i], actor, now), c, items, i + 1, actor, now);
    }
  }

  lemma {:induction false} ApplyItemTouchesOne(s: State, c: string, item: BatchItem, actor: string, now: Time)
    requires KeysMatch(s) && DocumentKey(c, item.documentID) in s.documents
    ensures var s', k := ApplyItem(s, c, item, actor, now), DocumentKey(c, item.documentID);
            && KeysMatch(s') && s'.documents.Keys == s.documents.Keys
            && PatchedBy(s, s', k, item, actor, now)
            && forall x :: x in s.documents && x != k ==> Untouched(s, s', x)
  {
    hide DocumentKey, NormalizeTags;
  }

  /** With distinct ids each item patches its own document once; the others stay. */
  lemma {:induction false} ApplyFromPointwise(s: State, c: string, items: seq<BatchItem>, i: nat, actor: string,
                                              now: Time, k: string)
    requires i <= |items| && AllPresent(s, c, items) && DistinctIDs(items) && KeysMatch(s) && k in s.documents
    ensures var s' := ApplyFrom(s, c, items, i, actor, now).state;
            && (forall j :: i <= j < |items| && DocumentKey(c, items[j].documentID) == k ==>
                  PatchedBy(s, s', k, items[j], actor, now))
            && ((forall j :: i <= j < |items| ==> DocumentKey(c, items[j].documentID) != k) ==> Untouched(s, s', k))
    decreases |items| - i
  {
    hide DocumentKey, NormalizeTags, ApplyPatch, RevisionOf, ApplyItem;
    if i < |items| {
      var s1 := ApplyItem(s, c, items[i], actor, now);
      ApplyItemTouchesOne(s, c, items[i], actor, now);
      ApplyFromPointwise(s1, c, items, i + 1, actor, now, k);
      if k == DocumentKey(c, items[i].documentID) {
        forall j | i < j < |items| ensures DocumentKey(c, items[j].documentID) != k {
          KeyInjectiveInCollection(c, items[i].documentID, items[j].documentID);
        }
      } else {
        assert Untouched(s, s1, k);
      }
    }
  }

  lemma {:induction false} SameItems(a: seq<BatchItem>, b: seq<BatchItem>, i: nat) returns (j: nat)
    requires multiset(a) == multiset(b) && i < |a|
    ensures j < |b| && b[j] == a[i]
  {
    assert a[i] in multiset(b);
    j :| 0 <= j < |b| && b[j] == a[i];
  }

  lemma {:induction false} DistinctSurvives(a: seq<BatchItem>, b: seq<BatchItem>)
    requires multiset(a) == multiset(b) && DistinctIDs(a)
    ensures DistinctIDs(b)
  {
    forall i, j | 0 <= i < j < |b| ensures b[i].documentID != b[j].documentID {
      if b[i].documentID == b[j].documentID {
        var i' := SameItems(b, a, i);
        var j' := SameItems(b, a, j);
        CountsDistinct(b, i, j);
        DistinctCounts(a, a[i']);
      }
    }
  }

  lemma {:induction false} SameDocument(s: State, c: string, a: seq<BatchItem>, b: seq<BatchItem>, actor: string,
                                        now: Time, k: string)
    requires KeysMatch(s) && k in s.documents && multiset(a) == multiset(b)
    requires AllPresent(s, c, a) && AllPresent(s, c, b) && DistinctIDs(a) && DistinctIDs(b)
    ensures var sa, sb := ApplyFrom(s, c, a, 0, actor, now).state, ApplyFrom(s, c, b, 0, actor, now).state;
            && k in sa.documents && k in sb.documents
            && sa.documents[k] == sb.documents[k] && HistoryOf(sa, k) == HistoryOf(sb, k)
  {
    ApplyFromPointwise(s, c, a, 0, actor, now, k);
    ApplyFromPointwise(s, c, b, 0, actor, now, k);
    if i :| 0 <= i < |a| && DocumentKey(c, a[i].documentID) == k {
      var j := SameItems(a, b, i);
      assert DocumentKey(c, b[j].documentID) == k;
    } else {
      forall j | 0 <= j < |b| ensures DocumentKey(c, b[j].documentID) != k {
        var i := SameItems(b, a, j);
      }
    }
  }

  lemma {:induction false} ApplyPermutes(s: State, c: string, a: seq<BatchItem>, b: seq<BatchItem>, actor: string,
                                         now: Time)
    requires KeysMatch(s) && multiset(a) == multiset(b)
    requires AllPresent(s, c, a) && AllPresent(s, c, b) && DistinctIDs(a) && DistinctIDs(b)
    ensures SameStore(ApplyFrom(s, c, a, 0, actor, now).state, ApplyFrom(s, c, b, 0, actor, now).state)
  {
    ApplyKeepsKeys(s, c, a, 0, actor, now);
    ApplyKeepsKeys(s, c, b, 0, actor, now);
    ApplyFrame(s, c, a, 0, actor, now);
    ApplyFrame(s, c, b, 0, actor, now);
    var sa, sb := ApplyFrom(s, c, a, 0, actor, now).state, ApplyFrom(s, c, b, 0, actor, now).state;
    forall k | k in s.documents ensures sa.documents[k] == sb.documents[k] && HistoryOf(sa, k) == HistoryOf(sb, k) {
      SameDocument(s, c, a, b, actor, now, k);
    }
    EqualByKeys(sa, sb);
  }

  lemma {:induction false} EqualByKeys(s: State, t: State)
    requires s.documents.Keys == t.documents.Keys == s.history.Keys == t.history.Keys
    requires forall k :: k in s.documents ==> s.documents[k] == t.documents[k] && HistoryOf(s, k) == HistoryOf(t, k)
    ensures s.documents == t.documents && s.history == t.history
  {
    forall k | k in s.history ensures s.history[k] == t.history[k] {
      assert k in s.documents;
    }
  }

  lemma {:induction false} AcceptancePermutes(s: State, c: string, a: seq<BatchItem>, b: seq<BatchItem>,
                                              actor: string, key: string, now: Time)
    requires a != [] && multiset(a) == multiset(b) && Accepted(s, c, a, actor, key, now)
    ensures Accepted(s, c, b, actor, key, now)
  {
    assert |multiset(a)| == |a| && |multiset(b)| == |b|;
    AcceptedIffSinglesSucceed(s, c, a, actor, key, now);
    AcceptedIffSinglesSucceed(s, c, b, actor, key, now);
    DistinctSurvives(a, b);
    forall i | 0 <= i < |b| ensures SucceedsAlone(s, c, b[i], actor, now) {
      var j := SameItems(b, a, i);
      assert SucceedsAlone(s, c, a[j], actor, now);
    }
  }

  /** Permuting an accepted batch leaves it accepted, with the same documents and history. */
  lemma {:induction false} BatchOrderIrrelevant(s: State, c: string, a: seq<BatchItem>, b: seq<BatchItem>,
                                                actor: string, key: string, now: Time)
    requires KeysMatch(s) && a != [] && multiset(a) == multiset(b)
    requires Accepted(s, c, a, actor, key, now)
    ensures Accepted(s, c, b, actor, key, now)
    ensures SameStore(ExecBatch(s, c, a, actor, key, now).state, ExecBatch(s, c, b, actor, key, now).state)
  {
    AcceptancePermutes(s, c, a, b, actor, key, now);
    AcceptedIffSinglesSucceed(s, c, a, actor, key, now);
    DistinctSurvives(a, b);
    NoFailuresAllPresent(s, c, a, 0, map[]);
    NoFailuresAllPresent(s, c, b, 0, map[]);
    ApplyPermutes(s, c, a, b, actor, now);
  }
}
