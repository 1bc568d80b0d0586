/** Documents and their revision logs over whole runs. */
module History {
  import opened Batch
  import opened Domain
  import opened Frames
  import opened Keys
  import opened Spec
  import opened Tags

  // ---- The invariant ----

  // The log h is complete: versions 1, 2, ..., up to the live document d.
  ghost predicate Complete(d: Document, h: seq<Revision>) {
    && 1 <= d.version == |h|
    && (forall i :: 0 <= i < |h| ==> h[i].version == i + 1 && Normalized(h[i].tags))
    && var last := h[|h| - 1];
    && last.title == d.title && last.content == d.content && last.tags == d.tags
    && last.modifiedAt == d.updatedAt && h[0].modifiedAt == d.createdAt
  }

  ghost predicate CompleteAt(s: State, k: string)
    requires k in s.documents && k in s.history
  {
    Complete(s.documents[k], s.history[k]) && s.documents[k].collectionID in s.collections
  }

  ghost predicate Consistent(s: State) {
    && KeysMatch(s)
    && (forall k :: k in s.documents ==> CompleteAt(s, k))
    && (forall id :: id in s.collections ==> s.collections[id].id == id)
  }

  // ---- What a call commits to one document ----

  datatype Commit =
    | Creation(title: string, content: string, tags: seq<string>, actor: string, at: Time)
    | Change(expected: int, patch: Patch, actor: string, reason: string, at: Time)

  function Extend(h: seq<Revision>, c: Commit): seq<Revision> {
    match c
    case Creation(title, content, tags, actor, at) =>
      h + [Revision(1, title, content, NormalizeTags(tags), actor, "", at)]
    case Change(_, p, actor, reason, at) =>
      if h == [] then h
      else
        var last := h[|h| - 1];
        h + [Revision(last.version + 1, p.title.GetOr(last.title), p.content.GetOr(last.content),
                      if p.tags.Some? then NormalizeTags(p.tags.value) else last.tags, actor, reason, at)]
  }

  function Replayed(h: seq<Revision>, cs: seq<Commit>): seq<Revision>
    decreases |cs|
  {
    if cs == [] then h else Replayed(Extend(h, cs[0]), cs[1..])
  }

  function ItemCommits(c: string, items: seq<BatchItem>, i: nat, actor: string, now: Time, k: string): seq<Commit>
    requires i <= |items|
    decreases |items| - i
  {
    if i == |items| then []
    else
      (if DocumentKey(c, items[i].documentID) == k
       then [Change(items[i].expectedVersion, items[i].patch, actor, items[i].reason, now)] else [])
      + ItemCommits(c, items, i + 1, actor, now, k)
  }

  // Read off the request and its answer: a call that ran and succeeded commits, a replay does not.
  function EventCommits(s: State, e: Event, k: string): seq<Commit> {
    if !Runs(s, e.req) || Step(s, e).response == Panicked || Step(s, e).response.err.Some? then []
    else match e.req
      case CreateDocument(c, id, title, content, tags, actor, _) =>
        if DocumentKey(c, if id == "" then e.freshID else id) == k
        then [Creation(title, content, tags.GetOr([]), actor, e.now)] else []
      case UpdateDocument(c, d, expected, patch, actor, reason, _) =>
        if DocumentKey(c, d) == k then [Change(expected, patch, actor, reason, e.now)] else []
      case BatchUpdate(c, items, actor, _) => ItemCommits(c, items, 0, actor, e.now, k)
      case _ => []
  }

  function Commits(s: State, es: seq<Event>, k: string): seq<Commit>
    decreases |es|
  {
    if es == [] then [] else EventCommits(s, es[0], k) + Commits(Step(s, es[0]).state, es[1..], k)
  }

  // Commits on top of n revisions: first the creation, then expected versions n, n + 1, ...
  ghost predicate Consecutive(cs: seq<Commit>, n: nat) {
    forall i :: 0 <= i < |cs| ==> if n + i == 0 then cs[i].Creation? else cs[i].Change? && cs[i].expected == n + i
  }

  // ---- One step ----

  ghost predicate Follows(s: State, s': State, k: string, cs: seq<Commit>) {
    && HistoryOf(s', k) == Replayed(HistoryOf(s, k), cs)
    && |HistoryOf(s', k)| == |HistoryOf(s, k)| + |cs|
    && Consecutive(cs, |HistoryOf(s, k)|)
  }

  lemma {:induction false} PatchKeepsComplete(d: Document, h: seq<Revision>, p: Patch, actor: string, reason: string,
                                              now: Time)
    requires Complete(d, h)
    ensures var d' := ApplyPatch(d, p, now);
            && Complete(d', h + [RevisionOf(d', actor, reason, now)])
            && h + [RevisionOf(d', actor, reason, now)] == Extend(h, Change(d.version, p, actor, reason, now))
  {
    if p.tags.Some? {
      NormalizeTagsCollects(p.tags.value);
    }
  }

  lemma {:induction false} ReplayOne(h: seq<Revision>, c: Commit)
    ensures Replayed(h, [c]) == Extend(h, c)
  {
    assert [c][1..] == [];
  }

  // What a creation does to the store, for the document it makes and for every other.
  lemma {:induction false} CreateMakesOne(s: State, c: string, id: string, title: string, content: string,
                                          tags: seq<string>, actor: string, key: string, now: Time)
    requires KeysMatch(s) && ExecCreate(s, c, id, title, content, tags, actor, key, now).response.err.None?
    ensures var s', k := ExecCreate(s, c, id, title, content, tags, actor, key, now).state, DocumentKey(c, id);
            var d := Document(id, c, title, content, NormalizeTags(tags), 1, now, now);
            && k !in s.documents && c in s.collections && KeysMatch(s') && s'.collections == s.collections
            && s'.documents == s.documents[k := d]
            && s'.history == s.history[k := Extend([], Creation(title, content, tags, actor, now))]
  {
    hide DocumentKey, NormalizeTags;
  }

  lemma {:induction false} CreateFollows(s: State, c: string, id: string, title: string, content: string,
                                         tags: seq<string>, actor: string, key: string, now: Time, k: string)
    requires Consistent(s) && ExecCreate(s, c, id, title, content, tags, actor, key, now).response.err.None?
    ensures var s' := ExecCreate(s, c, id, title, content, tags, actor, key, now).state;
            Follows(s, s', k, if DocumentKey(c, id) == k then [Creation(title, content, tags, actor, now)] else [])
  {
    CreateMakesOne(s, c, id, title, content, tags, actor, key, now);
    ReplayOne([], Creation(title, content, tags, actor, now));
    hide DocumentKey, NormalizeTags, ExecCreate, CompleteAt;
  }

  lemma {:induction false} CreatedIsComplete(c: string, id: string, title: string, content: string, tags: seq<string>,
                                             actor: string, now: Time)
    ensures Complete(Document(id, c, title, content, NormalizeTags(tags), 1, now, now),
                     Extend([], Creation(title, content, tags, actor, now)))
  {
    NormalizeTagsCollects(tags);
    hide Normalized, NormalizeTags;
  }

  lemma {:induction false} CreateKeepsConsistent(s: State, c: string, id: string, title: string, content: string,
                                                 tags: seq<string>, actor: string, key: string, now: Time)
    requires Consistent(s) && ExecCreate(s, c, id, title, content, tags, actor, key, now).response.err.None?
    ensures Consistent(ExecCreate(s, c, id, title, content, tags, actor, key, now).state)
  {
    CreateMakesOne(s, c, id, title, content, tags, actor, key, now);
    CreatedIsComplete(c, id, title, content, tags, actor, now);
    hide ExecCreate, DocumentKey, NormalizeTags, Complete, Extend;
    var s' := ExecCreate(s, c, id, title, content, tags, actor, key, now).state;
    forall k | k in s'.documents ensures CompleteAt(s', k) {
      assert k in s.documents ==> CompleteAt(s, k);
    }
  }

  lemma {:induction false} PatchedFollows(s: State, s': State, k: string, it: BatchItem, actor: string, now: Time)
    requires k in s.documents && k in s.history && CompleteAt(s, k) && s.collections == s'.collections
    requires s.documents[k].version == it.expectedVersion && PatchedBy(s, s', k, it, actor, now)
    ensures Follows(s, s', k, [Change(it.expectedVersion, it.patch, actor, it.reason, now)])
    ensures k in s'.history && CompleteAt(s', k)
  {
    hide DocumentKey, Normalized, NormalizeTags;
    PatchKeepsComplete(s.documents[k], s.history[k], it.patch, actor, it.reason, now);
    ReplayOne(s.history[k], Change(it.expectedVersion, it.patch, actor, it.reason, now));
  }

  lemma {:induction false} UntouchedFollows(s: State, s': State, k: string)
    requires k in s.documents && k in s.history && CompleteAt(s, k) && s.collections == s'.collections
    requires Untouched(s, s', k)
    ensures Follows(s, s', k, [])
    ensures k in s'.history && CompleteAt(s', k)
  {
    hide Normalized;
  }

  lemma {:induction false} UpdateTouchesOne(s: State, c: string, d: string, expected: int, p: Patch, actor: string,
                                            reason: string, key: string, now: Time)
    requires KeysMatch(s) && ExecUpdate(s, c, d, expected, p, actor, reason, key, now).response.err.None?
    ensures var s', k := ExecUpdate(s, c, d, expected, p, actor, reason, key, now).state, DocumentKey(c, d);
            && k in s.documents && s.documents[k].version == expected
            && KeysMatch(s') && s'.documents.Keys == s.documents.Keys && s'.collections == s.collections
            && PatchedBy(s, s', k, BatchItem(d, expected, p, reason), actor, now)
            && forall x :: x in s.documents && x != k ==> Untouched(s, s', x)
  {
    hide NormalizeTags;
  }

  lemma {:induction false} UpdateFollowsAt(s: State, c: string, d: string, expected: int, p: Patch, actor: string,
                                           reason: string, key: string, now: Time, k: string)
    requires Consistent(s) && ExecUpdate(s, c, d, expected, p, actor, reason, key, now).response.err.None?
    ensures var s' := ExecUpdate(s, c, d, expected, p, actor, reason, key, now).state;
            && Follows(s, s', k, if DocumentKey(c, d) == k then [Change(expected, p, actor, reason, now)] else [])
            && (k in s.documents ==> k in s'.documents && k in s'.history && CompleteAt(s', k))
  {
    UpdateTouchesOne(s, c, d, expected, p, actor, reason, key, now);
    var s' := ExecUpdate(s, c, d, expected, p, actor, reason, key, now).state;
    hide DocumentKey, CompleteAt, Untouched, PatchedBy, ExecUpdate, Follows;
    if k !in s.documents {
      AbsentFollows(s, s', k);
    } else if k == DocumentKey(c, d) {
      assert CompleteAt(s, k);
      PatchedFollows(s, s', k, BatchItem(d, expected, p, reason), actor, now);
    } else {
      assert CompleteAt(s, k);
      UntouchedFollows(s, s', k);
    }
  }

  lemma {:induction false} UpdateKeepsConsistent(s: State, c: string, d: string, expected: int, p: Patch,
                                                 actor: string, reason: string, key: string, now: Time)
    requires Consistent(s) && ExecUpdate(s, c, d, expected, p, actor, reason, key, now).response.err.None?
    ensures Consistent(ExecUpdate(s, c, d, expected, p, actor, reason, key, now).state)
  {
    UpdateTouchesOne(s, c, d, expected, p, actor, reason, key, now);
    var s' := ExecUpdate(s, c, d, expected, p, actor, reason, key, now).state;
    hide DocumentKey, CompleteAt, Untouched, PatchedBy, ExecUpdate, Follows;
    forall k | k in s'.documents ensures CompleteAt(s', k) {
      UpdateFollowsAt(s, c, d, expected, p, actor, reason, key, now, k);
    }
  }

  lemma {:induction false} AbsentFollows(s: State, s': State, k: string)
    requires k !in s.history && k !in s'.history
    ensures Follows(s, s', k, [])
  {
  }

  lemma {:induction false} AuditKeepsConsistent(s: State, s': State)
    requires Consistent(s) && s'.documents == s.documents && s'.history == s.history && s'.collections == s.collections
    ensures Consistent(s')
  {
    forall k | k in s'.documents ensures CompleteAt(s', k) {
      assert CompleteAt(s, k);
    }
  }

  lemma {:induction false} ItemCommitsOnce(c: string, items: seq<BatchItem>, i: nat, actor: string, now: Time,
                                           k: string)
    requires i <= |items| && DistinctIDs(items)
    ensures forall j :: i <= j < |items| && DocumentKey(c, items[j].documentID) == k ==>
              ItemCommits(c, items, i, actor, now, k) ==
              [Change(items[j].expectedVersion, items[j].patch, actor, items[j].reason, now)]
    ensures (forall j :: i <= j < |items| ==> DocumentKey(c, items[j].documentID) != k) ==>
              ItemCommits(c, items, i, actor, now, k) == []
    decreases |items| - i
  {
    hide DocumentKey;
    if i < |items| {
      ItemCommitsOnce(c, items, i + 1, actor, now, k);
      if DocumentKey(c, items[i].documentID) == k {
        forall j | i < j < |items| ensures DocumentKey(c, items[j].documentID) != k {
          KeyInjectiveInCollection(c, items[i].documentID, items[j].documentID);
        }
      }
    }
  }

  lemma {:induction false} ApplyFollows(s: State, c: string, items: seq<BatchItem>, actor: string, now: Time, k: string)
    requires Consistent(s) && ReadyFrom(s, c, items, 0) && DistinctIDs(items)
    ensures var s' := ApplyFrom(s, c, items, 0, actor, now).state;
            && Follows(s, s', k, ItemCommits(c, items, 0, actor, now, k))
            && (k in s.documents ==> k in s'.documents && k in s'.history && CompleteAt(s', k))
  {
    ApplyKeepsKeys(s, c, items, 0, actor, now);
    ApplyFrame(s, c, items, 0, actor, now);
    ItemCommitsOnce(c, items, 0, actor, now, k);
    var s' := ApplyFrom(s, c, items, 0, actor, now).state;
    hide DocumentKey, CompleteAt, Untouched, PatchedBy, ApplyFrom, Follows, ItemCommits;
    if k in s.documents {
      assert CompleteAt(s, k);
      ApplyFromPointwise(s, c, items, 0, actor, now, k);
      if j :| 0 <= j < |items| && DocumentKey(c, items[j].documentID) == k {
        PatchedFollows(s, s', k, items[j], actor, now);
      } else {
        UntouchedFollows(s, s', k);
      }
    } else {
      AbsentFollows(s, s', k);
    }
  }

  lemma {:induction false} ApplyKeepsConsistent(s: State, c: string, items: seq<BatchItem>, actor: string, now: Time)
    requires Consistent(s) && ReadyFrom(s, c, items, 0) && DistinctIDs(items)
    ensures Consistent(ApplyFrom(s, c, items, 0, actor, now).state)
  {
    hide CompleteAt;
    ApplyKeepsKeys(s, c, items, 0, actor, now);
    ApplyFrame(s, c, items, 0, actor, now);
    var s' := ApplyFrom(s, c, items, 0, actor, now).state;
    forall k | k in s'.documents ensures CompleteAt(s', k) {
      ApplyFollows(s, c, items, actor, now, k);
    }
  }

  // An applied batch is ready, and its whole adds but one audit event to what its items do.
  lemma {:induction false} BatchIsItsItems(s: State, c: string, items: seq<BatchItem>, actor: string, key: string,
                                           now: Time)
    requires items != [] && Accepted(s, c, items, actor, key, now)
    ensures ReadyFrom(s, c, items, 0) && DistinctIDs(items)
    ensures SameDocuments(ApplyFrom(s, c, items, 0, actor, now).state, ExecBatch(s, c, items, actor, key, now).state)
  {
    hide DocumentKey, ApplyFrom;
    AcceptedIffSinglesSucceed(s, c, items, actor, key, now);
    NoFailuresAllPresent(s, c, items, 0, map[]);
    hide Failures, SucceedsAlone;
  }

  lemma {:induction false} BatchFollows(s: State, c: string, items: seq<BatchItem>, actor: string, key: string,
                                        now: Time, k: string)
    requires Consistent(s) && items != [] && Accepted(s, c, items, actor, key, now)
    ensures var s' := ExecBatch(s, c, items, actor, key, now).state;
            && Consistent(s')
            && Follows(s, s', k, ItemCommits(c, items, 0, actor, now, k))
  {
    hide DocumentKey, ExecBatch, ApplyFrom, ItemCommits, Consistent, CompleteAt, DistinctIDs, Accepted;
    BatchIsItsItems(s, c, items, actor, key, now);
    ApplyFollows(s, c, items, actor, now, k);
    ApplyKeepsConsistent(s, c, items, actor, now);
    AuditKeepsConsistent(ApplyFrom(s, c, items, 0, actor, now).state, ExecBatch(s, c, items, actor, key, now).state);
  }

  // Every other call leaves documents and history alone.
  lemma {:induction false} OtherStepsKeepDocuments(s: State, e: Event)
    requires !Runs(s, e.req) || Step(s, e).response.err.Some? || !IsDocumentWrite(e.req)
    ensures var s' := Step(s, e).state;
            && s'.documents == s.documents && s'.history == s.history
            && (!e.req.RegisterCollection? ==> s'.collections == s.collections)
  {
    StepOf(s, e);
    hide Step, Execute;
    if Runs(s, e.req) {
      if IsDocumentWrite(e.req) {
        DocumentWriteFrame(s, e.req, e.now, e.freshID);
      } else if IsLockOp(e.req) {
        LockOpFrame(s, e.req, e.now, e.freshID);
      } else if e.req.RegisterCollection? {
        RegisterFrame(s, e.req, e.now, e.freshID);
      } else {
        ReadFrame(s, e.req, e.now, e.freshID);
      }
    }
  }

  lemma {:induction false} OtherStepsFollow(s: State, e: Event, k: string)
    requires Consistent(s) && EventCommits(s, e, k) == []
    requires !Runs(s, e.req) || Step(s, e).response.err.Some? || !IsDocumentWrite(e.req)
    ensures Consistent(Step(s, e).state)
    ensures Follows(s, Step(s, e).state, k, [])
  {
    hide DocumentKey;
    OtherStepsKeepDocuments(s, e);
    var s' := Step(s, e).state;
    if e.req.RegisterCollection? {
      RegisterKeepsCollections(s, e);
    }
    hide Step, EventCommits;
    forall x | x in s'.documents ensures CompleteAt(s', x) {
      assert CompleteAt(s, x);
    }
  }

  lemma {:induction false} RegisterKeepsCollections(s: State, e: Event)
    requires Consistent(s) && e.req.RegisterCollection?
    ensures var s' := Step(s, e).state;
            && s.collections.Keys <= s'.collections.Keys
            && forall id :: id in s'.collections ==> s'.collections[id].id == id
  {
    hide KeysMatch, CompleteAt;
  }

  /** A step keeps the invariant and extends each log by exactly its own commits. */
  lemma {:induction false} StepFollows(s: State, e: Event, k: string)
    requires Consistent(s)
    ensures Consistent(Step(s, e).state)
    ensures Follows(s, Step(s, e).state, k, EventCommits(s, e, k))
  {
    hide Consistent, ExecCreate, ExecUpdate, ExecBatch, Fingerprinted, DocumentKey;
    if Runs(s, e.req) && Step(s, e).response.err.None? && IsDocumentWrite(e.req) {
      var s1, s' := Execute(s, e.req, e.now, e.freshID).state, Step(s, e).state;
      match e.req {
        case CreateDocument(c, id, title, content, tags, actor, key) =>
          var newID := if id == "" then e.freshID else id;
          CreateFollows(s, c, newID, title, content, tags.GetOr([]), actor, key, e.now, k);
          CreateKeepsConsistent(s, c, newID, title, content, tags.GetOr([]), actor, key, e.now);
        case UpdateDocument(c, d, expected, p, actor, reason, key) =>
          UpdateKeepsConsistent(s, c, d, expected, p, actor, reason, key, e.now);
          UpdateFollowsAt(s, c, d, expected, p, actor, reason, key, e.now, k);
        case BatchUpdate(c, items, actor, key) =>
          BatchFollows(s, c, items, actor, key, e.now, k);
      }
      AuditKeepsConsistent(s1, s');
    } else {
      OtherStepsFollow(s, e, k);
    }
  }

  // ---- Whole runs ----

  lemma {:induction false} ReplayedConcat(h: seq<Revision>, a: seq<Commit>, b: seq<Commit>)
    ensures Replayed(h, a + b) == Replayed(Replayed(h, a), b)
    decreases |a|
  {
    if a == [] {
      assert a + b == b;
    } else {
      assert (a + b)[1..] == a[1..] + b;
      ReplayedConcat(Extend(h, a[0]), a[1..], b);
    }
  }

  lemma {:induction false} ConsecutiveConcat(a: seq<Commit>, b: seq<Commit>, n: nat)
    requires Consecutive(a, n) && Consecutive(b, n + |a|)
    ensures Consecutive(a + b, n)
  {
    forall i | 0 <= i < |a + b|
      ensures if n + i == 0 then (a + b)[i].Creation? else (a + b)[i].Change? && (a + b)[i].expected == n + i
    {
      if i >= |a| {
        assert (a + b)[i] == b[i - |a|];
      }
    }
  }

  lemma {:induction false} FollowsCompose(s: State, t: State, u: State, k: string, a: seq<Commit>, b: seq<Commit>)
    requires Follows(s, t, k, a) && Follows(t, u, k, b)
    ensures Follows(s, u, k, a + b)
  {
    ReplayedConcat(HistoryOf(s, k), a, b);
    ConsecutiveConcat(a, b, |HistoryOf(s, k)|);
  }

  /** The log is the complete replay of the run's commits, numbered without gaps or repeats. */
  lemma {:induction false} HistoryIsReplay(s: State, es: seq<Event>, k: string)
    requires Consistent(s)
    ensures Consistent(Run(s, es))
    ensures Follows(s, Run(s, es), k, Commits(s, es, k))
    decreases |es|
  {
    hide Step, EventCommits, Consistent;
    if es != [] {
      var s' := Step(s, es[0]).state;
      StepFollows(s, es[0], k);
      HistoryIsReplay(s', es[1..], k);
      FollowsCompose(s, s', Run(s, es), k, EventCommits(s, es[0], k), Commits(s', es[1..], k));
    }
  }

  /**
   No lost updates: from the empty service, a document of version v is one creation followed by
   successful updates that expected versions 1, 2, ..., v - 1, and its log replays exactly those.
   */
  lemma {:induction false} NoLostUpdates(es: seq<Event>, k: string)
    ensures var s, cs := Run(INIT, es), Commits(INIT, es, k);
            && (k in s.documents <==> cs != [])
            && (k in s.documents ==>
                  && s.documents[k].version == |cs| && cs[0].Creation?
                  && (forall v :: 1 <= v < |cs| ==> cs[v].Change? && cs[v].expected == v)
                  && k in s.history && s.history[k] == Replayed([], cs))
  {
    HistoryIsReplay(INIT, es, k);
    var s := Run(INIT, es);
    assert k in s.documents <==> k in s.history;
  }

  lemma {:induction false} ReplayedExtends(h: seq<Revision>, cs: seq<Commit>)
    ensures h <= Replayed(h, cs)
    decreases |cs|
  {
    if cs != [] {
      ReplayedExtends(Extend(h, cs[0]), cs[1..]);
    }
  }

  /** Logs only grow at the end: an earlier state's log is a prefix of every later one. */
  lemma {:induction false} HistoryOnlyGrows(s: State, es: seq<Event>, k: string)
    requires Consistent(s)
    ensures HistoryOf(s, k) <= HistoryOf(Run(s, es), k)
  {
    HistoryIsReplay(s, es, k);
    ReplayedExtends(HistoryOf(s, k), Commits(s, es, k));
  }

  /** In every reachable state all stored tags, live and historical, are normalized. */
  lemma {:induction false} StoredTagsNormalized(es: seq<Event>, k: string)
    requires k in Run(INIT, es).documents
    ensures var s := Run(INIT, es);
            && Normalized(s.documents[k].tags) && k in s.history
            && forall i :: 0 <= i < |s.history[k]| ==> Normalized(s.history[k][i].tags)
  {
    HistoryIsReplay(INIT, es, k);
    assert CompleteAt(Run(INIT, es), k);
    hide Run, Normalized, Follows, Commits;
  }

  ghost predicate CommitsVersion(s: State, e: Event, k: string, v: int) {
    exists i :: 0 <= i < |EventCommits(s, e, k)| && EventCommits(s, e, k)[i].Change?
      && EventCommits(s, e, k)[i].expected == v
  }

  /** Of any calls of a run that compete for the same version of a document, at most one succeeds. */
  lemma {:induction false} AtMostOneWinner(es: seq<Event>, i: nat, j: nat, k: string, v: int)
    requires i < |es| && j < |es|
    requires CommitsVersion(Run(INIT, es[..i]), es[i], k, v)
    requires CommitsVersion(Run(INIT, es[..j]), es[j], k, v)
    ensures i == j
  {
    if i < j {
      EarlierWinnerExcludes(es, i, j, k, v);
    } else if j < i {
      EarlierWinnerExcludes(es, j, i, k, v);
    }
  }

  lemma {:induction false} CommitBounds(s: State, e: Event, k: string, v: int)
    requires Consistent(s) && CommitsVersion(s, e, k, v)
    ensures |HistoryOf(s, k)| <= v < |HistoryOf(Step(s, e).state, k)|
  {
    hide Step, EventCommits, Consistent, Replayed;
    StepFollows(s, e, k);
  }

  lemma {:induction false} InitConsistent()
    ensures Consistent(INIT)
  {
  }

  lemma {:induction false} HistoriesGrow(es: seq<Event>, i: nat, j: nat, k: string)
    requires i <= j <= |es|
    ensures Consistent(Run(INIT, es[..i]))
    ensures |HistoryOf(Run(INIT, es[..i]), k)| <= |HistoryOf(Run(INIT, es[..j]), k)|
  {
    hide *;
    InitConsistent();
    HistoryIsReplay(INIT, es[..i], k);
    assert es[..j] == es[..i] + es[i..j];
    RunConcat(INIT, es[..i], es[i..j]);
    HistoryOnlyGrows(Run(INIT, es[..i]), es[i..j], k);
  }

  lemma {:induction false} EarlierWinnerExcludes(es: seq<Event>, i: nat, j: nat, k: string, v: int)
    requires i < j < |es|
    requires CommitsVersion(Run(INIT, es[..i]), es[i], k, v)
    ensures !CommitsVersion(Run(INIT, es[..j]), es[j], k, v)
  {
    hide Step, Consistent, CommitsVersion, Run, HistoryOf;
    HistoriesGrow(es, i, i, k);
    CommitBounds(Run(INIT, es[..i]), es[i], k, v);
    ResponseAt(INIT, es, i);
    HistoriesGrow(es, i + 1, j, k);
    HistoriesGrow(es, j, j, k);
    if CommitsVersion(Run(INIT, es[..j]), es[j], k, v) {
      CommitBounds(Run(INIT, es[..j]), es[j], k, v);
    }
  }
}
