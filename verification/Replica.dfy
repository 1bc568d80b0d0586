/** The audit log is a sufficient record: folding it rebuilds document versions and locks. */
module Replica {
  import opened Prelude
  import opened Account
  import opened AuditLog
  import opened Domain
  import opened Frames
  import opened Keys
  import opened Leases
  import opened Sorting
  import opened Spec
  import opened Tags
  import opened Text

  datatype Replica = Replica(versions: map<string, int>, locks: map<string, Lock>)

  function Absorb(r: Replica, e: AuditEvent): Replica {
    var k := DocumentKey(e.collectionID, e.documentID);
    match e.details
    case CreatedDetails(version, _) => r.(versions := r.versions[k := version])
    case UpdatedDetails(_, to, _, _) => r.(versions := r.versions[k := to])
    case AcquiredDetails(ttl, holder) =>
      r.(locks := r.locks[k := Lock(e.documentID, holder, e.timestamp, e.timestamp + ttl * SECOND, 0)])
    case RenewedDetails(ttl, n) =>
      if k !in r.locks then r
      else r.(locks := r.locks[k := r.locks[k].(expiresAt := e.timestamp + ttl * SECOND, renewCount := n)])
    case ReleasedDetails(_, _) => r.(locks := r.locks - {k})
    case ReapedDetails(_, _) => r.(locks := r.locks - {k})
    case _ => r
  }

  function Fold(log: seq<AuditEvent>): Replica {
    if log == [] then Replica(map[], map[]) else Absorb(Fold(log[..|log| - 1]), log[|log| - 1])
  }

  // ---- What the fold agrees on ----

  // The TTL asked for by the last acquisition or renewal of each lock that ran and succeeded.
  type TTLs = map<string, Duration>

  function GrantedTTLs(ttls: TTLs, req: Request, r: Response): TTLs {
    if (req.AcquireLock? || req.RenewLock?) && AnsweredLock(r).Some?
    then ttls[DocumentKey(req.collectionID, req.documentID) := req.ttl] else ttls
  }

  function LastTTLs(ttls: TTLs, s: State, es: seq<Event>): TTLs
    decreases |es|
  {
    if es == [] then ttls
    else
      var r := Step(s, es[0]);
      LastTTLs(if Runs(s, es[0].req) then GrantedTTLs(ttls, es[0].req, r.response) else ttls, r.state, es[1..])
  }

  predicate Whole(ttl: Duration) {
    NormalizeTTL(ttl) % SECOND == 0
  }

  // The log keeps whole seconds of a TTL, so the copy r of lock l is exact iff there was no fraction to lose.
  ghost predicate Agrees(l: Lock, r: Lock, ttl: Duration) {
    && r == l.(expiresAt := r.expiresAt)
    && r.expiresAt <= l.expiresAt < r.expiresAt + SECOND
    && (r == l <==> Whole(ttl))
  }

  ghost predicate VersionsMirror(s: State) {
    var r := Fold(s.audit);
    && r.versions.Keys == s.documents.Keys
    && forall k :: k in s.documents ==> r.versions[k] == s.documents[k].version
  }

  // Every lock is in the replica; what else is there has expired by end.
  ghost predicate Mirrors(s: State, end: Time, ttls: TTLs) {
    var r := Fold(s.audit);
    && (forall k :: k in s.locks ==> k in r.locks && k in ttls && Agrees(s.locks[k], r.locks[k], ttls[k]))
    && (forall k :: k in r.locks && k !in s.locks ==> r.locks[k].expiresAt <= end)
    && (forall k :: k in s.locks ==> DocumentKey(CollectionIDFromKey(k), s.locks[k].documentID) == k)
  }

  // ---- Folding ----

  lemma {:induction false} FoldAppend(s: State, e: AuditEvent)
    ensures Fold(AppendAudit(s, e).audit) == Absorb(Fold(s.audit), e.(sequence := s.auditSeq + 1))
  {
    var log := AppendAudit(s, e).audit;
    assert log[..|log| - 1] == s.audit;
  }

  predicate AboutDocument(ev: AuditEvent) {
    ev.details.CreatedDetails? || ev.details.UpdatedDetails?
  }

  predicate AboutLock(ev: AuditEvent) {
    ev.details.AcquiredDetails? || ev.details.RenewedDetails? || ev.details.ReleasedDetails?
      || ev.details.ReapedDetails?
  }

  lemma {:induction false} FoldOver(log: seq<AuditEvent>, evs: seq<AuditEvent>)
    ensures (forall ev :: ev in evs ==> !AboutDocument(ev)) ==> Fold(log + evs).versions == Fold(log).versions
    ensures (forall ev :: ev in evs ==> !AboutLock(ev)) ==> Fold(log + evs).locks == Fold(log).locks
    decreases |evs|
  {
    if evs == [] {
      assert log + evs == log;
    } else {
      var front, last := evs[..|evs| - 1], evs[|evs| - 1];
      FoldOver(log, front);
      assert (log + evs)[..|log + evs| - 1] == log + front;
      assert last in evs && forall ev :: ev in front ==> ev in evs;
      hide DocumentKey;
    }
  }

  lemma {:induction false} ItemEventsAreAboutDocuments(c: string, items: seq<BatchItem>,
                                                       results: seq<BatchItemResult>, actor: string, now: Time)
    ensures forall ev :: ev in ItemEvents(c, items, results, actor, now) ==> !AboutLock(ev)
  {
    if items != [] && results != [] {
      ItemEventsAreAboutDocuments(c, items[1..], results[1..], actor, now);
    }
  }

  lemma {:induction false} ReapEventsAreAboutLocks(locks: map<string, Lock>, order: seq<string>, now: Time)
    ensures forall ev :: ev in ReapEvents(locks, order, now) ==> !AboutDocument(ev)
    decreases |order|
  {
    if order != [] {
      ReapEventsAreAboutLocks(locks - {order[0]}, order[1..], now);
      ReapEventsAreAboutLocks(locks, order[1..], now);
    }
  }

  lemma {:induction false} EventsAreAbout(s: State, e: Event, r: Response)
    ensures !IsDocumentWrite(e.req) ==> forall ev :: ev in EventsOf(s, e, r) ==> !AboutDocument(ev)
    ensures !IsLockOp(e.req) ==> forall ev :: ev in EventsOf(s, e, r) ==> !AboutLock(ev)
  {
    hide DocumentKey, NormalizeTTL;
    if e.req.BatchUpdate? && AnsweredBatch(r).Some? {
      ItemEventsAreAboutDocuments(e.req.collectionID, e.req.items, AnsweredBatch(r).value.results, e.req.actor, e.now);
    } else if e.req.ReapExpiredLocks? {
      ReapEventsAreAboutLocks(s.locks, e.req.order, e.now);
    }
    hide ItemEvents, ReapEvents;
  }

  // What a step does not write about stays in the fold.
  lemma {:induction false} StepFolds(s: State, e: Event)
    ensures !IsDocumentWrite(e.req) ==> Fold(Step(s, e).state.audit).versions == Fold(s.audit).versions
    ensures !IsLockOp(e.req) ==> Fold(Step(s, e).state.audit).locks == Fold(s.audit).locks
  {
    hide Step, Runs, EventsOf, Fold, IsDocumentWrite, IsLockOp;
    StepWrites(s, e);
    EventsAreAbout(s, e, Step(s, e).response);
    var evs := CallEvents(s, e);
    var written := Numbering(evs, s.auditSeq);
    forall ev | ev in written ensures exists old' :: old' in evs && ev.details == old'.details {
      var i :| 0 <= i < |written| && written[i] == ev;
      assert evs[i] in evs;
    }
    FoldOver(s.audit, written);
  }

  // ---- Documents ----

  lemma {:induction false} PutVersion(s: State, s1: State, e: AuditEvent, k: string)
    requires VersionsMirror(s) && DocumentKey(e.collectionID, e.documentID) == k
    requires s1.audit == s.audit && k in s1.documents && s1.documents == s.documents[k := s1.documents[k]]
    requires match e.details
             case CreatedDetails(v, _) => v == s1.documents[k].version
             case UpdatedDetails(_, v, _, _) => v == s1.documents[k].version
             case _ => false
    ensures VersionsMirror(AppendAudit(s1, e))
  {
    FoldAppend(s1, e);
    hide DocumentKey, Fold;
  }

  lemma {:induction false} ApplyMirrors(s: State, c: string, items: seq<BatchItem>, i: nat, actor: string, now: Time)
    requires i <= |items| && AllPresent(s, c, items) && VersionsMirror(s)
    ensures VersionsMirror(ApplyFrom(s, c, items, i, actor, now).state)
    decreases |items| - i
  {
    hide DocumentKey, NormalizeTags, VersionsMirror;
    if i < |items| {
      var k, it := DocumentKey(c, items[i].documentID), items[i];
      var s1, s' := ApplyUpdate(s, k, it.patch, actor, it.reason, now), ApplyItem(s, c, it, actor, now);
      PutVersion(s, s1, AuditEvent(0, now, DocumentUpdated, actor, c, it.documentID, "",
                                   UpdatedDetails(it.expectedVersion, s1.documents[k].version, it.reason, true)), k);
      ApplyMirrors(s', c, items, i + 1, actor, now);
    }
  }

  // Events about batches as a whole do not concern the replica.
  lemma {:induction false} NeutralMirrors(s: State, e: AuditEvent)
    requires VersionsMirror(s) && (e.details.RejectedDetails? || e.details.AppliedDetails?)
    ensures VersionsMirror(AppendAudit(s, e))
  {
    FoldAppend(s, e);
    hide Fold;
  }

  lemma {:induction false} BatchMirrors(s: State, c: string, items: seq<BatchItem>, actor: string, key: string,
                                        now: Time)
    requires VersionsMirror(s)
    ensures VersionsMirror(ExecBatch(s, c, items, actor, key, now).state)
  {
    hide VersionsMirror;
    if c in s.collections {
      var failures := Failures(s, c, items);
      if failures != [] {
        NeutralMirrors(s, AuditEvent(0, now, BatchRejected, actor, c, "", key, RejectedDetails(|items|, |failures|)));
      } else {
        NoFailuresAllPresent(s, c, items, 0, map[]);
        ApplyMirrors(s, c, items, 0, actor, now);
        var s1 := ApplyFrom(s, c, items, 0, actor, now).state;
        NeutralMirrors(s1, AuditEvent(0, now, BatchApplied, actor, c, "", key, AppliedDetails(|items|)));
      }
    }
  }

  lemma {:induction false} WriteMirrors(s: State, req: Request, now: Time, freshID: string)
    requires VersionsMirror(s) && (req.CreateDocument? || req.UpdateDocument?)
    ensures VersionsMirror(Execute(s, req, now, freshID).state)
  {
    hide VersionsMirror, DocumentKey, NormalizeTags;
    var r := Execute(s, req, now, freshID);
    if r.response.err.None? {
      match req {
        case CreateDocument(c, id, _, _, _, actor, key) =>
          var k, d := DocumentKey(c, if id == "" then freshID else id), r.response.value.value.document;
          PutVersion(s, InsertDocument(s, k, d, actor, now),
                     AuditEvent(0, now, DocumentCreated, actor, c, d.id, key, CreatedDetails(1, d.tags)), k);
        case UpdateDocument(c, d, expected, p, actor, reason, key) =>
          var k := DocumentKey(c, d);
          var s1 := ApplyUpdate(s, k, p, actor, reason, now);
          PutVersion(s, s1, AuditEvent(0, now, DocumentUpdated, actor, c, d, key,
                                       UpdatedDetails(expected, s1.documents[k].version, reason, false)), k);
      }
    }
  }

  lemma {:induction false} StepMirrorsVersions(s: State, e: Event)
    requires VersionsMirror(s)
    ensures VersionsMirror(Step(s, e).state)
  {
    StepOf(s, e);
    StepFolds(s, e);
    var s' := Step(s, e).state;
    if !IsDocumentWrite(e.req) {
      OtherCallsKeep(s, e);
      hide Step, Execute, Runs, Fold;
      assert s'.documents == s.documents;
    } else {
      var s1 := Execute(s, e.req, e.now, e.freshID).state;
      if e.req.BatchUpdate? {
        BatchMirrors(s, e.req.collectionID, e.req.items, e.req.actor, e.req.key, e.now);
        assert VersionsMirror(s1);
      } else {
        WriteMirrors(s, e.req, e.now, e.freshID);
      }
      hide Step, Execute, Runs, Fold;
      assert s' == s || (s'.audit == s1.audit && s'.documents == s1.documents);
    }
  }

  lemma {:induction false} RunMirrorsVersions(s: State, es: seq<Event>)
    requires VersionsMirror(s)
    ensures VersionsMirror(Run(s, es))
    decreases |es|
  {
    hide Step, VersionsMirror;
    if es != [] {
      StepMirrorsVersions(s, es[0]);
      RunMirrorsVersions(Step(s, es[0]).state, es[1..]);
    }
  }

  /** Folding the log of any run, with any collection ids, gives exactly every document's current version. */
  lemma {:induction false} LogHasVersions(es: seq<Event>)
    ensures var s := Run(INIT, es); Fold(s.audit).versions == map k | k in s.documents :: s.documents[k].version
  {
    assert VersionsMirror(INIT);
    RunMirrorsVersions(INIT, es);
    hide Run, Fold;
  }

  // ---- Locks ----

  lemma {:induction false} DropExpiredMirrors(s: State, k: string, now: Time, end: Time, ttls: TTLs)
    requires Mirrors(s, end, ttls) && now <= end && (k in s.locks ==> s.locks[k].IsExpired(now))
    ensures Mirrors(WithoutLock(s, k), end, ttls)
  {
    hide DocumentKey, CollectionIDFromKey, Fold;
  }

  // What is granted for ttl, and the whole seconds of it that the log keeps.
  ghost predicate Cut(granted: Duration, seconds: int, ttl: Duration) {
    && seconds * SECOND <= granted < seconds * SECOND + SECOND
    && (seconds * SECOND == granted <==> Whole(ttl))
  }

  lemma {:induction false} CutOf(ttl: Duration)
    ensures Cut(NormalizeTTL(ttl), NormalizeTTL(ttl) / SECOND, ttl)
  {
    hide NormalizeTTL;
  }

  // Storing a lock and recording its cut expiry keeps the two tables in step.
  lemma {:induction false} PutLockMirrors(s: State, e: AuditEvent, lock: Lock, cut: Lock, ttl: Duration, end: Time,
                                          ttls: TTLs)
    requires Mirrors(s, end, ttls) && Agrees(lock, cut, ttl)
    requires var k := DocumentKey(e.collectionID, e.documentID);
             && DocumentKey(CollectionIDFromKey(k), lock.documentID) == k
             && Absorb(Fold(s.audit), e.(sequence := s.auditSeq + 1)) ==
                Fold(s.audit).(locks := Fold(s.audit).locks[k := cut])
    ensures var k := DocumentKey(e.collectionID, e.documentID);
            Mirrors(AppendAudit(s.(locks := s.locks[k := lock]), e), end, ttls[k := ttl])
  {
    FoldAppend(s.(locks := s.locks[DocumentKey(e.collectionID, e.documentID) := lock]), e);
    hide DocumentKey, CollectionIDFromKey, Fold, Agrees, Absorb;
  }

  lemma {:induction false} GrantMirrors(s: State, c: string, d: string, holder: string, ttl: Duration, actor: string,
                                        key: string, now: Time, end: Time, ttls: TTLs)
    requires Mirrors(s, end, ttls) && SlashFree(c)
    ensures Mirrors(Granted(s, c, d, holder, ttl, actor, key, now).state, end, ttls[DocumentKey(c, d) := ttl])
    ensures AnsweredLock(Granted(s, c, d, holder, ttl, actor, key, now).response).Some?
  {
    SplitInvertsIffSlashFree(c, d);
    CutOf(ttl);
    hide DocumentKey, CollectionIDFromKey, Fold, NormalizeTTL, Mirrors;
    var seconds := NormalizeTTL(ttl) / SECOND;
    PutLockMirrors(s, AuditEvent(0, now, LockAcquired, actor, c, d, key, AcquiredDetails(seconds, holder)),
                   Lock(d, holder, now, now + NormalizeTTL(ttl), 0),
                   Lock(d, holder, now, now + seconds * SECOND, 0), ttl, end, ttls);
  }

  lemma {:induction false} RenewalMirrors(s: State, c: string, d: string, granted: Duration, seconds: int,
                                          ttl: Duration, actor: string, key: string, now: Time, end: Time, ttls: TTLs)
    requires Mirrors(s, end, ttls) && DocumentKey(c, d) in s.locks && Cut(granted, seconds, ttl)
    ensures var k := DocumentKey(c, d);
            var lock := s.locks[k].(expiresAt := now + granted, renewCount := s.locks[k].renewCount + 1);
            Mirrors(AppendAudit(s.(locks := s.locks[k := lock]),
                                AuditEvent(0, now, LockRenewed, actor, c, d, key,
                                           RenewedDetails(seconds, lock.renewCount))),
                    end, ttls[k := ttl])
  {
    hide Whole, DocumentKey, CollectionIDFromKey, Fold;
    var k := DocumentKey(c, d);
    var held, copy := s.locks[k], Fold(s.audit).locks[k];
    assert Agrees(held, copy, ttls[k]);
    hide Mirrors;
    PutLockMirrors(s, AuditEvent(0, now, LockRenewed, actor, c, d, key, RenewedDetails(seconds, held.renewCount + 1)),
                   held.(expiresAt := now + granted, renewCount := held.renewCount + 1),
                   copy.(expiresAt := now + seconds * SECOND, renewCount := held.renewCount + 1), ttl, end, ttls);
  }

  lemma {:induction false} RenewMirrors(s: State, c: string, d: string, ttl: Duration, actor: string, key: string,
                                        now: Time, end: Time, ttls: TTLs)
    requires Mirrors(s, end, ttls) && DocumentKey(c, d) in s.locks
    ensures Mirrors(Renewed(s, c, d, ttl, actor, key, now).state, end, ttls[DocumentKey(c, d) := ttl])
    ensures AnsweredLock(Renewed(s, c, d, ttl, actor, key, now).response).Some?
  {
    hide Mirrors, DocumentKey, NormalizeTTL, Whole, Cut;
    CutOf(ttl);
    RenewalMirrors(s, c, d, NormalizeTTL(ttl), NormalizeTTL(ttl) / SECOND, ttl, actor, key, now, end, ttls);
  }

  lemma {:induction false} RemoveMirrors(s: State, k: string, e: AuditEvent, end: Time, ttls: TTLs)
    requires Mirrors(s, end, ttls) && DocumentKey(e.collectionID, e.documentID) == k
    requires e.details.ReleasedDetails? || e.details.ReapedDetails?
    ensures Mirrors(AppendAudit(WithoutLock(s, k), e), end, ttls)
  {
    FoldAppend(WithoutLock(s, k), e);
    hide DocumentKey, CollectionIDFromKey, Fold;
  }

  lemma {:induction false} ReapMirrors(s: State, order: seq<string>, now: Time, end: Time, ttls: TTLs)
    requires Mirrors(s, end, ttls)
    ensures Mirrors(Reap(s, order, now), end, ttls)
    decreases |order|
  {
    if order != [] {
      var k := order[0];
      if k in s.locks && s.locks[k].IsExpired(now) {
        assert DocumentKey(CollectionIDFromKey(k), s.locks[k].documentID) == k;
        hide Mirrors, DocumentKey, CollectionIDFromKey;
        RemoveMirrors(s, k, AuditEvent(0, now, LockReaped, "", CollectionIDFromKey(k), s.locks[k].documentID, "",
                                       ReapedDetails(s.locks[k].holder, s.locks[k].expiresAt)), end, ttls);
        ReapMirrors(ReapKey(s, k, now), order[1..], now, end, ttls);
      } else {
        hide Mirrors;
        ReapMirrors(s, order[1..], now, end, ttls);
      }
    }
  }

  lemma {:induction false} AcquireMirrors(s: State, c: string, d: string, h: string, ttl: Duration, actor: string,
                                          key: string, now: Time, end: Time, ttls: TTLs)
    requires Mirrors(s, end, ttls) && now <= end && SlashFreeCollections(s)
    ensures var r := ExecAcquire(s, c, d, h, ttl, actor, key, now);
            Mirrors(r.state, end, if AnsweredLock(r.response).Some? then ttls[DocumentKey(c, d) := ttl] else ttls)
    ensures var r := ExecRenew(s, c, d, h, ttl, actor, key, now);
            Mirrors(r.state, end, if AnsweredLock(r.response).Some? then ttls[DocumentKey(c, d) := ttl] else ttls)
  {
    hide Mirrors, DocumentKey, Granted, Renewed, NormalizeTTL, SlashFree;
    var k := DocumentKey(c, d);
    if LookupError(s, c, d).None? {
      if k in s.locks {
        RenewMirrors(s, c, d, ttl, actor, key, now, end, ttls);
      }
      if LiveLock(s, k, now).None? {
        DropExpiredMirrors(s, k, now, end, ttls);
        GrantMirrors(s, c, d, h, ttl, actor, key, now, end, ttls);
        GrantMirrors(WithoutLock(s, k), c, d, h, ttl, actor, key, now, end, ttls);
      }
    }
  }

  lemma {:induction false} ReleaseMirrors(s: State, c: string, d: string, h: string, actor: string, key: string,
                                          now: Time, end: Time, ttls: TTLs)
    requires Mirrors(s, end, ttls) && now <= end
    ensures Mirrors(ExecRelease(s, c, d, h, actor, key, now).state, end, ttls)
  {
    hide Mirrors, DocumentKey;
    var k := DocumentKey(c, d);
    if LookupError(s, c, d).None? {
      if LiveLock(s, k, now).None? {
        DropExpiredMirrors(s, k, now, end, ttls);
      } else {
        var l := s.locks[k];
        RemoveMirrors(s, k, AuditEvent(0, now, LockReleased, actor, c, d, key,
                                       ReleasedDetails(l.holder, l.renewCount)), end, ttls);
      }
    }
  }

  // ---- Steps and runs ----

  lemma {:induction false} LockCallMirrors(s: State, e: Event, end: Time, ttls: TTLs)
    requires IsLockOp(e.req) && Mirrors(s, end, ttls) && e.now <= end && SlashFreeCollections(s)
    ensures var r := Execute(s, e.req, e.now, e.freshID); Mirrors(r.state, end, GrantedTTLs(ttls, e.req, r.response))
  {
    hide Mirrors, SlashFreeCollections, NormalizeTTL, DocumentKey, ExecAcquire, ExecRenew, ExecRelease;
    match e.req
    case AcquireLock(c, d, h, ttl, actor, key) => AcquireMirrors(s, c, d, h, ttl, actor, key, e.now, end, ttls);
    case RenewLock(c, d, h, ttl, actor, key) => AcquireMirrors(s, c, d, h, ttl, actor, key, e.now, end, ttls);
    case ReleaseLock(c, d, h, actor, key) => ReleaseMirrors(s, c, d, h, actor, key, e.now, end, ttls);
    case ReapExpiredLocks(order) => ReapMirrors(s, order, e.now, end, ttls);
  }

  lemma {:induction false} StepMirrors(s: State, e: Event, end: Time, ttls: TTLs)
    requires Mirrors(s, end, ttls) && e.now <= end && SlashFreeCollections(s)
    ensures var r := Step(s, e);
            Mirrors(r.state, end, if Runs(s, e.req) then GrantedTTLs(ttls, e.req, r.response) else ttls)
  {
    StepOf(s, e);
    hide Step, Execute, Mirrors, Fingerprinted, Validate, Cached, SlashFreeCollections, AnsweredLock, Fold;
    var s' := Step(s, e).state;
    if !IsLockOp(e.req) {
      StepFolds(s, e);
      OtherStepsKeepLocks(s, e);
      SameTablesMirror(s, s', end, ttls);
    } else if Runs(s, e.req) {
      LockCallMirrors(s, e, end, ttls);
      var r := Execute(s, e.req, e.now, e.freshID);
      SameTablesMirror(r.state, s', end, GrantedTTLs(ttls, e.req, r.response));
    }
  }

  lemma {:induction false} SameTablesMirror(s: State, t: State, end: Time, ttls: TTLs)
    requires Fold(s.audit).locks == Fold(t.audit).locks && s.locks == t.locks
    ensures Mirrors(s, end, ttls) == Mirrors(t, end, ttls)
  {
    hide DocumentKey, CollectionIDFromKey, Fold, Agrees;
  }

  lemma {:induction false} RunMirrors(s: State, es: seq<Event>, end: Time, ttls: TTLs)
    requires Mirrors(s, end, ttls) && EndsBy(es, end) && SlashFreeCollections(Run(s, es))
    ensures Mirrors(Run(s, es), end, LastTTLs(ttls, s, es))
    decreases |es|
  {
    forall id | id in s.collections {
      CollectionsPermanent(s, es, id);
    }
    assert SlashFreeCollections(s);
    hide Step, Runs, GrantedTTLs, Mirrors, SlashFreeCollections;
    if es != [] {
      StepMirrors(s, es[0], end, ttls);
      var r := Step(s, es[0]);
      RunMirrors(r.state, es[1..], end, if Runs(s, es[0].req) then GrantedTTLs(ttls, es[0].req, r.response) else ttls);
    }
  }

  /**
   With slash-free collections, folding the log of any run gives also a lock table that contains the
   service's: each copy agrees on document, holder, acquisition time and renewals, its expiry is
   the true one cut by less than a second, and it is exact iff the last TTL granted for that lock
   was a whole number of seconds. Extra entries have all expired by the latest clock reading; the
   clock may go back and forth.
   */
  lemma {:induction false} LogIsSufficient(es: seq<Event>, end: Time)
    requires EndsBy(es, end) && SlashFreeCollections(Run(INIT, es))
    ensures var s, ttls := Run(INIT, es), LastTTLs(map[], INIT, es); var r := Fold(s.audit);
            && r.versions == (map k | k in s.documents :: s.documents[k].version)
            && (forall k :: k in s.locks ==> k in r.locks && k in ttls && Agrees(s.locks[k], r.locks[k], ttls[k]))
            && (forall k :: k in r.locks && k !in s.locks ==> r.locks[k].expiresAt <= end)
  {
    assert Mirrors(INIT, end, map[]);
    LogHasVersions(es);
    RunMirrors(INIT, es, end, map[]);
    hide Run, Fold, Agrees, DocumentKey, CollectionIDFromKey;
  }

  lemma {:induction false} LatestReading(es: seq<Event>) returns (end: Time)
    ensures EndsBy(es, end)
  {
    if es == [] {
      end := 0;
    } else {
      end := LatestReading(es[1..]);
      if end < es[0].now {
        end := es[0].now;
      }
    }
  }

  /**
   So, lock by lock and for every run, the replica has the true expiry iff the last TTL granted had
   no fraction of a second.
   */
  lemma {:induction false} ReplicaExactIffWhole(es: seq<Event>)
    requires SlashFreeCollections(Run(INIT, es))
    ensures var s, ttls := Run(INIT, es), LastTTLs(map[], INIT, es); var r := Fold(s.audit);
            && (forall k :: k in s.locks ==> k in r.locks && k in ttls)
            && (forall k :: k in s.locks ==> (r.locks[k] == s.locks[k] <==> Whole(ttls[k])))
  {
    hide Run, Fold, LastTTLs, Whole;
    var end := LatestReading(es);
    LogIsSufficient(es, end);
  }

  // ---- When the log is not enough ----

  /** What goes wrong: a reap event names the key it removed iff the collection id has no slash. */
  lemma {:induction false} ReapNamesKeyIffSlashFree(s: State, c: string, d: string, now: Time)
    requires var k := DocumentKey(c, d); k in s.locks && s.locks[k].documentID == d && s.locks[k].IsExpired(now)
    ensures var k := DocumentKey(c, d);
            var e := ReapKey(s, k, now).audit[|s.audit|];
            DocumentKey(e.collectionID, e.documentID) == k <==> SlashFree(c)
  {
    var k := DocumentKey(c, d);
    SplitInvertsIffSlashFree(c, d);
    var c' := CollectionIDFromKey(k);
    if DocumentKey(c', d) == k {
      assert |c'| == |c|;
      assert c' == k[..|c'|] && c == k[..|c|];
    }
  }

  // Every lock of the service is in the replica.
  ghost predicate HoldsAllLocks(s: State) {
    s.locks.Keys <= Fold(s.audit).locks.Keys
  }

  lemma {:induction false} ReapKeepsAbsent(s: State, order: seq<string>, now: Time, k: string)
    requires k !in Fold(s.audit).locks
    ensures k !in Fold(Reap(s, order, now).audit).locks
    decreases |order|
  {
    if order != [] {
      var s1 := ReapKey(s, order[0], now);
      assert k !in Fold(s1.audit).locks by {
        if s1 != s {
          var l := s.locks[order[0]];
          FoldAppend(WithoutLock(s, order[0]),
                     AuditEvent(0, now, LockReaped, "", CollectionIDFromKey(order[0]), l.documentID, "",
                                                          ReapedDetails(l.holder, l.expiresAt)));
        }
        hide DocumentKey, CollectionIDFromKey, Fold;
      }
      hide ReapKey, Fold;
      ReapKeepsAbsent(s1, order[1..], now, k);
    }
  }

  // Reaping the lock under k drops from the fold the key that the event spells.
  lemma {:induction false} ReapDrops(s: State, order: seq<string>, now: Time, k: string)
    requires k in order && k in s.locks && s.locks[k].IsExpired(now)
    ensures DocumentKey(CollectionIDFromKey(k), s.locks[k].documentID) !in Fold(Reap(s, order, now).audit).locks
    decreases |order|
  {
    hide DocumentKey, CollectionIDFromKey, Fold;
    var s1 := ReapKey(s, order[0], now);
    if order[0] == k {
      var l := s.locks[k];
      FoldAppend(WithoutLock(s, k), AuditEvent(0, now, LockReaped, "", CollectionIDFromKey(k), l.documentID, "",
                                               ReapedDetails(l.holder, l.expiresAt)));
      ReapKeepsAbsent(s1, order[1..], now, DocumentKey(CollectionIDFromKey(k), l.documentID));
    } else {
      assert k in order[1..];
      ReapDrops(s1, order[1..], now, k);
    }
  }

  lemma {:induction false} ExpiredBy(locks: map<string, Lock>, from: Time) returns (t: Time)
    ensures from <= t && forall k :: k in locks ==> locks[k].IsExpired(t)
    decreases |locks|
  {
    if k :| k in locks {
      var rest := locks - {k};
      assert |rest| < |locks| by {
        assert rest.Keys < locks.Keys;
        assert |rest| == |rest.Keys| && |locks| == |locks.Keys|;
        SmallerSet(rest.Keys, locks.Keys);
      }
      t := ExpiredBy(rest, if from < locks[k].expiresAt then locks[k].expiresAt else from);
      forall j | j in locks ensures locks[j].IsExpired(t) {
        assert j != k ==> j in rest;
      }
    } else {
      t := from;
    }
  }

  function MakeDocument(c: string, d: string, t: Time): Event {
    Event(CreateDocument(c, d, "x", "", None, "", ""), t, "")
  }

  function TakeLock(c: string, d: string, ttl: Duration, t: Time): Event {
    Event(AcquireLock(c, d, "h", ttl, "", ""), t, "")
  }

  lemma {:induction false} MakeStep(s: State, c: string, d: string, t: Time)
    requires c in s.collections && d != ""
    ensures var s' := Step(s, MakeDocument(c, d, t)).state;
            && s'.collections == s.collections && s'.locks == s.locks
            && s.documents.Keys <= s'.documents.Keys && DocumentKey(c, d) in s'.documents
  {
    TrimSpaceFixes("x");
    StepOf(s, MakeDocument(c, d, t));
    hide Step, DocumentKey, NormalizeTags, TrimSpace;
  }

  lemma {:induction false} TakeStep(s: State, c: string, d: string, ttl: Duration, t: Time)
    requires c in s.collections && DocumentKey(c, d) in s.documents && LiveLock(s, DocumentKey(c, d), t).None?
    ensures var s' := Step(s, TakeLock(c, d, ttl, t)).state;
            && s'.collections == s.collections && s'.documents == s.documents
            && s'.locks == s.locks[DocumentKey(c, d) := Lock(d, "h", t, t + NormalizeTTL(ttl), 0)]
  {
    StepOf(s, TakeLock(c, d, ttl, t));
    hide Step, DocumentKey, NormalizeTTL;
  }

  // The documents "rest/x" and "x" of a collection "c0/rest": a reap of the first spells the key of the second.
  lemma {:induction false} SlashedPair(c: string) returns (d1: string, d2: string)
    requires !SlashFree(c)
    ensures d1 != "" && d2 != "" && DocumentKey(c, d1) != DocumentKey(c, d2)
    ensures DocumentKey(CollectionIDFromKey(DocumentKey(c, d1)), d1) == DocumentKey(c, d2)
  {
    var c0 := SplitWitness(c);
    var rest := c[|c0| + 1..];
    d1, d2 := rest + "/x", "x";
    assert c == c0 + "/" + rest;
    assert DocumentKey(c, d1) == DocumentKey(c0, rest + "/" + d1);
    assert DocumentKey(c0, d1) == DocumentKey(c, d2);
    SplitInvertsIffSlashFree(c0, rest + "/" + d1);
    KeyInjectiveInCollection(c, d1, d2);
  }

  // Two locks of one second and of two, and a full reap in between.
  lemma {:induction false} ReapLosesLock(s: State, c: string, d1: string, d2: string, t: Time)
    returns (order: seq<string>)
    requires c in s.collections && DocumentKey(c, d1) in s.documents && DocumentKey(c, d2) in s.documents
    requires DocumentKey(c, d1) != DocumentKey(c, d2) && forall k :: k in s.locks ==> s.locks[k].IsExpired(t)
    requires DocumentKey(CollectionIDFromKey(DocumentKey(c, d1)), d1) == DocumentKey(c, d2)
    ensures var s1 := Step(s, TakeLock(c, d1, SECOND, t)).state;
            var s2 := Step(s1, TakeLock(c, d2, 2 * SECOND, t)).state;
            && Enumerates(order, s2.locks.Keys)
            && !HoldsAllLocks(Step(s2, Event(ReapExpiredLocks(order), t + SECOND, "")).state)
  {
    var k1, k2 := DocumentKey(c, d1), DocumentKey(c, d2);
    hide DocumentKey, CollectionIDFromKey, Step, Fold;
    var s1 := Step(s, TakeLock(c, d1, SECOND, t)).state;
    var s2 := Step(s1, TakeLock(c, d2, 2 * SECOND, t)).state;
    TakeStep(s, c, d1, SECOND, t);
    TakeStep(s1, c, d2, 2 * SECOND, t);
    order := EnumerationOf(s2.locks.Keys);
    ReapStepOf(s2, order, t + SECOND);
    ReapDrops(s2, order, t + SECOND, k1);
    ReapSparesLive(s2, order, t + SECOND, k2);
  }

  lemma {:induction false} ReapStepOf(s: State, order: seq<string>, now: Time)
    ensures Step(s, Event(ReapExpiredLocks(order), now, "")).state == Reap(s, order, now)
  {
    hide Reap;
  }

  /**
   Any slashed collection makes the log lose a lock: from any run, two documents, two locks and one
   reap that visits every lock once lead, with a clock that only goes on, to a lock that the service
   holds and the folded log does not.
   */
  lemma {:induction false} SlashLosesLock(es: seq<Event>, c: string) returns (more: seq<Event>)
    requires c in Run(INIT, es).collections && !SlashFree(c)
    ensures NoRegistrations(more) && !HoldsAllLocks(Run(INIT, es + more))
    ensures |more| == 5 && EndsBy(es, more[0].now) && Monotone(more, more[0].now)
    ensures forall i :: 0 <= i < 5 ==> (more[i].req.ReapExpiredLocks? <==> i == 4)
    ensures Enumerates(more[4].req.order, Run(INIT, es + more[..4]).locks.Keys)
  {
    hide Run, Step, Fold, DocumentKey, CollectionIDFromKey, HoldsAllLocks, Enumerates;
    var s := Run(INIT, es);
    var d1, d2 := SlashedPair(c);
    var end := LatestReading(es);
    var t := ExpiredBy(s.locks, end);
    var e0, e1 := MakeDocument(c, d1, t), MakeDocument(c, d2, t);
    var s1 := Step(s, e0).state;
    var s2 := Step(s1, e1).state;
    MakeStep(s, c, d1, t);
    MakeStep(s1, c, d2, t);
    var order := ReapLosesLock(s2, c, d1, d2, t);
    var e2, e3 := TakeLock(c, d1, SECOND, t), TakeLock(c, d2, 2 * SECOND, t);
    more := [e0, e1, e2, e3, Event(ReapExpiredLocks(order), t + SECOND, "")];
    RunConcat(INIT, es, more);
    RunConcat(INIT, es, more[..4]);
    RunFive(s, more);
    StepwiseMonotone(more, t);
  }

  lemma {:induction false} StepwiseMonotone(es: seq<Event>, t: Time)
    requires es != [] ==> t <= es[0].now
    requires forall i :: 0 < i < |es| ==> es[i - 1].now <= es[i].now
    ensures Monotone(es, t)
  {
    if es != [] {
      StepwiseMonotone(es[1..], es[0].now);
    }
  }

  lemma {:induction false} RunFive(s: State, es: seq<Event>)
    requires |es| == 5
    ensures var s1 := Step(s, es[0]).state; var s2 := Step(s1, es[1]).state; var s3 := Step(s2, es[2]).state;
            var s4 := Step(s3, es[3]).state;
            Run(s, es[..4]) == s4 && Run(s, es) == Step(s4, es[4]).state
  {
    hide Step;
    RunNothing(s, es);
    forall i | 0 <= i < 5 ensures Run(s, es[..i + 1]) == Step(Run(s, es[..i]), es[i]).state {
      ResponseAt(s, es, i);
    }
    assert es[..5] == es;
  }

  /** The slash hypothesis is exact: the replica can lose a lock of the service iff a registered id has a slash. */
  lemma {:induction false} SufficientIffSlashFree(es: seq<Event>)
    ensures SlashFreeCollections(Run(INIT, es)) <==>
              forall more :: NoRegistrations(more) ==> HoldsAllLocks(Run(INIT, es + more))
  {
    hide Run, Fold, NoRegistrations, SlashFree;
    var s := Run(INIT, es);
    if SlashFreeCollections(s) {
      forall more | NoRegistrations(more) ensures HoldsAllLocks(Run(INIT, es + more)) {
        RunConcat(INIT, es, more);
        RunRegistersNothing(s, more);
        var end := LatestReading(es + more);
        LogIsSufficient(es + more, end);
      }
    } else {
      var c :| c in s.collections && !SlashFree(c);
      var more := SlashLosesLock(es, c);
    }
  }
}
