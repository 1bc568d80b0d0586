/** The reaper is invisible: reap steps can be put into or taken out of any run. */
module Reaper {
  import opened Prelude
  import opened Domain
  import opened Frames
  import opened Keys
  import opened Sorting
  import opened Spec
  import opened Tags

  // Equal but for the audit log and for locks that have expired by now.
  ghost predicate Similar(s: State, t: State, now: Time) {
    && SameDocuments(s, t) && s.idem == t.idem
    && forall k :: LiveLock(s, k, now) == LiveLock(t, k, now)
  }

  // ---- One step ----

  lemma {:induction false} SimilarLater(s: State, t: State, now: Time, later: Time)
    requires Similar(s, t, now) && now <= later
    ensures Similar(s, t, later)
  {
    forall k ensures LiveLock(s, k, later) == LiveLock(t, k, later) {
      assert LiveLock(s, k, now) == LiveLock(t, k, now);
    }
  }

  lemma {:induction false} ReapKeyIsInvisible(s: State, k: string, now: Time)
    ensures Similar(ReapKey(s, k, now), s, now)
  {
    hide CollectionIDFromKey;
  }

  lemma {:induction false} ReapIsInvisible(s: State, order: seq<string>, now: Time)
    ensures Similar(Reap(s, order, now), s, now)
    decreases |order|
  {
    if order != [] {
      hide ReapKey;
      ReapKeyIsInvisible(s, order[0], now);
      ReapIsInvisible(ReapKey(s, order[0], now), order[1..], now);
    }
  }

  lemma {:induction false} SameFailures(s: State, t: State, c: string, items: seq<BatchItem>, i: nat,
                                        seen: map<string, nat>)
    requires SameDocuments(s, t) && i <= |items|
    ensures FailuresFrom(s, c, items, i, seen) == FailuresFrom(t, c, items, i, seen)
    decreases |items| - i
  {
    hide DocumentKey;
    if i < |items| {
      SameFailures(s, t, c, items, i + 1, Record(items[i], i, seen));
    }
  }

  lemma {:induction false} SameApplied(s: State, t: State, c: string, items: seq<BatchItem>, i: nat, actor: string,
                                       now: Time)
    requires SameDocuments(s, t) && i <= |items| && AllPresent(s, c, items)
    ensures AllPresent(t, c, items)
    ensures var a, b := ApplyFrom(s, c, items, i, actor, now), ApplyFrom(t, c, items, i, actor, now);
            SameDocuments(a.state, b.state) && a.results == b.results
    decreases |items| - i
  {
    hide DocumentKey, NormalizeTags;
    if i < |items| {
      SameApplied(ApplyItem(s, c, items[i], actor, now), ApplyItem(t, c, items[i], actor, now), c, items, i + 1,
                  actor, now);
    }
  }

  lemma {:induction false} SameBatch(s: State, t: State, c: string, items: seq<BatchItem>, actor: string, key: string,
                                     now: Time)
    requires SameDocuments(s, t)
    ensures var a, b := ExecBatch(s, c, items, actor, key, now), ExecBatch(t, c, items, actor, key, now);
            SameDocuments(a.state, b.state) && a.response == b.response
  {
    hide DocumentKey;
    SameFailures(s, t, c, items, 0, map[]);
    if c in s.collections && Failures(s, c, items) == [] {
      NoFailuresAllPresent(s, c, items, 0, map[]);
      SameApplied(s, t, c, items, 0, actor, now);
    }
  }

  lemma {:induction false} SameUpdate(s: State, t: State, c: string, d: string, expected: int, p: Patch,
                                      actor: string, reason: string, key: string, now: Time)
    requires SameDocuments(s, t)
    ensures var a, b := ExecUpdate(s, c, d, expected, p, actor, reason, key, now),
            ExecUpdate(t, c, d, expected, p, actor, reason, key, now);
            SameDocuments(a.state, b.state) && a.response == b.response
  {
    hide DocumentKey, NormalizeTags;
  }

  lemma {:induction false} SameDocumentWrite(s: State, t: State, req: Request, now: Time, freshID: string)
    requires SameDocuments(s, t) && (IsDocumentWrite(req) || req.RegisterCollection?)
    ensures var a, b := Execute(s, req, now, freshID), Execute(t, req, now, freshID);
            SameDocuments(a.state, b.state) && a.response == b.response
  {
    hide DocumentKey, NormalizeTags, ExecBatch, ExecUpdate;
    match req
    case UpdateDocument(c, d, expected, p, actor, reason, key) =>
      SameUpdate(s, t, c, d, expected, p, actor, reason, key, now);
    case BatchUpdate(c, items, actor, key) => SameBatch(s, t, c, items, actor, key, now);
    case _ =>
  }

  lemma {:induction false} SimilarAcquire(s: State, t: State, c: string, d: string, h: string, ttl: Duration,
                                          actor: string, key: string, now: Time)
    requires Similar(s, t, now)
    ensures var a, b := ExecAcquire(s, c, d, h, ttl, actor, key, now), ExecAcquire(t, c, d, h, ttl, actor, key, now);
            Similar(a.state, b.state, now) && a.response == b.response
  {
    hide DocumentKey, NormalizeTTL;
    assert LiveLock(s, DocumentKey(c, d), now) == LiveLock(t, DocumentKey(c, d), now);
    var a, b := ExecAcquire(s, c, d, h, ttl, actor, key, now).state,
      ExecAcquire(t, c, d, h, ttl, actor, key, now).state;
    forall k ensures LiveLock(a, k, now) == LiveLock(b, k, now) {
      assert LiveLock(s, k, now) == LiveLock(t, k, now);
    }
  }

  lemma {:induction false} SimilarRenew(s: State, t: State, c: string, d: string, h: string, ttl: Duration,
                                        actor: string, key: string, now: Time)
    requires Similar(s, t, now)
    ensures var a, b := ExecRenew(s, c, d, h, ttl, actor, key, now), ExecRenew(t, c, d, h, ttl, actor, key, now);
            Similar(a.state, b.state, now) && a.response == b.response
  {
    hide DocumentKey, NormalizeTTL;
    assert LiveLock(s, DocumentKey(c, d), now) == LiveLock(t, DocumentKey(c, d), now);
    var a, b := ExecRenew(s, c, d, h, ttl, actor, key, now).state, ExecRenew(t, c, d, h, ttl, actor, key, now).state;
    forall k ensures LiveLock(a, k, now) == LiveLock(b, k, now) {
      assert LiveLock(s, k, now) == LiveLock(t, k, now);
    }
  }

  lemma {:induction false} SimilarRelease(s: State, t: State, c: string, d: string, h: string, actor: string,
                                          key: string, now: Time)
    requires Similar(s, t, now)
    ensures var a, b := ExecRelease(s, c, d, h, actor, key, now), ExecRelease(t, c, d, h, actor, key, now);
            Similar(a.state, b.state, now) && a.response == b.response
  {
    hide DocumentKey;
    assert LiveLock(s, DocumentKey(c, d), now) == LiveLock(t, DocumentKey(c, d), now);
    var a, b := ExecRelease(s, c, d, h, actor, key, now).state, ExecRelease(t, c, d, h, actor, key, now).state;
    forall k ensures LiveLock(a, k, now) == LiveLock(b, k, now) {
      assert LiveLock(s, k, now) == LiveLock(t, k, now);
    }
  }

  // ---- What a caller can tell ----

  datatype Observation =
    | Answer(response: Response)
    | NoLiveLock
    | AuditContents

  // Audit contents aside, and GetLock's "expired" counting as "not held", everything is observed.
  function Observe(req: Request, r: Response): Observation {
    if req.ListAuditEvents? then AuditContents
    else if req.GetLock? && r.Returned? && (r.err == Some(LockNotHeld) || r.err == Some(LockExpired)) then NoLiveLock
    else Answer(r)
  }

  lemma {:induction false} SimilarRead(s: State, t: State, req: Request, now: Time)
    requires Similar(s, t, now) && IsRead(req)
    ensures Observe(req, Read(s, req, now)) == Observe(req, Read(t, req, now))
  {
    hide DocumentKey, NormalizeTags, MatchingEvents;
    if req.GetLock? {
      assert LiveLock(s, DocumentKey(req.collectionID, req.documentID), now)
          == LiveLock(t, DocumentKey(req.collectionID, req.documentID), now);
    }
  }

  lemma {:induction false} SimilarExecute(s: State, t: State, req: Request, now: Time, freshID: string)
    requires Similar(s, t, now) && !req.ReapExpiredLocks?
    ensures var a, b := Execute(s, req, now, freshID), Execute(t, req, now, freshID);
            && Similar(a.state, b.state, now)
            && Observe(req, a.response) == Observe(req, b.response)
            && (IsWrite(req) ==> a.response == b.response)
  {
    hide DocumentKey, ExecRegister, ExecCreate, ExecUpdate, ExecBatch, ExecAcquire, ExecRenew, ExecRelease, Read;
    match req
    case AcquireLock(c, d, h, ttl, actor, key) => SimilarAcquire(s, t, c, d, h, ttl, actor, key, now);
    case RenewLock(c, d, h, ttl, actor, key) => SimilarRenew(s, t, c, d, h, ttl, actor, key, now);
    case ReleaseLock(c, d, h, actor, key) => SimilarRelease(s, t, c, d, h, actor, key, now);
    case _ =>
      if IsRead(req) {
        SimilarRead(s, t, req, now);
      } else {
        SimilarWrite(s, t, req, now, freshID);
      }
  }

  lemma {:induction false} SimilarWrite(s: State, t: State, req: Request, now: Time, freshID: string)
    requires Similar(s, t, now) && (IsDocumentWrite(req) || req.RegisterCollection?)
    ensures var a, b := Execute(s, req, now, freshID), Execute(t, req, now, freshID);
            Similar(a.state, b.state, now) && a.response == b.response
  {
    hide Execute;
    SameDocumentWrite(s, t, req, now, freshID);
    if IsDocumentWrite(req) {
      DocumentWriteFrame(s, req, now, freshID);
      DocumentWriteFrame(t, req, now, freshID);
    } else {
      RegisterFrame(s, req, now, freshID);
      RegisterFrame(t, req, now, freshID);
    }
    var a, b := Execute(s, req, now, freshID).state, Execute(t, req, now, freshID).state;
    forall k ensures LiveLock(a, k, now) == LiveLock(b, k, now) {
      assert LiveLock(s, k, now) == LiveLock(t, k, now);
    }
  }

  lemma {:induction false} SimilarStep(s: State, t: State, e: Event)
    requires Similar(s, t, e.now) && !e.req.ReapExpiredLocks?
    ensures Similar(Step(s, e).state, Step(t, e).state, e.now)
    ensures Observe(e.req, Step(s, e).response) == Observe(e.req, Step(t, e).response)
  {
    StepOf(s, e);
    StepOf(t, e);
    if Runs(s, e.req) {
      hide Step, Execute, Validate, Observe, Fingerprinted;
      SimilarExecute(s, t, e.req, e.now, e.freshID);
      var a, b := Execute(s, e.req, e.now, e.freshID), Execute(t, e.req, e.now, e.freshID);
      forall k ensures LiveLock(Step(s, e).state, k, e.now) == LiveLock(Step(t, e).state, k, e.now) {
        assert LiveLock(a.state, k, e.now) == LiveLock(b.state, k, e.now);
      }
    }
    hide Execute;
  }

  // ---- Whole runs ----

  function Erased(es: seq<Event>): seq<Event> {
    if es == [] then []
    else (if es[0].req.ReapExpiredLocks? then [] else [es[0]]) + Erased(es[1..])
  }

  function Observations(s: State, es: seq<Event>): seq<Observation>
    decreases |es|
  {
    if es == [] then []
    else
      (if es[0].req.ReapExpiredLocks? then [] else [Observe(es[0].req, Step(s, es[0]).response)])
      + Observations(Step(s, es[0]).state, es[1..])
  }

  lemma {:induction false} ReapsErase(s: State, u: State, es: seq<Event>, t: Time, end: Time)
    requires Similar(s, u, t) && Monotone(es, t) && t <= end && EndsBy(es, end)
    ensures Observations(s, es) == Observations(u, Erased(es))
    ensures Similar(Run(s, es), Run(u, Erased(es)), end)
    decreases |es|
  {
    if es == [] {
      SimilarLater(s, u, t, end);
    } else {
      var e, s' := es[0], Step(s, es[0]).state;
      SimilarLater(s, u, t, e.now);
      if e.req.ReapExpiredLocks? {
        assert s' == Reap(s, e.req.order, e.now);
        hide Step, Observe, Similar;
        ReapIsInvisible(s, e.req.order, e.now);
        SimilarJoins(s', s, u, e.now);
        ReapsErase(s', u, es[1..], e.now, end);
        assert Erased(es) == Erased(es[1..]);
      } else {
        hide Step, Observe, Similar;
        SimilarStep(s, u, e);
        ReapsErase(s', Step(u, e).state, es[1..], e.now, end);
        assert Erased(es) == [e] + Erased(es[1..]);
        assert Erased(es)[1..] == Erased(es[1..]);
      }
    }
  }

  lemma {:induction false} SimilarJoins(s: State, t: State, u: State, now: Time)
    requires Similar(s, t, now) && Similar(t, u, now)
    ensures Similar(s, u, now)
  {
    forall k ensures LiveLock(s, k, now) == LiveLock(u, k, now) {
      assert LiveLock(t, k, now) == LiveLock(u, k, now);
    }
  }

  lemma {:induction false} SimilarFlips(s: State, t: State, now: Time)
    requires Similar(s, t, now)
    ensures Similar(t, s, now)
  {
    forall k ensures LiveLock(t, k, now) == LiveLock(s, k, now) {
      assert LiveLock(s, k, now) == LiveLock(t, k, now);
    }
  }

  /**
   Two runs that differ only in their reap steps, wherever those are and whatever they visit,
   give the same observations and end with the same documents, history, collections, cache
   and live locks.
   */
  lemma {:induction false} ReaperInvisible(s: State, a: seq<Event>, b: seq<Event>, t: Time, end: Time)
    requires Monotone(a, t) && Monotone(b, t) && Erased(a) == Erased(b)
    requires t <= end && EndsBy(a, end) && EndsBy(b, end)
    ensures Observations(s, a) == Observations(s, b)
    ensures Similar(Run(s, a), Run(s, b), end)
  {
    hide Step, Run, Observations, Monotone, Erased;
    assert Similar(s, s, t);
    ReapsErase(s, s, a, t, end);
    ReapsErase(s, s, b, t, end);
    SimilarFlips(Run(s, b), Run(s, Erased(b)), end);
    SimilarJoins(Run(s, a), Run(s, Erased(a)), Run(s, b), end);
  }

  // ---- What one reap does ----

  lemma {:induction false} ReapRemoves(s: State, order: seq<string>, now: Time, k: string)
    ensures var s' := Reap(s, order, now);
            (k in s'.locks <==> k in s.locks && (k in order ==> now < s.locks[k].expiresAt))
            && (k in s'.locks ==> s'.locks[k] == s.locks[k])
    decreases |order|
  {
    if order != [] {
      assert k in order <==> k == order[0] || k in order[1..];
      assert ReapKey(s, order[0], now).locks == if order[0] in s.locks && s.locks[order[0]].IsExpired(now)
                                                then s.locks - {order[0]} else s.locks;
      hide ReapKey;
      ReapRemoves(ReapKey(s, order[0], now), order[1..], now, k);
    }
  }

  // The document ids of the expired locks among the visited keys.
  function ExpiredIDs(locks: map<string, Lock>, order: seq<string>, now: Time): seq<string> {
    if order == [] then []
    else
      (if order[0] in locks && locks[order[0]].expiresAt <= now then [locks[order[0]].documentID] else [])
      + ExpiredIDs(locks, order[1..], now)
  }

  lemma {:induction false} ExpiredIDsWithout(locks: map<string, Lock>, k: string, order: seq<string>, now: Time)
    requires k !in order
    ensures ExpiredIDs(locks - {k}, order, now) == ExpiredIDs(locks, order, now)
  {
    if order != [] {
      assert order[0] != k && k !in order[1..];
      ExpiredIDsWithout(locks, k, order[1..], now);
    }
  }

  lemma {:induction false} ReapReports(s: State, order: seq<string>, now: Time)
    requires Distinct(order)
    ensures ReapedIDs(s, order, now) == ExpiredIDs(s.locks, order, now)
    ensures |Reap(s, order, now).audit| == |s.audit| + |ReapedIDs(s, order, now)|
    decreases |order|
  {
    if order != [] {
      var k, rest := order[0], order[1..];
      assert k !in rest && Distinct(rest);
      assert |ReapKey(s, k, now).audit| == |s.audit| + |ReapedID(s, k, now)|;
      assert ReapKey(s, k, now).locks == if k in s.locks && s.locks[k].IsExpired(now) then s.locks - {k} else s.locks;
      hide ReapKey;
      ReapReports(ReapKey(s, k, now), rest, now);
      ExpiredIDsWithout(s.locks, k, rest, now);
    }
  }

  /**
   A reap removes exactly the expired locks, whatever order it visits them in; it reports each
   of their documents once and logs one event for each.
   */
  lemma {:induction false} ReapExact(s: State, e: Event)
    requires e.req.ReapExpiredLocks? && Enumerates(e.req.order, s.locks.Keys)
    ensures var r := Step(s, e);
            && r.state.locks == (map k | k in s.locks && e.now < s.locks[k].expiresAt :: s.locks[k])
            && r.state == s.(locks := r.state.locks, audit := r.state.audit, auditSeq := r.state.auditSeq)
            && r.response == Returned(Some(ReapedValue(ExpiredIDs(s.locks, e.req.order, e.now))), None)
            && |r.state.audit| == |s.audit| + |ExpiredIDs(s.locks, e.req.order, e.now)|
  {
    var order, now := e.req.order, e.now;
    ReapReports(s, order, now);
    ReapFrame(s, order, now);
    forall k {
      ReapRemoves(s, order, now, k);
    }
    hide Reap, ReapedIDs, ExpiredIDs;
    var live := map k | k in s.locks && now < s.locks[k].expiresAt :: s.locks[k];
    var s' := Reap(s, order, now);
    forall k ensures k in s'.locks <==> k in live {
    }
    assert s'.locks == live;
  }
}
