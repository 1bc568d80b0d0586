/** Edit locks as leases: who can hold a document when, over whole runs. */
module Leases {
  import opened Prelude
  import opened Domain
  import opened Frames
  import opened Keys
  import opened Spec

  // ---- Grants and releases ----

  predicate TargetsLock(req: Request, k: string, h: string) {
    (req.AcquireLock? || req.RenewLock? || req.ReleaseLock?)
    && DocumentKey(req.collectionID, req.documentID) == k && req.holder == h
  }

  // The call ran, not replayed, and gave h the lock on k.
  ghost predicate Grants(s: State, e: Event, k: string, h: string) {
    && TargetsLock(e.req, k, h) && !e.req.ReleaseLock?
    && Runs(s, e.req) && Step(s, e).response.err.None?
  }

  // The call ran, not replayed, and gave the lock on k back.
  ghost predicate Releases(s: State, e: Event, k: string, h: string) {
    && TargetsLock(e.req, k, h) && e.req.ReleaseLock?
    && Runs(s, e.req) && Step(s, e).response.err.None?
  }

  function LeaseEnd(e: Event): Time
    requires e.req.AcquireLock? || e.req.RenewLock?
  {
    e.now + NormalizeTTL(e.req.ttl)
  }

  ghost predicate HeldBy(s: State, k: string, h: string, end: Time) {
    k in s.locks && s.locks[k].holder == h && s.locks[k].expiresAt == end
  }

  lemma {:induction false} LockStep(s: State, e: Event)
    requires Runs(s, e.req) && IsLockOp(e.req)
    ensures var r := Execute(s, e.req, e.now, e.freshID);
            Step(s, e).state.locks == r.state.locks && Step(s, e).response == r.response
  {
    hide ExecAcquire, ExecRenew, ExecRelease, ExecReap;
  }

  ghost predicate GrantsTo(r: Result, k: string, h: string, end: Time) {
    && r.response.Returned?
    && (r.response.err.None? ==>
          HeldBy(r.state, k, h, end) && r.response == Returned(Some(LockValue(r.state.locks[k])), None))
  }

  lemma {:induction false} ExecGrants(s: State, c: string, d: string, h: string, ttl: Duration, actor: string,
                                      key: string, now: Time)
    ensures GrantsTo(ExecAcquire(s, c, d, h, ttl, actor, key, now), DocumentKey(c, d), h, now + NormalizeTTL(ttl))
    ensures GrantsTo(ExecRenew(s, c, d, h, ttl, actor, key, now), DocumentKey(c, d), h, now + NormalizeTTL(ttl))
  {
    hide DocumentKey, NormalizeTTL;
  }

  /** A grant always leaves its holder with a lease that ends after now and within the hour. */
  lemma {:induction false} GrantEffect(s: State, e: Event, k: string, h: string)
    requires Grants(s, e, k, h)
    ensures HeldBy(Step(s, e).state, k, h, LeaseEnd(e))
    ensures Step(s, e).response == Returned(Some(LockValue(Step(s, e).state.locks[k])), None)
    ensures e.now < LeaseEnd(e) <= e.now + 3_600_000_000_000
  {
    hide Step, Runs, NormalizeTTL, DocumentKey, ExecAcquire, ExecRenew;
    LockStep(s, e);
    ExecGrants(s, e.req.collectionID, e.req.documentID, h, e.req.ttl, e.req.actor, e.req.key, e.now);
  }

  lemma {:induction false} ReapSparesLive(s: State, order: seq<string>, now: Time, k: string)
    requires k in s.locks
    ensures var s' := Reap(s, order, now);
            s.locks[k].expiresAt <= now || (k in s'.locks && s'.locks[k] == s.locks[k])
    decreases |order|
  {
    if order != [] && s.locks[k].expiresAt > now {
      ReapSparesLive(ReapKey(s, order[0], now), order[1..], now, k);
    }
  }

  lemma {:induction false} OthersCannotAcquire(s: State, c: string, d: string, h2: string, ttl: Duration,
                                               actor: string, key: string, now: Time, k: string, h: string, end: Time)
    requires HeldBy(s, k, h, end) && now < end && (DocumentKey(c, d) == k ==> h2 != h)
    ensures HeldBy(ExecAcquire(s, c, d, h2, ttl, actor, key, now).state, k, h, end)
    ensures HeldBy(ExecRenew(s, c, d, h2, ttl, actor, key, now).state, k, h, end)
    ensures HeldBy(ExecRelease(s, c, d, h2, actor, key, now).state, k, h, end)
    ensures DocumentKey(c, d) == k && LookupError(s, c, d).None? ==>
              var refused := Returned(None, Some(LockConflict(d, h, end)));
              && ExecAcquire(s, c, d, h2, ttl, actor, key, now).response == refused
              && ExecRenew(s, c, d, h2, ttl, actor, key, now).response == refused
              && ExecRelease(s, c, d, h2, actor, key, now).response == refused
  {
    hide DocumentKey, NormalizeTTL;
  }

  lemma {:induction false} FailedCallKeeps(s: State, req: Request, now: Time, freshID: string, k: string, h: string,
                                           end: Time)
    requires TargetsLock(req, k, h) && HeldBy(s, k, h, end) && now < end
    requires Execute(s, req, now, freshID).response.err.Some?
    ensures HeldBy(Execute(s, req, now, freshID).state, k, h, end)
  {
    hide DocumentKey, NormalizeTTL;
  }

  /** Only its holder, or its own expiry, can take a lock away or change it. */
  lemma {:induction false} LockPersists(s: State, e: Event, k: string, h: string, end: Time)
    requires HeldBy(s, k, h, end)
    requires !Grants(s, e, k, h) && !Releases(s, e, k, h)
    ensures end <= e.now || HeldBy(Step(s, e).state, k, h, end)
  {
    StepOf(s, e);
    hide Step, Validate, NormalizeTTL, DocumentKey, Cached;
    if Runs(s, e.req) && e.now < end {
      if !IsLockOp(e.req) {
        OtherStepsKeepLocks(s, e);
      } else {
        LockStep(s, e);
        if TargetsLock(e.req, k, h) {
          FailedCallKeeps(s, e.req, e.now, e.freshID, k, h, end);
        } else {
          hide ExecAcquire, ExecRenew, ExecRelease, ExecReap;
          OtherCallKeeps(s, e.req, e.now, e.freshID, k, h, end);
        }
      }
    }
  }

  lemma {:induction false} OtherCallKeeps(s: State, req: Request, now: Time, freshID: string, k: string, h: string,
                                          end: Time)
    requires IsLockOp(req) && !TargetsLock(req, k, h) && HeldBy(s, k, h, end) && now < end
    ensures HeldBy(Execute(s, req, now, freshID).state, k, h, end)
  {
    hide ExecAcquire, ExecRenew, ExecRelease, DocumentKey;
    match req
    case AcquireLock(c, d, h2, ttl, actor, key) => OthersCannotAcquire(s, c, d, h2, ttl, actor, key, now, k, h, end);
    case RenewLock(c, d, h2, ttl, actor, key) => OthersCannotAcquire(s, c, d, h2, ttl, actor, key, now, k, h, end);
    case ReleaseLock(c, d, h2, actor, key) => OthersCannotAcquire(s, c, d, h2, 0, actor, key, now, k, h, end);
    case ReapExpiredLocks(order) => ReapSparesLive(s, order, now, k);
  }

  lemma {:induction false} OtherStepsKeepLocks(s: State, e: Event)
    requires !IsLockOp(e.req)
    ensures Step(s, e).state.locks == s.locks
  {
    StepOf(s, e);
    hide Step, Execute;
    if IsDocumentWrite(e.req) {
      DocumentWriteFrame(s, e.req, e.now, e.freshID);
    } else if e.req.RegisterCollection? {
      RegisterFrame(s, e.req, e.now, e.freshID);
    } else {
      ReadFrame(s, e.req, e.now, e.freshID);
    }
  }

  // ---- Whole runs ----

  lemma {:induction false} MonotoneBetween(es: seq<Event>, t: Time, i: nat, j: nat)
    requires Monotone(es, t) && i <= j < |es|
    ensures t <= es[i].now <= es[j].now
    decreases |es|
  {
    if i > 0 {
      MonotoneBetween(es[1..], es[0].now, i - 1, j - 1);
    } else if j > 0 {
      MonotoneBetween(es[1..], es[0].now, 0, j - 1);
    }
  }

  // Between events i and j, exclusive, h neither gets nor gives back the lock on k.
  ghost predicate Quiet(s: State, es: seq<Event>, i: nat, j: nat, k: string, h: string)
    requires j <= |es|
  {
    forall p :: i < p < j ==> !Grants(Run(s, es[..p]), es[p], k, h) && !Releases(Run(s, es[..p]), es[p], k, h)
  }

  lemma {:induction false} HeldOrLapsed(s: State, es: seq<Event>, t: Time, i: nat, j: nat, k: string, h: string)
    requires Monotone(es, t) && i < j <= |es|
    requires Grants(Run(s, es[..i]), es[i], k, h) && Quiet(s, es, i, j, k, h)
    ensures LeaseEnd(es[i]) <= es[j - 1].now || HeldBy(Run(s, es[..j]), k, h, LeaseEnd(es[i]))
    decreases j
  {
    hide Step, Run, HeldBy, Runs, Releases, NormalizeTTL, DocumentKey;
    ResponseAt(s, es, j - 1);
    if j == i + 1 {
      GrantEffect(Run(s, es[..i]), es[i], k, h);
    } else {
      HeldOrLapsed(s, es, t, i, j - 1, k, h);
      MonotoneBetween(es, t, j - 2, j - 1);
      if HeldBy(Run(s, es[..j - 1]), k, h, LeaseEnd(es[i])) {
        LockPersists(Run(s, es[..j - 1]), es[j - 1], k, h, LeaseEnd(es[i]));
      }
    }
  }

  /** Until its end, a lease that its holder left alone stands in the lock table as granted. */
  lemma {:induction false} LeaseStands(s: State, es: seq<Event>, t: Time, i: nat, j: nat, k: string, h: string)
    requires Monotone(es, t) && i < j < |es|
    requires Grants(Run(s, es[..i]), es[i], k, h) && Quiet(s, es, i, j, k, h)
    requires es[j].now < LeaseEnd(es[i])
    ensures HeldBy(Run(s, es[..j]), k, h, LeaseEnd(es[i]))
    ensures LiveLock(Run(s, es[..j]), k, es[j].now).Some?
  {
    hide Step, Run, Quiet, Runs;
    HeldOrLapsed(s, es, t, i, j, k, h);
    MonotoneBetween(es, t, j - 1, j);
  }

  lemma {:induction false} HeldLockRefuses(s: State, e: Event, k: string, h: string, h2: string, end: Time)
    requires HeldBy(s, k, h, end) && e.now < end && h2 != h
    ensures !Grants(s, e, k, h2)
    ensures TargetsLock(e.req, k, h2) && Runs(s, e.req)
            && LookupError(s, e.req.collectionID, e.req.documentID).None? ==>
              Step(s, e).response == Returned(None, Some(LockConflict(e.req.documentID, h, end)))
  {
    if TargetsLock(e.req, k, h2) && Runs(s, e.req) {
      LockStep(s, e);
      var ttl := if e.req.ReleaseLock? then 0 else e.req.ttl;
      OthersCannotAcquire(s, e.req.collectionID, e.req.documentID, h2, ttl, e.req.actor, e.req.key, e.now, k, h, end);
    }
    hide Step, Validate, NormalizeTTL, DocumentKey;
  }

  /**
   Lease exclusion: if h2 is granted a document after a different holder's latest grant, then
   that holder released it in between or its lease had ended; until then h2 is refused.
   */
  lemma {:induction false} LeaseExclusion(s: State, es: seq<Event>, t: Time, i: nat, j: nat, k: string, h1: string,
                                          h2: string)
    requires Monotone(es, t) && i < j < |es| && h1 != h2
    requires Grants(Run(s, es[..i]), es[i], k, h1) && Grants(Run(s, es[..j]), es[j], k, h2)
    requires forall p :: i < p < j ==> !Grants(Run(s, es[..p]), es[p], k, h1)
    ensures || LeaseEnd(es[i]) <= es[j].now
            || exists p :: i < p < j && Releases(Run(s, es[..p]), es[p], k, h1)
  {
    hide Step, Run, Runs;
    if es[j].now < LeaseEnd(es[i]) && Quiet(s, es, i, j, k, h1) {
      LeaseStands(s, es, t, i, j, k, h1);
      HeldLockRefuses(Run(s, es[..j]), es[j], k, h1, h2, LeaseEnd(es[i]));
    }
  }

  /** While a lease stands, every other holder that asks is told whose it is and when it ends. */
  lemma {:induction false} OthersAreRefused(s: State, es: seq<Event>, t: Time, i: nat, j: nat, k: string, h1: string,
                                            h2: string)
    requires Monotone(es, t) && i < j < |es| && h1 != h2
    requires Grants(Run(s, es[..i]), es[i], k, h1) && Quiet(s, es, i, j, k, h1)
    requires es[j].now < LeaseEnd(es[i])
    requires TargetsLock(es[j].req, k, h2) && Runs(Run(s, es[..j]), es[j].req)
    requires LookupError(Run(s, es[..j]), es[j].req.collectionID, es[j].req.documentID).None?
    ensures Responses(s, es)[j] == Returned(None, Some(LockConflict(es[j].req.documentID, h1, LeaseEnd(es[i]))))
  {
    hide Step, Run, Quiet, Runs;
    LeaseStands(s, es, t, i, j, k, h1);
    HeldLockRefuses(Run(s, es[..j]), es[j], k, h1, h2, LeaseEnd(es[i]));
    ResponseAt(s, es, j);
  }

  // Grant i gave h the lock on k, x is within what it gave, and h has not renewed or released it by then.
  ghost predicate Current(s: State, es: seq<Event>, i: nat, k: string, h: string, x: Time)
    requires i < |es|
  {
    && Grants(Run(s, es[..i]), es[i], k, h)
    && es[i].now <= x < LeaseEnd(es[i])
    && (forall p :: i < p < |es| && Grants(Run(s, es[..p]), es[p], k, h) ==> x < es[p].now)
    && (forall p :: i < p < |es| && Releases(Run(s, es[..p]), es[p], k, h) ==> x < es[p].now)
  }

  lemma {:induction false} LaterGrantIsOwn(s: State, es: seq<Event>, t: Time, i: nat, j: nat, k: string, h1: string,
                                           h2: string, x: Time)
    requires Monotone(es, t) && i < j < |es| && Current(s, es, i, k, h1, x)
    requires Grants(Run(s, es[..j]), es[j], k, h2) && es[j].now <= x
    ensures h1 == h2
  {
    hide Step, Run, Runs, Grants, Releases;
    forall p | i < p < j ensures es[p].now <= x {
      MonotoneBetween(es, t, p, j);
    }
    if h1 != h2 {
      LeaseExclusion(s, es, t, i, j, k, h1, h2);
    }
  }

  /**
   One holder at a time: at no instant are grants of two holders on one document both current.
   Leases of different holders are disjoint stretches of time, cut short by release or renewal.
   */
  lemma {:induction false} OneHolderAtATime(s: State, es: seq<Event>, t: Time, i: nat, j: nat, k: string, h1: string,
                                            h2: string, x: Time)
    requires Monotone(es, t) && i < |es| && j < |es|
    requires Current(s, es, i, k, h1, x) && Current(s, es, j, k, h2, x)
    ensures h1 == h2
  {
    hide Step, Run, Runs, Releases;
    if i < j {
      LaterGrantIsOwn(s, es, t, i, j, k, h1, h2, x);
    } else if j < i {
      LaterGrantIsOwn(s, es, t, j, i, k, h2, h1, x);
    }
  }

  /** A lease left alone until another holder's grant shares no instant with it, whatever its holder does later. */
  lemma {:induction false} LeasesDisjoint(s: State, es: seq<Event>, t: Time, i: nat, j: nat, k: string, h1: string,
                                          h2: string, x: Time)
    requires Monotone(es, t) && i < j < |es| && h1 != h2
    requires Grants(Run(s, es[..i]), es[i], k, h1) && Grants(Run(s, es[..j]), es[j], k, h2)
    requires Quiet(s, es, i, j, k, h1)
    ensures !(es[i].now <= x < LeaseEnd(es[i]) && es[j].now <= x < LeaseEnd(es[j]))
  {
    hide Step, Run, Runs;
    LeaseExclusion(s, es, t, i, j, k, h1, h2);
  }
}
