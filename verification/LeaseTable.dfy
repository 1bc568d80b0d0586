/** The lock table against a simple reference: the last lock handed out, until released or expired. */
module LeaseTable {
  import opened Prelude
  import opened Domain
  import opened Frames
  import opened Keys
  import opened Leases
  import opened Reaper
  import opened Spec

  function Unexpired(view: Option<Lock>, now: Time): Option<Lock> {
    if view.Some? && now < view.value.expiresAt then view else None
  }

  // What callers know about the lock on k from the answers of calls that ran and succeeded.
  function ViewAfter(view: Option<Lock>, s: State, e: Event, k: string): Option<Lock> {
    if !(e.req.AcquireLock? || e.req.RenewLock? || e.req.ReleaseLock?)
       || DocumentKey(e.req.collectionID, e.req.documentID) != k
       || !Runs(s, e.req) || Step(s, e).response.err.Some? then view
    else AnsweredLock(Step(s, e).response)
  }

  function View(view: Option<Lock>, s: State, es: seq<Event>, k: string): Option<Lock>
    decreases |es|
  {
    if es == [] then view else View(ViewAfter(view, s, es[0], k), Step(s, es[0]).state, es[1..], k)
  }

  // How a call on an existing document is decided, knowing only the live lock.
  function Decide(live: Option<Lock>, e: Event): Response
    requires e.req.AcquireLock? || e.req.RenewLock? || e.req.ReleaseLock?
  {
    if live.None? then
      if e.req.AcquireLock?
      then Returned(Some(LockValue(Lock(e.req.documentID, e.req.holder, e.now, e.now + NormalizeTTL(e.req.ttl), 0))),
                    None)
      else Returned(None, Some(LockNotHeld))
    else if live.value.holder != e.req.holder then
      Returned(None, Some(LockConflict(e.req.documentID, live.value.holder, live.value.expiresAt)))
    else if e.req.ReleaseLock? then Returned(None, None)
    else
      Returned(Some(LockValue(live.value.(expiresAt := e.now + NormalizeTTL(e.req.ttl),
                                          renewCount := live.value.renewCount + 1))), None)
  }

  // ---- One step ----

  lemma {:induction false} CallDecided(s: State, e: Event)
    requires e.req.AcquireLock? || e.req.RenewLock? || e.req.ReleaseLock?
    requires Runs(s, e.req) && LookupError(s, e.req.collectionID, e.req.documentID).None?
    ensures Step(s, e).response == Decide(LiveLock(s, DocumentKey(e.req.collectionID, e.req.documentID), e.now), e)
  {
    LockStep(s, e);
    hide Step, Validate, DocumentKey, NormalizeTTL;
  }

  // What is live for k after a call with result r: the answered lock, or what was live before if it failed.
  ghost predicate Leaves(s: State, r: Result, k: string, now: Time) {
    && r.response.Returned?
    && LiveLock(r.state, k, now) == if r.response.err.Some? then LiveLock(s, k, now) else AnsweredLock(r.response)
  }

  lemma {:induction false} ExecLeaves(s: State, c: string, d: string, h: string, ttl: Duration, actor: string,
                                      key: string, now: Time)
    ensures Leaves(s, ExecAcquire(s, c, d, h, ttl, actor, key, now), DocumentKey(c, d), now)
    ensures Leaves(s, ExecRenew(s, c, d, h, ttl, actor, key, now), DocumentKey(c, d), now)
    ensures Leaves(s, ExecRelease(s, c, d, h, actor, key, now), DocumentKey(c, d), now)
  {
    hide DocumentKey, NormalizeTTL;
  }

  lemma {:induction false} CallLeaves(s: State, e: Event)
    requires e.req.AcquireLock? || e.req.RenewLock? || e.req.ReleaseLock?
    requires Runs(s, e.req)
    ensures Leaves(s, Step(s, e), DocumentKey(e.req.collectionID, e.req.documentID), e.now)
  {
    LockStep(s, e);
    var ttl := if e.req.ReleaseLock? then 0 else e.req.ttl;
    ExecLeaves(s, e.req.collectionID, e.req.documentID, e.req.holder, ttl, e.req.actor, e.req.key, e.now);
    hide Step, Runs, DocumentKey, ExecAcquire, ExecRenew, ExecRelease;
  }

  lemma {:induction false} OtherKeysUntouched(s: State, c: string, d: string, h: string, ttl: Duration, actor: string,
                                              key: string, now: Time, k: string)
    requires DocumentKey(c, d) != k
    ensures LiveLock(ExecAcquire(s, c, d, h, ttl, actor, key, now).state, k, now) == LiveLock(s, k, now)
    ensures LiveLock(ExecRenew(s, c, d, h, ttl, actor, key, now).state, k, now) == LiveLock(s, k, now)
    ensures LiveLock(ExecRelease(s, c, d, h, actor, key, now).state, k, now) == LiveLock(s, k, now)
  {
    hide DocumentKey, NormalizeTTL;
  }

  lemma {:induction false} OtherKeysStay(s: State, e: Event, k: string)
    requires e.req.AcquireLock? || e.req.RenewLock? || e.req.ReleaseLock?
    requires Runs(s, e.req) && DocumentKey(e.req.collectionID, e.req.documentID) != k
    ensures LiveLock(Step(s, e).state, k, e.now) == LiveLock(s, k, e.now)
  {
    LockStep(s, e);
    var ttl := if e.req.ReleaseLock? then 0 else e.req.ttl;
    OtherKeysUntouched(s, e.req.collectionID, e.req.documentID, e.req.holder, ttl, e.req.actor, e.req.key, e.now, k);
    hide Step, Runs, DocumentKey, ExecAcquire, ExecRenew, ExecRelease;
  }

  lemma {:induction false} StepKeepsView(view: Option<Lock>, s: State, e: Event, k: string)
    requires LiveLock(s, k, e.now) == Unexpired(view, e.now)
    ensures LiveLock(Step(s, e).state, k, e.now) == Unexpired(ViewAfter(view, s, e, k), e.now)
  {
    StepOf(s, e);
    if e.req.AcquireLock? || e.req.RenewLock? || e.req.ReleaseLock? {
      if Runs(s, e.req) {
        if DocumentKey(e.req.collectionID, e.req.documentID) == k {
          CallLeaves(s, e);
          if Step(s, e).response.err.None? {
            AnsweredLocksAreLive(s, e);
          }
        } else {
          OtherKeysStay(s, e, k);
        }
      }
      hide Step, Execute, DocumentKey, Validate;
    } else if e.req.ReapExpiredLocks? {
      assert Step(s, e).state == Reap(s, e.req.order, e.now);
      hide Step, Execute;
      ReapIsInvisible(s, e.req.order, e.now);
    } else {
      hide Step, Execute;
      OtherStepsKeepLocks(s, e);
    }
  }

  lemma {:induction false} AnsweredLocksAreLive(s: State, e: Event)
    requires e.req.AcquireLock? || e.req.RenewLock? || e.req.ReleaseLock?
    requires Runs(s, e.req) && Step(s, e).response.err.None?
    ensures var v := Step(s, e).response.value;
            if e.req.ReleaseLock? then v.None? else v.Some? && v.value.LockValue? && e.now < v.value.lock.expiresAt
  {
    LockStep(s, e);
    hide Step, Validate, DocumentKey, NormalizeTTL;
  }

  // ---- Whole runs ----

  lemma {:induction false} LaterAgrees(view: Option<Lock>, s: State, k: string, t: Time, later: Time)
    requires LiveLock(s, k, t) == Unexpired(view, t) && t <= later
    ensures LiveLock(s, k, later) == Unexpired(view, later)
  {
  }

  lemma {:induction false} RunKeepsView(view: Option<Lock>, s: State, es: seq<Event>, k: string, t: Time, end: Time)
    requires LiveLock(s, k, t) == Unexpired(view, t) && Monotone(es, t) && t <= end && EndsBy(es, end)
    ensures LiveLock(Run(s, es), k, end) == Unexpired(View(view, s, es, k), end)
    decreases |es|
  {
    hide Step, ViewAfter, LiveLock, Unexpired;
    if es == [] {
      LaterAgrees(view, s, k, t, end);
    } else {
      LaterAgrees(view, s, k, t, es[0].now);
      StepKeepsView(view, s, es[0], k);
      RunKeepsView(ViewAfter(view, s, es[0], k), Step(s, es[0]).state, es[1..], k, es[0].now, end);
    }
  }

  /**
   In any run with a clock that never goes back, the live lock on a document is the last lock
   that a call handed out for it, unless that was released or has expired; silent reclaims
   and reaps never show.
   */
  lemma {:induction false} TableIsLastAnswer(es: seq<Event>, k: string, t: Time, end: Time)
    requires Monotone(es, t) && t <= end && EndsBy(es, end)
    ensures LiveLock(Run(INIT, es), k, end) == Unexpired(View(None, INIT, es, k), end)
  {
    RunKeepsView(None, INIT, es, k, t, end);
  }

  /** So at any point a read of the lock answers the last lock handed out, or that there is none. */
  lemma {:induction false} GetLockIsLastAnswer(es: seq<Event>, c: string, d: string, t: Time, now: Time)
    requires Monotone(es, t) && t <= now && EndsBy(es, now)
    ensures var r, last := Read(Run(INIT, es), GetLock(c, d), now),
            Unexpired(View(None, INIT, es, DocumentKey(c, d)), now);
            if last.Some? then r == Returned(Some(LockValue(last.value)), None)
            else r == Returned(None, Some(LockNotHeld)) || r == Returned(None, Some(LockExpired))
  {
    TableIsLastAnswer(es, DocumentKey(c, d), t, now);
    hide Run, View, DocumentKey, Unexpired;
  }

  /** And every lock call on an existing document is decided by that lock alone. */
  lemma {:induction false} CallsDecidedByLastAnswer(es: seq<Event>, j: nat, t: Time)
    requires Monotone(es, t) && j < |es|
    requires es[j].req.AcquireLock? || es[j].req.RenewLock? || es[j].req.ReleaseLock?
    requires var s := Run(INIT, es[..j]);
             Runs(s, es[j].req) && LookupError(s, es[j].req.collectionID, es[j].req.documentID).None?
    ensures var k := DocumentKey(es[j].req.collectionID, es[j].req.documentID);
            Responses(INIT, es)[j] == Decide(Unexpired(View(None, INIT, es[..j], k), es[j].now), es[j])
  {
    var k := DocumentKey(es[j].req.collectionID, es[j].req.documentID);
    MonotonePrefix(es, t, j);
    MonotoneBetween(es, t, j, j);
    forall i | 0 <= i < j ensures es[..j][i].now <= es[j].now {
      MonotoneBetween(es, t, i, j);
    }
    hide Step, Run, Monotone, View, Unexpired, Decide, Runs, DocumentKey, LookupError;
    TableIsLastAnswer(es[..j], k, t, es[j].now);
    CallDecided(Run(INIT, es[..j]), es[j]);
    ResponseAt(INIT, es, j);
  }

  lemma {:induction false} MonotonePrefix(es: seq<Event>, t: Time, j: nat)
    requires Monotone(es, t) && j <= |es|
    ensures Monotone(es[..j], t)
    decreases |es|
  {
    if j > 0 {
      assert es[..j][1..] == es[1..][..j - 1];
      MonotonePrefix(es[1..], es[0].now, j - 1);
    }
  }

  // ---- The table with its lapsed locks ----

  /**
   What stands in the table for k, lapsed or not: the last lock answered, until a release, a call
   that answers that none is held, or a reap that visits it after its end takes it away.
   */
  function TableAfter(table: Option<Lock>, s: State, e: Event, k: string): Option<Lock> {
    var r := Step(s, e).response;
    if !Runs(s, e.req) || r.Panicked? then table
    else if e.req.ReapExpiredLocks? then
      if k in e.req.order && table.Some? && table.value.expiresAt <= e.now then None else table
    else if (e.req.AcquireLock? || e.req.RenewLock? || e.req.ReleaseLock?)
            && DocumentKey(e.req.collectionID, e.req.documentID) == k then
      if r.err.None? then AnsweredLock(r) else if r.err.value.LockNotHeld? then None else table
    else table
  }

  function Table(table: Option<Lock>, s: State, es: seq<Event>, k: string): Option<Lock>
    decreases |es|
  {
    if es == [] then table else Table(TableAfter(table, s, es[0], k), Step(s, es[0]).state, es[1..], k)
  }

  function Standing(s: State, k: string): Option<Lock> {
    if k in s.locks then Some(s.locks[k]) else None
  }

  // What stands for k after a call on its document with result r.
  ghost predicate Puts(s: State, r: Result, k: string) {
    && r.response.Returned?
    && Standing(r.state, k) ==
       if r.response.err.None? then AnsweredLock(r.response)
       else if r.response.err.value.LockNotHeld? then None else Standing(s, k)
  }

  lemma {:induction false} ExecPuts(s: State, c: string, d: string, h: string, ttl: Duration, actor: string,
                                    key: string, now: Time)
    ensures Puts(s, ExecAcquire(s, c, d, h, ttl, actor, key, now), DocumentKey(c, d))
    ensures Puts(s, ExecRenew(s, c, d, h, ttl, actor, key, now), DocumentKey(c, d))
    ensures Puts(s, ExecRelease(s, c, d, h, actor, key, now), DocumentKey(c, d))
  {
    hide DocumentKey, NormalizeTTL;
  }

  lemma {:induction false} ExecPutsOthers(s: State, c: string, d: string, h: string, ttl: Duration, actor: string,
                                          key: string, now: Time, k: string)
    requires DocumentKey(c, d) != k
    ensures Standing(ExecAcquire(s, c, d, h, ttl, actor, key, now).state, k) == Standing(s, k)
    ensures Standing(ExecRenew(s, c, d, h, ttl, actor, key, now).state, k) == Standing(s, k)
    ensures Standing(ExecRelease(s, c, d, h, actor, key, now).state, k) == Standing(s, k)
  {
    hide DocumentKey, NormalizeTTL;
  }

  lemma {:induction false} CallPuts(s: State, e: Event, k: string)
    requires (e.req.AcquireLock? || e.req.RenewLock? || e.req.ReleaseLock?) && Runs(s, e.req)
    ensures if DocumentKey(e.req.collectionID, e.req.documentID) == k then Puts(s, Step(s, e), k)
            else Standing(Step(s, e).state, k) == Standing(s, k)
  {
    hide Step, Runs, DocumentKey, ExecAcquire, ExecRenew, ExecRelease;
    LockStep(s, e);
    var ttl := if e.req.ReleaseLock? then 0 else e.req.ttl;
    var c, d, h, actor, key := e.req.collectionID, e.req.documentID, e.req.holder, e.req.actor, e.req.key;
    if DocumentKey(c, d) == k {
      ExecPuts(s, c, d, h, ttl, actor, key, e.now);
    } else {
      ExecPutsOthers(s, c, d, h, ttl, actor, key, e.now, k);
    }
  }

  lemma {:induction false} StepKeepsTable(s: State, e: Event, k: string)
    ensures Standing(Step(s, e).state, k) == TableAfter(Standing(s, k), s, e, k)
  {
    StepOf(s, e);
    if e.req.AcquireLock? || e.req.RenewLock? || e.req.ReleaseLock? {
      hide Step, Execute, DocumentKey, Validate, Cached;
      if Runs(s, e.req) {
        CallPuts(s, e, k);
      }
    } else if e.req.ReapExpiredLocks? {
      assert Step(s, e).state == Reap(s, e.req.order, e.now);
      ReapRemoves(s, e.req.order, e.now, k);
      hide Step, Execute, Reap;
    } else {
      hide Step, Execute, Validate;
      OtherStepsKeepLocks(s, e);
    }
  }

  lemma {:induction false} RunKeepsTable(s: State, es: seq<Event>, k: string)
    ensures Standing(Run(s, es), k) == Table(Standing(s, k), s, es, k)
    decreases |es|
  {
    hide Step, TableAfter, Standing;
    if es != [] {
      StepKeepsTable(s, es[0], k);
      RunKeepsTable(Step(s, es[0]).state, es[1..], k);
    }
  }

  /**
   In every run, whatever its clock does, the table holds exactly the answered locks that nothing
   took away: lapsed locks go silently in renewals and releases, and with an event in reaps. A
   read tells a lock that has ended from one that is not there.
   */
  lemma {:induction false} TableIsExact(es: seq<Event>, c: string, d: string, now: Time)
    ensures var s, k := Run(INIT, es), DocumentKey(c, d); var table := Table(None, INIT, es, k);
            && (k in s.locks <==> table.Some?) && (k in s.locks ==> s.locks[k] == table.value)
            && Read(s, GetLock(c, d), now) ==
               if table.None? then Returned(None, Some(LockNotHeld))
               else if table.value.expiresAt <= now then Returned(None, Some(LockExpired))
               else Returned(Some(LockValue(table.value)), None)
  {
    RunKeepsTable(INIT, es, DocumentKey(c, d));
    hide Run, Table, DocumentKey;
  }

  /** And every lock call on an existing document is decided by the table, whatever the clock did before. */
  lemma {:induction false} CallsDecidedByTable(es: seq<Event>, j: nat)
    requires j < |es| && (es[j].req.AcquireLock? || es[j].req.RenewLock? || es[j].req.ReleaseLock?)
    requires var s := Run(INIT, es[..j]);
             Runs(s, es[j].req) && LookupError(s, es[j].req.collectionID, es[j].req.documentID).None?
    ensures var k := DocumentKey(es[j].req.collectionID, es[j].req.documentID);
            Responses(INIT, es)[j] == Decide(Unexpired(Table(None, INIT, es[..j], k), es[j].now), es[j])
  {
    RunKeepsTable(INIT, es[..j], DocumentKey(es[j].req.collectionID, es[j].req.documentID));
    CallDecided(Run(INIT, es[..j]), es[j]);
    ResponseAt(INIT, es, j);
    hide Step, Run, Table, Runs, DocumentKey, LookupError, Decide;
  }
}
