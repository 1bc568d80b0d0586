/** The audit log: what every call writes to it, numbered without gaps, append-only, tailable. */
module AuditLog {
  import opened Prelude
  import opened Domain
  import opened Frames
  import opened Keys
  import opened Spec
  import opened Tags

  // ---- What a call writes ----

  // The events as they enter a log of n events.
  function Numbering(evs: seq<AuditEvent>, n: int): seq<AuditEvent> {
    seq(|evs|, i requires 0 <= i < |evs| => evs[i].(sequence := n + i + 1))
  }

  // One event for each item of an applied batch and its result.
  function ItemEvents(c: string, items: seq<BatchItem>, results: seq<BatchItemResult>, actor: string,
                      now: Time): seq<AuditEvent>
  {
    if items == [] || results == [] then []
    else
      [AuditEvent(0, now, DocumentUpdated, actor, c, items[0].documentID, "",
                  UpdatedDetails(items[0].expectedVersion, results[0].document.version, items[0].reason, true))]
      + ItemEvents(c, items[1..], results[1..], actor, now)
  }

  // One event for each expired lock that is visited; a second visit finds nothing.
  function ReapEvents(locks: map<string, Lock>, order: seq<string>, now: Time): seq<AuditEvent>
    decreases |order|
  {
    if order == [] then []
    else if order[0] in locks && locks[order[0]].IsExpired(now) then
      var l := locks[order[0]];
      [AuditEvent(0, now, LockReaped, "", CollectionIDFromKey(order[0]), l.documentID, "",
                  ReapedDetails(l.holder, l.expiresAt))]
      + ReapEvents(locks - {order[0]}, order[1..], now)
    else ReapEvents(locks, order[1..], now)
  }

  // The events of a call that ran, read off its request and answer and off the table it met.
  function EventsOf(s: State, e: Event, r: Response): seq<AuditEvent> {
    match e.req
    case RegisterCollection(id, name, description, actor, key) =>
      var newID := if id == "" then e.freshID else id;
      if newID in s.collections then []
      else [AuditEvent(0, e.now, CollectionCreated, actor, newID, "", key, CollectionDetails(name, description))]
    case CreateDocument(c, _, _, _, _, actor, key) =>
      var doc := AnsweredDocument(r);
      if doc.None? then []
      else [AuditEvent(0, e.now, DocumentCreated, actor, c, doc.value.id, key,
                       CreatedDetails(doc.value.version, doc.value.tags))]
    case UpdateDocument(c, d, expected, _, actor, reason, key) =>
      var doc := AnsweredDocument(r);
      if doc.None? then []
      else [AuditEvent(0, e.now, DocumentUpdated, actor, c, d, key,
                       UpdatedDetails(expected, doc.value.version, reason, false))]
    case BatchUpdate(c, items, actor, key) =>
      var batch := AnsweredBatch(r);
      if batch.None? then []
      else if batch.value.applied then
        ItemEvents(c, items, batch.value.results, actor, e.now)
        + [AuditEvent(0, e.now, BatchApplied, actor, c, "", key, AppliedDetails(|items|))]
      else [AuditEvent(0, e.now, BatchRejected, actor, c, "", key, RejectedDetails(|items|, |batch.value.failures|))]
    case AcquireLock(c, d, _, ttl, actor, key) => GrantEvents(s, e, r, c, d, ttl, actor, key)
    case RenewLock(c, d, _, ttl, actor, key) => GrantEvents(s, e, r, c, d, ttl, actor, key)
    case ReleaseLock(c, d, _, actor, key) =>
      var held := LiveLock(s, DocumentKey(c, d), e.now);
      if r.Panicked? || r.err.Some? || held.None? then []
      else [AuditEvent(0, e.now, LockReleased, actor, c, d, key,
                       ReleasedDetails(held.value.holder, held.value.renewCount))]
    case ReapExpiredLocks(order) => ReapEvents(s.locks, order, e.now)
    case _ => []
  }

  // A grant over a live lock renewed it.
  function GrantEvents(s: State, e: Event, r: Response, c: string, d: string, ttl: Duration, actor: string,
                       key: string): seq<AuditEvent> {
    var lock, seconds := AnsweredLock(r), NormalizeTTL(ttl) / SECOND;
    if lock.None? then []
    else if LiveLock(s, DocumentKey(c, d), e.now).None? then
      [AuditEvent(0, e.now, LockAcquired, actor, c, d, key, AcquiredDetails(seconds, lock.value.holder))]
    else
      [AuditEvent(0, e.now, LockRenewed, actor, c, d, key, RenewedDetails(seconds, lock.value.renewCount))]
  }

  // Replays and invalid calls write nothing.
  function CallEvents(s: State, e: Event): seq<AuditEvent> {
    if Runs(s, e.req) then EventsOf(s, e, Step(s, e).response) else []
  }

  // The log of s' is that of s and these events.
  ghost predicate Writes(s: State, s': State, evs: seq<AuditEvent>) {
    s'.audit == s.audit + Numbering(evs, s.auditSeq) && s'.auditSeq == s.auditSeq + |evs|
  }

  lemma {:induction false} WritesNone(s: State, s': State)
    requires s'.audit == s.audit && s'.auditSeq == s.auditSeq
    ensures Writes(s, s', [])
  {
  }

  lemma {:induction false} WritesOne(s: State, s': State, e: AuditEvent)
    requires s'.audit == s.audit && s'.auditSeq == s.auditSeq
    ensures Writes(s, AppendAudit(s', e), [e])
  {
    assert Numbering([e], s.auditSeq) == [e.(sequence := s.auditSeq + 1)];
  }

  lemma {:induction false} WritesChain(s: State, t: State, u: State, a: seq<AuditEvent>, b: seq<AuditEvent>)
    requires Writes(s, t, a) && Writes(t, u, b)
    ensures Writes(s, u, a + b)
  {
    assert Numbering(a + b, s.auditSeq) == Numbering(a, s.auditSeq) + Numbering(b, s.auditSeq + |a|);
  }

  lemma {:induction false} ApplyWrites(s: State, c: string, items: seq<BatchItem>, i: nat, actor: string, now: Time)
    requires i <= |items| && AllPresent(s, c, items)
    ensures var a := ApplyFrom(s, c, items, i, actor, now);
            Writes(s, a.state, ItemEvents(c, items[i..], a.results, actor, now))
    decreases |items| - i
  {
    hide DocumentKey, NormalizeTags;
    if i < |items| {
      var a, s1, it := ApplyFrom(s, c, items, i, actor, now), ApplyItem(s, c, items[i], actor, now), items[i];
      var ev := AuditEvent(0, now, DocumentUpdated, actor, c, it.documentID, "",
                           UpdatedDetails(it.expectedVersion, a.results[0].document.version, it.reason, true));
      WritesOne(s, ApplyUpdate(s, DocumentKey(c, it.documentID), it.patch, actor, it.reason, now), ev);
      hide ApplyUpdate, Writes;
      assert Writes(s, s1, [ev]);
      ApplyWrites(s1, c, items, i + 1, actor, now);
      assert items[i..][0] == it && items[i..][1..] == items[i + 1..];
      hide ApplyItem;
      WritesChain(s, s1, a.state, [ev], ItemEvents(c, items[i + 1..], a.results[1..], actor, now));
    } else {
      WritesNone(s, s);
    }
  }

  lemma {:induction false} BatchWrites(s: State, e: Event)
    requires e.req.BatchUpdate?
    ensures var r := Execute(s, e.req, e.now, e.freshID); Writes(s, r.state, EventsOf(s, e, r.response))
  {
    var c, items, actor, key := e.req.collectionID, e.req.items, e.req.actor, e.req.key;
    hide Writes, ItemEvents, Numbering;
    if c !in s.collections {
      WritesNone(s, s);
    } else if Failures(s, c, items) != [] {
      WritesOne(s, s, AuditEvent(0, e.now, BatchRejected, actor, c, "", key,
                                 RejectedDetails(|items|, |Failures(s, c, items)|)));
    } else {
      NoFailuresAllPresent(s, c, items, 0, map[]);
      hide ApplyFrom, Failures;
      var a := ApplyFrom(s, c, items, 0, actor, e.now);
      var done := AuditEvent(0, e.now, BatchApplied, actor, c, "", key, AppliedDetails(|items|));
      ApplyWrites(s, c, items, 0, actor, e.now);
      assert items[0..] == items;
      WritesOne(a.state, a.state, done);
      WritesChain(s, a.state, AppendAudit(a.state, done), ItemEvents(c, items, a.results, actor, e.now), [done]);
    }
  }

  lemma {:induction false} ReapWrites(s: State, order: seq<string>, now: Time)
    ensures Writes(s, Reap(s, order, now), ReapEvents(s.locks, order, now))
    decreases |order|
  {
    hide Writes, CollectionIDFromKey;
    if order == [] {
      WritesNone(s, s);
    } else {
      var k, s1 := order[0], ReapKey(s, order[0], now);
      ReapWrites(s1, order[1..], now);
      if k in s.locks && s.locks[k].IsExpired(now) {
        var ev := AuditEvent(0, now, LockReaped, "", CollectionIDFromKey(k), s.locks[k].documentID, "",
                             ReapedDetails(s.locks[k].holder, s.locks[k].expiresAt));
        WritesOne(s, WithoutLock(s, k), ev);
        WritesChain(s, s1, Reap(s, order, now), [ev], ReapEvents(s1.locks, order[1..], now));
      }
    }
  }

  lemma {:induction false} RegisterWrites(s: State, e: Event)
    requires e.req.RegisterCollection?
    ensures var r := Execute(s, e.req, e.now, e.freshID); Writes(s, r.state, EventsOf(s, e, r.response))
  {
    hide Writes;
    var id := if e.req.id == "" then e.freshID else e.req.id;
    if id in s.collections {
      WritesNone(s, s);
    } else {
      WritesOne(s, s.(collections := s.collections[id := Collection(id, e.req.name, e.req.description, e.now)]),
                AuditEvent(0, e.now, CollectionCreated, e.req.actor, id, "", e.req.key,
                           CollectionDetails(e.req.name, e.req.description)));
    }
  }

  lemma {:induction false} DocumentWrites(s: State, e: Event)
    requires e.req.CreateDocument? || e.req.UpdateDocument?
    ensures var r := Execute(s, e.req, e.now, e.freshID); Writes(s, r.state, EventsOf(s, e, r.response))
  {
    hide Writes, DocumentKey, NormalizeTags;
    var r := Execute(s, e.req, e.now, e.freshID);
    if r.response.err.Some? {
      WritesNone(s, r.state);
    } else {
      var ev := EventsOf(s, e, r.response)[0];
      match e.req {
        case CreateDocument(c, id, _, _, _, actor, _) =>
          WritesOne(s, InsertDocument(s, DocumentKey(c, if id == "" then e.freshID else id),
                                      AnsweredDocument(r.response).value, actor, e.now), ev);
        case UpdateDocument(c, d, _, p, actor, reason, _) =>
          WritesOne(s, ApplyUpdate(s, DocumentKey(c, d), p, actor, reason, e.now), ev);
      }
    }
  }

  lemma {:induction false} LockCallWrites(s: State, e: Event)
    requires e.req.AcquireLock? || e.req.RenewLock? || e.req.ReleaseLock?
    ensures var r := Execute(s, e.req, e.now, e.freshID); Writes(s, r.state, EventsOf(s, e, r.response))
  {
    hide DocumentKey, NormalizeTTL, Writes;
    var r := Execute(s, e.req, e.now, e.freshID);
    if r.response.err.Some? {
      WritesNone(s, r.state);
    } else {
      WritesOne(s, r.state.(audit := s.audit, auditSeq := s.auditSeq), EventsOf(s, e, r.response)[0]);
    }
  }

  lemma {:induction false} ExecuteWrites(s: State, e: Event)
    ensures var r := Execute(s, e.req, e.now, e.freshID); Writes(s, r.state, EventsOf(s, e, r.response))
  {
    match e.req {
      case RegisterCollection(_, _, _, _, _) => RegisterWrites(s, e);
      case CreateDocument(_, _, _, _, _, _, _) => DocumentWrites(s, e);
      case UpdateDocument(_, _, _, _, _, _, _) => DocumentWrites(s, e);
      case BatchUpdate(_, _, _, _) => BatchWrites(s, e);
      case AcquireLock(_, _, _, _, _, _) => LockCallWrites(s, e);
      case RenewLock(_, _, _, _, _, _) => LockCallWrites(s, e);
      case ReleaseLock(_, _, _, _, _) => LockCallWrites(s, e);
      case ReapExpiredLocks(order) => ReapWrites(s, order, e.now);
      case _ =>
        hide Read;
        WritesNone(s, s);
    }
    hide Writes, ExecRegister, ExecCreate, ExecUpdate, ExecBatch, ExecAcquire, ExecRenew, ExecRelease;
  }

  lemma {:induction false} StepWrites(s: State, e: Event)
    ensures Writes(s, Step(s, e).state, CallEvents(s, e))
  {
    StepOf(s, e);
    ExecuteWrites(s, e);
    hide Step, Execute, Validate, Fingerprinted, EventsOf;
    if !Runs(s, e.req) {
      WritesNone(s, s);
    }
  }

  // ---- The log of a run ----

  function Logged(s: State, es: seq<Event>): seq<AuditEvent>
    decreases |es|
  {
    if es == [] then [] else CallEvents(s, es[0]) + Logged(Step(s, es[0]).state, es[1..])
  }

  /** The log of a run is the events of its executed calls, call by call, and nothing else. */
  lemma {:induction false} LogIsItsCalls(s: State, es: seq<Event>)
    ensures Run(s, es).audit == s.audit + Numbering(Logged(s, es), s.auditSeq)
    ensures Run(s, es).auditSeq == s.auditSeq + |Logged(s, es)|
    decreases |es|
  {
    hide Step, CallEvents, Numbering;
    if es == [] {
      WritesNone(s, s);
    } else {
      var s1 := Step(s, es[0]).state;
      StepWrites(s, es[0]);
      LogIsItsCalls(s1, es[1..]);
      WritesChain(s, s1, Run(s, es), CallEvents(s, es[0]), Logged(s1, es[1..]));
    }
  }

  ghost predicate Numbered(s: State) {
    && s.auditSeq == |s.audit|
    && forall i :: 0 <= i < |s.audit| ==> s.audit[i].sequence == i + 1
  }

  /** Sequence numbers are always 1, 2, ..., n and a later log extends every earlier one. */
  lemma {:induction false} LogAppendOnly(s: State, es: seq<Event>)
    requires Numbered(s)
    ensures Numbered(Run(s, es)) && s.audit <= Run(s, es).audit
  {
    LogIsItsCalls(s, es);
    hide Run, Logged;
  }

  // Call i of the run wrote position p of the log.
  ghost predicate WrittenBy(es: seq<Event>, i: nat, p: nat)
    requires i < |es|
  {
    |Run(INIT, es[..i]).audit| <= p < |Run(INIT, es[..i + 1]).audit|
  }

  // An event that carries the marks of the call it stems from.
  ghost predicate Stems(ev: AuditEvent, e: Event) {
    && ev.timestamp == e.now
    && (IsWrite(e.req) ==> ev.actor == e.req.actor && ev.idempotencyKey in {e.req.key, ""} && ev.kind != LockReaped)
    && (!IsWrite(e.req) ==>
          e.req.ReapExpiredLocks? && ev.kind == LockReaped && ev.actor == "" && ev.idempotencyKey == "")
  }

  lemma {:induction false} ItemsStem(c: string, items: seq<BatchItem>, results: seq<BatchItemResult>, e: Event)
    requires IsWrite(e.req)
    ensures forall ev :: ev in ItemEvents(c, items, results, e.req.actor, e.now) ==> Stems(ev, e)
  {
    if items != [] && results != [] {
      ItemsStem(c, items[1..], results[1..], e);
    }
  }

  lemma {:induction false} ReapsStem(locks: map<string, Lock>, order: seq<string>, e: Event)
    requires e.req.ReapExpiredLocks?
    ensures forall ev :: ev in ReapEvents(locks, order, e.now) ==> Stems(ev, e)
    decreases |order|
  {
    if order != [] {
      ReapsStem(locks - {order[0]}, order[1..], e);
      ReapsStem(locks, order[1..], e);
    }
  }

  lemma {:induction false} EventsStem(s: State, e: Event, r: Response)
    ensures forall ev :: ev in EventsOf(s, e, r) ==> Stems(ev, e)
  {
    hide DocumentKey, NormalizeTTL;
    if e.req.BatchUpdate? && AnsweredBatch(r).Some? {
      ItemsStem(e.req.collectionID, e.req.items, AnsweredBatch(r).value.results, e);
    } else if e.req.ReapExpiredLocks? {
      ReapsStem(s.locks, e.req.order, e);
    }
    hide ItemEvents, ReapEvents;
  }

  lemma {:induction false} LogsGrow(es: seq<Event>, i: nat, j: nat)
    requires i <= j <= |es|
    ensures Numbered(Run(INIT, es[..i]))
    ensures Run(INIT, es[..i]).audit <= Run(INIT, es[..j]).audit
  {
    assert Numbered(INIT);
    hide Run;
    LogAppendOnly(INIT, es[..i]);
    assert es[..j] == es[..i] + es[i..j];
    RunConcat(INIT, es[..i], es[i..j]);
    LogAppendOnly(Run(INIT, es[..i]), es[i..j]);
  }

  lemma {:induction false} FindWriter(es: seq<Event>, n: nat, p: nat) returns (i: nat)
    requires n <= |es| && p < |Run(INIT, es[..n]).audit|
    ensures i < n && WrittenBy(es, i, p)
    decreases n
  {
    hide Run;
    RunNothing(INIT, es);
    if |Run(INIT, es[..n - 1]).audit| <= p {
      i := n - 1;
    } else {
      i := FindWriter(es, n - 1, p);
    }
  }

  lemma {:induction false} RenumberingStems(ev: AuditEvent, n: int, e: Event)
    ensures Stems(ev, e) == Stems(ev.(sequence := n), e)
  {
  }

  lemma {:induction false} WriterWrites(es: seq<Event>, i: nat, p: nat)
    requires i < |es| && WrittenBy(es, i, p)
    ensures var s, log := Run(INIT, es[..i]), Run(INIT, es[..i + 1]).audit;
            && Runs(s, es[i].req) && |s.audit| <= p < |s.audit| + |CallEvents(s, es[i])| == |log|
            && log[p] == CallEvents(s, es[i])[p - |s.audit|].(sequence := p + 1)
            && Stems(log[p], es[i])
  {
    hide Run, Step, Runs, EventsOf, Stems;
    var s := Run(INIT, es[..i]);
    LogsGrow(es, i, i);
    ResponseAt(INIT, es, i);
    StepWrites(s, es[i]);
    EventsStem(s, es[i], Step(s, es[i]).response);
    RenumberingStems(CallEvents(s, es[i])[p - |s.audit|], p + 1, es[i]);
  }

  lemma {:induction false} OneWriter(es: seq<Event>, i: nat, j: nat, p: nat)
    requires i < |es| && j < |es| && WrittenBy(es, i, p) && WrittenBy(es, j, p)
    ensures i == j
  {
    hide Run;
    if i < j {
      LogsGrow(es, i + 1, j);
    } else if j < i {
      LogsGrow(es, j + 1, i);
    }
  }

  /** Every event of the log was written by exactly one call of the run, which ran, and carries its marks. */
  lemma {:induction false} EventHasOneCall(es: seq<Event>, p: nat) returns (i: nat)
    requires p < |Run(INIT, es).audit|
    ensures i < |es| && WrittenBy(es, i, p)
    ensures forall j: nat :: j < |es| && WrittenBy(es, j, p) ==> j == i
    ensures var s := Run(INIT, es[..i]);
            && Runs(s, es[i].req) && |s.audit| <= p < |s.audit| + |CallEvents(s, es[i])|
            && Run(INIT, es).audit[p] == CallEvents(s, es[i])[p - |s.audit|].(sequence := p + 1)
            && Stems(Run(INIT, es).audit[p], es[i])
  {
    hide *;
    assert es[..|es|] == es;
    i := FindWriter(es, |es|, p);
    WriterWrites(es, i, p);
    LogsGrow(es, i + 1, |es|);
    forall j: nat | j < |es| && WrittenBy(es, j, p) ensures j == i {
      OneWriter(es, i, j, p);
    }
  }

  // ---- Listing ----

  lemma {:induction false} MatchingConcat(a: seq<AuditEvent>, b: seq<AuditEvent>, f: AuditFilter)
    ensures MatchingEvents(a + b, f) == MatchingEvents(a, f) + MatchingEvents(b, f)
  {
    hide Matches;
    if a == [] {
      assert a + b == b;
    } else {
      assert (a + b)[1..] == a[1..] + b;
      MatchingConcat(a[1..], b, f);
    }
  }

  lemma {:induction false} MatchingAgree(a: seq<AuditEvent>, f: AuditFilter, g: AuditFilter)
    requires forall i :: 0 <= i < |a| ==> Matches(a[i], f) == Matches(a[i], g)
    ensures MatchingEvents(a, f) == MatchingEvents(a, g)
  {
    hide Matches;
    if a != [] {
      MatchingAgree(a[1..], f, g);
    }
  }

  lemma {:induction false} MatchingNone(a: seq<AuditEvent>, f: AuditFilter)
    requires forall i :: 0 <= i < |a| ==> !Matches(a[i], f)
    ensures MatchingEvents(a, f) == []
  {
    hide Matches;
    if a != [] {
      MatchingNone(a[1..], f);
    }
  }

  // The answer to a listing request in state s.
  function ListingOf(s: State, f: AuditFilter): seq<AuditEvent> {
    Read(s, ListAuditEvents(f), 0).value.value.events
  }

  // The filter a client tails with after seeing a log of n events.
  function TailFilter(f: AuditFilter, n: nat): AuditFilter {
    f.(minSequence := if f.minSequence > n + 1 then f.minSequence else n + 1)
  }

  lemma {:induction false} TailOfLog(before: seq<AuditEvent>, added: seq<AuditEvent>, f: AuditFilter)
    requires forall i :: 0 <= i < |before| ==> before[i].sequence <= |before|
    requires forall i :: 0 <= i < |added| ==> added[i].sequence > |before|
    ensures MatchingEvents(before, f) + MatchingEvents(before + added, TailFilter(f, |before|)) ==
            MatchingEvents(before + added, f)
  {
    var g := TailFilter(f, |before|);
    MatchingConcat(before, added, f);
    MatchingConcat(before, added, g);
    MatchingNone(before, g);
    MatchingAgree(added, f, g);
  }

  /** Tailing misses nothing and repeats nothing: the old listing plus the tail is the new listing. */
  lemma {:induction false} TailingIsGapFree(es: seq<Event>, i: nat, f: AuditFilter)
    requires i <= |es| && f.limit <= 0
    ensures var before, after := Run(INIT, es[..i]), Run(INIT, es);
            ListingOf(before, f) + ListingOf(after, TailFilter(f, |before.audit|)) == ListingOf(after, f)
  {
    var before, after := Run(INIT, es[..i]), Run(INIT, es);
    assert Numbered(INIT);
    hide Step;
    LogAppendOnly(INIT, es[..i]);
    assert es == es[..i] + es[i..];
    RunConcat(INIT, es[..i], es[i..]);
    LogAppendOnly(before, es[i..]);
    hide Run;
    var added := after.audit[|before.audit|..];
    assert after.audit == before.audit + added;
    forall j | 0 <= j < |added| ensures added[j].sequence > |before.audit| {
      assert added[j] == after.audit[|before.audit| + j];
    }
    TailOfLog(before.audit, added, f);
  }

  /** A listing holds exactly the matching events, in sequence order. */
  lemma {:induction false} MatchingExact(a: seq<AuditEvent>, f: AuditFilter)
    requires forall i, j :: 0 <= i < j < |a| ==> a[i].sequence < a[j].sequence
    ensures var m := MatchingEvents(a, f);
            && (forall e :: e in m <==> e in a && Matches(e, f))
            && (forall i, j :: 0 <= i < j < |m| ==> m[i].sequence < m[j].sequence)
  {
    hide Matches;
    if a != [] {
      MatchingExact(a[1..], f);
      var rest := MatchingEvents(a[1..], f);
      forall j | 0 <= j < |rest| ensures a[0].sequence < rest[j].sequence {
        assert rest[j] in a[1..];
      }
      assert a == [a[0]] + a[1..];
    }
  }

  // An empty field of a filter asks for nothing.
  ghost predicate Asked(f: AuditFilter, e: AuditEvent) {
    && f.collectionID in {"", e.collectionID} && f.documentID in {"", e.documentID} && f.actor in {"", e.actor}
    && f.kind in {None, Some(e.kind)} && (f.minSequence <= 0 || f.minSequence <= e.sequence)
  }

  /**
   In every reachable state: without a limit a listing is exactly the matches, ascending;
   with one it is the last so many of them.
   */
  lemma {:induction false} ListingExact(es: seq<Event>, f: AuditFilter)
    ensures var s := Run(INIT, es);
            var full, cut := ListingOf(s, f.(limit := 0)), ListingOf(s, f);
            && (forall e :: e in full <==> e in s.audit && Asked(f, e))
            && (forall i, j :: 0 <= i < j < |full| ==> full[i].sequence < full[j].sequence)
            && |cut| == (if 0 < f.limit < |full| then f.limit else |full|)
            && cut == full[|full| - |cut|..]
  {
    var s := Run(INIT, es);
    assert forall e :: Matches(e, f) <==> Asked(f, e);
    LogAppendOnly(INIT, es);
    hide Run;
    MatchingExact(s.audit, f);
    MatchingAgree(s.audit, f, f.(limit := 0));
  }
}
