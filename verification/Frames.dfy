/** Which parts of the state each kind of call can change. */
module Frames {
  import opened Domain
  import opened Spec

  predicate IsDocumentWrite(req: Request) {
    req.CreateDocument? || req.UpdateDocument? || req.BatchUpdate?
  }

  predicate IsLockOp(req: Request) {
    req.AcquireLock? || req.RenewLock? || req.ReleaseLock? || req.ReapExpiredLocks?
  }

  predicate IsRead(req: Request) {
    !IsWrite(req) && !req.ReapExpiredLocks?
  }

  // t agrees with s on documents, history and collections.
  ghost predicate SameDocuments(s: State, t: State) {
    s.documents == t.documents && s.history == t.history && s.collections == t.collections
  }

  lemma {:induction false} ReapFrame(s: State, order: seq<string>, now: Time)
    ensures var s' := Reap(s, order, now);
            s' == s.(locks := s'.locks, audit := s'.audit, auditSeq := s'.auditSeq)
    decreases |order|
  {
    if order != [] {
      ReapFrame(ReapKey(s, order[0], now), order[1..], now);
    }
  }

  lemma {:induction false} LockOpFrame(s: State, req: Request, now: Time, freshID: string)
    requires IsLockOp(req)
    ensures var s' := Execute(s, req, now, freshID).state;
            s' == s.(locks := s'.locks, audit := s'.audit, auditSeq := s'.auditSeq)
  {
    hide Keys.DocumentKey, NormalizeTTL;
    match req
    case ReapExpiredLocks(order) => ReapFrame(s, order, now);
    case _ =>
  }

  lemma {:induction false} ReadFrame(s: State, req: Request, now: Time, freshID: string)
    requires IsRead(req)
    ensures Execute(s, req, now, freshID).state == s
  {
    hide Read;
  }

  lemma {:induction false} ItemKeepsPresent(s: State, c: string, items: seq<BatchItem>, i: nat, actor: string,
                                            now: Time)
    requires i < |items| && AllPresent(s, c, items)
    ensures AllPresent(ApplyItem(s, c, items[i], actor, now), c, items)
    ensures Keys.DocumentKey(c, items[i].documentID) in ApplyItem(s, c, items[i], actor, now).documents
  {
    hide Keys.DocumentKey, ApplyPatch, RevisionOf;
  }

  lemma {:induction false} ApplyFrame(s: State, c: string, items: seq<BatchItem>, i: nat, actor: string, now: Time)
    requires i <= |items| && AllPresent(s, c, items)
    ensures var s' := ApplyFrom(s, c, items, i, actor, now).state;
            s' == s.(documents := s'.documents, history := s'.history, audit := s'.audit, auditSeq := s'.auditSeq)
    decreases |items| - i
  {
    if i < |items| {
      ApplyFrame(ApplyItem(s, c, items[i], actor, now), c, items, i + 1, actor, now);
    }
  }

  lemma {:induction false} BatchFrame(s: State, c: string, items: seq<BatchItem>, actor: string, key: string, now: Time)
    ensures var r := ExecBatch(s, c, items, actor, key, now);
            && r.state == s.(documents := r.state.documents, history := r.state.history,
                             audit := r.state.audit, auditSeq := r.state.auditSeq)
            && (r.response.err.Some? ==> SameDocuments(s, r.state))
  {
    if c in s.collections && Failures(s, c, items) == [] {
      NoFailuresAllPresent(s, c, items, 0, map[]);
      ApplyFrame(s, c, items, 0, actor, now);
    }
  }

  lemma {:induction false} DocumentWriteFrame(s: State, req: Request, now: Time, freshID: string)
    requires IsDocumentWrite(req)
    ensures var r := Execute(s, req, now, freshID);
            && r.state == s.(documents := r.state.documents, history := r.state.history,
                             audit := r.state.audit, auditSeq := r.state.auditSeq)
            && (r.response.err.Some? ==> SameDocuments(s, r.state))
  {
    hide Keys.DocumentKey, Tags.NormalizeTags, ExecBatch;
    match req
    case BatchUpdate(c, items, actor, key) => BatchFrame(s, c, items, actor, key, now);
    case _ =>
  }

  lemma {:induction false} RegisterFrame(s: State, req: Request, now: Time, freshID: string)
    requires req.RegisterCollection?
    ensures var r := Execute(s, req, now, freshID);
            && r.state == s.(collections := r.state.collections, audit := r.state.audit, auditSeq := r.state.auditSeq)
            && r.response.err.None?
            && (forall id :: id in s.collections ==>
                  id in r.state.collections && r.state.collections[id] == s.collections[id])
  {
  }

  /** A call that does not run answers from the cache or the validation and changes nothing. */
  lemma {:induction false} StepOf(s: State, e: Event)
    ensures !Runs(s, e.req) ==> Step(s, e).state == s
    ensures Runs(s, e.req) ==>
              var r := Execute(s, e.req, e.now, e.freshID);
              && Step(s, e).response == r.response
              && Step(s, e).state ==
                 if IsWrite(e.req) then Remember(r.state, e.req.key, Fingerprinted(e.req), r.response) else r.state
  {
    hide Execute;
  }

  lemma {:induction false} StepKeepsCollection(s: State, e: Event, id: string)
    requires id in s.collections
    ensures id in Step(s, e).state.collections && Step(s, e).state.collections[id] == s.collections[id]
  {
    StepOf(s, e);
    hide Step, Execute, Fingerprinted, Validate;
    if IsDocumentWrite(e.req) {
      DocumentWriteFrame(s, e.req, e.now, e.freshID);
    } else if IsLockOp(e.req) {
      LockOpFrame(s, e.req, e.now, e.freshID);
    } else if e.req.RegisterCollection? {
      RegisterFrame(s, e.req, e.now, e.freshID);
    } else {
      ReadFrame(s, e.req, e.now, e.freshID);
    }
  }

  /** A registered collection never changes. */
  lemma {:induction false} CollectionsPermanent(s: State, es: seq<Event>, id: string)
    requires id in s.collections
    ensures id in Run(s, es).collections && Run(s, es).collections[id] == s.collections[id]
    decreases |es|
  {
    hide Step;
    if es != [] {
      StepKeepsCollection(s, es[0], id);
      CollectionsPermanent(Step(s, es[0]).state, es[1..], id);
    }
  }

  ghost predicate NoRegistrations(es: seq<Event>) {
    forall i :: 0 <= i < |es| ==> !es[i].req.RegisterCollection?
  }

  lemma {:induction false} StepRegistersNothing(s: State, e: Event)
    requires !e.req.RegisterCollection?
    ensures Step(s, e).state.collections == s.collections
  {
    StepOf(s, e);
    hide Step, Execute, Runs, Fingerprinted;
    if IsDocumentWrite(e.req) {
      DocumentWriteFrame(s, e.req, e.now, e.freshID);
    } else if IsLockOp(e.req) {
      LockOpFrame(s, e.req, e.now, e.freshID);
    } else {
      ReadFrame(s, e.req, e.now, e.freshID);
    }
  }

  lemma {:induction false} RunRegistersNothing(s: State, es: seq<Event>)
    requires NoRegistrations(es)
    ensures Run(s, es).collections == s.collections
    decreases |es|
  {
    hide Step;
    if es != [] {
      StepRegistersNothing(s, es[0]);
      RunRegistersNothing(Step(s, es[0]).state, es[1..]);
    }
  }
}
