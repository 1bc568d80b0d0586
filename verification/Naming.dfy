/** When composite keys lead back to the ids they were made of: lookups and reap events. */
module Naming {
  import opened Prelude
  import opened Account
  import opened AuditLog
  import opened Domain
  import opened Frames
  import opened History
  import opened Keys
  import opened Leases
  import opened Reaper
  import opened Spec
  import Text

  // ---- Lookups ----

  // A lookup answers no document but the one that has these ids.
  ghost predicate AnswersOwn(s: State, c: string, d: string) {
    var doc := AnsweredDocument(Read(s, GetDocument(c, d), 0));
    doc.Some? ==> doc.value.collectionID == c && doc.value.id == d
  }

  ghost predicate NotNested(s: State) {
    forall c1, c2 :: c1 in s.collections && c2 in s.collections ==> !Nested(c1, c2)
  }

  lemma {:induction false} OwnIfNotNested(s: State, c: string, d: string)
    requires Consistent(s) && NotNested(s)
    ensures AnswersOwn(s, c, d)
  {
    var k := DocumentKey(c, d);
    if c in s.collections && k in s.documents {
      var doc := s.documents[k];
      assert CompleteAt(s, k);
      KeyInjectiveInCollection(c, d, doc.id);
      if doc.collectionID != c {
        KeysCollideIffNested(c, doc.collectionID);
      }
    }
    hide DocumentKey, Complete, Nested;
  }

  // With nested collections one creation makes a document that a foreign lookup answers, if there is none yet.
  lemma {:induction false} NestedMeetsForeign(s: State, outer: string, inner: string)
    returns (e: Event, c: string, d: string)
    requires outer in s.collections && inner in s.collections && Nested(outer, inner)
    ensures e.req.CreateDocument? && !AnswersOwn(Step(s, e).state, c, d)
  {
    e := Event(CreateDocument(inner, "x", "x", "", None, "", ""), 0, "");
    var k := DocumentKey(inner, "x");
    c, d := outer, inner[|outer| + 1..] + "/x";
    assert DocumentKey(c, d) == k;
    StepOf(s, e);
    hide Step, DocumentKey, Tags.NormalizeTags;
    if k in s.documents && s.documents[k].collectionID == outer {
      c, d := inner, "x";
    }
  }

  /**
   Lookups go astray exactly when one registered id continues another behind a slash: only then
   can a creation lead to a lookup that answers a document with other ids than asked for.
   */
  lemma {:induction false} LookupsOwnIffNotNested(es: seq<Event>)
    ensures var s := Run(INIT, es);
            NotNested(s) <==> forall e: Event, c, d :: e.req.CreateDocument? ==> AnswersOwn(Step(s, e).state, c, d)
  {
    var s := Run(INIT, es);
    HistoryIsReplay(INIT, es, "");
    hide Run, Step, Consistent, AnswersOwn, Nested;
    if NotNested(s) {
      forall e: Event, c, d | e.req.CreateDocument? ensures AnswersOwn(Step(s, e).state, c, d) {
        StepFollows(s, e, "");
        StepRegistersNothing(s, e);
        OwnIfNotNested(Step(s, e).state, c, d);
      }
    } else {
      var outer, inner :| outer in s.collections && inner in s.collections && Nested(outer, inner);
      var e, c, d := NestedMeetsForeign(s, outer, inner);
    }
  }

  function Registration(id: string): Event {
    Event(RegisterCollection(id, "n", "", "", ""), 0, "")
  }

  lemma {:induction false} RegistrationRegisters(s: State, id: string)
    requires id != ""
    ensures id in Step(s, Registration(id)).state.collections
  {
    Text.TrimSpaceFixes("n");
    RegisterAnswers(s, Registration(id), id);
    hide Step;
  }

  /**
   Nothing keeps a client from nesting: after two registrations a lookup in one collection can
   answer a document of the other.
   */
  lemma {:induction false} NestingIsReachable(outer: string, rest: string) returns (e: Event, c: string, d: string)
    requires outer != ""
    ensures e.req.CreateDocument?
    ensures !AnswersOwn(Run(INIT, [Registration(outer), Registration(outer + "/" + rest), e]), c, d)
  {
    hide Step, Registration, AnswersOwn;
    var inner := outer + "/" + rest;
    var e0, e1 := Registration(outer), Registration(inner);
    RegistrationRegisters(INIT, outer);
    var s1 := Step(INIT, e0).state;
    RegistrationRegisters(s1, inner);
    StepKeepsCollection(s1, e1, outer);
    var s2 := Step(s1, e1).state;
    e, c, d := NestedMeetsForeign(s2, outer, inner);
    assert [e0, e1, e] == [e0] + ([e1] + [e]);
    RunConcat(INIT, [e0], [e1] + [e]);
    RunConcat(s1, [e1], [e]);
  }

  /**
   In particular, with slash-free collections every lookup in every reachable state answers the
   document asked for.
   */
  lemma {:induction false} SlashFreeLookupsOwn(es: seq<Event>, c: string, d: string)
    requires SlashFreeCollections(Run(INIT, es))
    ensures AnswersOwn(Run(INIT, es), c, d)
  {
    var s := Run(INIT, es);
    HistoryIsReplay(INIT, es, "");
    hide Run;
    forall c1, c2 | c1 in s.collections && c2 in s.collections ensures !Nested(c1, c2) {
      NestedHasSlash(c1, c2);
    }
    OwnIfNotNested(s, c, d);
  }

  // ---- Locks and reap events ----

  // A lock stands for a stored document, under a key made of a registered collection and the lock's own document id.
  ghost predicate NamedBy(s: State, k: string, l: Lock, c: string) {
    k in s.documents && c in s.collections && DocumentKey(c, l.documentID) == k
  }

  ghost predicate LocksNamed(s: State) {
    forall k :: k in s.locks ==> exists c :: NamedBy(s, k, s.locks[k], c)
  }

  // Where the locks after a call come from.
  ghost predicate LocksFrom(s: State, s': State, c: string, d: string) {
    forall k :: k in s'.locks ==>
      || (k in s.locks && s'.locks[k].documentID == s.locks[k].documentID)
      || (k == DocumentKey(c, d) && s'.locks[k].documentID == d && c in s.collections && k in s.documents)
  }

  lemma {:induction false} CallLocksFrom(s: State, c: string, d: string, h: string, ttl: Duration, actor: string,
                                         key: string, now: Time)
    ensures LocksFrom(s, ExecAcquire(s, c, d, h, ttl, actor, key, now).state, c, d)
    ensures LocksFrom(s, ExecRenew(s, c, d, h, ttl, actor, key, now).state, c, d)
    ensures LocksFrom(s, ExecRelease(s, c, d, h, actor, key, now).state, c, d)
  {
    hide DocumentKey, NormalizeTTL;
  }

  lemma {:induction false} StepLocksFrom(s: State, e: Event) returns (c: string, d: string)
    ensures LocksFrom(s, Step(s, e).state, c, d)
  {
    c, d := "", "";
    StepOf(s, e);
    if !Runs(s, e.req) {
    } else if e.req.ReapExpiredLocks? {
      forall k {
        ReapRemoves(s, e.req.order, e.now, k);
      }
      hide Reap;
    } else if IsLockOp(e.req) {
      c, d := e.req.collectionID, e.req.documentID;
      LockStep(s, e);
      var ttl := if e.req.ReleaseLock? then 0 else e.req.ttl;
      CallLocksFrom(s, c, d, e.req.holder, ttl, e.req.actor, e.req.key, e.now);
      hide ExecAcquire, ExecRenew, ExecRelease, LocksFrom;
      LocksFromLocks(s, Execute(s, e.req, e.now, e.freshID).state, Step(s, e).state, c, d);
    } else {
      OtherStepsKeepLocks(s, e);
    }
    hide Step, Runs, DocumentKey;
  }

  lemma {:induction false} LocksFromLocks(s: State, a: State, b: State, c: string, d: string)
    requires LocksFrom(s, a, c, d) && a.locks == b.locks
    ensures LocksFrom(s, b, c, d)
  {
  }

  lemma {:induction false} StepKeepsDocument(s: State, e: Event, k: string)
    requires k in s.documents
    ensures k in Step(s, e).state.documents
  {
    StepOf(s, e);
    if Runs(s, e.req) {
      hide Step, Runs;
      CallAnswers(s, e, k);
    }
  }

  lemma {:induction false} StepKeepsNamed(s: State, e: Event)
    requires LocksNamed(s)
    ensures LocksNamed(Step(s, e).state)
  {
    hide Step, DocumentKey;
    var s' := Step(s, e).state;
    var c, d := StepLocksFrom(s, e);
    forall k | k in s'.locks ensures exists c :: NamedBy(s', k, s'.locks[k], c) {
      var owner := c;
      if k in s.locks && s'.locks[k].documentID == s.locks[k].documentID {
        owner :| NamedBy(s, k, s.locks[k], owner);
      }
      assert NamedBy(s, k, s'.locks[k], owner);
      StepKeepsDocument(s, e, k);
      StepKeepsCollection(s, e, owner);
      assert NamedBy(s', k, s'.locks[k], owner);
    }
  }

  lemma {:induction false} RunKeepsNamed(s: State, es: seq<Event>)
    requires LocksNamed(s)
    ensures LocksNamed(Run(s, es))
    decreases |es|
  {
    hide Step, LocksNamed;
    if es != [] {
      StepKeepsNamed(s, es[0]);
      RunKeepsNamed(Step(s, es[0]).state, es[1..]);
    }
  }

  // With slash-free collections the key of a lock splits into the ids of the document it locks.
  lemma {:induction false} LockLeadsToDocument(es: seq<Event>, k: string)
    requires SlashFreeCollections(Run(INIT, es)) && k in Run(INIT, es).locks
    ensures var s := Run(INIT, es);
            && k in s.documents && s.documents[k].collectionID == CollectionIDFromKey(k)
            && s.documents[k].id == s.locks[k].documentID
  {
    var s := Run(INIT, es);
    RunKeepsNamed(INIT, es);
    HistoryIsReplay(INIT, es, "");
    hide Run;
    var c :| NamedBy(s, k, s.locks[k], c);
    assert CompleteAt(s, k);
    var doc := s.documents[k];
    KeyInjective(c, s.locks[k].documentID, doc.collectionID, doc.id);
    SplitInvertsIffSlashFree(doc.collectionID, doc.id);
  }

  lemma {:induction false} ReapEventSource(locks: map<string, Lock>, order: seq<string>, now: Time, j: nat)
    returns (k: string)
    requires j < |ReapEvents(locks, order, now)|
    ensures k in locks && locks[k].IsExpired(now)
    ensures ReapEvents(locks, order, now)[j] ==
            AuditEvent(0, now, LockReaped, "", CollectionIDFromKey(k), locks[k].documentID, "",
                       ReapedDetails(locks[k].holder, locks[k].expiresAt))
    decreases |order|
  {
    hide CollectionIDFromKey;
    if order[0] in locks && locks[order[0]].IsExpired(now) {
      if j == 0 {
        k := order[0];
      } else {
        k := ReapEventSource(locks - {order[0]}, order[1..], now, j - 1);
      }
    } else {
      k := ReapEventSource(locks, order[1..], now, j);
    }
  }

  lemma {:induction false} OnlyReapsReap(s: State, e: Event, ev: AuditEvent)
    requires Stems(ev, e) && ev.kind == LockReaped
    ensures e.req.ReapExpiredLocks?
    ensures Runs(s, e.req) ==> CallEvents(s, e) == ReapEvents(s.locks, e.req.order, e.now)
  {
    hide ReapEvents, Step;
  }

  lemma {:induction false} PrefixSlashFree(es: seq<Event>, i: nat)
    requires i <= |es| && SlashFreeCollections(Run(INIT, es))
    ensures SlashFreeCollections(Run(INIT, es[..i]))
  {
    hide Run;
    assert es == es[..i] + es[i..];
    RunConcat(INIT, es[..i], es[i..]);
    forall id | id in Run(INIT, es[..i]).collections {
      CollectionsPermanent(Run(INIT, es[..i]), es[i..], id);
    }
  }

  /**
   With slash-free collections every reap event in the log of a run stems from one reap call that
   met an expired lock; the event carries that lock's holder and expiry and the ids of the
   document that was locked.
   */
  lemma {:induction false} ReapEventsNameDocuments(es: seq<Event>, p: nat) returns (i: nat, k: string)
    requires p < |Run(INIT, es).audit| && Run(INIT, es).audit[p].kind == LockReaped
    requires SlashFreeCollections(Run(INIT, es))
    ensures i < |es| && es[i].req.ReapExpiredLocks?
    ensures var s, ev := Run(INIT, es[..i]), Run(INIT, es).audit[p];
            && k in s.locks && s.locks[k].IsExpired(es[i].now) && k in s.documents
            && ev.collectionID == s.documents[k].collectionID && ev.documentID == s.documents[k].id
            && ev.details == ReapedDetails(s.locks[k].holder, s.locks[k].expiresAt)
  {
    hide *;
    i := EventHasOneCall(es, p);
    var s, ev := Run(INIT, es[..i]), Run(INIT, es).audit[p];
    OnlyReapsReap(s, es[i], ev);
    k := ReapEventSource(s.locks, es[i].req.order, es[i].now, p - |s.audit|);
    PrefixSlashFree(es, i);
    LockLeadsToDocument(es[..i], k);
  }
}
