/** Which calls run: what the fields of a request must be, and when its key has been used before. */
module Validation {
  import opened Prelude
  import opened Domain
  import opened Frames
  import opened Idempotency
  import opened Keys
  import opened Spec
  import opened Tags
  import opened Text

  // ---- Faulty requests ----

  ghost predicate Blank(s: string) {
    forall i :: 0 <= i < |s| ==> s[i] as int in WHITE_SPACE
  }

  // The error for the one field that a write can get wrong by itself.
  ghost function Fault(req: Request): Option<Error> {
    if req.RegisterCollection? && Blank(req.name) then Some(ValidationError("name", "must not be empty"))
    else if req.CreateDocument? && Blank(req.title) then Some(ValidationError("title", "must not be empty"))
    else if req.UpdateDocument? && !(1 <= req.expectedVersion) then
      Some(ValidationError("expected_version", "must be >= 1"))
    else if req.BatchUpdate? && |req.items| == 0 then Some(ValidationError("items", "must not be empty"))
    else if (req.AcquireLock? || req.RenewLock? || req.ReleaseLock?) && |req.holder| == 0 then
      Some(ValidationError("holder", "must not be empty"))
    else None
  }

  lemma {:induction false} BlankIsTrimmedAway(s: string)
    ensures TrimSpace(s) == "" <==> Blank(s)
  {
    BlankTrims(s);
    forall i | 0 <= i < |s| {
      IsSpaceExactly(s[i]);
    }
    hide IsSpace, TrimSpace;
  }

  lemma {:induction false} ValidateFindsFault(req: Request)
    ensures Validate(req) == Fault(req)
  {
    if req.RegisterCollection? {
      BlankIsTrimmedAway(req.name);
    } else if req.CreateDocument? {
      BlankIsTrimmedAway(req.title);
    }
    hide TrimSpace, Blank;
  }

  // The answer blames a field other than the id of a document that exists already.
  predicate BlamesField(r: Response) {
    r.Returned? && r.err.Some? && r.err.value.ValidationError? && r.err.value.field != "id"
  }

  lemma {:induction false} ExecuteBlamesNone(s: State, req: Request, now: Time, freshID: string)
    ensures !BlamesField(Execute(s, req, now, freshID).response)
  {
    hide DocumentKey, NormalizeTags, NormalizeTTL, Failures, ApplyFrom, Listing, MatchingEvents;
  }

  ghost predicate CacheBlamesNone(s: State) {
    forall k :: k in s.idem ==> !BlamesField(Returned(s.idem[k].value, s.idem[k].err))
  }

  lemma {:induction false} StepBlamesNone(s: State, e: Event)
    requires CacheBlamesNone(s)
    ensures CacheBlamesNone(Step(s, e).state)
  {
    StepCache(s, e);
    StepOf(s, e);
    ExecuteBlamesNone(s, e.req, e.now, e.freshID);
    hide Step, Execute, Runs, Fingerprinted;
  }

  lemma {:induction false} RunBlamesNone(s: State, es: seq<Event>)
    requires CacheBlamesNone(s)
    ensures CacheBlamesNone(Run(s, es))
    decreases |es|
  {
    hide Step, CacheBlamesNone;
    if es != [] {
      StepBlamesNone(s, es[0]);
      RunBlamesNone(Step(s, es[0]).state, es[1..]);
    }
  }

  /**
   A call of any run is refused for a field exactly when its own fields are at fault: a blank name or
   title, an expected version below 1, no items, no holder. It then names that field and changes
   nothing, whatever its key.
   */
  lemma {:induction false} RefusedIffFaulty(es: seq<Event>, e: Event)
    ensures var s := Run(INIT, es);
            && (BlamesField(Step(s, e).response) <==> Fault(e.req).Some?)
            && (Fault(e.req).Some? ==> Step(s, e) == Result(s, Returned(None, Fault(e.req))))
  {
    var s := Run(INIT, es);
    RunBlamesNone(INIT, es);
    ValidateFindsFault(e.req);
    StepOf(s, e);
    ExecuteBlamesNone(s, e.req, e.now, e.freshID);
    hide Run, Execute, Fault, Validate, Fingerprinted;
  }

  // ---- Calls that run ----

  // Call j runs: its fields are right and no earlier write with right fields used its key.
  ghost predicate Executed(es: seq<Event>, j: nat)
    requires j < |es|
  {
    && Fault(es[j].req).None?
    && (IsWrite(es[j].req) && es[j].req.key != "" ==>
          forall i :: 0 <= i < j && IsWrite(es[i].req) && es[i].req.key == es[j].req.key ==> Fault(es[i].req).Some?)
  }

  lemma {:induction false} EarlierUseIsCached(es: seq<Event>, i: nat, j: nat)
    requires i < j < |es| && IsWrite(es[i].req) && es[i].req.key != "" && Validate(es[i].req).None?
    ensures es[i].req.key in Run(INIT, es[..j]).idem
  {
    hide Step, Run, Validate, Fingerprinted;
    var k := es[i].req.key;
    if Runs(Run(INIT, es[..i]), es[i].req) {
      OriginFillsCache(es, i, j, k);
    } else {
      assert es[..j] == es[..i] + es[i..j];
      RunConcat(INIT, es[..i], es[i..j]);
      CacheKept(Run(INIT, es[..i]), es[i..j], k);
    }
  }

  lemma {:induction false} CachedWasUsed(es: seq<Event>, j: nat, k: string) returns (i: nat)
    requires j <= |es| && k in Run(INIT, es[..j]).idem
    ensures i < j && IsWrite(es[i].req) && es[i].req.key == k && Validate(es[i].req).None?
  {
    hide Step, Run, Validate, Fingerprinted;
    i := FindOrigin(es, j, k);
  }

  /** What runs is decided by the requests of the run alone. */
  lemma {:induction false} RunsIffExecuted(es: seq<Event>, j: nat)
    requires j < |es|
    ensures Runs(Run(INIT, es[..j]), es[j].req) <==> Executed(es, j)
  {
    hide Run, Step, Validate, Fault;
    var req := es[j].req;
    ValidateFindsFault(req);
    if Cached(Run(INIT, es[..j]), req) {
      var i := CachedWasUsed(es, j, req.key);
      ValidateFindsFault(es[i].req);
    } else if IsWrite(req) && req.key != "" {
      forall i | 0 <= i < j && IsWrite(es[i].req) && es[i].req.key == req.key ensures Fault(es[i].req).Some? {
        ValidateFindsFault(es[i].req);
        if Validate(es[i].req).None? {
          EarlierUseIsCached(es, i, j);
        }
      }
    }
  }
}
