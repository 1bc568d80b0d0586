/** Idempotency keys: every keyed write takes effect once, and replays answer what it answered. */
module Idempotency {
  import opened Prelude
  import opened Domain
  import opened Frames
  import opened Keys
  import opened Spec
  import opened Tags

  // ---- The cache is written once per key ----

  lemma {:induction false} ExecuteKeepsCache(s: State, req: Request, now: Time, freshID: string)
    ensures Execute(s, req, now, freshID).state.idem == s.idem
  {
    hide Execute;
    if IsDocumentWrite(req) {
      DocumentWriteFrame(s, req, now, freshID);
    } else if IsLockOp(req) {
      LockOpFrame(s, req, now, freshID);
    } else if req.RegisterCollection? {
      RegisterFrame(s, req, now, freshID);
    } else {
      ReadFrame(s, req, now, freshID);
    }
  }

  // What a step adds to the cache: the outcome of a keyed write that ran, and nothing else.
  lemma {:induction false} StepCache(s: State, e: Event)
    ensures var s', r := Step(s, e).state, Step(s, e).response;
            if Runs(s, e.req) && IsWrite(e.req) && e.req.key != ""
            then r.Returned? && s'.idem == s.idem[e.req.key := IdemEntry(Fingerprinted(e.req), r.err, r.value)]
                 && e.req.key !in s.idem
            else s'.idem == s.idem
  {
    StepOf(s, e);
    hide Step;
    ExecuteKeepsCache(s, e.req, e.now, e.freshID);
    hide Execute, Fingerprinted, Validate;
  }

  /** Cached entries never change and never go away. */
  lemma {:induction false} CacheKept(s: State, es: seq<Event>, k: string)
    requires k in s.idem
    ensures k in Run(s, es).idem && Run(s, es).idem[k] == s.idem[k]
    decreases |es|
  {
    hide Step, Runs, Fingerprinted;
    if es != [] {
      StepCache(s, es[0]);
      CacheKept(Step(s, es[0]).state, es[1..], k);
    }
  }

  // ---- Type assertions on replay ----

  // Every cached value has the type its operation asserts on replay.
  ghost predicate CacheTyped(s: State) {
    forall k :: k in s.idem ==> EntryTyped(s.idem[k])
  }

  ghost predicate EntryTyped(e: IdemEntry) {
    e.value.Some? ==> CastSucceeds(e.fingerprint, e.value.value) && !e.fingerprint.ReleasePrint?
  }

  lemma {:induction false} ExecuteTyped(s: State, req: Request, now: Time, freshID: string)
    requires IsWrite(req)
    ensures var r := Execute(s, req, now, freshID).response;
            EntryTyped(IdemEntry(Fingerprinted(req), r.err, r.value))
  {
    hide DocumentKey, NormalizeTags, NormalizeTTL, Failures, ApplyFrom;
    match req {
      case BatchUpdate(c, items, actor, key) =>
      case _ =>
    }
  }

  lemma {:induction false} StepKeepsTyped(s: State, e: Event)
    requires CacheTyped(s)
    ensures CacheTyped(Step(s, e).state)
  {
    StepCache(s, e);
    if Runs(s, e.req) && IsWrite(e.req) {
      ExecuteTyped(s, e.req, e.now, e.freshID);
      StepOf(s, e);
    }
    hide Step, Execute, EntryTyped;
  }

  lemma {:induction false} RunKeepsTyped(s: State, es: seq<Event>)
    requires CacheTyped(s)
    ensures CacheTyped(Run(s, es))
    decreases |es|
  {
    hide Step, CacheTyped;
    if es != [] {
      StepKeepsTyped(s, es[0]);
      RunKeepsTyped(Step(s, es[0]).state, es[1..]);
    }
  }

  /** In every reachable state no request makes a replay's type assertion fail. */
  lemma {:induction false} ReplayNeverPanics(es: seq<Event>, e: Event)
    ensures Step(Run(INIT, es), e).response.Returned?
  {
    RunKeepsTyped(INIT, es);
    var s := Run(INIT, es);
    StepOf(s, e);
    if Cached(s, e.req) {
      assert EntryTyped(s.idem[e.req.key]);
    }
    hide Run, Execute, Fingerprinted;
  }

  // ---- Retries ----

  // The call would be answered from the cache.
  predicate IsRetry(s: State, e: Event) {
    Validate(e.req).None? && Cached(s, e.req)
  }

  // The run without the retries that the mask drops; other events always stay.
  function Pruned(s: State, es: seq<Event>, drop: seq<bool>): seq<Event>
    requires |drop| == |es|
    decreases |es|
  {
    if es == [] then []
    else
      (if drop[0] && IsRetry(s, es[0]) then [] else [es[0]]) + Pruned(Step(s, es[0]).state, es[1..], drop[1..])
  }

  // The answers that the kept events had in the full run.
  function KeptResponses(s: State, es: seq<Event>, drop: seq<bool>): seq<Response>
    requires |drop| == |es|
    decreases |es|
  {
    if es == [] then []
    else
      (if drop[0] && IsRetry(s, es[0]) then [] else [Step(s, es[0]).response])
      + KeptResponses(Step(s, es[0]).state, es[1..], drop[1..])
  }

  /** Deleting any retries from any run changes neither the final state nor the other answers. */
  lemma {:induction false} RetryElimination(s: State, es: seq<Event>, drop: seq<bool>)
    requires |drop| == |es|
    ensures Run(s, Pruned(s, es, drop)) == Run(s, es)
    ensures Responses(s, Pruned(s, es, drop)) == KeptResponses(s, es, drop)
    decreases |es|
  {
    if es != [] {
      StepOf(s, es[0]);
      hide Step, Validate, Cached;
      var s' := Step(s, es[0]).state;
      RetryElimination(s', es[1..], drop[1..]);
      var rest := Pruned(s', es[1..], drop[1..]);
      if drop[0] && IsRetry(s, es[0]) {
        assert Pruned(s, es, drop) == rest;
      } else {
        assert Pruned(s, es, drop) == [es[0]] + rest;
        assert ([es[0]] + rest)[1..] == rest;
      }
    }
  }

  function Reissued(req: Request, actor: string, key: string): Request
    requires IsWrite(req)
  {
    req.(actor := actor, key := key)
  }

  // The same operation asked for with the same fields, whoever asks, under whatever key and, for a single update, why.
  predicate SamePayload(a: Request, b: Request)
    requires IsWrite(a) && IsWrite(b)
  {
    Reissued(if a.UpdateDocument? && b.UpdateDocument? then a.(reason := b.reason) else a, b.actor, b.key) == b
  }

  lemma {:induction false} FingerprintIsPayload(a: Request, b: Request)
    requires IsWrite(a) && IsWrite(b)
    ensures Fingerprinted(a) == Fingerprinted(b) <==> SamePayload(a, b)
  {
  }

  // Event i is the keyed write that ran and filled the cache for key k.
  ghost predicate Originates(es: seq<Event>, i: nat, k: string)
    requires i < |es|
  {
    && IsWrite(es[i].req) && es[i].req.key == k && k != ""
    && Runs(Run(INIT, es[..i]), es[i].req)
  }

  lemma {:induction false} OriginFillsCache(es: seq<Event>, i: nat, j: nat, k: string)
    requires i < j <= |es| && Originates(es, i, k)
    ensures var s, r := Run(INIT, es[..j]), Step(Run(INIT, es[..i]), es[i]).response;
            && r.Returned? && k in s.idem && s.idem[k] == IdemEntry(Fingerprinted(es[i].req), r.err, r.value)
  {
    hide Step, Run, Fingerprinted, Validate;
    StepCache(Run(INIT, es[..i]), es[i]);
    ResponseAt(INIT, es, i);
    assert es[..j] == es[..i + 1] + es[i + 1..j];
    RunConcat(INIT, es[..i + 1], es[i + 1..j]);
    CacheKept(Run(INIT, es[..i + 1]), es[i + 1..j], k);
  }

  /**
   Exactly once: after the write that first used a key, every valid write with that key is a
   retry. It changes nothing; with the same operation and fields, actor and update reason aside,
   it answers exactly what the first call answered, value and error; else it answers a conflict.
   */
  lemma {:induction false} RetryAnswersOriginal(es: seq<Event>, i: nat, j: nat, k: string)
    requires i < j < |es| && Originates(es, i, k)
    requires IsWrite(es[j].req) && es[j].req.key == k && Validate(es[j].req).None?
    ensures IsRetry(Run(INIT, es[..j]), es[j])
    ensures Run(INIT, es[..j + 1]) == Run(INIT, es[..j])
    ensures Responses(INIT, es)[j] ==
            if SamePayload(es[j].req, es[i].req) then Responses(INIT, es)[i]
            else Returned(None, Some(IdempotencyConflict(k)))
  {
    FingerprintIsPayload(es[j].req, es[i].req);
    OriginFillsCache(es, i, j, k);
    RunKeepsTyped(INIT, es[..j]);
    ResponseAt(INIT, es, i);
    ResponseAt(INIT, es, j);
    StepOf(Run(INIT, es[..j]), es[j]);
    assert EntryTyped(Run(INIT, es[..j]).idem[k]);
    hide Execute, Run, Fingerprinted;
  }

  /** The two-call form, from any state: the immediate retry changes nothing and repeats the answer. */
  lemma {:induction false} RetryRepeats(s: State, e1: Event, e2: Event)
    requires IsWrite(e1.req) && e1.req.key != "" && Runs(s, e1.req)
    requires IsWrite(e2.req) && e2.req.key == e1.req.key && Validate(e2.req).None?
    requires SamePayload(e2.req, e1.req)
    ensures Step(Step(s, e1).state, e2) == Result(Step(s, e1).state, Step(s, e1).response)
  {
    FingerprintIsPayload(e2.req, e1.req);
    StepOf(s, e1);
    StepCache(s, e1);
    ExecuteTyped(s, e1.req, e1.now, e1.freshID);
    hide Execute, Fingerprinted;
  }

  /**
   An update retried for another reason by another actor replays: it changes nothing and repeats
   the first answer, so the second reason is never recorded.
   */
  lemma {:induction false} OtherReasonReplays(s: State, e: Event, actor: string, reason: string)
    requires e.req.UpdateDocument? && e.req.key != "" && Runs(s, e.req)
    ensures var retry, r := e.(req := e.req.(actor := actor, reason := reason)), Step(s, e);
            Step(r.state, retry) == r
  {
    RetryRepeats(s, e, e.(req := e.req.(actor := actor, reason := reason)));
    hide Step, Runs, SamePayload;
  }

  /** Every cached key was filled by one write of the run, so the theorem above covers all retries. */
  lemma {:induction false} CachedHasOneOrigin(es: seq<Event>, k: string)
    ensures k in Run(INIT, es).idem <==> exists i: nat :: i < |es| && Originates(es, i, k)
    ensures forall i: nat, j: nat :: i < j < |es| && Originates(es, i, k) ==> !Originates(es, j, k)
  {
    hide Step, Run, Runs, Fingerprinted;
    if k in Run(INIT, es).idem {
      assert es[..|es|] == es;
      var i := FindOrigin(es, |es|, k);
    }
    if i: nat :| i < |es| && Originates(es, i, k) {
      OriginFillsCache(es, i, |es|, k);
      assert es[..|es|] == es;
    }
    forall i: nat, j: nat | i < j < |es| && Originates(es, i, k) ensures !Originates(es, j, k) {
      SecondIsCached(es, i, j, k);
    }
  }

  lemma {:induction false} SecondIsCached(es: seq<Event>, i: nat, j: nat, k: string)
    requires i < j < |es| && Originates(es, i, k)
    ensures !Originates(es, j, k)
  {
    hide Step, Run;
    OriginFillsCache(es, i, j, k);
  }

  lemma {:induction false} FindOrigin(es: seq<Event>, n: nat, k: string) returns (i: nat)
    requires n <= |es| && k in Run(INIT, es[..n]).idem
    ensures i < n && Originates(es, i, k)
    decreases n
  {
    hide Step, Run, Runs, Fingerprinted;
    RunNothing(INIT, es);
    var before := Run(INIT, es[..n - 1]);
    ResponseAt(INIT, es, n - 1);
    StepCache(before, es[n - 1]);
    if k in before.idem {
      i := FindOrigin(es, n - 1, k);
    } else {
      i := n - 1;
    }
  }
}
