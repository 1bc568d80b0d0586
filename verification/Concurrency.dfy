/**
 The single read/write lock under arbitrary interleavings: threads take the lock, work in
 small steps and let go; an applied batch changes one document per step.
 */
module Concurrency {
  import opened Prelude
  import opened Domain
  import opened Frames
  import opened Spec

  type Thread = nat

  datatype Work =
    | Begin
    | Applying(done: nat, results: seq<BatchItemResult>)  // in the apply loop of a batch
    | Finished(response: Response)

  // ticket is the position of the call in lock-acquisition order.
  datatype Status =
    | Waiting(req: Request)
    | Holding(ticket: nat, work: Work)

  datatype Answer = Answer(ticket: nat, response: Response)

  datatype System = System(
    store: State,
    writer: Option<Thread>,
    readers: set<Thread>,
    threads: map<Thread, Status>,
    log: seq<Event>,        // the calls in lock-acquisition order
    answers: seq<Answer>)   // what callers have got back so far

  const START := System(INIT, None, {}, map[], [], [])

  datatype Action =
    | Invoke(t: Thread, req: Request)
    | LockToWrite(t: Thread, now: Time, freshID: string)
    | LockToRead(t: Thread, now: Time)
    | Work(t: Thread)
    | Unlock(t: Thread)

  // Requests that fail validation answer before asking for the lock and are no part of this.
  predicate Enabled(s: System, a: Action) {
    match a
    case Invoke(t, req) => t !in s.threads && Validate(req).None?
    case LockToWrite(t, _, _) =>
      t in s.threads && s.threads[t].Waiting? && !IsRead(s.threads[t].req) && s.writer.None? && s.readers == {}
    case LockToRead(t, _) =>
      t in s.threads && s.threads[t].Waiting? && IsRead(s.threads[t].req) && s.writer.None?
    case Work(t) => t in s.threads && s.threads[t].Holding? && !s.threads[t].work.Finished?
    case Unlock(t) => t in s.threads && s.threads[t].Holding? && s.threads[t].work.Finished?
  }

  // A batch that is going to be applied.
  predicate WillApply(s: State, req: Request) {
    req.BatchUpdate? && Runs(s, req) && req.collectionID in s.collections
      && Failures(s, req.collectionID, req.items) == []
  }

  datatype Progress = Progress(store: State, work: Work)

  // One step of the call e that holds the lock.
  function WorkStep(store: State, e: Event, work: Work): Progress
    requires !work.Finished?
  {
    match work
    case Begin =>
      if WillApply(store, e.req) then Progress(store, Applying(0, []))
      else Progress(Step(store, e).state, Finished(Step(store, e).response))
    case Applying(i, results) =>
      if !e.req.BatchUpdate? || i > |e.req.items| || !AllPresent(store, e.req.collectionID, e.req.items)
        then Progress(store, work)
      else if i == |e.req.items| then
        var r := CloseBatch(store, e, results);
        Progress(r.state, Finished(r.response))
      else
        var it := e.req.items[i];
        var store' := ApplyItem(store, e.req.collectionID, it, e.req.actor, e.now);
        var d := store'.documents[Keys.DocumentKey(e.req.collectionID, it.documentID)];
        Progress(store', Applying(i + 1, results + [BatchItemResult(i, d)]))
  }

  // After the loop: the closing audit event and the deferred cache store.
  function CloseBatch(store: State, e: Event, results: seq<BatchItemResult>): Result
    requires e.req.BatchUpdate?
  {
    var r := FinishBatch(store, e.req.collectionID, e.req.items, results, e.req.actor, e.req.key, e.now);
    Result(Remember(r.state, e.req.key, Fingerprinted(e.req), r.response), r.response)
  }

  function Next(s: System, a: Action): System {
    if !Enabled(s, a) then s
    else match a
      case Invoke(t, req) => s.(threads := s.threads[t := Waiting(req)])
      case LockToWrite(t, now, freshID) =>
        s.(writer := Some(t), threads := s.threads[t := Holding(|s.log|, Begin)],
           log := s.log + [Event(s.threads[t].req, now, freshID)])
      case LockToRead(t, now) =>
        s.(readers := s.readers + {t}, threads := s.threads[t := Holding(|s.log|, Begin)],
           log := s.log + [Event(s.threads[t].req, now, "")])
      case Work(t) =>
        var p := s.threads[t].ticket;
        if p >= |s.log| then s
        else
          var w := WorkStep(s.store, s.log[p], s.threads[t].work);
          s.(store := w.store, threads := s.threads[t := Holding(p, w.work)])
      case Unlock(t) =>
        s.(writer := if s.writer == Some(t) then None else s.writer,
           readers := s.readers - {t}, threads := s.threads - {t},
           answers := s.answers + [Answer(s.threads[t].ticket, s.threads[t].work.response)])
  }

  function Execution(s: System, actions: seq<Action>): System
    decreases |actions|
  {
    if actions == [] then s else Execution(Next(s, actions[0]), actions[1..])
  }

  // ---- The invariant ----

  // What finishing the apply loop from here would give.
  function Outcome(store: State, e: Event, i: nat, results: seq<BatchItemResult>): Result
    requires e.req.BatchUpdate? && i <= |e.req.items| && AllPresent(store, e.req.collectionID, e.req.items)
  {
    var applied := ApplyFrom(store, e.req.collectionID, e.req.items, i, e.req.actor, e.now);
    CloseBatch(applied.state, e, results + applied.results)
  }

  // The work left leads from the store as it is to what the whole call does to the store before it.
  ghost predicate OnCourse(before: State, store: State, e: Event, work: Work) {
    match work
    case Begin => store == before
    case Applying(i, results) =>
      && e.req.BatchUpdate? && i <= |e.req.items| && AllPresent(store, e.req.collectionID, e.req.items)
      && Outcome(store, e, i, results) == Step(before, e)
    case Finished(r) => Result(store, r) == Step(before, e)
  }

  ghost predicate WriterOnCourse(s: System, t: Thread) {
    && t in s.threads && s.threads[t].Holding? && s.readers == {}
    && s.log != [] && s.threads[t].ticket == |s.log| - 1
    && OnCourse(Run(INIT, s.log[..|s.log| - 1]), s.store, s.log[|s.log| - 1], s.threads[t].work)
  }

  ghost predicate ReaderOnCourse(s: System, t: Thread) {
    && t in s.threads && s.threads[t].Holding? && s.threads[t].ticket < |s.log|
    && var p := s.threads[t].ticket;
    && IsRead(s.log[p].req) && Run(INIT, s.log[..p]) == s.store
    && OnCourse(s.store, s.store, s.log[p], s.threads[t].work)
  }

  ghost predicate Inv(s: System) {
    && (s.writer.None? ==> s.store == Run(INIT, s.log))
    && (s.writer.Some? ==> WriterOnCourse(s, s.writer.value))
    && (forall t :: t in s.readers ==> ReaderOnCourse(s, t))
    && (forall t :: t in s.threads && s.threads[t].Holding? ==> t in s.readers || s.writer == Some(t))
    && (forall t :: t in s.threads && s.threads[t].Waiting? ==> Validate(s.threads[t].req).None?)
    && (forall j :: 0 <= j < |s.answers| ==>
          s.answers[j].ticket < |s.log| && s.answers[j].response == Responses(INIT, s.log)[s.answers[j].ticket])
  }

  // ---- Every step keeps it ----

  lemma {:induction false} LogGrows(log: seq<Event>, e: Event)
    ensures Run(INIT, log + [e]) == Step(Run(INIT, log), e).state
    ensures Responses(INIT, log + [e]) == Responses(INIT, log) + [Step(Run(INIT, log), e).response]
  {
    hide Step;
    RunConcat(INIT, log, [e]);
    assert [e][1..] == [];
  }

  lemma {:induction false} ReadChangesNothing(s: State, e: Event)
    requires IsRead(e.req)
    ensures Step(s, e).state == s
  {
    StepOf(s, e);
    hide Step;
    ReadFrame(s, e.req, e.now, e.freshID);
    hide Execute;
  }

  lemma {:induction false} BatchIsItsOutcome(store: State, e: Event)
    requires WillApply(store, e.req)
    ensures AllPresent(store, e.req.collectionID, e.req.items)
    ensures Outcome(store, e, 0, []) == Step(store, e)
  {
    NoFailuresAllPresent(store, e.req.collectionID, e.req.items, 0, map[]);
    hide Fingerprinted, Failures;
    var applied := ApplyFrom(store, e.req.collectionID, e.req.items, 0, e.req.actor, e.now);
    assert [] + applied.results == applied.results;
  }

  lemma {:induction false} ItemKeepsOutcome(store: State, e: Event, i: nat, results: seq<BatchItemResult>)
    requires e.req.BatchUpdate? && i < |e.req.items| && AllPresent(store, e.req.collectionID, e.req.items)
    ensures var w := WorkStep(store, e, Applying(i, results));
            && w.work.Applying? && w.work.done == i + 1
            && AllPresent(w.store, e.req.collectionID, e.req.items)
            && Outcome(w.store, e, i + 1, w.work.results) == Outcome(store, e, i, results)
  {
    hide Fingerprinted, Tags.NormalizeTags, Keys.DocumentKey;
    var w := WorkStep(store, e, Applying(i, results));
    var rest := ApplyFrom(w.store, e.req.collectionID, e.req.items, i + 1, e.req.actor, e.now).results;
    var all := ApplyFrom(store, e.req.collectionID, e.req.items, i, e.req.actor, e.now).results;
    assert w.work.results + rest == results + all;
  }

  /** A step of work stays on course, whatever the interleaving. */
  lemma {:induction false} WorkStaysOnCourse(before: State, store: State, e: Event, work: Work)
    requires OnCourse(before, store, e, work) && !work.Finished?
    ensures var w := WorkStep(store, e, work); OnCourse(before, w.store, e, w.work)
  {
    match work
    case Begin =>
      if WillApply(store, e.req) {
        BatchIsItsOutcome(store, e);
      }
      hide Step, Outcome;
    case Applying(i, results) =>
      if i < |e.req.items| {
        ItemKeepsOutcome(store, e, i, results);
        hide WorkStep, Outcome, Step;
      } else {
        hide Step;
        var applied := ApplyFrom(store, e.req.collectionID, e.req.items, i, e.req.actor, e.now);
        assert results + applied.results == results;
      }
  }

  // How many more steps of work the call e needs at most.
  function StepsLeft(e: Event, work: Work): int {
    match work
    case Begin => if e.req.BatchUpdate? then |e.req.items| + 2 else 1
    case Applying(i, _) => if e.req.BatchUpdate? then |e.req.items| - i + 1 else 0
    case Finished(_) => 0
  }

  /** Work on course never stalls: each step brings the call closer to its answer. */
  lemma {:induction false} WorkProgresses(before: State, store: State, e: Event, work: Work)
    requires OnCourse(before, store, e, work) && !work.Finished?
    ensures 0 <= StepsLeft(e, WorkStep(store, e, work).work) < StepsLeft(e, work)
  {
    hide Step, Outcome, WillApply, ApplyItem, CloseBatch;
  }

  lemma {:induction false} ReadStaysOnCourse(store: State, e: Event, work: Work)
    requires OnCourse(store, store, e, work) && !work.Finished? && IsRead(e.req)
    ensures WorkStep(store, e, work).store == store
    ensures OnCourse(store, store, e, WorkStep(store, e, work).work)
  {
    ReadChangesNothing(store, e);
    hide Step;
  }

  lemma {:induction false} InvokeKeeps(s: System, t: Thread, req: Request)
    requires Inv(s)
    ensures Inv(Next(s, Invoke(t, req)))
  {
    hide OnCourse, Validate, Run, Responses;
    var s' := Next(s, Invoke(t, req));
    forall x | x in s'.readers ensures ReaderOnCourse(s', x) {
      assert ReaderOnCourse(s, x);
    }
  }

  lemma {:induction false} LockToWriteKeeps(s: System, t: Thread, now: Time, freshID: string)
    requires Inv(s)
    ensures Inv(Next(s, LockToWrite(t, now, freshID)))
  {
    hide Validate, Step, Run;
    if Enabled(s, LockToWrite(t, now, freshID)) {
      LogGrows(s.log, Event(s.threads[t].req, now, freshID));
      hide Responses;
    }
  }

  lemma {:induction false} LockToReadKeeps(s: System, t: Thread, now: Time)
    requires Inv(s)
    ensures Inv(Next(s, LockToRead(t, now)))
  {
    hide Validate, Step, Run, OnCourse;
    if Enabled(s, LockToRead(t, now)) {
      var s', e := Next(s, LockToRead(t, now)), Event(s.threads[t].req, now, "");
      LogGrows(s.log, e);
      ReadChangesNothing(Run(INIT, s.log), e);
      assert OnCourse(s.store, s.store, e, Begin) by {
        BeginOnCourse(s.store, e);
      }
      forall x | x in s'.readers ensures ReaderOnCourse(s', x) {
        if x != t {
          assert ReaderOnCourse(s, x);
          assert s'.log[..s.threads[x].ticket] == s.log[..s.threads[x].ticket];
        } else {
          assert s'.log[..|s.log|] == s.log;
        }
      }
      hide Responses;
    }
  }

  lemma {:induction false} BeginOnCourse(store: State, e: Event)
    ensures OnCourse(store, store, e, Begin)
  {
  }

  lemma {:induction false} WorkKeeps(s: System, t: Thread)
    requires Inv(s)
    ensures Inv(Next(s, Action.Work(t)))
  {
    hide Validate, Step, Run, OnCourse, WorkStep;
    if Enabled(s, Action.Work(t)) {
      var s' := Next(s, Action.Work(t));
      if t in s.readers {
        assert ReaderOnCourse(s, t);
        ReadStaysOnCourse(s.store, s.log[s.threads[t].ticket], s.threads[t].work);
        forall x | x in s'.readers ensures ReaderOnCourse(s', x) {
          assert ReaderOnCourse(s, x);
        }
      } else {
        assert WriterOnCourse(s, t);
        WorkStaysOnCourse(Run(INIT, s.log[..|s.log| - 1]), s.store, s.log[|s.log| - 1], s.threads[t].work);
        assert WriterOnCourse(s', t);
      }
      hide Responses;
    }
  }

  lemma {:induction false} AnswerIsSequential(s: System, t: Thread)
    requires Inv(s) && Enabled(s, Unlock(t))
    ensures s.threads[t].ticket < |s.log|
    ensures s.threads[t].work.response == Responses(INIT, s.log)[s.threads[t].ticket]
    ensures s.store == Run(INIT, s.log)
  {
    hide Validate, Step, Run;
    var p := s.threads[t].ticket;
    if t in s.readers {
      assert ReaderOnCourse(s, t);
    } else {
      assert WriterOnCourse(s, t);
      assert s.log[..|s.log|] == s.log;
    }
    ResponseAt(INIT, s.log, p);
    hide Responses;
  }

  lemma {:induction false} UnlockKeeps(s: System, t: Thread)
    requires Inv(s)
    ensures Inv(Next(s, Unlock(t)))
  {
    hide Validate, Step, Run, Responses, OnCourse;
    if Enabled(s, Unlock(t)) {
      AnswerIsSequential(s, t);
      var s' := Next(s, Unlock(t));
      forall x | x in s'.readers ensures ReaderOnCourse(s', x) {
        assert ReaderOnCourse(s, x);
      }
    }
  }

  lemma {:induction false} NextKeeps(s: System, a: Action)
    requires Inv(s)
    ensures Inv(Next(s, a))
  {
    hide Inv, Next;
    match a
    case Invoke(t, req) => InvokeKeeps(s, t, req);
    case LockToWrite(t, now, freshID) => LockToWriteKeeps(s, t, now, freshID);
    case LockToRead(t, now) => LockToReadKeeps(s, t, now);
    case Work(t) => WorkKeeps(s, t);
    case Unlock(t) => UnlockKeeps(s, t);
  }

  lemma {:induction false} ExecutionKeeps(s: System, actions: seq<Action>)
    requires Inv(s)
    ensures Inv(Execution(s, actions))
    decreases |actions|
  {
    hide Inv, Next;
    if actions != [] {
      NextKeeps(s, actions[0]);
      ExecutionKeeps(Next(s, actions[0]), actions[1..]);
    }
  }

  /**
   Every interleaving is equivalent to the sequential run of its calls in lock-acquisition
   order: all answers are that run's answers, and with no writer inside the store is its state.
   */
  lemma {:induction false} Serializable(actions: seq<Action>)
    ensures var s := Execution(START, actions);
            && (forall j :: 0 <= j < |s.answers| ==>
                  && s.answers[j].ticket < |s.log|
                  && s.answers[j].response == Responses(INIT, s.log)[s.answers[j].ticket])
            && (s.writer.None? ==> s.store == Run(INIT, s.log))
  {
    assert Inv(START);
    ExecutionKeeps(START, actions);
    hide Execution, Run, Responses, ReaderOnCourse, WriterOnCourse, Validate;
  }

  /** A reader inside always faces the state between two whole calls: no batch is half applied. */
  lemma {:induction false} ReadersSeeWholeBatches(actions: seq<Action>, t: Thread)
    requires t in Execution(START, actions).readers
    ensures var s := Execution(START, actions);
            && s.writer.None? && t in s.threads && s.threads[t].Holding? && s.threads[t].ticket < |s.log|
            && s.store == Run(INIT, s.log[..s.threads[t].ticket]) == Run(INIT, s.log)
  {
    assert Inv(START);
    ExecutionKeeps(START, actions);
    assert ReaderOnCourse(Execution(START, actions), t);
    hide Execution, Run, Responses, OnCourse, Validate;
  }

  /** The order respects real time: a call that takes the lock comes after every call already answered. */
  lemma {:induction false} AnsweredCallsComeFirst(actions: seq<Action>, a: Action)
    requires a.LockToWrite? || a.LockToRead?
    requires Enabled(Execution(START, actions), a)
    ensures var s, s' := Execution(START, actions), Next(Execution(START, actions), a);
            && s'.threads[a.t].Holding?
            && forall j :: 0 <= j < |s.answers| ==> s.answers[j].ticket < s'.threads[a.t].ticket
  {
    Serializable(actions);
    hide Execution, Run, Responses, Validate;
  }
}
