/** What can be read at any point of a run is what the calls of the run answered. */
module Account {
  import opened Prelude
  import opened Domain
  import opened Frames
  import opened Keys
  import opened Spec
  import opened Tags

  // ---- Documents ----

  // The last result of an applied batch for the document under k.
  function ResultFor(c: string, items: seq<BatchItem>, results: seq<BatchItemResult>, k: string): Option<Document> {
    if items == [] || results == [] then None
    else
      var later := ResultFor(c, items[1..], results[1..], k);
      if later.Some? then later
      else if DocumentKey(c, items[0].documentID) == k then Some(results[0].document) else None
  }

  // The document that the answer to a call gives for k, if it gives one.
  function AnsweredFor(req: Request, r: Response, k: string): Option<Document> {
    match req
    case CreateDocument(c, _, _, _, _, _, _) =>
      var doc := AnsweredDocument(r);
      if doc.Some? && DocumentKey(c, doc.value.id) == k then doc else None
    case UpdateDocument(c, d, _, _, _, _, _) => if DocumentKey(c, d) == k then AnsweredDocument(r) else None
    case BatchUpdate(c, items, _, _) =>
      var batch := AnsweredBatch(r);
      if batch.Some? then ResultFor(c, items, batch.value.results, k) else None
    case _ => None
  }

  function Latest(answer: Option<Document>, known: Option<Document>): Option<Document> {
    if answer.Some? then answer else known
  }

  // What callers know about the document under k from the answers of the calls that ran.
  function LastAnswer(view: Option<Document>, s: State, es: seq<Event>, k: string): Option<Document>
    decreases |es|
  {
    if es == [] then view
    else
      var r := Step(s, es[0]);
      LastAnswer(if Runs(s, es[0].req) then Latest(AnsweredFor(es[0].req, r.response, k), view) else view,
                 r.state, es[1..], k)
  }

  function Stored(s: State, k: string): Option<Document> {
    if k in s.documents then Some(s.documents[k]) else None
  }

  lemma {:induction false} ApplyAnswers(s: State, c: string, items: seq<BatchItem>, i: nat, actor: string, now: Time,
                                        k: string)
    requires i <= |items| && AllPresent(s, c, items)
    ensures var a := ApplyFrom(s, c, items, i, actor, now);
            Stored(a.state, k) == Latest(ResultFor(c, items[i..], a.results, k), Stored(s, k))
    decreases |items| - i
  {
    hide DocumentKey, NormalizeTags;
    if i < |items| {
      var s1, j := ApplyItem(s, c, items[i], actor, now), DocumentKey(c, items[i].documentID);
      assert Stored(s1, k) == if j == k then Some(s1.documents[j]) else Stored(s, k);
      hide ApplyItem;
      ApplyAnswers(s1, c, items, i + 1, actor, now, k);
      assert items[i..][0] == items[i] && items[i..][1..] == items[i + 1..];
      assert ApplyFrom(s, c, items, i, actor, now).results[1..] == ApplyFrom(s1, c, items, i + 1, actor, now).results;
    }
  }

  lemma {:induction false} BatchAnswers(s: State, c: string, items: seq<BatchItem>, actor: string, key: string,
                                        now: Time, k: string)
    ensures var r := ExecBatch(s, c, items, actor, key, now);
            Stored(r.state, k) == Latest(AnsweredFor(BatchUpdate(c, items, actor, key), r.response, k), Stored(s, k))
  {
    if c in s.collections && Failures(s, c, items) == [] {
      NoFailuresAllPresent(s, c, items, 0, map[]);
      ApplyAnswers(s, c, items, 0, actor, now, k);
      assert items[0..] == items;
    }
    hide Failures, ApplyFrom, Stored;
  }

  lemma {:induction false} WriteAnswers(s: State, req: Request, now: Time, freshID: string, k: string)
    requires req.CreateDocument? || req.UpdateDocument?
    ensures var r := Execute(s, req, now, freshID);
            Stored(r.state, k) == Latest(AnsweredFor(req, r.response, k), Stored(s, k))
  {
    hide DocumentKey, NormalizeTags;
  }

  lemma {:induction false} CallAnswers(s: State, e: Event, k: string)
    requires Runs(s, e.req)
    ensures var r := Step(s, e); Stored(r.state, k) == Latest(AnsweredFor(e.req, r.response, k), Stored(s, k))
  {
    StepOf(s, e);
    if e.req.BatchUpdate? {
      BatchAnswers(s, e.req.collectionID, e.req.items, e.req.actor, e.req.key, e.now, k);
    }
    hide Step, Runs, Fingerprinted;
    if e.req.BatchUpdate? {
      hide ExecBatch, AnsweredFor;
    } else if IsDocumentWrite(e.req) {
      hide Execute, AnsweredFor;
      WriteAnswers(s, e.req, e.now, e.freshID, k);
    } else {
      hide Execute;
      OtherCallsKeep(s, e);
    }
  }

  lemma {:induction false} OtherCallsKeep(s: State, e: Event)
    requires !IsDocumentWrite(e.req)
    ensures Execute(s, e.req, e.now, e.freshID).state.documents == s.documents
  {
    hide Execute;
    if IsLockOp(e.req) {
      LockOpFrame(s, e.req, e.now, e.freshID);
    } else if e.req.RegisterCollection? {
      RegisterFrame(s, e.req, e.now, e.freshID);
    } else {
      ReadFrame(s, e.req, e.now, e.freshID);
    }
  }

  lemma {:induction false} RunAnswers(s: State, es: seq<Event>, k: string)
    ensures Stored(Run(s, es), k) == LastAnswer(Stored(s, k), s, es, k)
    decreases |es|
  {
    hide Step, Runs, AnsweredFor;
    if es != [] {
      StepOf(s, es[0]);
      if Runs(s, es[0].req) {
        CallAnswers(s, es[0], k);
      }
      RunAnswers(Step(s, es[0]).state, es[1..], k);
    }
  }

  /** At any point of a run a read answers the last document that a call which ran answered for that key. */
  lemma {:induction false} DocumentIsLastAnswer(es: seq<Event>, c: string, d: string, now: Time)
    ensures var s, last := Run(INIT, es), LastAnswer(None, INIT, es, DocumentKey(c, d));
            Read(s, GetDocument(c, d), now) ==
            if c !in s.collections then Returned(None, Some(CollectionNotFound))
            else if last.None? then Returned(None, Some(DocumentNotFound))
            else Returned(Some(DocumentValue(last.value)), None)
  {
    RunAnswers(INIT, es, DocumentKey(c, d));
    hide Run, LastAnswer, DocumentKey;
  }

  // ---- Collections ----

  // Call i ran and registered id, or asked to.
  ghost predicate Registers(es: seq<Event>, i: nat, id: string)
    requires i < |es|
  {
    && es[i].req.RegisterCollection? && id == (if es[i].req.id == "" then es[i].freshID else es[i].req.id)
    && Runs(Run(INIT, es[..i]), es[i].req)
  }

  lemma {:induction false} RegisterAnswers(s: State, e: Event, id: string)
    ensures var r := Step(s, e);
            if e.req.RegisterCollection? && id == (if e.req.id == "" then e.freshID else e.req.id) && Runs(s, e.req)
            then
              && id in r.state.collections
              && r.response == Returned(Some(CollectionValue(r.state.collections[id])), None)
            else id in r.state.collections ==> id in s.collections
  {
    StepOf(s, e);
    hide Step, Fingerprinted, Validate, Cached;
    if IsDocumentWrite(e.req) {
      DocumentWriteFrame(s, e.req, e.now, e.freshID);
      hide Execute;
    } else if IsLockOp(e.req) {
      LockOpFrame(s, e.req, e.now, e.freshID);
      hide Execute;
    } else if IsRead(e.req) {
      ReadFrame(s, e.req, e.now, e.freshID);
      hide Execute;
    }
  }

  lemma {:induction false} FindRegistration(es: seq<Event>, n: nat, id: string) returns (i: nat)
    requires n <= |es| && id in Run(INIT, es[..n]).collections
    ensures i < n && Registers(es, i, id)
    decreases n
  {
    hide Step, Run, Runs;
    RunNothing(INIT, es);
    ResponseAt(INIT, es, n - 1);
    RegisterAnswers(Run(INIT, es[..n - 1]), es[n - 1], id);
    if id in Run(INIT, es[..n - 1]).collections {
      i := FindRegistration(es, n - 1, id);
    } else {
      i := n - 1;
    }
  }

  /**
   A collection is known iff a call that ran registered it, and every such call was answered what a
   read gives ever after.
   */
  lemma {:induction false} CollectionIsItsRegistration(es: seq<Event>, id: string, now: Time)
    ensures id in Run(INIT, es).collections <==> exists i: nat :: i < |es| && Registers(es, i, id)
    ensures forall i: nat :: i < |es| && Registers(es, i, id) ==>
              Read(Run(INIT, es), GetCollection(id), now) == Responses(INIT, es)[i]
  {
    assert es[..|es|] == es;
    hide Step, Run, Runs;
    if id in Run(INIT, es).collections {
      var i := FindRegistration(es, |es|, id);
    }
    forall i: nat | i < |es| && Registers(es, i, id)
      ensures id in Run(INIT, es).collections
      ensures Read(Run(INIT, es), GetCollection(id), now) == Responses(INIT, es)[i]
    {
      ResponseAt(INIT, es, i);
      RegisterAnswers(Run(INIT, es[..i]), es[i], id);
      assert es == es[..i + 1] + es[i + 1..];
      RunConcat(INIT, es[..i + 1], es[i + 1..]);
      CollectionsPermanent(Run(INIT, es[..i + 1]), es[i + 1..], id);
    }
  }
}
