/**
 What callers of the batcher can rely on, in every run: where a request is at any
 moment, how often it is sent, and whose answer a caller is given.
 */
module Custody {
  import opened Wire
  import opened Produce
  import opened Merging
  import opened Batcher

  predicate Queued(s: State, id: Id) {
    id in Ids(s.pending)
  }

  ghost predicate InFlight(s: State, id: Id) {
    exists k :: InCall(s.calls, k, id) && s.calls[k].outcome.Open?
  }

  predicate AnswerWaits(s: State, id: Id) {
    id in s.responses && s.responses[id].Response?
  }

  predicate Returned(s: State, id: Id) {
    id in s.tasks && s.tasks[id].phase.Done?
  }

  ghost predicate CoversSome(request: ProduceRequest, reply: ProduceResponse) {
    exists t :: Names(request, t) && Covers(reply, t)
  }

  /** The call failed, or its reply covers nothing that the request names. */
  ghost predicate Unanswered(request: ProduceRequest, outcome: Outcome) {
    outcome.Broken? || (outcome.Replied? && !CoversSome(request, outcome.reply))
  }

  ghost predicate Dropped(s: State, id: Id)
    requires id in s.tasks
  {
    exists k :: InCall(s.calls, k, id) && Unanswered(s.tasks[id].request, s.calls[k].outcome)
  }

  function Count(b: bool): nat {
    if b then 1 else 0
  }

  lemma RequestOf(setup: Setup, s: State, k: nat, id: Id) returns (r: BatchRequest)
    requires Inv(setup, s) && InCall(s.calls, k, id)
    ensures id in s.tasks && r == BatchRequest(id, s.tasks[id].request) && r in s.calls[k].batch
    ensures DistinctIds(s.calls[k].batch)
  {
    assert Genuine(s.tasks, s.calls[k].batch);
    r :| r in s.calls[k].batch && r.id == id;
  }

  /** Whoever is in a call is answered exactly when the reply covers something they named. */
  lemma AnsweredIffCovered(setup: Setup, s: State, k: nat, id: Id)
    requires Inv(setup, s) && InCall(s.calls, k, id)
    ensures id in s.tasks
    ensures id in Answers(s.calls[k]) <==>
      !s.calls[k].outcome.Open? && !Unanswered(s.tasks[id].request, s.calls[k].outcome)
    ensures id in Answers(s.calls[k]) ==> Fair(Answers(s.calls[k])[id], s.tasks[id].request, s.calls[k].outcome.reply)
  {
    var r := RequestOf(setup, s, k, id);
    AnswersOfCall(s.calls[k], r);
  }

  lemma {:induction false} AnswersOfCall(call: Call, r: BatchRequest)
    requires DistinctIds(call.batch) && r in call.batch
    ensures r.id in Answers(call) <==> !call.outcome.Open? && !Unanswered(r.request, call.outcome)
    ensures r.id in Answers(call) ==> Fair(Answers(call)[r.id], r.request, call.outcome.reply)
  {
    if call.outcome.Replied? {
      RepliedAnswers(call);
      ShareOfReply(call.batch, r, call.outcome.reply);
    }
  }

  lemma {:induction false} RepliedAnswers(call: Call)
    requires call.outcome.Replied?
    ensures Answers(call) == Split(Owners(Claims(call.batch)), call.outcome.reply)
  {
  }

  lemma {:induction false} ShareOfReply(batch: seq<BatchRequest>, r: BatchRequest, reply: ProduceResponse)
    requires DistinctIds(batch) && r in batch
    ensures
      var answers := Split(Owners(Claims(batch)), reply);
      (r.id in answers <==> CoversSome(r.request, reply)) && (r.id in answers ==> Fair(answers[r.id], r.request, reply))
  {
    MergeThenSplit(batch, r, reply);
  }

  /** An answer, in the map or returned, is held exactly when the call that carried the request gave one. */
  lemma HeldIffAnswered(setup: Setup, s: State, id: Id, k: nat)
    requires Inv(setup, s) && InCall(s.calls, k, id)
    ensures AnswerWaits(s, id) || Returned(s, id) <==> id in Answers(s.calls[k])
    ensures !(AnswerWaits(s, id) && Returned(s, id))
  {
    var r := RequestOf(setup, s, k, id);
    if id in Answers(s.calls[k]) {
      var a := Answers(s.calls[k])[id];
      assert AnsweredBy(s.calls[k], id, a);
      assert Given(s.calls, id, a);
      assert Holds(s, id, a);
    }
    if AnswerWaits(s, id) {
      assert Holds(s, id, s.responses[id].answer);
      HeldComesFrom(setup, s, id, k, s.responses[id].answer);
    }
    if Returned(s, id) {
      assert Holds(s, id, s.tasks[id].phase.answer);
      HeldComesFrom(setup, s, id, k, s.tasks[id].phase.answer);
    }
  }

  lemma HeldComesFrom(setup: Setup, s: State, id: Id, k: nat, a: Answer)
    requires Inv(setup, s) && InCall(s.calls, k, id) && Holds(s, id, a)
    ensures AnsweredBy(s.calls[k], id, a)
  {
    var j :| 0 <= j < |s.calls| && AnsweredBy(s.calls[j], id, a);
    AnswersInBatch(s.calls[j], id);
    assert InCall(s.calls, j, id);
  }

  lemma HeldWasSent(setup: Setup, s: State, id: Id, a: Answer)
    requires Inv(setup, s) && Holds(s, id, a)
    ensures Sent(s.calls, id)
  {
    var j :| 0 <= j < |s.calls| && AnsweredBy(s.calls[j], id, a);
    AnswersInBatch(s.calls[j], id);
    assert InCall(s.calls, j, id);
  }

  lemma QueuedIsUnanswered(setup: Setup, s: State, id: Id)
    requires Inv(setup, s) && Queued(s, id)
    ensures !Sent(s.calls, id) && !AnswerWaits(s, id) && !Returned(s, id)
  {
    forall a ensures !Holds(s, id, a) {
      if Holds(s, id, a) {
        HeldWasSent(setup, s, id, a);
      }
    }
    assert AnswerWaits(s, id) ==> Holds(s, id, s.responses[id].answer);
    assert Returned(s, id) ==> Holds(s, id, s.tasks[id].phase.answer);
  }

  /** The fate of a request that was sent is the fate of the one call that carried it. */
  lemma FateOfSent(setup: Setup, s: State, id: Id, k: nat)
    requires Inv(setup, s) && InCall(s.calls, k, id)
    ensures id in s.tasks && !Queued(s, id)
    ensures InFlight(s, id) <==> s.calls[k].outcome.Open?
    ensures Dropped(s, id) <==> Unanswered(s.tasks[id].request, s.calls[k].outcome)
  {
    var r := RequestOf(setup, s, k, id);
    assert forall j :: InCall(s.calls, j, id) ==> j == k;
    assert Sent(s.calls, id);
  }

  /** Every accepted request is in exactly one place. */
  lemma ExactlyOnePlace(setup: Setup, s: State, id: Id)
    requires Inv(setup, s) && id in s.tasks
    ensures Count(Queued(s, id)) + Count(InFlight(s, id)) + Count(AnswerWaits(s, id)) + Count(Returned(s, id)) +
      Count(Dropped(s, id)) == 1
  {
    if Queued(s, id) {
      QueuedIsUnanswered(setup, s, id);
      assert forall k :: !InCall(s.calls, k, id);
    } else {
      assert Sent(s.calls, id);
      var k :| InCall(s.calls, k, id);
      FateOfSent(setup, s, id, k);
      AnsweredIffCovered(setup, s, k, id);
      HeldIffAnswered(setup, s, id, k);
    }
  }

  /**
   Custody: in every run, a request is in one place, is sent at most once, and what is sent is the
   merge of its batch.
   */
  lemma CustodyInEveryRun(setup: Setup, steps: seq<Step>, id: Id)
    requires After(setup, steps).Some? && id in After(setup, steps).value.tasks
    ensures
      var s := After(setup, steps).value;
      && Count(Queued(s, id)) + Count(InFlight(s, id)) + Count(AnswerWaits(s, id)) + Count(Returned(s, id)) +
        Count(Dropped(s, id)) == 1
      && (forall j, k :: InCall(s.calls, j, id) && InCall(s.calls, k, id) ==> j == k)
      && (forall k {:trigger s.calls[k]} :: 0 <= k < |s.calls| ==>
        s.calls[k].sent == Merge(setup.codec, s.calls[k].batch))
  {
    RunKeeps(setup, steps);
    ExactlyOnePlace(setup, After(setup, steps).value, id);
  }

  // ---- answers stay put

  /** Calls are added or closed, and a closed call does not change. */
  ghost predicate CallsProgress(before: seq<Call>, after: seq<Call>) {
    |before| <= |after| && forall k {:trigger before[k]} {:trigger after[k]} :: 0 <= k < |before| ==>
      after[k].batch == before[k].batch && (!before[k].outcome.Open? ==> after[k] == before[k])
  }

  lemma StepProgresses(setup: Setup, s: State, step: Step)
    requires Driven(s) && Enabled(s, step)
    ensures CallsProgress(s.calls, Next(setup, s, step).calls)
    ensures Grows(s.tasks, Next(setup, s, step).tasks)
  {
    if step.Reply? || step.Fail? {
      assert Drives(s.tasks, step.id, s.tasks[step.id].phase.call);
    }
  }

  lemma GivenStays(before: seq<Call>, after: seq<Call>, id: Id, a: Answer)
    requires CallsProgress(before, after) && Given(before, id, a)
    ensures Given(after, id, a)
  {
    var k :| 0 <= k < |before| && AnsweredBy(before[k], id, a);
    assert after[k] == before[k];
  }

  /** A reply leaves alone the slots of those it does not answer. */
  lemma ReplySpares(setup: Setup, s: State, id: Id, reply: ProduceResponse, other: Id)
    requires Enabled(s, Reply(id, reply)) && other in s.responses
    requires other !in Answers(Next(setup, s, Reply(id, reply)).calls[s.tasks[id].phase.call])
    ensures
      var n := Next(setup, s, Reply(id, reply));
      other in n.responses && n.responses[other] == s.responses[other]
  {
  }

  /** A stored answer is never overwritten, and only its own ticket takes it out, to return it. */
  lemma StoredAnswerKept(setup: Setup, s: State, step: Step, id: Id)
    requires Inv(setup, s) && Enabled(s, step) && AnswerWaits(s, id)
    ensures
      var n := Next(setup, s, step);
      if step == Poll(id) then At(n, id, Done(s.responses[id].answer)) && id !in n.responses
      else id in n.responses && n.responses[id] == s.responses[id]
  {
    if step.Reply? {
      if id in Answers(Next(setup, s, step).calls[s.tasks[step.id].phase.call]) {
        ReplyFindsWaiting(setup, s, step.id, step.reply, id);
        assert false;
      }
      ReplySpares(setup, s, step.id, step.reply, id);
    } else {
      OthersSpare(setup, s, step, id);
    }
  }

  lemma OthersSpare(setup: Setup, s: State, step: Step, id: Id)
    requires Enabled(s, step) && AnswerWaits(s, id) && !step.Reply?
    ensures
      var n := Next(setup, s, step);
      if step == Poll(id) then At(n, id, Done(s.responses[id].answer)) && id !in n.responses
      else id in n.responses && n.responses[id] == s.responses[id]
  {
  }

  lemma StepLeavesDropped(setup: Setup, s: State, step: Step, id: Id)
    requires Inv(setup, s) && Enabled(s, step) && id in s.tasks && Dropped(s, id)
    ensures id in Next(setup, s, step).tasks && Dropped(Next(setup, s, step), id)
  {
    var n := Next(setup, s, step);
    var k :| InCall(s.calls, k, id) && Unanswered(s.tasks[id].request, s.calls[k].outcome);
    StepProgresses(setup, s, step);
    assert n.calls[k] == s.calls[k];
    assert InCall(n.calls, k, id);
  }

  /** However the run goes on, whoever is dropped stays dropped: no later reply can reach them. */
  lemma {:induction false} DroppedForGood(setup: Setup, steps: seq<Step>, more: seq<Step>, id: Id)
    requires After(setup, steps + more).Some? && After(setup, steps).Some?
    requires id in After(setup, steps).value.tasks && Dropped(After(setup, steps).value, id)
    ensures id in After(setup, steps + more).value.tasks && Dropped(After(setup, steps + more).value, id)
    decreases |more|
  {
    if more == [] {
      assert steps + more == steps;
    } else {
      var front := more[..|more| - 1];
      RunSteps(setup, steps, more);
      DroppedForGood(setup, steps, front, id);
      StepLeavesDropped(setup, After(setup, steps + front).value, more[|more| - 1], id);
    }
  }

  lemma StepLeavesAnswer(setup: Setup, s: State, step: Step, id: Id, a: Answer)
    requires Inv(setup, s) && Enabled(s, step) && Holds(s, id, a)
    ensures Holds(Next(setup, s, step), id, a)
  {
    var n := Next(setup, s, step);
    StepProgresses(setup, s, step);
    StepKeeps(setup, s, step);
    assert Given(s.calls, id, a);
    GivenStays(s.calls, n.calls, id, a);
  }

  /** One more step of a longer run. */
  lemma {:induction false} RunSteps(setup: Setup, steps: seq<Step>, more: seq<Step>)
    requires more != [] && After(setup, steps + more).Some?
    ensures
      var before, last := After(setup, steps + more[..|more| - 1]), more[|more| - 1];
      && before.Some? && Inv(setup, before.value) && Enabled(before.value, last)
      && After(setup, steps + more) == Some(Next(setup, before.value, last))
  {
    AllButLast(steps, more);
    RunKeeps(setup, steps + more[..|more| - 1]);
  }

  /** However the run goes on, an answer once given is still there or with its caller. */
  lemma {:induction false} AnswerStays(setup: Setup, steps: seq<Step>, more: seq<Step>, id: Id, a: Answer)
    requires After(setup, steps + more).Some? && After(setup, steps).Some? && Holds(After(setup, steps).value, id, a)
    ensures Holds(After(setup, steps + more).value, id, a)
    decreases |more|
  {
    if more == [] {
      assert steps + more == steps;
    } else {
      var front := more[..|more| - 1];
      RunSteps(setup, steps, more);
      AnswerStays(setup, steps, front, id, a);
      StepLeavesAnswer(setup, After(setup, steps + front).value, more[|more| - 1], id, a);
    }
  }

  // ---- order of arrival

  /** The requests that were handed in, in order. */
  function HandedIn(steps: seq<Step>): seq<BatchRequest> {
    if steps == [] then []
    else
      var last := steps[|steps| - 1];
      HandedIn(steps[..|steps| - 1]) + if last.Enqueue? then [BatchRequest(last.id, last.request)] else []
  }

  /** The requests that were sent on, call after call. */
  function SentOn(calls: seq<Call>): seq<BatchRequest> {
    if calls == [] then [] else SentOn(calls[..|calls| - 1]) + calls[|calls| - 1].batch
  }

  lemma {:induction false} ClosingKeepsBatches(before: seq<Call>, after: seq<Call>)
    requires |before| == |after| && forall k :: 0 <= k < |before| ==> before[k].batch == after[k].batch
    ensures SentOn(before) == SentOn(after)
  {
    if before != [] {
      ClosingKeepsBatches(before[..|before| - 1], after[..|after| - 1]);
    }
  }

  lemma {:induction false} SentOnGrows(calls: seq<Call>, call: Call)
    ensures SentOn(calls + [call]) == SentOn(calls) + call.batch
  {
    AllButLast(calls, [call]);
  }

  /** What a step does to the queue and to the batches of the calls. */
  lemma StepMoves(setup: Setup, s: State, step: Step)
    requires Enabled(s, step)
    ensures
      var n := Next(setup, s, step);
      && (step.Enqueue? ==> n.pending == s.pending + [BatchRequest(step.id, step.request)] && n.calls == s.calls)
      && (step.Drain? && s.pending != [] ==>
            n.pending == [] && exists call :: n.calls == s.calls + [call] && call.batch == s.pending)
      && (!step.Enqueue? && !(step.Drain? && s.pending != []) ==>
            && n.pending == s.pending && |n.calls| == |s.calls|
            && forall k :: 0 <= k < |s.calls| ==> s.calls[k].batch == n.calls[k].batch)
  {
  }

  lemma {:induction false} StepKeepsOrder(setup: Setup, s: State, step: Step)
    requires Enabled(s, step)
    ensures
      var n := Next(setup, s, step);
      SentOn(n.calls) + n.pending ==
      SentOn(s.calls) + s.pending + if step.Enqueue? then [BatchRequest(step.id, step.request)] else []
  {
    var n := Next(setup, s, step);
    StepMoves(setup, s, step);
    if step.Enqueue? {
      Associate(SentOn(s.calls), s.pending, [BatchRequest(step.id, step.request)]);
    } else if step.Drain? && s.pending != [] {
      var call :| n.calls == s.calls + [call] && call.batch == s.pending;
      SentOnGrows(s.calls, call);
    } else {
      ClosingKeepsBatches(s.calls, n.calls);
    }
  }

  /** In every run, what was sent on and what still waits is what was handed in, in that order. */
  lemma {:induction false} ArrivalOrderKept(setup: Setup, steps: seq<Step>)
    requires After(setup, steps).Some?
    ensures
      var s := After(setup, steps).value;
      SentOn(s.calls) + s.pending == HandedIn(steps)
  {
    if steps != [] {
      var front, last := steps[..|steps| - 1], steps[|steps| - 1];
      ArrivalOrderKept(setup, front);
      StepKeepsOrder(setup, After(setup, front).value, last);
    }
  }

  /** Left without an answer, a task waits for one if it sent the batch on overflow, and starts over if on a timeout. */
  lemma SenderGoesOn(setup: Setup, s: State, id: Id, step: Step)
    requires Enabled(s, step) && (step == Drain(id) || step == Fail(id) || (step.Reply? && step.id == id))
    ensures
      var n, overflow := Next(setup, s, step), s.tasks[id].phase.overflow;
      && (step.Drain? && s.pending == [] ==> At(n, id, if overflow then Waiting else Checking))
      && (step.Drain? && s.pending != [] ==> At(n, id, Calling(|s.calls|, overflow)))
      && (step.Fail? ==> At(n, id, if overflow then Waiting else Checking))
      && (step.Reply? ==> At(n, id, if overflow then Waiting else Checking) || Returned(n, id))
  {
  }

  /** A task whose wait timed out drains the queue, whatever is in it. */
  lemma TimeoutDrains(setup: Setup, s: State, id: Id)
    requires At(s, id, Waiting)
    ensures At(Next(setup, s, Expire(id)), id, Draining(false))
    ensures Next(setup, s, Expire(id)).pending == s.pending
  {
  }

  // ---- delivery

  /** A task stands for the request its caller handed in. */
  lemma {:induction false} AcceptedRequest(setup: Setup, steps: seq<Step>, id: Id)
    requires After(setup, steps).Some? && id in After(setup, steps).value.tasks
    ensures Enqueue(id, After(setup, steps).value.tasks[id].request) in steps
  {
    var front, last := steps[..|steps| - 1], steps[|steps| - 1];
    var s := After(setup, front).value;
    assert forall step :: step in front ==> step in steps;
    if id in s.tasks {
      AcceptedRequest(setup, front, id);
    } else {
      assert last.Enqueue? && last.id == id;
    }
  }

  /**
   Delivery: what a caller is given is, for the request it handed in, the split of the
   reply to the one call that carried it, whatever the order of polls, timeouts and drains.
   */
  lemma DeliveryInEveryRun(setup: Setup, steps: seq<Step>, id: Id, a: Answer) returns (k: nat)
    requires After(setup, steps).Some? && At(After(setup, steps).value, id, Done(a))
    ensures
      var s := After(setup, steps).value;
      && Enqueue(id, s.tasks[id].request) in steps
      && InCall(s.calls, k, id) && (forall j :: InCall(s.calls, j, id) ==> j == k)
      && s.calls[k].outcome.Replied?
      && Fair(a, s.tasks[id].request, s.calls[k].outcome.reply)
  {
    var s := After(setup, steps).value;
    RunKeeps(setup, steps);
    AcceptedRequest(setup, steps, id);
    assert Holds(s, id, a);
    k :| 0 <= k < |s.calls| && AnsweredBy(s.calls[k], id, a);
    AnswersInBatch(s.calls[k], id);
    assert InCall(s.calls, k, id);
    AnsweredIffCovered(setup, s, k, id);
  }

  // ---- the places are reached

  /** A request for one topic partition, without records, and a reply that covers it. */
  function Naming(t: Topition): ProduceRequest {
    ProduceRequest(Some([TopicData(t.topic, Some([PartitionData(t.partition, None)]))]))
  }

  function Covering(t: Topition): ProduceResponse {
    ProduceResponse(Some([TopicReply(t.topic, Some([Entry(t.partition, 0, 0, 0)]))]), 0, None)
  }

  lemma NamingAndCovering(t: Topition)
    ensures Names(Naming(t), t) && Covers(Covering(t), t)
  {
    var topic := TopicData(t.topic, Some([PartitionData(t.partition, None)]));
    var reply := TopicReply(t.topic, Some([Entry(t.partition, 0, 0, 0)]));
    assert topic in OrEmpty(Naming(t).topics) && PartitionData(t.partition, None) in OrEmpty(topic.partitions);
    assert reply in OrEmpty(Covering(t).topics) && Entry(t.partition, 0, 0, 0) in OrEmpty(reply.partitions);
  }

  lemma {:induction false} OneMoreStep(setup: Setup, steps: seq<Step>, step: Step)
    requires After(setup, steps).Some? && Enabled(After(setup, steps).value, step)
    ensures After(setup, steps + [step]) == Some(Next(setup, After(setup, steps).value, step))
  {
    AllButLast(steps, [step]);
  }

  function Pair(t: Topition): seq<BatchRequest> {
    [BatchRequest(0, Naming(t)), BatchRequest(1, Naming(t))]
  }

  /** Two callers queue, the first finds the queue full and sends both. */
  function Sending(t: Topition): seq<Step> {
    [Enqueue(0, Naming(t))] + [Enqueue(1, Naming(t))] + [Check(0, 0)] + [Drain(0)]
  }

  function WithOrigin(setup: Setup, t: Topition): State {
    State([], map[], map[0 := Task(Naming(t), Calling(0, true)), 1 := Task(Naming(t), Checking)],
          [Call(Pair(t), Merge(setup.codec, Pair(t)), Open)])
  }

  function WithQueue(t: Topition, phase: Phase): State {
    State(Pair(t), map[], map[0 := Task(Naming(t), phase), 1 := Task(Naming(t), Checking)], [])
  }

  lemma {:induction false} QueueingIsRun(setup: Setup, t: Topition)
    ensures After(setup, [Enqueue(0, Naming(t))] + [Enqueue(1, Naming(t))]) == Some(WithQueue(t, Checking))
  {
    var first, second := Enqueue(0, Naming(t)), Enqueue(1, Naming(t));
    OneMoreStep(setup, [], first);
    assert [] + [first] == [first];
    var a := State([BatchRequest(0, Naming(t))], map[], map[0 := Task(Naming(t), Checking)], []);
    assert Next(setup, START, first).tasks == a.tasks && Next(setup, START, first).pending == a.pending;
    assert After(setup, [first]) == Some(a);
    OneMoreStep(setup, [first], second);
    assert Next(setup, a, second).pending == Pair(t);
    assert Next(setup, a, second).tasks == WithQueue(t, Checking).tasks;
  }

  lemma {:induction false} CheckFindsFull(setup: Setup, t: Topition)
    ensures Next(setup, WithQueue(t, Checking), Check(0, 0)) == WithQueue(t, Draining(true))
  {
    assert Next(setup, WithQueue(t, Checking), Check(0, 0)).tasks == WithQueue(t, Draining(true)).tasks;
  }

  lemma {:induction false} CheckThenDrain(setup: Setup, steps: seq<Step>, t: Topition)
    requires After(setup, steps) == Some(WithQueue(t, Checking))
    ensures After(setup, steps + [Check(0, 0)] + [Drain(0)]) == Some(WithOrigin(setup, t))
  {
    OneMoreStep(setup, steps, Check(0, 0));
    CheckFindsFull(setup, t);
    OneMoreStep(setup, steps + [Check(0, 0)], Drain(0));
    DrainTakesPair(setup, t);
  }

  lemma {:induction false} SendingIsRun(setup: Setup, t: Topition)
    ensures After(setup, Sending(t)) == Some(WithOrigin(setup, t))
  {
    QueueingIsRun(setup, t);
    CheckThenDrain(setup, [Enqueue(0, Naming(t))] + [Enqueue(1, Naming(t))], t);
  }

  lemma {:induction false} DrainTakesPair(setup: Setup, t: Topition)
    ensures Next(setup, WithQueue(t, Draining(true)), Drain(0)) == WithOrigin(setup, t)
  {
    var s := Next(setup, WithQueue(t, Draining(true)), Drain(0));
    assert s.tasks == WithOrigin(setup, t).tasks;
    assert s.calls == WithOrigin(setup, t).calls;
  }

  lemma {:induction false} PairAnswered(setup: Setup, t: Topition)
    ensures
      var answers := Answers(Call(Pair(t), Merge(setup.codec, Pair(t)), Replied(Covering(t))));
      0 in answers && 1 in answers
  {
    var call := Call(Pair(t), Merge(setup.codec, Pair(t)), Replied(Covering(t)));
    NamingAndCovering(t);
    assert Pair(t)[0] in call.batch && Pair(t)[1] in call.batch;
    AnswersOfCall(call, Pair(t)[0]);
    AnswersOfCall(call, Pair(t)[1]);
  }

  /** Then a reply gives the first its answer and leaves the other's to be collected. */
  lemma {:induction false} AnswersAreReached(setup: Setup, t: Topition)
    ensures
      var run := After(setup, Sending(t) + [Reply(0, Covering(t))]);
      run.Some? && Returned(run.value, 0) && AnswerWaits(run.value, 1)
  {
    SendingIsRun(setup, t);
    OneMoreStep(setup, Sending(t), Reply(0, Covering(t)));
    PairAnswered(setup, t);
  }

  /** Or a failure drops both. */
  lemma {:induction false} DropsAreReached(setup: Setup, t: Topition)
    ensures
      var run := After(setup, Sending(t) + [Fail(0)]);
      run.Some? && 0 in run.value.tasks && Dropped(run.value, 0) && 1 in run.value.tasks && Dropped(run.value, 1)
  {
    SendingIsRun(setup, t);
    OneMoreStep(setup, Sending(t), Fail(0));
    var s := Next(setup, WithOrigin(setup, t), Fail(0));
    assert Pair(t)[0] in s.calls[0].batch && Pair(t)[1] in s.calls[0].batch;
    assert InCall(s.calls, 0, 0) && InCall(s.calls, 0, 1);
  }
}
