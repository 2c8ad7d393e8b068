/**
 The proxy's produce batcher as a step system. Every caller runs its own task; each
 section under a lock is one step, and the steps of different tasks interleave freely.
 Tickets are fresh and tasks are not cancelled.
 */
module Batcher {
  import opened Wire
  import opened RecordBlob
  import opened Combining
  import opened Produce
  import opened Merging

  /** What the tasks share, besides the queue: a waker left behind, or an answer to collect. */
  datatype Slot = Waker | Response(answer: Answer)

  /** Where a task is. `overflow` says which of its two calls to send the batch it is in. */
  datatype Phase =
    | Checking
    | Draining(overflow: bool)
    | Calling(call: nat, overflow: bool)
    | Waiting
    | Done(answer: Answer)

  datatype Task = Task(request: ProduceRequest, phase: Phase)

  datatype Outcome = Open | Broken | Replied(reply: ProduceResponse)

  /** One call to the origin. */
  datatype Call = Call(batch: seq<BatchRequest>, sent: MergedRequest, outcome: Outcome)

  datatype State = State(
    pending: seq<BatchRequest>,
    responses: map<Id, Slot>,
    tasks: map<Id, Task>,
    calls: seq<Call>)

  datatype Step =
    | Enqueue(id: Id, request: ProduceRequest)
    | Check(id: Id, maxRecords: nat)
    | Drain(id: Id)
    | Reply(id: Id, reply: ProduceResponse)
    | Fail(id: Id)
    | Poll(id: Id)
    | Expire(id: Id)

  /** The library calls: the record codec, and the record count in a batch header. */
  datatype Setup = Setup(codec: Codec, count: Batch -> nat)

  const START := State([], map[], map[], [])

  // ---- the steps

  function Counted(setup: Setup, batches: seq<Batch>): nat {
    if batches == [] then 0 else Counted(setup, batches[..|batches| - 1]) + setup.count(batches[|batches| - 1])
  }

  function ClaimedRecords(setup: Setup, claims: seq<Claim>): nat {
    if claims == [] then 0
    else ClaimedRecords(setup, claims[..|claims| - 1]) + Counted(setup, OrEmpty(claims[|claims| - 1].records))
  }

  function PendingRecords(setup: Setup, pending: seq<BatchRequest>): nat {
    if pending == [] then 0
    else
      var last := pending[|pending| - 1];
      PendingRecords(setup, pending[..|pending| - 1]) +
      ClaimedRecords(setup, RequestClaims(last.id, OrEmpty(last.request.topics)))
  }

  predicate At(s: State, id: Id, phase: Phase) {
    id in s.tasks && s.tasks[id].phase == phase
  }

  predicate IsDraining(s: State, id: Id) {
    id in s.tasks && s.tasks[id].phase.Draining?
  }

  predicate IsCalling(s: State, id: Id) {
    id in s.tasks && s.tasks[id].phase.Calling? && s.tasks[id].phase.call < |s.calls|
  }

  predicate Enabled(s: State, step: Step) {
    match step
    case Enqueue(id, _) => id !in s.tasks
    case Check(id, _) => At(s, id, Checking)
    case Drain(id) => IsDraining(s, id)
    case Reply(id, _) => IsCalling(s, id)
    case Fail(id) => IsCalling(s, id)
    case Poll(id) => At(s, id, Waiting)
    case Expire(id) => At(s, id, Waiting)
  }

  function WithPhase(s: State, id: Id, phase: Phase): State
    requires id in s.tasks
  {
    s.(tasks := s.tasks[id := s.tasks[id].(phase := phase)])
  }

  /** Sending the batch gave this task nothing: on overflow it goes on to wait, otherwise it starts over. */
  function Onward(overflow: bool): Phase {
    if overflow then Waiting else Checking
  }

  function Answers(call: Call): map<Id, Answer> {
    if call.outcome.Replied? then Split(Owners(Claims(call.batch)), call.outcome.reply) else map[]
  }

  function Stored(answers: map<Id, Answer>): map<Id, Slot> {
    map id | id in answers :: Response(answers[id])
  }

  /** The answers put in the shared map, except the sender's own, which it takes with it. */
  function Delivered(responses: map<Id, Slot>, id: Id, answers: map<Id, Answer>): map<Id, Slot> {
    if id in answers then (responses - {id}) + Stored(answers - {id}) else responses + Stored(answers)
  }

  function Closed(s: State, k: nat, outcome: Outcome): State
    requires k < |s.calls|
  {
    s.(calls := s.calls[k := s.calls[k].(outcome := outcome)])
  }

  function Next(setup: Setup, s: State, step: Step): State
    requires Enabled(s, step)
  {
    match step
    case Enqueue(id, request) =>
      s.(pending := s.pending + [BatchRequest(id, request)], tasks := s.tasks[id := Task(request, Checking)])
    case Check(id, maxRecords) =>
      WithPhase(s, id, if PendingRecords(setup, s.pending) >= maxRecords then Draining(true) else Waiting)
    case Drain(id) =>
      var overflow := s.tasks[id].phase.overflow;
      if s.pending == [] then WithPhase(s, id, Onward(overflow))
      else
        var call := Call(s.pending, Merge(setup.codec, s.pending), Open);
        WithPhase(s, id, Calling(|s.calls|, overflow)).(pending := [], calls := s.calls + [call])
    case Reply(id, reply) =>
      var phase := s.tasks[id].phase;
      var closed := Closed(s, phase.call, Replied(reply));
      var answers := Answers(closed.calls[phase.call]);
      WithPhase(closed, id, if id in answers then Done(answers[id]) else Onward(phase.overflow))
        .(responses := Delivered(s.responses, id, answers))
    case Fail(id) =>
      var phase := s.tasks[id].phase;
      WithPhase(Closed(s, phase.call, Broken), id, Onward(phase.overflow))
    case Poll(id) =>
      if id !in s.responses then s.(responses := s.responses[id := Waker])
      else
        var taken := s.(responses := s.responses - {id});
        if s.responses[id].Waker? then taken else WithPhase(taken, id, Done(s.responses[id].answer))
    case Expire(id) =>
      WithPhase(s, id, Draining(false))
  }

  /** The state after a run from the start, if every step of it was enabled. */
  function After(setup: Setup, steps: seq<Step>): Option<State> {
    if steps == [] then Some(START)
    else
      var before := After(setup, steps[..|steps| - 1]);
      if before.None? || !Enabled(before.value, steps[|steps| - 1]) then None
      else Some(Next(setup, before.value, steps[|steps| - 1]))
  }

  // ---- when a batch is full

  /** All the batches that wait, request after request, topic after topic, part after part. */
  function PartsHold(parts: seq<PartitionData>): seq<Batch> {
    if parts == [] then []
    else
      var last := parts[|parts| - 1];
      PartsHold(parts[..|parts| - 1]) + if last.records.Some? then last.records.value else []
  }

  function TopicsHold(topics: seq<TopicData>): seq<Batch> {
    if topics == [] then []
    else TopicsHold(topics[..|topics| - 1]) + PartsHold(OrEmpty(topics[|topics| - 1].partitions))
  }

  function RequestsHold(requests: seq<BatchRequest>): seq<Batch> {
    if requests == [] then []
    else RequestsHold(requests[..|requests| - 1]) + TopicsHold(OrEmpty(requests[|requests| - 1].request.topics))
  }

  /** Records are counted batch by batch, as the header of each says. */
  lemma {:induction false} CountedAdds(setup: Setup, a: seq<Batch>, b: seq<Batch>)
    ensures Counted(setup, a + b) == Counted(setup, a) + Counted(setup, b)
    ensures |a| == 1 ==> Counted(setup, a) == setup.count(a[0])
  {
    if b == [] {
      assert a + b == a;
    } else {
      AllButLast(a, b);
      CountedAdds(setup, a, b[..|b| - 1]);
    }
  }

  lemma {:induction false} ClaimedAdd(setup: Setup, a: seq<Claim>, b: seq<Claim>)
    ensures ClaimedRecords(setup, a + b) == ClaimedRecords(setup, a) + ClaimedRecords(setup, b)
  {
    if b == [] {
      assert a + b == a;
    } else {
      AllButLast(a, b);
      ClaimedAdd(setup, a, b[..|b| - 1]);
    }
  }

  lemma {:induction false} PartsClaimed(setup: Setup, claims: seq<Claim>, parts: seq<PartitionData>)
    requires |claims| == |parts| && forall i :: 0 <= i < |parts| ==> claims[i].records == parts[i].records
    ensures ClaimedRecords(setup, claims) == Counted(setup, PartsHold(parts))
  {
    if parts != [] {
      var front := parts[..|parts| - 1];
      PartsClaimed(setup, claims[..|claims| - 1], front);
      CountedAdds(setup, PartsHold(front), OrEmpty(parts[|parts| - 1].records));
    }
  }

  lemma {:induction false} TopicsClaimed(setup: Setup, id: Id, topics: seq<TopicData>)
    ensures ClaimedRecords(setup, RequestClaims(id, topics)) == Counted(setup, TopicsHold(topics))
  {
    if topics != [] {
      var front, last := topics[..|topics| - 1], topics[|topics| - 1];
      TopicsClaimed(setup, id, front);
      PartsClaimed(setup, TopicClaims(id, last), OrEmpty(last.partitions));
      ClaimedAdd(setup, RequestClaims(id, front), TopicClaims(id, last));
      CountedAdds(setup, TopicsHold(front), PartsHold(OrEmpty(last.partitions)));
    }
  }

  lemma {:induction false} PendingIsHeld(setup: Setup, pending: seq<BatchRequest>)
    ensures PendingRecords(setup, pending) == Counted(setup, RequestsHold(pending))
  {
    if pending != [] {
      var front, last := pending[..|pending| - 1], pending[|pending| - 1];
      PendingIsHeld(setup, front);
      TopicsClaimed(setup, last.id, OrEmpty(last.request.topics));
      CountedAdds(setup, RequestsHold(front), TopicsHold(OrEmpty(last.request.topics)));
    }
  }

  /** A caller goes on to drain the queue exactly if the records in all the batches that wait reach its limit. */
  lemma ChecksRecords(setup: Setup, s: State, id: Id, maxRecords: nat)
    requires At(s, id, Checking)
    ensures
      var n := Next(setup, s, Check(id, maxRecords));
      && At(n, id, if Counted(setup, RequestsHold(s.pending)) >= maxRecords then Draining(true) else Waiting)
      && n.pending == s.pending && n.responses == s.responses && n.calls == s.calls
  {
    PendingIsHeld(setup, s.pending);
  }

  // ---- what every step keeps

  function Ids(batch: seq<BatchRequest>): set<Id> {
    set r | r in batch :: r.id
  }

  predicate InCall(calls: seq<Call>, k: int, id: Id) {
    0 <= k < |calls| && id in Ids(calls[k].batch)
  }

  /** The requests of a queue or batch are those of tasks, each once. */
  ghost predicate Genuine(tasks: map<Id, Task>, batch: seq<BatchRequest>) {
    DistinctIds(batch) && forall r :: r in batch ==> r.id in tasks && tasks[r.id].request == r.request
  }

  ghost predicate CallsGenuine(setup: Setup, s: State) {
    forall k {:trigger s.calls[k]} :: 0 <= k < |s.calls| ==>
      Genuine(s.tasks, s.calls[k].batch) && s.calls[k].sent == Merge(setup.codec, s.calls[k].batch)
  }

  ghost predicate Sent(calls: seq<Call>, id: Id) {
    exists k :: InCall(calls, k, id)
  }

  /** A request is in the queue or has been sent on, and never twice. */
  ghost predicate Once(s: State) {
    && (forall id :: id in Ids(s.pending) ==> !Sent(s.calls, id))
    && (forall id, j, k :: InCall(s.calls, j, id) && InCall(s.calls, k, id) ==> j == k)
    && (forall id :: id in s.tasks ==> id in Ids(s.pending) || Sent(s.calls, id))
  }

  predicate Drives(tasks: map<Id, Task>, id: Id, k: int) {
    id in tasks && tasks[id].phase.Calling? && tasks[id].phase.call == k
  }

  /** An open call has one task waiting for it. */
  ghost predicate Driven(s: State) {
    && (forall id, k :: Drives(s.tasks, id, k) ==> 0 <= k < |s.calls| && s.calls[k].outcome.Open?)
    && (forall a, b, k :: Drives(s.tasks, a, k) && Drives(s.tasks, b, k) ==> a == b)
    && (forall k {:trigger s.calls[k]} :: 0 <= k < |s.calls| && s.calls[k].outcome.Open? ==>
      exists id :: Drives(s.tasks, id, k))
  }

  /** The answer is waiting in the shared map, or the caller has it. */
  predicate Holds(s: State, id: Id, answer: Answer) {
    || (id in s.responses && s.responses[id] == Response(answer))
    || At(s, id, Done(answer))
  }

  predicate AnsweredBy(call: Call, id: Id, answer: Answer) {
    id in Answers(call) && Answers(call)[id] == answer
  }

  ghost predicate Given(calls: seq<Call>, id: Id, answer: Answer) {
    exists k {:trigger calls[k]} :: 0 <= k < |calls| && AnsweredBy(calls[k], id, answer)
  }

  /** The map serves tasks still waiting; what is held is what a reply gave, no more and no less. */
  ghost predicate Honest(s: State) {
    && (forall id :: id in s.responses ==> id in s.tasks && !s.tasks[id].phase.Done?)
    && (forall id, a :: Holds(s, id, a) <==> Given(s.calls, id, a))
  }

  ghost predicate Inv(setup: Setup, s: State) {
    Genuine(s.tasks, s.pending) && CallsGenuine(setup, s) && Once(s) && Driven(s) && Honest(s)
  }

  lemma StartHolds(setup: Setup)
    ensures Inv(setup, START)
  {
  }

  // ---- steps seen from one part of the invariant

  ghost predicate Grows(before: map<Id, Task>, after: map<Id, Task>) {
    forall id :: id in before ==> id in after && after[id].request == before[id].request
  }

  /** The same calls, whatever has become of them. */
  ghost predicate SameCalls(a: seq<Call>, b: seq<Call>) {
    |a| == |b| && forall k {:trigger a[k]} {:trigger b[k]} :: 0 <= k < |a| ==>
      a[k].batch == b[k].batch && a[k].sent == b[k].sent
  }

  lemma StaysGenuine(setup: Setup, s: State, n: State)
    requires Genuine(s.tasks, s.pending) && CallsGenuine(setup, s)
    requires Grows(s.tasks, n.tasks) && SameCalls(s.calls, n.calls)
    ensures Genuine(n.tasks, s.pending) && CallsGenuine(setup, n)
  {
  }

  lemma StaysOnce(s: State, n: State)
    requires Once(s) && n.pending == s.pending && n.tasks.Keys == s.tasks.Keys && SameCalls(s.calls, n.calls)
    ensures Once(n)
  {
    assert forall k, id :: InCall(n.calls, k, id) <==> InCall(s.calls, k, id);
    forall id ensures Sent(n.calls, id) <==> Sent(s.calls, id) {
    }
  }

  lemma StaysDriven(s: State, n: State)
    requires Driven(s) && n.calls == s.calls
    requires forall id, k :: Drives(n.tasks, id, k) <==> Drives(s.tasks, id, k)
    ensures Driven(n)
  {
  }

  lemma StaysHonest(s: State, n: State)
    requires Honest(s) && n.calls == s.calls
    requires forall id, a :: Holds(n, id, a) <==> Holds(s, id, a)
    requires forall id :: id in n.responses ==> id in n.tasks && !n.tasks[id].phase.Done?
    ensures Honest(n)
  {
  }

  // ---- every step keeps the invariant

  lemma EnqueueKeeps(setup: Setup, s: State, id: Id, request: ProduceRequest)
    requires Inv(setup, s) && Enabled(s, Enqueue(id, request))
    ensures Inv(setup, Next(setup, s, Enqueue(id, request)))
  {
    EnqueuedGenuine(setup, s, id, request);
    EnqueuedOnce(setup, s, id, request);
    EnqueuedHolds(setup, s, id, request);
  }

  lemma EnqueuedGenuine(setup: Setup, s: State, id: Id, request: ProduceRequest)
    requires Genuine(s.tasks, s.pending) && CallsGenuine(setup, s) && Enabled(s, Enqueue(id, request))
    ensures
      var n := Next(setup, s, Enqueue(id, request));
      Genuine(n.tasks, n.pending) && CallsGenuine(setup, n)
  {
    var n := Next(setup, s, Enqueue(id, request));
    assert Grows(s.tasks, n.tasks);
    StaysGenuine(setup, s, n);
  }

  lemma EnqueuedHolds(setup: Setup, s: State, id: Id, request: ProduceRequest)
    requires Driven(s) && Honest(s) && Enabled(s, Enqueue(id, request))
    ensures
      var n := Next(setup, s, Enqueue(id, request));
      Driven(n) && Honest(n)
  {
    var n := Next(setup, s, Enqueue(id, request));
    StaysDriven(s, n);
    StaysHonest(s, n);
  }

  lemma EnqueuedOnce(setup: Setup, s: State, id: Id, request: ProduceRequest)
    requires CallsGenuine(setup, s) && Once(s) && Enabled(s, Enqueue(id, request))
    ensures Once(Next(setup, s, Enqueue(id, request)))
  {
    var n := Next(setup, s, Enqueue(id, request));
    var r := BatchRequest(id, request);
    assert forall q :: q in n.pending <==> q in s.pending || q == r;
    assert Ids(n.pending) == Ids(s.pending) + {id};
    forall k ensures !InCall(s.calls, k, id) {
      if 0 <= k < |s.calls| {
        assert Genuine(s.tasks, s.calls[k].batch);
      }
    }
  }

  lemma DrainKeeps(setup: Setup, s: State, id: Id)
    requires Inv(setup, s) && Enabled(s, Drain(id)) && s.pending != []
    ensures Inv(setup, Next(setup, s, Drain(id)))
  {
    var n := Next(setup, s, Drain(id));
    DrainedGenuine(setup, s, id);
    DrainedOnce(setup, s, id);
    DrainedDriven(setup, s, id);
    DrainedHonest(setup, s, id);
  }

  lemma DrainedGenuine(setup: Setup, s: State, id: Id)
    requires Genuine(s.tasks, s.pending) && CallsGenuine(setup, s) && Enabled(s, Drain(id)) && s.pending != []
    ensures
      var n := Next(setup, s, Drain(id));
      Genuine(n.tasks, n.pending) && CallsGenuine(setup, n)
  {
    var n := Next(setup, s, Drain(id));
    StaysGenuine(setup, s, n.(calls := s.calls));
  }

  lemma DrainedOnce(setup: Setup, s: State, id: Id)
    requires Once(s) && Enabled(s, Drain(id)) && s.pending != []
    ensures Once(Next(setup, s, Drain(id)))
  {
    var n := Next(setup, s, Drain(id));
    assert forall k, i :: InCall(n.calls, k, i) <==> InCall(s.calls, k, i) || (k == |s.calls| && i in Ids(s.pending));
    forall i ensures Sent(n.calls, i) <==> Sent(s.calls, i) || i in Ids(s.pending) {
      assert i in Ids(s.pending) ==> InCall(n.calls, |s.calls|, i);
    }
  }

  lemma DrainedDriven(setup: Setup, s: State, id: Id)
    requires Driven(s) && Enabled(s, Drain(id)) && s.pending != []
    ensures Driven(Next(setup, s, Drain(id)))
  {
    var n := Next(setup, s, Drain(id));
    var last := |s.calls|;
    assert forall i, k :: Drives(n.tasks, i, k) <==> Drives(s.tasks, i, k) || (i == id && k == last);
    forall k | 0 <= k < |n.calls| && n.calls[k].outcome.Open? ensures exists i :: Drives(n.tasks, i, k) {
      if k < last {
        var i :| Drives(s.tasks, i, k);
        assert Drives(n.tasks, i, k);
      } else {
        assert Drives(n.tasks, id, k);
      }
    }
  }

  lemma DrainedHonest(setup: Setup, s: State, id: Id)
    requires Honest(s) && Enabled(s, Drain(id)) && s.pending != []
    ensures Honest(Next(setup, s, Drain(id)))
  {
    var n := Next(setup, s, Drain(id));
    forall i, a ensures Given(n.calls, i, a) <==> Given(s.calls, i, a) {
      if k :| 0 <= k < |s.calls| && AnsweredBy(s.calls[k], i, a) {
        assert n.calls[k] == s.calls[k];
      }
    }
    assert forall i, a :: Holds(n, i, a) <==> Holds(s, i, a);
  }

  lemma MoveKeeps(setup: Setup, s: State, id: Id, phase: Phase)
    requires Inv(setup, s) && id in s.tasks && !s.tasks[id].phase.Calling? && !s.tasks[id].phase.Done?
    requires !phase.Calling? && !phase.Done?
    ensures Inv(setup, WithPhase(s, id, phase))
  {
    var n := WithPhase(s, id, phase);
    StaysGenuine(setup, s, n);
    StaysOnce(s, n);
    MovedDriven(s, id, phase);
    MovedHonest(s, id, phase);
  }

  lemma MovedDriven(s: State, id: Id, phase: Phase)
    requires Driven(s) && id in s.tasks && !s.tasks[id].phase.Calling? && !phase.Calling?
    ensures Driven(WithPhase(s, id, phase))
  {
    StaysDriven(s, WithPhase(s, id, phase));
  }

  lemma MovedHonest(s: State, id: Id, phase: Phase)
    requires Honest(s) && id in s.tasks && !s.tasks[id].phase.Done? && !phase.Done?
    ensures Honest(WithPhase(s, id, phase))
  {
    StaysHonest(s, WithPhase(s, id, phase));
  }

  lemma PollKeeps(setup: Setup, s: State, id: Id)
    requires Inv(setup, s) && Enabled(s, Poll(id))
    ensures Inv(setup, Next(setup, s, Poll(id)))
  {
    PolledQueued(setup, s, id);
    PolledDriven(setup, s, id);
    PolledHonest(setup, s, id);
  }

  /** A poll touches neither the queue nor the calls, nor which requests the tasks are for. */
  lemma PollSpares(setup: Setup, s: State, id: Id)
    requires Enabled(s, Poll(id))
    ensures
      var n := Next(setup, s, Poll(id));
      n.calls == s.calls && n.pending == s.pending && n.tasks.Keys == s.tasks.Keys && Grows(s.tasks, n.tasks)
  {
  }

  lemma PolledQueued(setup: Setup, s: State, id: Id)
    requires Genuine(s.tasks, s.pending) && CallsGenuine(setup, s) && Once(s) && Enabled(s, Poll(id))
    ensures
      var n := Next(setup, s, Poll(id));
      Genuine(n.tasks, n.pending) && CallsGenuine(setup, n) && Once(n)
  {
    var n := Next(setup, s, Poll(id));
    PollSpares(setup, s, id);
    StaysGenuine(setup, s, n);
    StaysOnce(s, n);
  }

  lemma PolledDriven(setup: Setup, s: State, id: Id)
    requires Driven(s) && Enabled(s, Poll(id))
    ensures Driven(Next(setup, s, Poll(id)))
  {
    StaysDriven(s, Next(setup, s, Poll(id)));
  }

  lemma PolledHolds(setup: Setup, s: State, id: Id)
    requires Enabled(s, Poll(id))
    ensures forall i, a :: Holds(Next(setup, s, Poll(id)), i, a) <==> Holds(s, i, a)
  {
  }

  lemma PolledHonest(setup: Setup, s: State, id: Id)
    requires Honest(s) && Enabled(s, Poll(id))
    ensures Honest(Next(setup, s, Poll(id)))
  {
    PolledHolds(setup, s, id);
    StaysHonest(s, Next(setup, s, Poll(id)));
  }

  /** Closing a call changes neither who was sent where nor who drives the other calls. */
  lemma ClosingKeeps(setup: Setup, s: State, id: Id, outcome: Outcome, phase: Phase)
    requires Inv(setup, s) && IsCalling(s, id) && !outcome.Open? && !phase.Calling?
    ensures
      var n := WithPhase(Closed(s, s.tasks[id].phase.call, outcome), id, phase);
      Genuine(n.tasks, n.pending) && CallsGenuine(setup, n) && Once(n) && Driven(n)
  {
    var n := WithPhase(Closed(s, s.tasks[id].phase.call, outcome), id, phase);
    StaysGenuine(setup, s, n);
    StaysOnce(s, n);
    ClosedDriven(s, id, outcome, phase);
  }

  lemma ClosedDriven(s: State, id: Id, outcome: Outcome, phase: Phase)
    requires Driven(s) && IsCalling(s, id) && !outcome.Open? && !phase.Calling?
    ensures Driven(WithPhase(Closed(s, s.tasks[id].phase.call, outcome), id, phase))
  {
    var k := s.tasks[id].phase.call;
    var n := WithPhase(Closed(s, k, outcome), id, phase);
    assert Drives(s.tasks, id, k);
    assert forall i, j :: Drives(n.tasks, i, j) <==> Drives(s.tasks, i, j) && i != id;
    forall j | 0 <= j < |n.calls| && n.calls[j].outcome.Open? ensures exists i :: Drives(n.tasks, i, j) {
      assert s.calls[j].outcome.Open?;
      var i :| Drives(s.tasks, i, j);
      assert Drives(n.tasks, i, j);
    }
  }

  lemma FailKeeps(setup: Setup, s: State, id: Id)
    requires Inv(setup, s) && Enabled(s, Fail(id))
    ensures Inv(setup, Next(setup, s, Fail(id)))
  {
    ClosingKeeps(setup, s, id, Broken, Onward(s.tasks[id].phase.overflow));
    FailedHonest(setup, s, id);
  }

  lemma FailedHonest(setup: Setup, s: State, id: Id)
    requires Driven(s) && Honest(s) && Enabled(s, Fail(id))
    ensures Honest(Next(setup, s, Fail(id)))
  {
    var n := Next(setup, s, Fail(id));
    assert Drives(s.tasks, id, s.tasks[id].phase.call);
    GivenUnless(s.calls, n.calls, s.tasks[id].phase.call);
    assert forall i, a :: Holds(n, i, a) <==> Holds(s, i, a);
  }

  /** Closing an open call adds the answers it gives to those given before. */
  lemma GivenUnless(before: seq<Call>, after: seq<Call>, k: nat)
    requires k < |before| == |after| && after == before[k := after[k]] && before[k].outcome.Open?
    ensures forall i, a :: Given(after, i, a) <==> Given(before, i, a) || AnsweredBy(after[k], i, a)
  {
    forall i, a ensures Given(after, i, a) <==> Given(before, i, a) || AnsweredBy(after[k], i, a) {
      if j :| 0 <= j < |before| && AnsweredBy(before[j], i, a) {
        assert after[j] == before[j];
      }
      if j :| 0 <= j < |after| && AnsweredBy(after[j], i, a) {
        assert j != k ==> before[j] == after[j];
      }
    }
  }

  /** Only those in the batch are answered by a reply to it. */
  lemma AnswersInBatch(call: Call, id: Id)
    requires id in Answers(call)
    ensures id in Ids(call.batch)
  {
    OnlyCallersAnswered(call.batch, id, call.outcome.reply);
  }

  /** Nobody in an open call holds an answer yet. */
  lemma OpenHoldsNothing(setup: Setup, s: State, k: nat, id: Id)
    requires Inv(setup, s) && InCall(s.calls, k, id) && s.calls[k].outcome.Open?
    ensures id in s.tasks && !s.tasks[id].phase.Done? && !(id in s.responses && s.responses[id].Response?)
  {
    assert Genuine(s.tasks, s.calls[k].batch);
    if a :| Holds(s, id, a) {
      var j :| 0 <= j < |s.calls| && AnsweredBy(s.calls[j], id, a);
      AnswersInBatch(s.calls[j], id);
      assert InCall(s.calls, j, id);
      assert false;
    }
    assert forall a :: !Holds(s, id, a);
    if s.tasks[id].phase.Done? {
      assert Holds(s, id, s.tasks[id].phase.answer);
    } else if id in s.responses && s.responses[id].Response? {
      assert Holds(s, id, s.responses[id].answer);
    }
  }

  /** Those a reply answers are waiting for it, with no answer in the map. */
  lemma ReplyFindsWaiting(setup: Setup, s: State, id: Id, reply: ProduceResponse, i: Id)
    requires Inv(setup, s) && Enabled(s, Reply(id, reply))
    requires i in Answers(Next(setup, s, Reply(id, reply)).calls[s.tasks[id].phase.call])
    ensures s.calls[s.tasks[id].phase.call].outcome.Open?
    ensures i in s.tasks && !s.tasks[i].phase.Done? && !(i in s.responses && s.responses[i].Response?)
  {
    var k := s.tasks[id].phase.call;
    assert Drives(s.tasks, id, k);
    AnswersInBatch(Next(setup, s, Reply(id, reply)).calls[k], i);
    assert InCall(s.calls, k, i);
    OpenHoldsNothing(setup, s, k, i);
  }

  /** What a reply does, in terms of the answers it is split into. */
  lemma ReplyEffect(setup: Setup, s: State, id: Id, reply: ProduceResponse)
    requires Enabled(s, Reply(id, reply))
    ensures
      var n, phase := Next(setup, s, Reply(id, reply)), s.tasks[id].phase;
      var answers := Split(Owners(Claims(s.calls[phase.call].batch)), reply);
      && n.pending == s.pending && n.responses == Delivered(s.responses, id, answers)
      && n.tasks == WithPhase(s, id, if id in answers then Done(answers[id]) else Onward(phase.overflow)).tasks
      && Answers(n.calls[phase.call]) == answers
  {
  }

  lemma DeliveredHolds(s: State, n: State, id: Id, answers: map<Id, Answer>, i: Id, a: Answer)
    requires id in s.tasks && s.tasks[id].phase.Calling?
    requires forall j :: j in answers ==>
               j in s.tasks && !s.tasks[j].phase.Done? && !(j in s.responses && s.responses[j].Response?)
    requires n.responses == Delivered(s.responses, id, answers)
    requires n.tasks ==
      WithPhase(s, id, if id in answers then Done(answers[id]) else Onward(s.tasks[id].phase.overflow)).tasks
    ensures Holds(n, i, a) <==> Holds(s, i, a) || (i in answers && answers[i] == a)
  {
  }

  /** After a reply, those it answers hold their answers and everyone else holds what they held. */
  lemma ReplyHolds(setup: Setup, s: State, id: Id, reply: ProduceResponse, i: Id, a: Answer)
    requires Enabled(s, Reply(id, reply))
    requires forall j :: j in Answers(Next(setup, s, Reply(id, reply)).calls[s.tasks[id].phase.call]) ==>
               j in s.tasks && !s.tasks[j].phase.Done? && !(j in s.responses && s.responses[j].Response?)
    ensures
      var n := Next(setup, s, Reply(id, reply));
      Holds(n, i, a) <==> Holds(s, i, a) || AnsweredBy(n.calls[s.tasks[id].phase.call], i, a)
  {
    ReplyEffect(setup, s, id, reply);
    var n := Next(setup, s, Reply(id, reply));
    DeliveredHolds(s, n, id, Answers(n.calls[s.tasks[id].phase.call]), i, a);
  }

  lemma ReplyHonest(setup: Setup, s: State, id: Id, reply: ProduceResponse)
    requires Inv(setup, s) && Enabled(s, Reply(id, reply))
    ensures Honest(Next(setup, s, Reply(id, reply)))
  {
    var n := Next(setup, s, Reply(id, reply));
    var k := s.tasks[id].phase.call;
    assert Drives(s.tasks, id, k);
    forall i | i in Answers(n.calls[k])
      ensures i in s.tasks && !s.tasks[i].phase.Done? && !(i in s.responses && s.responses[i].Response?)
    {
      ReplyFindsWaiting(setup, s, id, reply, i);
    }
    forall i, a ensures Holds(n, i, a) <==> Holds(s, i, a) || AnsweredBy(n.calls[k], i, a) {
      ReplyHolds(setup, s, id, reply, i, a);
    }
    GivenUnless(s.calls, n.calls, k);
  }

  lemma ReplyKeeps(setup: Setup, s: State, id: Id, reply: ProduceResponse)
    requires Inv(setup, s) && Enabled(s, Reply(id, reply))
    ensures Inv(setup, Next(setup, s, Reply(id, reply)))
  {
    var n := Next(setup, s, Reply(id, reply));
    ReplyHonest(setup, s, id, reply);
    ClosingKeeps(setup, s, id, Replied(reply), n.tasks[id].phase);
    var m := WithPhase(Closed(s, s.tasks[id].phase.call, Replied(reply)), id, n.tasks[id].phase);
    assert n == m.(responses := n.responses);
  }

  /** Every step keeps the invariant. */
  lemma StepKeeps(setup: Setup, s: State, step: Step)
    requires Inv(setup, s) && Enabled(s, step)
    ensures Inv(setup, Next(setup, s, step))
  {
    match step
    case Enqueue(id, request) => EnqueueKeeps(setup, s, id, request);
    case Check(id, _) => MoveKeeps(setup, s, id, Next(setup, s, step).tasks[id].phase);
    case Drain(id) =>
      if s.pending == [] {
        MoveKeeps(setup, s, id, Onward(s.tasks[id].phase.overflow));
      } else {
        DrainKeeps(setup, s, id);
      }
    case Reply(id, reply) => ReplyKeeps(setup, s, id, reply);
    case Fail(id) => FailKeeps(setup, s, id);
    case Poll(id) => PollKeeps(setup, s, id);
    case Expire(id) => MoveKeeps(setup, s, id, Draining(false));
  }

  lemma {:induction false} RunKeeps(setup: Setup, steps: seq<Step>)
    requires After(setup, steps).Some?
    ensures Inv(setup, After(setup, steps).value)
  {
    if steps == [] {
      StartHolds(setup);
    } else {
      RunKeeps(setup, steps[..|steps| - 1]);
      StepKeeps(setup, After(setup, steps[..|steps| - 1]).value, steps[|steps| - 1]);
    }
  }
}
