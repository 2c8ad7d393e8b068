/**
 The batcher's shared queue and response map, updated in place. Each method is one
 section under a lock, and takes the step of the same name in the step system.
 */
module BatchService {
  import opened Wire
  import opened RecordBlob
  import opened Produce
  import opened Merging
  import opened Batcher

  /** The records of a batch list, by their headers. */
  method CountBatches(setup: Setup, batches: seq<Batch>) returns (n: nat)
    ensures n == Counted(setup, batches)
  {
    n := 0;
    for i := 0 to |batches|
      invariant n == Counted(setup, batches[..i])
    {
      assert batches[..i + 1][..i] == batches[..i];
      n := n + setup.count(batches[i]);
    }
    assert batches[..|batches|] == batches;
  }

  method CountTopic(setup: Setup, topic: TopicData, ghost id: Id) returns (n: nat)
    ensures n == ClaimedRecords(setup, TopicClaims(id, topic))
  {
    n := 0;
    var parts := OrEmpty(topic.partitions);
    ghost var claims := TopicClaims(id, topic);
    for i := 0 to |parts|
      invariant n == ClaimedRecords(setup, claims[..i])
    {
      var counted := CountBatches(setup, OrEmpty(parts[i].records));
      assert claims[..i + 1][..i] == claims[..i];
      n := n + counted;
    }
    assert claims[..|parts|] == claims;
  }

  /** The number of records in a request. */
  method CountRequest(setup: Setup, request: BatchRequest) returns (n: nat)
    ensures n == ClaimedRecords(setup, RequestClaims(request.id, OrEmpty(request.request.topics)))
  {
    n := 0;
    var topics := OrEmpty(request.request.topics);
    for i := 0 to |topics|
      invariant n == ClaimedRecords(setup, RequestClaims(request.id, topics[..i]))
    {
      var counted := CountTopic(setup, topics[i], request.id);
      Grow(topics, i);
      RequestClaimsGrow(request.id, topics[..i], topics[i]);
      ClaimedAdd(setup, RequestClaims(request.id, topics[..i]), TopicClaims(request.id, topics[i]));
      n := n + counted;
    }
    assert topics[..|topics|] == topics;
  }

  class BatchProduceService {
    const setup: Setup
    var requests: seq<BatchRequest>
    var responses: map<Id, Slot>
    ghost var state: State

    ghost predicate Valid()
      reads this
    {
      requests == state.pending && responses == state.responses && Inv(setup, state)
    }

    constructor (setup: Setup)
      ensures Valid() && this.setup == setup && state == START
    {
      this.setup := setup;
      requests, responses, state := [], map[], START;
      new;
      StartHolds(setup);
    }

    /** The state follows, once queue and map are what the step makes of them. */
    ghost method Follow(step: Step)
      requires Inv(setup, state) && Enabled(state, step)
      requires requests == Next(setup, state, step).pending && responses == Next(setup, state, step).responses
      modifies `state
      ensures Valid() && state == Next(setup, old(state), step)
    {
      StepKeeps(setup, state, step);
      state := Next(setup, state, step);
    }

    /** A caller hands in a request under a fresh ticket. */
    method Push(id: Id, request: ProduceRequest)
      requires Valid() && Enabled(state, Enqueue(id, request))
      modifies this
      ensures Valid() && state == Next(setup, old(state), Enqueue(id, request))
    {
      requests := requests + [BatchRequest(id, request)];
      Follow(Enqueue(id, request));
    }

    /** Whether the records waiting have reached the caller's limit, at this moment. */
    method IsFull(id: Id, maxRecords: nat) returns (full: bool)
      requires Valid() && Enabled(state, Check(id, maxRecords))
      modifies `state
      ensures Valid() && state == Next(setup, old(state), Check(id, maxRecords))
      ensures full <==> IsDraining(state, id)
    {
      var n := 0;
      for i := 0 to |requests|
        invariant n == PendingRecords(setup, requests[..i])
        invariant Valid() && state == old(state)
      {
        var counted := CountRequest(setup, requests[i]);
        assert requests[..i + 1][..i] == requests[..i];
        n := n + counted;
      }
      assert requests[..|requests|] == requests;
      full := n >= maxRecords;
      Follow(Check(id, maxRecords));
    }

    /**
     Take everything that is waiting. Nothing is sent when nothing is waiting; otherwise
     the origin is sent one request for all, and its owners are remembered.
     */
    method TakePending(id: Id) returns (sent: Option<MergedRequest>, owners: map<Topition, set<Id>>)
      requires Valid() && Enabled(state, Drain(id))
      modifies this
      ensures Valid() && state == Next(setup, old(state), Drain(id))
      ensures sent.None? <==> old(requests) == []
      ensures sent.Some? ==>
        IsCalling(state, id) && state.calls[state.tasks[id].phase.call] == Call(old(requests), sent.value, Open)
      ensures sent.Some? ==> owners == Owners(Claims(old(requests)))
    {
      var batch := requests;
      requests := [];
      Follow(Drain(id));
      if batch == [] {
        return None, map[];
      }
      owners := OwnersFrom(batch);
      var merged := MergeRequests(setup.codec, batch);
      return Some(merged), owners;
    }

    /** Put answers in the response map, waking whoever waits for them. */
    method Store(answers: map<Id, Answer>)
      modifies `responses
      ensures responses == old(responses) + Stored(answers)
    {
      var left := answers.Keys;
      while left != {}
        invariant left <= answers.Keys && responses == old(responses) + Stored(answers - left)
        decreases left
      {
        var owner :| owner in left;
        responses := responses[owner := Response(answers[owner])];
        left := left - {owner};
      }
      assert answers - {} == answers;
    }

    /** Share out the answers; the caller that sent the batch takes its own with it. */
    method ShareOut(id: Id, answers: map<Id, Answer>) returns (own: Option<Answer>)
      modifies `responses
      ensures responses == Delivered(old(responses), id, answers)
      ensures own == if id in answers then Some(answers[id]) else None
    {
      if id in answers {
        own := Some(answers[id]);
        responses := responses - {id};
        Store(answers - {id});
      } else {
        own := None;
        Store(answers);
      }
    }

    /** The origin has replied to the batch this caller sent. */
    method Deliver(id: Id, owners: map<Topition, set<Id>>, reply: ProduceResponse) returns (own: Option<Answer>)
      requires Valid() && Enabled(state, Reply(id, reply))
      requires owners == Owners(Claims(state.calls[state.tasks[id].phase.call].batch))
      modifies this
      ensures Valid() && state == Next(setup, old(state), Reply(id, reply))
      ensures own.Some? ==> At(state, id, Done(own.value))
      ensures own.None? ==> At(state, id, Onward(old(state).tasks[id].phase.overflow))
    {
      ReplyEffect(setup, state, id, reply);
      var answers := SplitReply(owners, reply);
      own := ShareOut(id, answers);
      Follow(Reply(id, reply));
    }

    /** A ticket looks for its answer: it takes what it finds, or leaves a waker if it finds nothing. */
    method Poll(id: Id) returns (answer: Option<Answer>)
      requires Valid() && Enabled(state, Step.Poll(id))
      modifies this
      ensures Valid() && state == Next(setup, old(state), Step.Poll(id))
      ensures answer.Some? ==> At(state, id, Done(answer.value))
      ensures answer.None? ==> At(state, id, Waiting)
    {
      answer := None;
      if id in responses {
        if responses[id].Response? {
          answer := Some(responses[id].answer);
        }
        responses := responses - {id};
      } else {
        responses := responses[id := Waker];
      }
      Follow(Step.Poll(id));
    }
  }
}
