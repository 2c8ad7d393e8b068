/**
 Merging the produce requests of many callers into the one request that is sent to the origin: the
 batches for each topic partition in order, combined into one.
 */
module Merging {
  import opened Wire
  import opened RecordBlob
  import opened Combining
  import opened Produce

  /** The batches sent for a topic partition, in order of arrival. */
  function Arrived(claims: seq<Claim>, t: Topition): seq<Batch> {
    if claims == [] then []
    else
      var last := claims[|claims| - 1];
      Arrived(claims[..|claims| - 1], t) + if last.topition == t then OrEmpty(last.records) else []
  }

  function CarriedTopitions(claims: seq<Claim>): set<Topition> {
    set c | c in claims && c.records.Some? :: c.topition
  }

  function Runs(claims: seq<Claim>): map<Topition, seq<Batch>> {
    map t | t in CarriedTopitions(claims) :: Arrived(claims, t)
  }

  /** A failed merge is replaced by an empty frame. */
  function Frame(codec: Codec, batches: seq<Batch>): seq<Batch> {
    var combined := Combined(codec, batches);
    if combined.Ok? then combined.value else []
  }

  function Merge(codec: Codec, requests: seq<BatchRequest>): MergedRequest {
    var runs := Runs(Claims(requests));
    MergedRequest(0, 5000, FramesOf(codec, runs, runs.Keys))
  }

  function WithRun(runs: map<Topition, seq<Batch>>, t: Topition, batches: seq<Batch>): map<Topition, seq<Batch>> {
    runs[t := (if t in runs then runs[t] else []) + batches]
  }

  lemma CarriedGrow(claims: seq<Claim>, c: Claim)
    ensures CarriedTopitions(claims + [c]) == CarriedTopitions(claims) + if c.records.Some? then {c.topition} else {}
  {
    assert forall d :: d in claims + [c] <==> d in claims || d == c;
  }

  lemma ArrivedGrows(claims: seq<Claim>, c: Claim, t: Topition)
    ensures Arrived(claims + [c], t) ==
      if c.topition == t && c.records.Some? then Arrived(claims, t) + c.records.value else Arrived(claims, t)
  {
    assert (claims + [c])[..|claims|] == claims;
    assert Arrived(claims, t) + [] == Arrived(claims, t);
  }

  lemma RunsGrow(claims: seq<Claim>, c: Claim)
    ensures Runs(claims + [c]) ==
      if c.records.Some? then WithRun(Runs(claims), c.topition, c.records.value) else Runs(claims)
  {
    var now := Runs(claims + [c]);
    var grown := if c.records.Some? then WithRun(Runs(claims), c.topition, c.records.value) else Runs(claims);
    CarriedGrow(claims, c);
    assert now.Keys == grown.Keys;
    forall t | t in now ensures now[t] == grown[t] {
      ArrivedGrows(claims, c, t);
      if t !in CarriedTopitions(claims) {
        NothingArrives(claims, t);
      }
    }
  }

  lemma {:induction false} NothingArrives(claims: seq<Claim>, t: Topition)
    requires t !in CarriedTopitions(claims)
    ensures Arrived(claims, t) == []
  {
    if claims != [] {
      var front := claims[..|claims| - 1];
      assert forall c :: c in front ==> c in claims;
      assert claims[|claims| - 1] in claims;
      NothingArrives(front, t);
    }
  }

  method RunsOfTopic(runs: map<Topition, seq<Batch>>, topic: TopicData, ghost id: Id, ghost before: seq<Claim>)
    returns (r: map<Topition, seq<Batch>>)
    requires runs == Runs(before)
    ensures r == Runs(before + TopicClaims(id, topic))
  {
    r := runs;
    var parts := OrEmpty(topic.partitions);
    ghost var claims := TopicClaims(id, topic);
    assert before + claims[..0] == before;
    for i := 0 to |parts|
      invariant r == Runs(before + claims[..i])
    {
      RunsGrow(before + claims[..i], claims[i]);
      assert before + claims[..i + 1] == before + claims[..i] + [claims[i]];
      if parts[i].records.Some? {
        var t := Topition(topic.name, parts[i].index);
        r := r[t := (if t in r then r[t] else []) + parts[i].records.value];
      }
    }
    assert claims[..|parts|] == claims;
  }

  method RunsOfRequest(runs: map<Topition, seq<Batch>>, request: BatchRequest, ghost before: seq<Claim>)
    returns (r: map<Topition, seq<Batch>>)
    requires runs == Runs(before)
    ensures r == Runs(before + RequestClaims(request.id, OrEmpty(request.request.topics)))
  {
    r := runs;
    var topics := OrEmpty(request.request.topics);
    ghost var claims := [];
    assert before + claims == before;
    for i := 0 to |topics|
      invariant claims == RequestClaims(request.id, topics[..i]) && r == Runs(before + claims)
    {
      r := RunsOfTopic(r, topics[i], request.id, before + claims);
      Associate(before, claims, TopicClaims(request.id, topics[i]));
      Grow(topics, i);
      RequestClaimsGrow(request.id, topics[..i], topics[i]);
      claims := claims + TopicClaims(request.id, topics[i]);
    }
    assert topics[..|topics|] == topics;
  }

  /** For each topic partition that carries records, its batches in order of arrival. */
  method RunsFrom(requests: seq<BatchRequest>) returns (runs: map<Topition, seq<Batch>>)
    ensures runs == Runs(Claims(requests))
  {
    runs := map[];
    for i := 0 to |requests|
      invariant runs == Runs(Claims(requests[..i]))
    {
      runs := RunsOfRequest(runs, requests[i], Claims(requests[..i]));
      Grow(requests, i);
      ClaimsGrow(requests[..i], requests[i]);
    }
    assert requests[..|requests|] == requests;
  }

  function FramesOf(codec: Codec, runs: map<Topition, seq<Batch>>, keys: set<Topition>): map<Topition, seq<Batch>>
    requires keys <= runs.Keys
  {
    map t | t in keys :: Frame(codec, runs[t])
  }

  lemma FramesGrow(codec: Codec, runs: map<Topition, seq<Batch>>, keys: set<Topition>, t: Topition)
    requires keys <= runs.Keys && t in runs
    ensures FramesOf(codec, runs, keys + {t}) == FramesOf(codec, runs, keys)[t := Frame(codec, runs[t])]
  {
  }

  /** The one request sent on behalf of all the callers. */
  method MergeRequests(codec: Codec, requests: seq<BatchRequest>) returns (r: MergedRequest)
    ensures r == Merge(codec, requests)
  {
    var runs := RunsFrom(requests);
    var frames: map<Topition, seq<Batch>> := map[];
    var left := runs.Keys;
    while left != {}
      invariant left <= runs.Keys && frames == FramesOf(codec, runs, runs.Keys - left)
      decreases left
    {
      var t :| t in left;
      var combined := Combine(codec, runs[t]);
      frames := frames[t := if combined.Ok? then combined.value else []];
      FramesGrow(codec, runs, runs.Keys - left, t);
      assert runs.Keys - (left - {t}) == runs.Keys - left + {t};
      left := left - {t};
    }
    assert runs.Keys - left == runs.Keys;
    r := MergedRequest(0, 5000, frames);
  }

  // ---- what was sent, by the requests themselves

  /** A part of the request for this topic partition carries records, if only an empty list of batches. */
  predicate Carries(request: ProduceRequest, t: Topition) {
    exists topic, part :: topic in OrEmpty(request.topics) && part in OrEmpty(topic.partitions) &&
      t == Topition(topic.name, part.index) && part.records.Some?
  }

  /** The batches of the parts with this index, part after part. */
  function PartsSend(parts: seq<PartitionData>, index: int): seq<Batch> {
    if parts == [] then []
    else
      var last := parts[|parts| - 1];
      PartsSend(parts[..|parts| - 1], index) +
      if last.index == index && last.records.Some? then last.records.value else []
  }

  function TopicsSend(topics: seq<TopicData>, t: Topition): seq<Batch> {
    if topics == [] then []
    else
      var last := topics[|topics| - 1];
      TopicsSend(topics[..|topics| - 1], t) +
      if last.name == t.topic then PartsSend(OrEmpty(last.partitions), t.partition) else []
  }

  /** The batches for a topic partition, request after request, topic after topic, part after part. */
  function RequestsSend(requests: seq<BatchRequest>, t: Topition): seq<Batch> {
    if requests == [] then []
    else
      RequestsSend(requests[..|requests| - 1], t) + TopicsSend(OrEmpty(requests[|requests| - 1].request.topics), t)
  }

  lemma {:induction false} ArrivedJoins(a: seq<Claim>, b: seq<Claim>, t: Topition)
    ensures Arrived(a + b, t) == Arrived(a, t) + Arrived(b, t)
  {
    if b == [] {
      assert a + b == a;
    } else {
      AllButLast(a, b);
      ArrivedJoins(a, b[..|b| - 1], t);
    }
  }

  lemma {:induction false} PartsArrive(claims: seq<Claim>, name: string, parts: seq<PartitionData>, t: Topition)
    requires |claims| == |parts|
    requires forall i :: 0 <= i < |parts| ==>
      claims[i].topition == Topition(name, parts[i].index) && claims[i].records == parts[i].records
    ensures Arrived(claims, t) == if name == t.topic then PartsSend(parts, t.partition) else []
  {
    if parts != [] {
      PartsArrive(claims[..|claims| - 1], name, parts[..|parts| - 1], t);
    }
  }

  lemma {:induction false} TopicsArrive(id: Id, topics: seq<TopicData>, t: Topition)
    ensures Arrived(RequestClaims(id, topics), t) == TopicsSend(topics, t)
  {
    if topics != [] {
      var front, last := topics[..|topics| - 1], topics[|topics| - 1];
      TopicsArrive(id, front, t);
      PartsArrive(TopicClaims(id, last), last.name, OrEmpty(last.partitions), t);
      ArrivedJoins(RequestClaims(id, front), TopicClaims(id, last), t);
    }
  }

  /** What arrives for a topic partition is what the requests send for it, in their order. */
  lemma {:induction false} ArrivesAsSent(requests: seq<BatchRequest>, t: Topition)
    ensures Arrived(Claims(requests), t) == RequestsSend(requests, t)
  {
    if requests != [] {
      var front, last := requests[..|requests| - 1], requests[|requests| - 1];
      ArrivesAsSent(front, t);
      TopicsArrive(last.id, OrEmpty(last.request.topics), t);
      ArrivedJoins(Claims(front), RequestClaims(last.id, OrEmpty(last.request.topics)), t);
    }
  }

  lemma {:induction false} RequestClaimsCarry(id: Id, topics: seq<TopicData>, t: Topition)
    ensures t in CarriedTopitions(RequestClaims(id, topics)) <==> Carries(ProduceRequest(Some(topics)), t)
  {
    if topics != [] {
      var front, last := topics[..|topics| - 1], topics[|topics| - 1];
      RequestClaimsCarry(id, front, t);
      var claims, parts := TopicClaims(id, last), OrEmpty(last.partitions);
      assert forall topic :: topic in topics <==> topic in front || topic == last;
      assert OrEmpty(Some(topics)) == topics && OrEmpty(Some(front)) == front;
      if part :| part in parts && t == Topition(last.name, part.index) && part.records.Some? {
        var i :| 0 <= i < |parts| && parts[i] == part;
        assert claims[i].topition == t && claims[i] in RequestClaims(id, topics);
      }
      if c :| c in claims && c.topition == t && c.records.Some? {
        var i :| 0 <= i < |claims| && claims[i] == c;
        assert parts[i] in parts && last in topics;
      }
    }
  }

  lemma {:induction false} ClaimsCarry(requests: seq<BatchRequest>, t: Topition)
    ensures t in CarriedTopitions(Claims(requests)) <==> exists r :: r in requests && Carries(r.request, t)
  {
    if requests != [] {
      var front, last := requests[..|requests| - 1], requests[|requests| - 1];
      ClaimsCarry(front, t);
      var topics := OrEmpty(last.request.topics);
      RequestClaimsCarry(last.id, topics, t);
      assert OrEmpty(Some(topics)) == topics;
      assert Carries(last.request, t) <==> Carries(ProduceRequest(Some(topics)), t);
      assert forall r :: r in requests <==> r in front || r == last;
      CarriedJoins(Claims(front), RequestClaims(last.id, topics), t);
    }
  }

  lemma CarriedJoins(a: seq<Claim>, b: seq<Claim>, t: Topition)
    ensures t in CarriedTopitions(a + b) <==> t in CarriedTopitions(a) || t in CarriedTopitions(b)
  {
    assert forall c :: c in a + b <==> c in a || c in b;
  }

  /** The merged request has a frame for exactly the topic partitions that some request sends records for. */
  lemma FramesAreCarried(codec: Codec, requests: seq<BatchRequest>, t: Topition)
    ensures t in Merge(codec, requests).frames <==> exists r :: r in requests && Carries(r.request, t)
    ensures Merge(codec, requests).acks == 0 && Merge(codec, requests).timeoutMs == 5000
  {
    ClaimsCarry(requests, t);
  }

  // ---- nothing is lost

  /**
   A single batch is sent on as it is. Of several that inflate, the merged request carries
   every record in the order the requests have them, exactly when what they merge into
   deflates or there was no record to carry; of several that do not all inflate it carries none.
   */
  lemma MergeConserves(codec: Codec, requests: seq<BatchRequest>, t: Topition)
    requires codec.Lossless() && exists r :: r in requests && Carries(r.request, t)
    ensures t in Merge(codec, requests).frames
    ensures
      var sent, frame := RequestsSend(requests, t), Merge(codec, requests).frames[t];
      var inflated := InflateAll(codec, sent);
      && (|sent| < 2 ==> frame == sent)
      && (|sent| >= 2 && inflated.Err? ==> frame == [])
      && (inflated.Ok? ==>
            var kept := InflateAll(codec, frame);
            kept.Ok? && (AllBodies(kept.value) == AllBodies(inflated.value) <==>
                         |sent| < 2 || codec.deflate(Merged(inflated.value)).Ok? || AllBodies(inflated.value) == []))
  {
    FramesAreCarried(codec, requests, t);
    ArrivesAsSent(requests, t);
    var sent := RequestsSend(requests, t);
    if InflateAll(codec, sent).Ok? && Combined(codec, sent).Ok? {
      CombinedKeepsBodies(codec, sent);
    }
  }

  /** When one of several batches does not inflate, the partition is sent with no records at all. */
  lemma FailedMergeSendsNothing(codec: Codec, requests: seq<BatchRequest>, t: Topition, i: nat)
    requires exists r :: r in requests && Carries(r.request, t)
    requires |RequestsSend(requests, t)| >= 2
    requires i < |RequestsSend(requests, t)| && codec.inflate(RequestsSend(requests, t)[i]).Err?
    ensures t in Merge(codec, requests).frames && Merge(codec, requests).frames[t] == []
  {
    FramesAreCarried(codec, requests, t);
    ArrivesAsSent(requests, t);
    InflateAllEach(codec, RequestsSend(requests, t));
  }
}
