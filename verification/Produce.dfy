/**
 The produce requests of many callers, who of them named which topic partition, and the origin's
 reply split back into one answer for each caller.

 The maps of maps that the proxy keeps, from topic to partition, are one map from
 topic and partition here.
 */
module Produce {
  import opened Wire
  import opened RecordBlob

  type Id = nat

  datatype Topition = Topition(topic: string, partition: int)

  datatype PartitionData = PartitionData(index: int, records: Option<seq<Batch>>)
  datatype TopicData = TopicData(name: string, partitions: Option<seq<PartitionData>>)
  datatype ProduceRequest = ProduceRequest(topics: Option<seq<TopicData>>)
  datatype BatchRequest = BatchRequest(id: Id, request: ProduceRequest)

  /** What the origin says of one partition. */
  datatype Entry = Entry(index: int, errorCode: int, baseOffset: int, leaderEpoch: int)
  datatype TopicReply = TopicReply(name: string, partitions: Option<seq<Entry>>)
  datatype ProduceResponse = ProduceResponse(topics: Option<seq<TopicReply>>, throttleTimeMs: int,
    endpoints: Option<seq<string>>)

  /** The part of a reply that one caller is given. */
  datatype Answer = Answer(entries: map<Topition, Entry>, throttleTimeMs: int, endpoints: Option<seq<string>>)

  /** The request sent to the origin. */
  datatype MergedRequest = MergedRequest(acks: int, timeoutMs: int, frames: map<Topition, seq<Batch>>)

  function OrEmpty<T>(list: Option<seq<T>>): seq<T> {
    if list.Some? then list.value else []
  }

  predicate Names(request: ProduceRequest, t: Topition) {
    exists topic, part :: topic in OrEmpty(request.topics) && part in OrEmpty(topic.partitions) &&
      t == Topition(topic.name, part.index)
  }

  predicate Covers(reply: ProduceResponse, t: Topition) {
    exists topic, entry :: topic in OrEmpty(reply.topics) && entry in OrEmpty(topic.partitions) &&
      t == Topition(topic.name, entry.index)
  }

  /** The reply itself has this entry, under the topic and index of this topic partition. */
  predicate Lists(reply: ProduceResponse, t: Topition, entry: Entry) {
    exists topic :: topic in OrEmpty(reply.topics) && entry in OrEmpty(topic.partitions) &&
      t == Topition(topic.name, entry.index)
  }

  /** Entry `j` of topic `i` of the reply is about this topic partition. */
  predicate IsPlace(topics: seq<TopicReply>, i: int, j: int, t: Topition) {
    && 0 <= i < |topics| && 0 <= j < |OrEmpty(topics[i].partitions)|
    && topics[i].name == t.topic && OrEmpty(topics[i].partitions)[j].index == t.partition
  }

  /** And it is the last that is. */
  ghost predicate IsLastPlace(topics: seq<TopicReply>, i: int, j: int, t: Topition) {
    && IsPlace(topics, i, j, t)
    && forall x, y :: IsPlace(topics, x, y, t) ==> x < i || (x == i && y <= j)
  }

  /** The last that the reply itself says of a topic partition is this entry. */
  ghost predicate SaysLast(reply: ProduceResponse, t: Topition, entry: Entry) {
    var topics := OrEmpty(reply.topics);
    exists i, j :: IsLastPlace(topics, i, j, t) && OrEmpty(topics[i].partitions)[j] == entry
  }

  // ---- requests and replies as flat lists, in order

  datatype Claim = Claim(topition: Topition, id: Id, records: Option<seq<Batch>>)

  function TopicClaims(id: Id, topic: TopicData): (r: seq<Claim>)
    ensures |r| == |OrEmpty(topic.partitions)|
  {
    var parts := OrEmpty(topic.partitions);
    seq(|parts|, i requires 0 <= i < |parts| => Claim(Topition(topic.name, parts[i].index), id, parts[i].records))
  }

  function RequestClaims(id: Id, topics: seq<TopicData>): seq<Claim> {
    if topics == [] then []
    else RequestClaims(id, topics[..|topics| - 1]) + TopicClaims(id, topics[|topics| - 1])
  }

  function Claims(requests: seq<BatchRequest>): seq<Claim> {
    if requests == [] then []
    else
      var last := requests[|requests| - 1];
      Claims(requests[..|requests| - 1]) + RequestClaims(last.id, OrEmpty(last.request.topics))
  }

  function TopicEntries(topic: TopicReply): (r: seq<(Topition, Entry)>)
    ensures |r| == |OrEmpty(topic.partitions)|
  {
    var parts := OrEmpty(topic.partitions);
    seq(|parts|, i requires 0 <= i < |parts| => (Topition(topic.name, parts[i].index), parts[i]))
  }

  function Entries(topics: seq<TopicReply>): seq<(Topition, Entry)> {
    if topics == [] then []
    else Entries(topics[..|topics| - 1]) + TopicEntries(topics[|topics| - 1])
  }

  lemma {:induction false} RequestClaimsAreNames(id: Id, topics: seq<TopicData>, t: Topition)
    ensures (exists c :: c in RequestClaims(id, topics) && c.topition == t) <==> Names(ProduceRequest(Some(topics)), t)
    ensures forall c :: c in RequestClaims(id, topics) ==> c.id == id
  {
    if topics != [] {
      var front, last := topics[..|topics| - 1], topics[|topics| - 1];
      RequestClaimsAreNames(id, front, t);
      var claims, parts := TopicClaims(id, last), OrEmpty(last.partitions);
      assert forall topic :: topic in topics <==> topic in front || topic == last;
      assert OrEmpty(Some(topics)) == topics && OrEmpty(Some(front)) == front;
      if part :| part in parts && t == Topition(last.name, part.index) {
        var i :| 0 <= i < |parts| && parts[i] == part;
        assert claims[i].topition == t && claims[i] in RequestClaims(id, topics);
      }
      if c :| c in claims && c.topition == t {
        var i :| 0 <= i < |claims| && claims[i] == c;
        assert parts[i] in parts && last in topics;
      }
    }
  }

  /** A caller claims exactly the topic partitions its request names. */
  lemma {:induction false} ClaimsAreNames(requests: seq<BatchRequest>, id: Id, t: Topition)
    ensures (exists c :: c in Claims(requests) && c.topition == t && c.id == id) <==>
            (exists r :: r in requests && r.id == id && Names(r.request, t))
  {
    if requests != [] {
      var front, last := requests[..|requests| - 1], requests[|requests| - 1];
      ClaimsAreNames(front, id, t);
      RequestClaimsAreNames(last.id, OrEmpty(last.request.topics), t);
      assert OrEmpty(Some(OrEmpty(last.request.topics))) == OrEmpty(last.request.topics);
      assert Names(last.request, t) <==> Names(ProduceRequest(Some(OrEmpty(last.request.topics))), t);
      assert forall r :: r in requests <==> r in front || r == last;
    }
  }

  lemma {:induction false} EntriesAreCovered(topics: seq<TopicReply>, t: Topition)
    ensures (exists e :: e in Entries(topics) && e.0 == t) <==> Covers(ProduceResponse(Some(topics), 0, None), t)
  {
    if topics != [] {
      var front, last := topics[..|topics| - 1], topics[|topics| - 1];
      EntriesAreCovered(front, t);
      var entries, parts := TopicEntries(last), OrEmpty(last.partitions);
      assert forall topic :: topic in topics <==> topic in front || topic == last;
      assert OrEmpty(Some(topics)) == topics && OrEmpty(Some(front)) == front;
      if part :| part in parts && t == Topition(last.name, part.index) {
        var i :| 0 <= i < |parts| && parts[i] == part;
        assert entries[i].0 == t && entries[i] in Entries(topics);
      }
      if e :| e in entries && e.0 == t {
        var i :| 0 <= i < |entries| && entries[i] == e;
        assert parts[i] in parts && last in topics;
      }
    }
  }

  // ---- who is owed what

  function Topitions(claims: seq<Claim>): set<Topition> {
    set c | c in claims :: c.topition
  }

  function Claimants(claims: seq<Claim>, t: Topition): set<Id> {
    set c | c in claims && c.topition == t :: c.id
  }

  function Owners(claims: seq<Claim>): map<Topition, set<Id>> {
    map t | t in Topitions(claims) :: Claimants(claims, t)
  }

  /** Record the owner of one topic partition. */
  function WithOwner(owners: map<Topition, set<Id>>, t: Topition, id: Id): map<Topition, set<Id>> {
    owners[t := (if t in owners then owners[t] else {}) + {id}]
  }

  lemma OwnersGrow(claims: seq<Claim>, c: Claim)
    ensures Owners(claims + [c]) == WithOwner(Owners(claims), c.topition, c.id)
  {
    assert forall d :: d in claims + [c] <==> d in claims || d == c;
    assert Topitions(claims + [c]) == Topitions(claims) + {c.topition};
    assert forall t :: t != c.topition ==> Claimants(claims + [c], t) == Claimants(claims, t);
    assert Claimants(claims + [c], c.topition) == Claimants(claims, c.topition) + {c.id};
    assert c.topition !in Topitions(claims) ==> Claimants(claims, c.topition) == {};
  }

  /** The partitions of one topic added to the owners. */
  method OwnersOfTopic(owners: map<Topition, set<Id>>, id: Id, topic: TopicData, ghost before: seq<Claim>)
    returns (r: map<Topition, set<Id>>)
    requires owners == Owners(before)
    ensures r == Owners(before + TopicClaims(id, topic))
  {
    r := owners;
    var parts := OrEmpty(topic.partitions);
    ghost var claims := TopicClaims(id, topic);
    assert before + claims[..0] == before;
    for i := 0 to |parts|
      invariant r == Owners(before + claims[..i])
    {
      var t := Topition(topic.name, parts[i].index);
      OwnersGrow(before + claims[..i], claims[i]);
      assert before + claims[..i + 1] == before + claims[..i] + [claims[i]];
      r := r[t := (if t in r then r[t] else {}) + {id}];
    }
    assert claims[..|parts|] == claims;
  }

  lemma {:induction false} RequestClaimsGrow(id: Id, topics: seq<TopicData>, topic: TopicData)
    ensures RequestClaims(id, topics + [topic]) == RequestClaims(id, topics) + TopicClaims(id, topic)
  {
    AllButLast(topics, [topic]);
  }

  lemma {:induction false} ClaimsGrow(requests: seq<BatchRequest>, request: BatchRequest)
    ensures Claims(requests + [request]) ==
      Claims(requests) + RequestClaims(request.id, OrEmpty(request.request.topics))
  {
    AllButLast(requests, [request]);
  }

  method OwnersOfRequest(owners: map<Topition, set<Id>>, request: BatchRequest, ghost before: seq<Claim>)
    returns (r: map<Topition, set<Id>>)
    requires owners == Owners(before)
    ensures r == Owners(before + RequestClaims(request.id, OrEmpty(request.request.topics)))
  {
    r := owners;
    var topics := OrEmpty(request.request.topics);
    ghost var claims := [];
    assert before + claims == before;
    for i := 0 to |topics|
      invariant claims == RequestClaims(request.id, topics[..i]) && r == Owners(before + claims)
    {
      r := OwnersOfTopic(r, request.id, topics[i], before + claims);
      Associate(before, claims, TopicClaims(request.id, topics[i]));
      Grow(topics, i);
      RequestClaimsGrow(request.id, topics[..i], topics[i]);
      claims := claims + TopicClaims(request.id, topics[i]);
    }
    assert topics[..|topics|] == topics;
  }

  /** For each topic partition of the requests, the callers that named it. */
  method OwnersFrom(requests: seq<BatchRequest>) returns (owners: map<Topition, set<Id>>)
    ensures owners == Owners(Claims(requests))
  {
    owners := map[];
    for i := 0 to |requests|
      invariant owners == Owners(Claims(requests[..i]))
    {
      owners := OwnersOfRequest(owners, requests[i], Claims(requests[..i]));
      Grow(requests, i);
      ClaimsGrow(requests[..i], requests[i]);
    }
    assert requests[..|requests|] == requests;
  }

  /** A later entry for the same topic partition replaces an earlier one. */
  function Last(entries: seq<(Topition, Entry)>): map<Topition, Entry> {
    if entries == [] then map[]
    else Last(entries[..|entries| - 1])[entries[|entries| - 1].0 := entries[|entries| - 1].1]
  }

  lemma {:induction false} LastIsListed(entries: seq<(Topition, Entry)>, t: Topition)
    ensures t in Last(entries) <==> exists e :: e in entries && e.0 == t
    ensures t in Last(entries) ==> (t, Last(entries)[t]) in entries
  {
    if entries != [] {
      var front, last := entries[..|entries| - 1], entries[|entries| - 1];
      assert forall e :: e in entries <==> e in front || e == last;
      LastIsListed(front, t);
    }
  }

  lemma {:induction false} LastJoins(a: seq<(Topition, Entry)>, b: seq<(Topition, Entry)>)
    ensures Last(a + b) == Last(a) + Last(b)
  {
    if b == [] {
      assert a + b == a;
    } else {
      AllButLast(a, b);
      LastJoins(a, b[..|b| - 1]);
    }
  }

  /** Where the last entry for a topic partition stands. */
  lemma {:induction false} LastStands(entries: seq<(Topition, Entry)>, t: Topition) returns (k: nat)
    requires t in Last(entries)
    ensures k < |entries| && entries[k] == (t, Last(entries)[t])
    ensures forall i :: k < i < |entries| ==> entries[i].0 != t
  {
    var front, last := entries[..|entries| - 1], entries[|entries| - 1];
    if last.0 == t {
      k := |entries| - 1;
    } else {
      k := LastStands(front, t);
      assert entries[k] == front[k];
      forall i | k < i < |entries| ensures entries[i].0 != t {
        assert i < |front| ==> entries[i] == front[i];
      }
    }
  }

  lemma TopicSaysLast(topics: seq<TopicReply>, t: Topition) returns (j: nat)
    requires topics != [] && t in Last(TopicEntries(topics[|topics| - 1]))
    ensures IsLastPlace(topics, |topics| - 1, j, t)
    ensures OrEmpty(topics[|topics| - 1].partitions)[j] == Last(TopicEntries(topics[|topics| - 1]))[t]
  {
    var last := topics[|topics| - 1];
    var entries, parts := TopicEntries(last), OrEmpty(last.partitions);
    j := LastStands(entries, t);
    assert entries[j] == (Topition(last.name, parts[j].index), parts[j]);
    forall x, y | IsPlace(topics, x, y, t) ensures x < |topics| - 1 || (x == |topics| - 1 && y <= j) {
      if x == |topics| - 1 {
        assert entries[y].0 == t;
      }
    }
  }

  lemma PlaceIsListed(topics: seq<TopicReply>, y: int, t: Topition)
    requires IsPlace(topics, |topics| - 1, y, t)
    ensures t in Last(TopicEntries(topics[|topics| - 1]))
  {
    var entries := TopicEntries(topics[|topics| - 1]);
    LastIsListed(entries, t);
    assert entries[y] in entries && entries[y].0 == t;
  }

  lemma PlaceInFront(topics: seq<TopicReply>, x: int, y: int, t: Topition)
    requires IsPlace(topics, x, y, t) && t !in Last(TopicEntries(topics[|topics| - 1]))
    ensures IsPlace(topics[..|topics| - 1], x, y, t)
  {
    if x == |topics| - 1 {
      PlaceIsListed(topics, y, t);
    }
  }

  lemma FrontIsLastPlace(topics: seq<TopicReply>, i: int, j: int, t: Topition)
    requires topics != [] && t !in Last(TopicEntries(topics[|topics| - 1]))
    requires IsLastPlace(topics[..|topics| - 1], i, j, t)
    ensures IsLastPlace(topics, i, j, t)
  {
    forall x, y | IsPlace(topics, x, y, t) ensures x < i || (x == i && y <= j) {
      PlaceInFront(topics, x, y, t);
    }
  }

  /** The last entry listed for a topic partition is the last the reply says of it. */
  lemma {:induction false} LastIsLastPlace(topics: seq<TopicReply>, t: Topition) returns (i: nat, j: nat)
    requires t in Last(Entries(topics))
    ensures IsLastPlace(topics, i, j, t) && OrEmpty(topics[i].partitions)[j] == Last(Entries(topics))[t]
  {
    var front, last := topics[..|topics| - 1], topics[|topics| - 1];
    LastJoins(Entries(front), TopicEntries(last));
    if t in Last(TopicEntries(last)) {
      i := |topics| - 1;
      j := TopicSaysLast(topics, t);
    } else {
      i, j := LastIsLastPlace(front, t);
      FrontIsLastPlace(topics, i, j, t);
    }
  }

  predicate Owes(owners: map<Topition, set<Id>>, t: Topition, id: Id) {
    t in owners && id in owners[t]
  }

  function Share(owners: map<Topition, set<Id>>, last: map<Topition, Entry>, id: Id): map<Topition, Entry> {
    map t | t in last && Owes(owners, t, id) :: last[t]
  }

  function Owed(owners: map<Topition, set<Id>>, last: map<Topition, Entry>): set<Id> {
    set t, id | t in last && t in owners && id in owners[t] :: id
  }

  lemma OwedIsShare(owners: map<Topition, set<Id>>, last: map<Topition, Entry>, id: Id)
    ensures id in Owed(owners, last) <==> exists t :: t in last && Owes(owners, t, id)
  {
  }

  function Shares(owners: map<Topition, set<Id>>, last: map<Topition, Entry>): map<Id, map<Topition, Entry>> {
    map id | id in Owed(owners, last) :: Share(owners, last, id)
  }

  /** The reply split up: each owner gets the entries of the topic partitions it named. */
  function Split(owners: map<Topition, set<Id>>, reply: ProduceResponse): map<Id, Answer> {
    var last := Last(Entries(OrEmpty(reply.topics)));
    map id | id in Owed(owners, last) :: Answer(Share(owners, last, id), reply.throttleTimeMs, reply.endpoints)
  }

  /** One entry handed to some of the callers. */
  function Handed(shares: map<Id, map<Topition, Entry>>, t: Topition, entry: Entry, ids: set<Id>)
    : map<Id, map<Topition, Entry>>
  {
    map id | id in shares.Keys + ids ::
      if id in ids then (if id in shares then shares[id] else map[])[t := entry] else shares[id]
  }

  lemma ShareGrows(owners: map<Topition, set<Id>>, last: map<Topition, Entry>, t: Topition, entry: Entry, id: Id)
    ensures Share(owners, last[t := entry], id) ==
            if Owes(owners, t, id) then Share(owners, last, id)[t := entry] else Share(owners, last, id)
  {
  }

  lemma OwedGrows(owners: map<Topition, set<Id>>, last: map<Topition, Entry>, t: Topition, entry: Entry, id: Id)
    ensures id in Owed(owners, last[t := entry]) <==> id in Owed(owners, last) || Owes(owners, t, id)
    ensures id !in Owed(owners, last) ==> Share(owners, last, id) == map[]
  {
    OwedIsShare(owners, last, id);
    OwedIsShare(owners, last[t := entry], id);
    assert t in last[t := entry];
    if u :| u in last && Owes(owners, u, id) {
      assert u in last[t := entry];
    }
  }

  lemma SharesGrow(owners: map<Topition, set<Id>>, last: map<Topition, Entry>, t: Topition, entry: Entry)
    ensures Shares(owners, last[t := entry]) ==
            Handed(Shares(owners, last), t, entry, if t in owners then owners[t] else {})
  {
    forall id ensures id in Owed(owners, last[t := entry]) <==> id in Owed(owners, last) || Owes(owners, t, id) {
      OwedGrows(owners, last, t, entry, id);
    }
    var after := Shares(owners, last[t := entry]);
    var handed := Handed(Shares(owners, last), t, entry, if t in owners then owners[t] else {});
    assert after.Keys == handed.Keys;
    forall id | id in after ensures after[id] == handed[id] {
      OwedGrows(owners, last, t, entry, id);
      ShareGrows(owners, last, t, entry, id);
    }
  }

  /** Hand one entry to every owner of its topic partition. */
  method HandOut(shares: map<Id, map<Topition, Entry>>, t: Topition, entry: Entry, ids: set<Id>)
    returns (r: map<Id, map<Topition, Entry>>)
    ensures r == Handed(shares, t, entry, ids)
  {
    r := shares;
    var left := ids;
    assert Handed(shares, t, entry, ids - left) == shares;
    while left != {}
      invariant left <= ids && r == Handed(shares, t, entry, ids - left)
      decreases left
    {
      var id :| id in left;
      ghost var was := r;
      var rest := left - {id};
      r := r[id := (if id in r then r[id] else map[])[t := entry]];
      assert ids - rest == ids - left + {id};
      assert r == Handed(shares, t, entry, ids - rest);
      left := rest;
    }
    assert ids - left == ids;
  }

  lemma {:induction false} LastGrows(before: seq<(Topition, Entry)>, entries: seq<(Topition, Entry)>, i: nat)
    requires i < |entries|
    ensures Last(before + entries[..i + 1]) == Last(before + entries[..i])[entries[i].0 := entries[i].1]
  {
    Grow(entries, i);
    Associate(before, entries[..i], [entries[i]]);
    AllButLast(before + entries[..i], [entries[i]]);
  }

  /** Hand out the entries of one topic. */
  method HandOutTopic(owners: map<Topition, set<Id>>, shares: map<Id, map<Topition, Entry>>, topic: TopicReply,
                      ghost before: seq<(Topition, Entry)>)
    returns (r: map<Id, map<Topition, Entry>>)
    requires shares == Shares(owners, Last(before))
    ensures r == Shares(owners, Last(before + TopicEntries(topic)))
  {
    r := shares;
    var parts := OrEmpty(topic.partitions);
    ghost var entries := TopicEntries(topic);
    assert before + entries[..0] == before;
    for i := 0 to |parts|
      invariant r == Shares(owners, Last(before + entries[..i]))
    {
      var t := Topition(topic.name, parts[i].index);
      LastGrows(before, entries, i);
      SharesGrow(owners, Last(before + entries[..i]), t, parts[i]);
      r := HandOut(r, t, parts[i], if t in owners then owners[t] else {});
    }
    assert entries[..|parts|] == entries;
  }

  /** Split the reply by walking its topics and partitions. */
  method SplitReply(owners: map<Topition, set<Id>>, reply: ProduceResponse) returns (r: map<Id, Answer>)
    ensures r == Split(owners, reply)
  {
    var shares: map<Id, map<Topition, Entry>> := map[];
    var topics := OrEmpty(reply.topics);
    for i := 0 to |topics|
      invariant shares == Shares(owners, Last(Entries(topics[..i])))
    {
      assert topics[..i + 1][..i] == topics[..i];
      shares := HandOutTopic(owners, shares, topics[i], Entries(topics[..i]));
    }
    assert topics[..|topics|] == topics;
    r := map id | id in shares :: Answer(shares[id], reply.throttleTimeMs, reply.endpoints);
  }

  // ---- what the callers can rely on

  predicate DistinctIds(requests: seq<BatchRequest>) {
    forall i, j :: 0 <= i < j < |requests| ==> requests[i].id != requests[j].id
  }

  /** An answer to a request: the named partitions that the reply covers, with what the reply says last of each. */
  ghost predicate Fair(answer: Answer, request: ProduceRequest, reply: ProduceResponse) {
    && answer.throttleTimeMs == reply.throttleTimeMs && answer.endpoints == reply.endpoints
    && (forall t :: t in answer.entries <==> Names(request, t) && Covers(reply, t))
    && (forall t :: t in answer.entries ==> SaysLast(reply, t, answer.entries[t]))
  }

  lemma ListedIsSaid(reply: ProduceResponse, t: Topition)
    requires t in Last(Entries(OrEmpty(reply.topics)))
    ensures SaysLast(reply, t, Last(Entries(OrEmpty(reply.topics)))[t])
  {
    var i, j := LastIsLastPlace(OrEmpty(reply.topics), t);
  }

  lemma CoveredIsListed(reply: ProduceResponse, t: Topition)
    ensures t in Last(Entries(OrEmpty(reply.topics))) <==> Covers(reply, t)
  {
    LastIsListed(Entries(OrEmpty(reply.topics)), t);
    EntriesAreCovered(OrEmpty(reply.topics), t);
    assert OrEmpty(Some(OrEmpty(reply.topics))) == OrEmpty(reply.topics);
  }

  lemma OwedByName(requests: seq<BatchRequest>, r: BatchRequest, t: Topition)
    requires DistinctIds(requests) && r in requests
    ensures Owes(Owners(Claims(requests)), t, r.id) <==> Names(r.request, t)
  {
    ClaimsAreNames(requests, r.id, t);
    OwesIsClaimed(Claims(requests), t, r.id);
    if q :| q in requests && q.id == r.id && Names(q.request, t) {
      assert q == r;
    }
  }

  lemma OwesIsClaimed(claims: seq<Claim>, t: Topition, id: Id)
    ensures Owes(Owners(claims), t, id) <==> exists c :: c in claims && c.topition == t && c.id == id
  {
  }

  /** Every caller is answered by exactly its own partitions, if the reply covers any of them. */
  lemma MergeThenSplit(requests: seq<BatchRequest>, r: BatchRequest, reply: ProduceResponse)
    requires DistinctIds(requests) && r in requests
    ensures
      var answers := Split(Owners(Claims(requests)), reply);
      && (r.id in answers <==> exists t :: Names(r.request, t) && Covers(reply, t))
      && (r.id in answers ==> Fair(answers[r.id], r.request, reply))
  {
    forall t ensures Owes(Owners(Claims(requests)), t, r.id) <==> Names(r.request, t) {
      OwedByName(requests, r, t);
    }
    forall t ensures t in Last(Entries(OrEmpty(reply.topics))) <==> Covers(reply, t) {
      CoveredIsListed(reply, t);
    }
    OwedIsShare(Owners(Claims(requests)), Last(Entries(OrEmpty(reply.topics))), r.id);
    forall t | t in Last(Entries(OrEmpty(reply.topics)))
      ensures SaysLast(reply, t, Last(Entries(OrEmpty(reply.topics)))[t])
    {
      ListedIsSaid(reply, t);
    }
  }

  /** Nobody else is answered. */
  lemma OnlyCallersAnswered(requests: seq<BatchRequest>, id: Id, reply: ProduceResponse)
    requires id in Split(Owners(Claims(requests)), reply)
    ensures exists r :: r in requests && r.id == id
  {
    OwedIsShare(Owners(Claims(requests)), Last(Entries(OrEmpty(reply.topics))), id);
    var t :| t in Last(Entries(OrEmpty(reply.topics))) && Owes(Owners(Claims(requests)), t, id);
    OwesIsClaimed(Claims(requests), t, id);
    ClaimsAreNames(requests, id, t);
  }

  /** When one place of the reply is about a topic partition, whoever named that holds the entry of that place. */
  lemma AnswerHoldsTheEntry(requests: seq<BatchRequest>, r: BatchRequest, reply: ProduceResponse, t: Topition, i: nat,
      j: nat)
    requires DistinctIds(requests) && r in requests && Names(r.request, t)
    requires IsPlace(OrEmpty(reply.topics), i, j, t)
    requires forall x, y :: IsPlace(OrEmpty(reply.topics), x, y, t) ==> x == i && y == j
    ensures
      var answers := Split(Owners(Claims(requests)), reply);
      && r.id in answers && t in answers[r.id].entries
      && answers[r.id].entries[t] == OrEmpty(OrEmpty(reply.topics)[i].partitions)[j]
  {
    var topic := OrEmpty(reply.topics)[i];
    assert topic in OrEmpty(reply.topics) && OrEmpty(topic.partitions)[j] in OrEmpty(topic.partitions);
    assert Covers(reply, t);
    MergeThenSplit(requests, r, reply);
  }

  /** Whatever anyone holds is an entry of the reply, under the topic and index it has there. */
  lemma HeldIsOfReply(requests: seq<BatchRequest>, r: BatchRequest, reply: ProduceResponse, t: Topition)
    requires DistinctIds(requests) && r in requests
    requires
      var answers := Split(Owners(Claims(requests)), reply);
      r.id in answers && t in answers[r.id].entries
    ensures Lists(reply, t, Split(Owners(Claims(requests)), reply)[r.id].entries[t])
  {
    MergeThenSplit(requests, r, reply);
    SaidIsOfReply(reply, t, Split(Owners(Claims(requests)), reply)[r.id].entries[t]);
  }

  lemma SaidIsOfReply(reply: ProduceResponse, t: Topition, entry: Entry)
    requires SaysLast(reply, t, entry)
    ensures Lists(reply, t, entry)
  {
    var topics := OrEmpty(reply.topics);
    var i, j :| IsLastPlace(topics, i, j, t) && OrEmpty(topics[i].partitions)[j] == entry;
    assert topics[i] in topics && entry in OrEmpty(topics[i].partitions);
  }
}
