/**
 One member of a consumer group: it joins, synchronises and sends heartbeats, and falls
 back to joining when the broker rebalances the group or forgets the member.
 */
module Consumer {
  import opened Wire

  const NONE := 0
  const NOT_COORDINATOR := 16
  const UNKNOWN_MEMBER_ID := 25
  const REBALANCE_IN_PROGRESS := 27
  const MEMBER_ID_REQUIRED := 79

  const SUBSCRIPTION_V3 := 3

  datatype TopicPartition = TopicPartition(topic: string, partitions: seq<int>)
  datatype MemberAssignment = MemberAssignment(version: int, partitions: seq<TopicPartition>)
  datatype Subscription = Subscription(version: int, topics: seq<string>, owned: seq<TopicPartition>, generationId: int)

  datatype Assignor = CooperativeSticky | Range | RoundRobin | Uniform {

    function Name(): string {
      match this
      case CooperativeSticky => "cooperative-sticky"
      case Range => "range"
      case RoundRobin => "roundrobin"
      case Uniform => "uniform"
    }
  }

  const ASSIGNORS := [Range, RoundRobin, Uniform, CooperativeSticky]

  datatype Member = Member(id: string, metadata: bytes)
  datatype Share = Share(memberId: string, assignment: bytes)

  /** The metadata codec and the assignors, each of which may fail. */
  datatype Library = Library(
    encode: Subscription -> Result<bytes>,
    decode: bytes -> Result<MemberAssignment>,
    assign: (Assignor, seq<Member>) -> Result<seq<Share>>)

  datatype Config = Config(groupId: string, topics: seq<string>, rebalanceTimeoutMs: int, sessionTimeoutMs: int)

  datatype Protocol = Protocol(name: string, metadata: bytes)

  datatype Request =
    | JoinRequest(groupId: string, groupType: string, memberId: string, reason: string, rebalanceTimeoutMs: int,
                  sessionTimeoutMs: int, protocols: seq<Protocol>)
    | SyncRequest(groupId: string, generationId: int, memberId: string, shares: seq<Share>,
                  protocolType: Option<string>, protocolName: Option<string>)
    | HeartbeatRequest(groupId: string, generationId: int, memberId: string)

  datatype Response =
    | JoinResponse(errorCode: int, generationId: int, protocolType: Option<string>, protocolName: Option<string>,
                   leader: string, memberId: string, members: Option<seq<Member>>)
    | SyncResponse(errorCode: int, assignment: bytes)
    | HeartbeatResponse(errorCode: int)
    | OtherResponse

  /** What the member does next. The last two abort the process. */
  datatype Action = Send(request: Request) | Fails(error: Error) | AssertFails | FallsThrough

  /** An outsider remembers what it may still need when it joins again. */
  datatype MemberState =
    | Outsider(lastGeneration: Option<int>, lastMember: Option<string>, assignment: Option<MemberAssignment>)
    | Follower(generationId: int, memberId: string, assignment: Option<MemberAssignment>)
    | Leader(generationId: int, memberId: string, assignment: Option<MemberAssignment>)

  const NEWCOMER := Outsider(None, None, None)

  // ---- joining

  function Or<T>(o: Option<T>, default: T): T {
    if o.Some? then o.value else default
  }

  function SubscriptionOf(config: Config, generation: Option<int>, assignment: Option<MemberAssignment>): Subscription {
    Subscription(if assignment.Some? then assignment.value.version else SUBSCRIPTION_V3, config.topics,
                 if assignment.Some? then assignment.value.partitions else [], Or(generation, -1))
  }

  function Protocols(metadata: bytes): (r: seq<Protocol>)
    ensures |r| == |ASSIGNORS| && forall i :: 0 <= i < |ASSIGNORS| ==> r[i] == Protocol(ASSIGNORS[i].Name(), metadata)
  {
    seq(|ASSIGNORS|, i requires 0 <= i < |ASSIGNORS| => Protocol(ASSIGNORS[i].Name(), metadata))
  }

  /** A join request offers every assignor, all with the same subscription. */
  function Join(lib: Library, config: Config, s: MemberState, reason: string): Action
    requires s.Outsider?
  {
    var encoded := lib.encode(SubscriptionOf(config, s.lastGeneration, s.assignment));
    if encoded.Err? then Fails(encoded.error)
    else Send(JoinRequest(config.groupId, "consumer", Or(s.lastMember, ""), reason,
                          config.rebalanceTimeoutMs, config.sessionTimeoutMs, Protocols(encoded.value)))
  }

  function AssignorNamed(name: Option<string>): (r: Assignor)
    ensures name.Some? && (exists a: Assignor :: a.Name() == name.value) ==> r.Name() == name.value
    ensures name.None? || (forall a: Assignor :: a.Name() != name.value) ==> r == Range
  {
    if name == Some("cooperative-sticky") then CooperativeSticky
    else if name == Some("roundrobin") then RoundRobin
    else if name == Some("uniform") then Uniform
    else Range
  }

  // ---- one transition

  function Assigned(s: MemberState, a: MemberAssignment): MemberState
    requires !s.Outsider?
  {
    if s.Leader? then Leader(s.generationId, s.memberId, Some(a)) else Follower(s.generationId, s.memberId, Some(a))
  }

  /** The state after a response, whether or not the action that follows succeeds. */
  function NextState(lib: Library, s: MemberState, r: Response): MemberState {
    match r
    case JoinResponse(code, generation, _, _, leader, member, _) =>
      if !s.Outsider? then s
      else if code == MEMBER_ID_REQUIRED then s.(lastGeneration := Some(generation), lastMember := Some(member))
      else if code == NONE && leader == member then Leader(generation, member, None)
      else if code == NONE then Follower(generation, member, None)
      else s
    case SyncResponse(code, bytes) =>
      if s.Outsider? then s
      else if code == NONE && bytes != [] && lib.decode(bytes).Ok? then Assigned(s, lib.decode(bytes).value)
      else if code == REBALANCE_IN_PROGRESS && bytes == [] then Outsider(None, Some(s.memberId), s.assignment)
      else s
    case HeartbeatResponse(code) =>
      if s.Outsider? then s
      else if code == UNKNOWN_MEMBER_ID then NEWCOMER
      else if code == REBALANCE_IN_PROGRESS then Outsider(Some(s.generationId), Some(s.memberId), s.assignment)
      else s
    case OtherResponse => s
  }

  function Heartbeat(config: Config, s: MemberState): Action
    requires !s.Outsider?
  {
    Send(HeartbeatRequest(config.groupId, s.generationId, s.memberId))
  }

  function Synchronise(lib: Library, config: Config, r: Response): Action
    requires r.JoinResponse?
  {
    var shares :=
      if r.leader != r.memberId then Ok([])
      else lib.assign(AssignorNamed(r.protocolName), Or(r.members, []));
    if shares.Err? then Fails(shares.error)
    else Send(SyncRequest(config.groupId, r.generationId, r.memberId, shares.value, r.protocolType, r.protocolName))
  }

  function ActionOn(lib: Library, config: Config, s: MemberState, r: Response): Action {
    var n := NextState(lib, s, r);
    match r
    case JoinResponse(code, _, _, _, _, _, _) =>
      if !s.Outsider? then FallsThrough
      else if code == NOT_COORDINATOR then Join(lib, config, s, "join")
      else if code == MEMBER_ID_REQUIRED then Join(lib, config, n, "join member id required")
      else if code == NONE then Synchronise(lib, config, r)
      else FallsThrough
    case SyncResponse(code, bytes) =>
      if s.Outsider? then FallsThrough
      else if code == NONE then
        if bytes == [] then AssertFails
        else if lib.decode(bytes).Err? then Fails(lib.decode(bytes).error)
        else Heartbeat(config, s)
      else if code == REBALANCE_IN_PROGRESS then
        if bytes != [] then AssertFails else Join(lib, config, n, "join after sync with rebalance")
      else FallsThrough
    case HeartbeatResponse(code) =>
      if s.Outsider? then FallsThrough
      else if code == UNKNOWN_MEMBER_ID then Join(lib, config, n, "join after unknown member id")
      else if code == REBALANCE_IN_PROGRESS then Join(lib, config, n, "join after rebalance")
      else if code == NONE then Heartbeat(config, s)
      else FallsThrough
    case OtherResponse => FallsThrough
  }

  function Tally(errors: map<int, nat>, code: int): nat {
    if code in errors then errors[code] else 0
  }

  function Bumped(errors: map<int, nat>, code: int): map<int, nat> {
    errors[code := Tally(errors, code) + 1]
  }

  // ---- the member itself

  class GroupConsumer {
    const config: Config
    const lib: Library
    var memberState: MemberState
    var errors: map<int, nat>

    constructor (lib: Library, config: Config)
      ensures this.lib == lib && this.config == config && memberState == NEWCOMER && errors == map[]
    {
      this.lib, this.config, memberState, errors := lib, config, NEWCOMER, map[];
    }

    method CountError(code: int)
      modifies `errors
      ensures errors == Bumped(old(errors), code)
    {
      errors := errors[code := (if code in errors then errors[code] else 0) + 1];
    }

    /** One protocol for each assignor, in the order they are preferred. */
    method JoinProtocols(generation: Option<int>, assignment: Option<MemberAssignment>)
      returns (r: Result<seq<Protocol>>)
      ensures
        var encoded := lib.encode(SubscriptionOf(config, generation, assignment));
        r == if encoded.Err? then Err(encoded.error) else Ok(Protocols(encoded.value))
    {
      var protocols: seq<Protocol> := [];
      ghost var encoded := lib.encode(SubscriptionOf(config, generation, assignment));
      for i := 0 to |ASSIGNORS|
        invariant |protocols| == i
        invariant i > 0 ==> encoded.Ok?
        invariant encoded.Ok? ==> forall j :: 0 <= j < i ==>
          protocols[j] == Protocol(ASSIGNORS[j].Name(), encoded.value)
      {
        var metadata := lib.encode(Subscription(
          if assignment.Some? then assignment.value.version else SUBSCRIPTION_V3, config.topics,
          if assignment.Some? then assignment.value.partitions else [], Or(generation, -1)));
        if metadata.Err? {
          return Err(metadata.error);
        }
        protocols := protocols + [Protocol(ASSIGNORS[i].Name(), metadata.value)];
      }
      assert protocols == Protocols(encoded.value);
      return Ok(protocols);
    }

    method JoinWith(reason: string) returns (action: Action)
      requires memberState.Outsider?
      ensures action == Join(lib, config, memberState, reason)
    {
      var protocols := JoinProtocols(memberState.lastGeneration, memberState.assignment);
      if protocols.Err? {
        return Fails(protocols.error);
      }
      return Send(JoinRequest(config.groupId, "consumer", Or(memberState.lastMember, ""), reason,
        config.rebalanceTimeoutMs, config.sessionTimeoutMs, protocols.value));
    }

    /** Outside the group, only the answer to a join is expected. */
    method OnJoin(r: Response) returns (action: Action)
      requires memberState.Outsider? && r.JoinResponse?
      modifies this
      ensures memberState == NextState(lib, old(memberState), r)
      ensures action == ActionOn(lib, config, old(memberState), r)
      ensures errors == if action.FallsThrough? then old(errors) else Bumped(old(errors), r.errorCode)
    {
      if r.errorCode == NOT_COORDINATOR {
        CountError(NOT_COORDINATOR);
        action := JoinWith("join");
      } else if r.errorCode == MEMBER_ID_REQUIRED {
        CountError(MEMBER_ID_REQUIRED);
        memberState := memberState.(lastGeneration := Some(r.generationId), lastMember := Some(r.memberId));
        action := JoinWith("join member id required");
      } else if r.errorCode == NONE && r.leader == r.memberId {
        CountError(NONE);
        memberState := Leader(r.generationId, r.memberId, None);
        var shares := lib.assign(AssignorNamed(r.protocolName), Or(r.members, []));
        if shares.Err? {
          return Fails(shares.error);
        }
        action := Send(SyncRequest(config.groupId, r.generationId, r.leader, shares.value, r.protocolType,
          r.protocolName));
      } else if r.errorCode == NONE {
        CountError(NONE);
        memberState := Follower(r.generationId, r.memberId, None);
        action := Send(SyncRequest(config.groupId, r.generationId, r.memberId, [], r.protocolType, r.protocolName));
      } else {
        action := FallsThrough;
      }
    }

    method OnSync(r: Response) returns (action: Action)
      requires !memberState.Outsider? && r.SyncResponse?
      modifies this
      ensures memberState == NextState(lib, old(memberState), r)
      ensures action == ActionOn(lib, config, old(memberState), r)
      ensures errors == if action.FallsThrough? then old(errors) else Bumped(old(errors), r.errorCode)
    {
      if r.errorCode == NONE {
        CountError(NONE);
        if r.assignment == [] {
          return AssertFails;
        }
        var assignment := lib.decode(r.assignment);
        if assignment.Err? {
          return Fails(assignment.error);
        }
        memberState := Assigned(memberState, assignment.value);
        action := Send(HeartbeatRequest(config.groupId, memberState.generationId, memberState.memberId));
      } else if r.errorCode == REBALANCE_IN_PROGRESS {
        CountError(REBALANCE_IN_PROGRESS);
        if r.assignment != [] {
          return AssertFails;
        }
        memberState := Outsider(None, Some(memberState.memberId), memberState.assignment);
        action := JoinWith("join after sync with rebalance");
      } else {
        action := FallsThrough;
      }
    }

    method OnHeartbeat(r: Response) returns (action: Action)
      requires !memberState.Outsider? && r.HeartbeatResponse?
      modifies this
      ensures memberState == NextState(lib, old(memberState), r)
      ensures action == ActionOn(lib, config, old(memberState), r)
      ensures errors == if action.FallsThrough? then old(errors) else Bumped(old(errors), r.errorCode)
    {
      if r.errorCode == UNKNOWN_MEMBER_ID {
        CountError(UNKNOWN_MEMBER_ID);
        memberState := Outsider(None, None, None);
        action := JoinWith("join after unknown member id");
      } else if r.errorCode == REBALANCE_IN_PROGRESS {
        CountError(REBALANCE_IN_PROGRESS);
        memberState := Outsider(Some(memberState.generationId), Some(memberState.memberId), memberState.assignment);
        action := JoinWith("join after rebalance");
      } else if r.errorCode == NONE {
        CountError(NONE);
        action := Send(HeartbeatRequest(config.groupId, memberState.generationId, memberState.memberId));
      } else {
        action := FallsThrough;
      }
    }

    /** What the member does at the start, with no input, and on each response from the broker. */
    method NextAction(input: Option<Response>) returns (action: Action)
      modifies this
      ensures input.None? ==> memberState == old(memberState) && errors == old(errors)
      ensures input.None? ==>
        action == if memberState.Outsider? then Join(lib, config, memberState, "join") else FallsThrough
      ensures input.Some? ==> memberState == NextState(lib, old(memberState), input.value)
      ensures input.Some? ==> action == ActionOn(lib, config, old(memberState), input.value)
      ensures input.Some? && action.FallsThrough? ==> errors == old(errors)
      ensures input.Some? && !action.FallsThrough? ==>
        !input.value.OtherResponse? && errors == Bumped(old(errors), input.value.errorCode)
    {
      if input.None? && memberState.Outsider? {
        action := JoinWith("join");
      } else if input.None? {
        action := FallsThrough;
      } else if memberState.Outsider? && input.value.JoinResponse? {
        action := OnJoin(input.value);
      } else if !memberState.Outsider? && input.value.SyncResponse? {
        action := OnSync(input.value);
      } else if !memberState.Outsider? && input.value.HeartbeatResponse? {
        action := OnHeartbeat(input.value);
      } else {
        action := FallsThrough;
      }
    }
  }

  // ---- runs against any broker

  type Input = Option<Response>

  datatype Trace = Trace(state: MemberState, errors: map<int, nat>, action: Action) {

    /** The process is alive: a request was sent, or a library call failed and left the state as it is. */
    predicate Alive() {
      action.Send? || action.Fails?
    }
  }

  /** Any input, a response or none, in any state. */
  function React(lib: Library, config: Config, t: Trace, input: Input): Trace {
    if input.None? then t.(action := if t.state.Outsider? then Join(lib, config, t.state, "join") else FallsThrough)
    else
      var r := input.value;
      var action := ActionOn(lib, config, t.state, r);
      Trace(NextState(lib, t.state, r),
            if action.FallsThrough? || r.OtherResponse? then t.errors else Bumped(t.errors, r.errorCode), action)
  }

  /** Where the member is after its first join and these inputs, if the process lived to take them all. */
  function After(lib: Library, config: Config, inputs: seq<Input>): Option<Trace> {
    if inputs == [] then Some(Trace(NEWCOMER, map[], Join(lib, config, NEWCOMER, "join")))
    else
      var before := After(lib, config, inputs[..|inputs| - 1]);
      if before.None? || !before.value.Alive() then None
      else Some(React(lib, config, before.value, inputs[|inputs| - 1]))
  }

  /**
   A response of the kind the request asks for, with a code the member handles. The codes are those
   of the Kafka protocol: 0 none, 16 not coordinator, 25 unknown member id, 27 rebalance in progress,
   79 member id required.
   */
  predicate Expected(request: Request, r: Response) {
    match request
    case JoinRequest(_, _, _, _, _, _, _) => r.JoinResponse? && r.errorCode in {0, 16, 79}
    case SyncRequest(_, _, _, _, _, _) =>
      r.SyncResponse? && ((r.errorCode == 0 && r.assignment != []) || (r.errorCode == 27 && r.assignment == []))
    case HeartbeatRequest(_, _, _) =>
      r.HeartbeatResponse? && r.errorCode in {0, 25, 27}
  }

  /** A member sends a join request exactly while it is outside the group. */
  lemma OutsiderJoins(lib: Library, config: Config, inputs: seq<Input>)
    requires After(lib, config, inputs).Some? && After(lib, config, inputs).value.action.Send?
    ensures After(lib, config, inputs).value.state.Outsider? <==>
      After(lib, config, inputs).value.action.request.JoinRequest?
  {
  }

  /** An answer to the request that was sent, or no input while the member is outside the group. */
  predicate Suits(t: Trace, input: Input) {
    if input.None? then t.state.Outsider? else t.action.Send? && Expected(t.action.request, input.value)
  }

  /** Every input suits the point of the run at which it comes. */
  predicate AllSuit(lib: Library, config: Config, inputs: seq<Input>) {
    inputs != [] ==>
      var front := inputs[..|inputs| - 1];
      && AllSuit(lib, config, front)
      && (After(lib, config, front).Some? ==> Suits(After(lib, config, front).value, inputs[|inputs| - 1]))
  }

  lemma SuitedStays(lib: Library, config: Config, inputs: seq<Input>, input: Input)
    requires After(lib, config, inputs).Some? && After(lib, config, inputs).value.Alive()
    requires Suits(After(lib, config, inputs).value, input)
    ensures After(lib, config, inputs + [input]).Some? && After(lib, config, inputs + [input]).value.Alive()
  {
    AllButLast(inputs, [input]);
    if input.Some? {
      OutsiderJoins(lib, config, inputs);
    }
  }

  /**
   While the broker answers what it is asked, and the member is asked to act without an answer
   only outside the group, no run gets to a case the member does not know.
   */
  lemma {:induction false} Progress(lib: Library, config: Config, inputs: seq<Input>)
    requires AllSuit(lib, config, inputs)
    ensures After(lib, config, inputs).Some? && After(lib, config, inputs).value.Alive()
  {
    if inputs != [] {
      var front, last := inputs[..|inputs| - 1], inputs[|inputs| - 1];
      Progress(lib, config, front);
      SuitedStays(lib, config, front, last);
      assert front + [last] == inputs;
    }
  }

  /**
   The order of requests: a sync follows exactly an admission, with the leader's assignments
   or none; a heartbeat follows exactly a successful sync or heartbeat.
   */
  lemma RequestsFollowProtocol(lib: Library, config: Config, inputs: seq<Input>, input: Input)
    requires After(lib, config, inputs + [input]).Some? && After(lib, config, inputs + [input]).value.action.Send?
    ensures
      var request := After(lib, config, inputs + [input]).value.action.request;
      && (request.SyncRequest? <==> input.Some? && Admits(input.value))
      && (request.HeartbeatRequest? <==> input.Some? && (Assigns(lib, input.value) || Beats(input.value)))
      && (request.SyncRequest? ==>
            var r := input.value;
            && Ok(request.shares) == (if r.leader != r.memberId then Ok([])
                                      else lib.assign(AssignorNamed(r.protocolName), Or(r.members, [])))
            && request.protocolName == r.protocolName && request.protocolType == r.protocolType)
  {
    AllButLast(inputs, [input]);
  }

  function CountOf(inputs: seq<Input>, code: int): nat {
    if inputs == [] then 0
    else
      var last := inputs[|inputs| - 1];
      CountOf(inputs[..|inputs| - 1], code) +
      if last.Some? && !last.value.OtherResponse? && last.value.errorCode == code then 1 else 0
  }

  function Responses(inputs: seq<Input>): nat {
    if inputs == [] then 0 else Responses(inputs[..|inputs| - 1]) + if inputs[|inputs| - 1].Some? then 1 else 0
  }

  /** The counters hold, code by code, the responses so far, and add up to their number. */
  lemma {:induction false} CountersAddUp(lib: Library, config: Config, inputs: seq<Input>)
    requires After(lib, config, inputs).Some? && !After(lib, config, inputs).value.action.FallsThrough?
    ensures
      var errors := After(lib, config, inputs).value.errors;
      && (forall code :: Tally(errors, code) == CountOf(inputs, code))
      && errors.Keys <= {0, 16, 25, 27, 79}
      && Tally(errors, 0) + Tally(errors, 16) + Tally(errors, 25) + Tally(errors, 27) + Tally(errors, 79) ==
         Responses(inputs)
  {
    if inputs != [] {
      CountersAddUp(lib, config, inputs[..|inputs| - 1]);
    }
  }

  // ---- identity

  predicate Admits(r: Response) {
    r.JoinResponse? && r.errorCode == 0
  }

  predicate Beats(r: Response) {
    r.HeartbeatResponse? && r.errorCode == 0
  }

  /** A response that gives the member its id and generation. */
  predicate Names(r: Response) {
    r.JoinResponse? && r.errorCode in {0, 79}
  }

  predicate Disowns(r: Response) {
    r.HeartbeatResponse? && r.errorCode == 25
  }

  /** The most recent response that let the member in. */
  function LastAdmission(inputs: seq<Input>): (r: Option<Response>)
    ensures r.Some? ==> Admits(r.value) && Some(r.value) in inputs
    ensures r.None? ==> forall i :: 0 <= i < |inputs| && inputs[i].Some? ==> !Admits(inputs[i].value)
  {
    if inputs == [] then None
    else
      var front, last := inputs[..|inputs| - 1], inputs[|inputs| - 1];
      assert inputs == front + [last];
      if last.Some? && Admits(last.value) then last else LastAdmission(front)
  }

  /**
   Inside the group the member goes by the generation and member id it was last admitted
   with, and leads exactly if it was then named leader.
   */
  lemma {:induction false} GoesByLastAdmission(lib: Library, config: Config, inputs: seq<Input>)
    requires After(lib, config, inputs).Some?
    ensures
      var t, admission := After(lib, config, inputs).value, LastAdmission(inputs);
      !t.state.Outsider? && !t.action.FallsThrough? ==>
        && admission.Some?
        && t.state.generationId == admission.value.generationId && t.state.memberId == admission.value.memberId
        && (t.state.Leader? <==> admission.value.leader == admission.value.memberId)
  {
    if inputs != [] {
      GoesByLastAdmission(lib, config, inputs[..|inputs| - 1]);
    }
  }

  /** Every sync and heartbeat request carries that pair; only a named leader hands out shares. */
  lemma RequestsCarryIdentity(lib: Library, config: Config, inputs: seq<Input>)
    requires After(lib, config, inputs).Some? && After(lib, config, inputs).value.action.Send?
    requires !After(lib, config, inputs).value.action.request.JoinRequest?
    ensures
      var request, admission := After(lib, config, inputs).value.action.request, LastAdmission(inputs);
      && admission.Some?
      && request.generationId == admission.value.generationId && request.memberId == admission.value.memberId
      && request.groupId == config.groupId
      && (request.SyncRequest? && request.shares != [] ==> admission.value.leader == admission.value.memberId)
  {
    GoesByLastAdmission(lib, config, inputs);
  }

  /** The member id the broker last gave out, unless it has since disowned the member. */
  function KnownAs(inputs: seq<Input>): Option<string> {
    if inputs == [] then None
    else
      var front, last := inputs[..|inputs| - 1], inputs[|inputs| - 1];
      if last.None? then KnownAs(front)
      else if Names(last.value) then Some(last.value.memberId)
      else if Disowns(last.value) then None
      else KnownAs(front)
  }

  lemma {:induction false} RemembersMember(lib: Library, config: Config, inputs: seq<Input>)
    requires After(lib, config, inputs).Some? && After(lib, config, inputs).value.Alive()
    ensures
      var s := After(lib, config, inputs).value.state;
      KnownAs(inputs) == if s.Outsider? then s.lastMember else Some(s.memberId)
  {
    if inputs != [] {
      RemembersMember(lib, config, inputs[..|inputs| - 1]);
    }
  }

  /** Every request is made under the id the member is known by, or none. */
  lemma JoinsCarryIdentity(lib: Library, config: Config, inputs: seq<Input>)
    requires After(lib, config, inputs).Some? && After(lib, config, inputs).value.action.Send?
    ensures After(lib, config, inputs).value.action.request.memberId == Or(KnownAs(inputs), "")
  {
    RemembersMember(lib, config, inputs);
  }

  // ---- ownership

  predicate Assigns(lib: Library, r: Response) {
    r.SyncResponse? && r.errorCode == 0 && r.assignment != [] && lib.decode(r.assignment).Ok?
  }

  /** A response after which earlier assignments no longer count. */
  predicate Supersedes(lib: Library, input: Input) {
    input.Some? && (Admits(input.value) || Assigns(lib, input.value) || Disowns(input.value))
  }

  /** The assignment that stands after these inputs. */
  function Standing(lib: Library, inputs: seq<Input>): Option<MemberAssignment> {
    if inputs == [] then None
    else
      var front, last := inputs[..|inputs| - 1], inputs[|inputs| - 1];
      if last.Some? && Assigns(lib, last.value) then Some(lib.decode(last.value.assignment).value)
      else if Supersedes(lib, last) then None
      else Standing(lib, front)
  }

  predicate AssignsAt(lib: Library, inputs: seq<Input>, i: int, a: MemberAssignment) {
    0 <= i < |inputs| && inputs[i].Some? && Assigns(lib, inputs[i].value) &&
    lib.decode(inputs[i].value.assignment) == Ok(a) &&
    forall j :: i < j < |inputs| ==> !Supersedes(lib, inputs[j])
  }

  /** It is that of the one successful sync that nothing has superseded, if there is one. */
  lemma {:induction false} StandingIsLatest(lib: Library, inputs: seq<Input>, a: MemberAssignment)
    ensures Standing(lib, inputs) == Some(a) <==> exists i :: AssignsAt(lib, inputs, i, a)
  {
    if inputs != [] {
      var front, last := inputs[..|inputs| - 1], inputs[|inputs| - 1];
      StandingIsLatest(lib, front, a);
      assert forall j :: 0 <= j < |front| ==> front[j] == inputs[j];
      assert Standing(lib, inputs) == Some(a) && Supersedes(lib, last) ==> AssignsAt(lib, inputs, |front|, a);
      if i :| AssignsAt(lib, front, i, a) && !Supersedes(lib, last) {
        assert AssignsAt(lib, inputs, i, a);
      }
      if i :| AssignsAt(lib, inputs, i, a) && i < |front| {
        assert AssignsAt(lib, front, i, a) && inputs[|front|] == last;
      }
    }
  }

  lemma {:induction false} RemembersStanding(lib: Library, config: Config, inputs: seq<Input>)
    requires After(lib, config, inputs).Some? && After(lib, config, inputs).value.Alive()
    ensures After(lib, config, inputs).value.state.assignment == Standing(lib, inputs)
  {
    if inputs != [] {
      RemembersStanding(lib, config, inputs[..|inputs| - 1]);
    }
  }

  /** The generation the member joins from: that of its last join response, unless the group moved on without it. */
  function KnownGeneration(inputs: seq<Input>): Option<int> {
    if inputs == [] then None
    else
      var front, last := inputs[..|inputs| - 1], inputs[|inputs| - 1];
      if last.None? then KnownGeneration(front)
      else if Names(last.value) then Some(last.value.generationId)
      else if last.value.SyncResponse? && last.value.errorCode == 27 then None
      else if Disowns(last.value) then None
      else KnownGeneration(front)
  }

  lemma {:induction false} RemembersGeneration(lib: Library, config: Config, inputs: seq<Input>)
    requires After(lib, config, inputs).Some? && After(lib, config, inputs).value.Alive()
    ensures
      var s := After(lib, config, inputs).value.state;
      KnownGeneration(inputs) == if s.Outsider? then s.lastGeneration else Some(s.generationId)
  {
    if inputs != [] {
      RemembersGeneration(lib, config, inputs[..|inputs| - 1]);
    }
  }

  /** Every join request, retries included, claims the partitions of the standing assignment and no others. */
  lemma JoinsOwnStanding(lib: Library, config: Config, inputs: seq<Input>, i: nat)
    requires After(lib, config, inputs).Some? && After(lib, config, inputs).value.action.Send?
    requires After(lib, config, inputs).value.action.request.JoinRequest? && i < |ASSIGNORS|
    ensures
      var request, standing := After(lib, config, inputs).value.action.request, Standing(lib, inputs);
      var version := if standing.Some? then standing.value.version else 3;
      var owned := if standing.Some? then standing.value.partitions else [];
      var generation := if KnownGeneration(inputs).Some? then KnownGeneration(inputs).value else -1;
      && |request.protocols| == |ASSIGNORS| && request.protocols[i].name == ASSIGNORS[i].Name()
      && lib.encode(Subscription(version, config.topics, owned, generation)) == Ok(request.protocols[i].metadata)
  {
    RemembersStanding(lib, config, inputs);
    RemembersGeneration(lib, config, inputs);
    JoinRequestIs(lib, config, inputs);
  }

  /** A join request is the one made from the state it leaves behind. */
  lemma JoinRequestIs(lib: Library, config: Config, inputs: seq<Input>)
    requires After(lib, config, inputs).Some? && After(lib, config, inputs).value.action.Send?
    requires After(lib, config, inputs).value.action.request.JoinRequest?
    ensures
      var t := After(lib, config, inputs).value;
      t.state.Outsider? && t.action == Join(lib, config, t.state, t.action.request.reason)
  {
  }

  // ---- what every join request says

  /** Why the member joins: by the response that sent it back, or for no reason but that it is outside. */
  function Reason(inputs: seq<Input>): string {
    if inputs == [] || inputs[|inputs| - 1].None? then "join"
    else
      match inputs[|inputs| - 1].value
      case JoinResponse(code, _, _, _, _, _, _) => if code == 79 then "join member id required" else "join"
      case SyncResponse(_, _) => "join after sync with rebalance"
      case HeartbeatResponse(code) => if code == 25 then "join after unknown member id" else "join after rebalance"
      case OtherResponse => ""
  }

  /** Every join request is for the member's own group, with its own timeouts, and says why it is made. */
  lemma JoinsCarryConfig(lib: Library, config: Config, inputs: seq<Input>)
    requires After(lib, config, inputs).Some? && After(lib, config, inputs).value.action.Send?
    requires After(lib, config, inputs).value.action.request.JoinRequest?
    ensures
      var request := After(lib, config, inputs).value.action.request;
      && request.groupId == config.groupId && request.groupType == "consumer"
      && request.rebalanceTimeoutMs == config.rebalanceTimeoutMs
      && request.sessionTimeoutMs == config.sessionTimeoutMs
      && request.reason == Reason(inputs)
  {
  }

  /** The assignors on offer, by name and in order of preference. */
  lemma JoinsOfferAssignors(lib: Library, config: Config, inputs: seq<Input>)
    requires After(lib, config, inputs).Some? && After(lib, config, inputs).value.action.Send?
    requires After(lib, config, inputs).value.action.request.JoinRequest?
    ensures
      var offered := After(lib, config, inputs).value.action.request.protocols;
      && |offered| == 4
      && offered[0].name == "range" && offered[1].name == "roundrobin" && offered[2].name == "uniform"
      && offered[3].name == "cooperative-sticky"
    ensures AssignorNamed(Some("roundrobin")) == RoundRobin && AssignorNamed(Some("uniform")) == Uniform
    ensures AssignorNamed(Some("cooperative-sticky")) == CooperativeSticky && AssignorNamed(Some("range")) == Range
  {
    JoinsOwnStanding(lib, config, inputs, 0);
    JoinsOwnStanding(lib, config, inputs, 1);
    JoinsOwnStanding(lib, config, inputs, 2);
    JoinsOwnStanding(lib, config, inputs, 3);
  }

  /** The codes that keep a member in the group, and those that send it back to join. */
  lemma CodesDecide(lib: Library, config: Config, inputs: seq<Input>, r: Response)
    requires After(lib, config, inputs + [Some(r)]).Some? && !r.OtherResponse?
    requires After(lib, config, inputs + [Some(r)]).value.Alive()
    ensures
      var before, after := After(lib, config, inputs).value.state, After(lib, config, inputs + [Some(r)]).value.state;
      && (r.JoinResponse? ==> before.Outsider? && r.errorCode in {0, 16, 79} && (after.Outsider? <==> r.errorCode != 0))
      && (r.SyncResponse? ==> !before.Outsider? && r.errorCode in {0, 27} && (after.Outsider? <==> r.errorCode == 27))
      && (r.HeartbeatResponse? ==>
            !before.Outsider? && r.errorCode in {0, 25, 27} && (after.Outsider? <==> r.errorCode != 0))
  {
    AllButLast(inputs, [Some(r)]);
  }
}
