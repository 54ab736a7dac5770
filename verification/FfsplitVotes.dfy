/**
  The voting half of the 50:50 split algorithm as functions of the server state: a decision
  sends NACKs first, waits for every reply, and only then sends ACKs.
*/
module FfsplitVotes {
  import opened Tlv
  import opened Ffsplit

  datatype ClusterState = WaitingForChange | WaitingForStableMembership | SendingNacks | SendingAcks

  /** The connected clients of one cluster and the algorithm's cluster data. */
  datatype Server = Server(clients: seq<Client>, state: ClusterState, quorate: seq<nat>)

  datatype VoteInfo = VoteInfo(seqNo: nat, ring: RingId, vote: Vote)

  /** Nothing, or the one vote info message sent to each client, by position. */
  type Outbox = seq<Option<VoteInfo>>

  function Silence(n: nat): (out: Outbox)
    ensures |out| == n
    ensures forall i | 0 <= i < n :: out[i] == None
  {
    seq(n, _ => None)
  }

  // ---------------------------------------------------------------- one round of votes

  function NextState(c: Client, call: Call, quorate: seq<nat>): ClientState {
    if Leaves(c, call) then ClientWaiting
    else if c.id in quorate then SendingAck
    else SendingNack
  }

  function Assign(cs: seq<Client>, call: Call, quorate: seq<nat>): (ds: seq<Client>)
    ensures |ds| == |cs|
    ensures forall i | 0 <= i < |cs| :: ds[i] == cs[i].(state := NextState(cs[i], call, quorate))
  {
    seq(|cs|, i requires 0 <= i < |cs| => cs[i].(state := NextState(cs[i], call, quorate)))
  }

  /** Does this round (ACKs or NACKs) send a vote to c? */
  predicate Addressed(c: Client, call: Call, acks: bool) {
    !Leaves(c, call) && c.state == if acks then SendingAck else SendingNack
  }

  function RingToSend(c: Client, call: Call): RingId {
    if c.id == call.id then call.ring else c.ring
  }

  function VoteFor(c: Client, call: Call, acks: bool): Option<VoteInfo> {
    if Addressed(c, call, acks)
    then Some(VoteInfo(c.expected + 1, RingToSend(c, call), if acks then Ack else Nack))
    else None
  }

  function Bumped(c: Client, call: Call, acks: bool): Client {
    if Addressed(c, call, acks) then c.(expected := c.expected + 1) else c
  }

  function SendRound(cs: seq<Client>, call: Call, acks: bool): (r: (seq<Client>, Outbox))
    ensures |r.0| == |cs| && |r.1| == |cs|
    ensures forall i | 0 <= i < |cs| :: r.0[i] == Bumped(cs[i], call, acks) && r.1[i] == VoteFor(cs[i], call, acks)
  {
    (seq(|cs|, i requires 0 <= i < |cs| => Bumped(cs[i], call, acks)),
     seq(|cs|, i requires 0 <= i < |cs| => VoteFor(cs[i], call, acks)))
  }

  predicate NoneAddressed(cs: seq<Client>, call: Call, acks: bool) {
    forall i | 0 <= i < |cs| :: !Addressed(cs[i], call, acks)
  }

  predicate NoneSending(cs: seq<Client>, s: ClientState) {
    forall i | 0 <= i < |cs| :: cs[i].state != s
  }

  // ---------------------------------------------------------------- the decision

  /** What a call into the algorithm leaves behind. `chosen` is the selected partition when
      this call made a decision that selected one; `crashed` means a failed assertion. */
  datatype Effect = Effect(server: Server, out: Outbox, vote: Vote, decided: bool, chosen: Option<Candidate>, crashed: bool)

  /** A round of ACKs; when there is nobody to send them to the decision is finished. */
  function SendAcks(s: Server, call: Call): (r: (Server, Outbox))
    ensures |r.1| == |s.clients|
  {
    var (cs, out) := SendRound(s.clients, call, true);
    (s.(clients := cs, state := if NoneAddressed(s.clients, call, true) then WaitingForChange else SendingAcks), out)
  }

  /** A round of NACKs, followed directly by the ACKs when there is nobody to refuse. */
  function SendVotes(s: Server, call: Call): (r: (Server, Outbox))
    ensures |r.1| == |s.clients|
  {
    if NoneAddressed(s.clients, call, false) then SendAcks(s, call)
    else
      var (cs, out) := SendRound(s.clients, call, false);
      (s.(clients := cs, state := SendingNacks), out)
  }

  function Do(s: Server, call: Call): (e: Effect)
    ensures |e.out| == |s.clients|
    ensures e.chosen.Some? ==> e.decided && ReportedBest(s.clients, call, e.chosen, |s.clients|)
  {
    var silent := Silence(|s.clients|);
    if !Stable(s.clients, call)
    then Effect(s.(state := WaitingForStableMembership), silent, WaitForReply, false, None, false)
    else
      match Select(s.clients, call, s.quorate)
      case Aborted => Effect(s.(state := WaitingForStableMembership), silent, NoChange, false, None, true)
      case Selected(best) =>
        var quorate := if best.Some? then best.value.members else [];
        var s1 := s.(quorate := quorate, clients := Assign(s.clients, call, quorate));
        var (s2, out) := SendVotes(s1, call);
        Effect(s2, out, NoChange, true, best, false)
  }

  // ---------------------------------------------------------------- a reply to a vote

  /** The reply of the client at position i to the vote with number seqNo. */
  function ReplyReceived(s: Server, i: nat, seqNo: nat): (r: (Server, Outbox))
    requires i < |s.clients|
    ensures |r.1| == |s.clients|
  {
    var c := s.clients[i];
    var silent := Silence(|s.clients|);
    if c.expected != seqNo then (s, silent)
    else
      var s1 := s.(clients := s.clients[i := c.(state := ClientWaiting)]);
      match s.state
      case SendingNacks =>
        if NoneSending(s1.clients, SendingNack)
        then SendAcks(s1, Call(c.id, false, c.ring, c.config, c.members, c.heuristics))
        else (s1, silent)
      case SendingAcks =>
        (if NoneSending(s1.clients, SendingAck) then s1.(state := WaitingForChange) else s1, silent)
      case _ => (s1, silent)
  }

  // ---------------------------------------------------------------- events

  /** Everything that reaches the algorithm, with the client's position in the list. */
  datatype Event =
    | InitReceived(id: nat, ring: RingId, tieBreaker: TieBreaker, keepActive: bool)
    | KeepActiveSet(client: nat, on: bool)
    | ConfigReceived(client: nat, nodes: seq<nat>, initial: bool)
    | MembershipReceived(client: nat, ringId: RingId, nodes: seq<nat>, heuristics: Heuristics)
    | HeuristicsReceived(client: nat, heuristics: Heuristics)
    | VoteReply(client: nat, seqNo: nat)
    | Disconnected(client: nat)

  /** The answer to an event: the new state, the votes sent to the clients of the *old* list by
      position, and what is replied to the client that caused it. */
  datatype Answer = Answer(server: Server, out: Outbox, reply: Reply, decided: bool, chosen: Option<Candidate>, crashed: bool)

  datatype Reply = NoReply | InitReplied(error: ErrorCode) | ErrorReply(error: ErrorCode) | VoteReplied(ring: RingId, vote: Vote)

  predicate ValidEvent(s: Server, e: Event) {
    match e
    case InitReceived(_, _, _, _) => true
    case KeepActiveSet(i, _) => i < |s.clients|
    case ConfigReceived(i, _, _) => i < |s.clients|
    case MembershipReceived(i, _, _, _) => i < |s.clients|
    case HeuristicsReceived(i, h) => i < |s.clients| && h != HeuristicsUndefined
    case VoteReply(i, _) => i < |s.clients|
    case Disconnected(i) => i < |s.clients|
  }

  function CallOf(c: Client, leaving: bool): Call {
    Call(c.id, leaving, c.ring, c.config, c.members, c.heuristics)
  }

  function Untouched(s: Server, reply: Reply): Answer {
    Answer(s, Silence(|s.clients|), reply, false, None, false)
  }

  lemma DoKeepsLength(s: Server, call: Call)
    ensures |Do(s, call).server.clients| == |s.clients|
  {
  }

  /** No decision yet: the missing list will be sent later. */
  function AskLaterEffect(s: Server): Effect {
    Effect(s, Silence(|s.clients|), AskLater, false, None, false)
  }

  /** After the algorithm: store what client i has just sent and answer it. */
  function FinishStore(s: Server, i: nat, call: Call, effect: Effect): (a: Answer)
    requires i < |effect.server.clients| && |effect.out| == |s.clients|
    ensures |a.out| == |s.clients|
  {
    var cs := effect.server.clients;
    if effect.crashed then Answer(effect.server, effect.out, NoReply, false, None, true)
    else Answer(effect.server.(clients := cs[i := Seen(cs[i], call)]), effect.out,
                VoteReplied(call.ring, effect.vote), effect.decided, effect.chosen, false)
  }

  /** Run the algorithm when client i has sent both lists, then store what it has just sent. */
  function DecideAndStore(s: Server, i: nat, call: Call, ready: bool): (a: Answer)
    requires i < |s.clients| && call.id == s.clients[i].id
    ensures |a.out| == |s.clients|
  {
    DoKeepsLength(s, call);
    FinishStore(s, i, call, if ready then Do(s, call) else AskLaterEffect(s))
  }

  function Without(cs: seq<Client>, i: nat): (ds: seq<Client>)
    requires i < |cs|
    ensures |ds| == |cs| - 1
    ensures forall j | 0 <= j < |ds| :: ds[j] == if j < i then cs[j] else cs[j + 1]
  {
    cs[..i] + cs[i + 1..]
  }

  /** After the algorithm: remove client i; the last client takes the cluster data along. */
  function FinishDisconnect(s: Server, i: nat, effect: Effect): (a: Answer)
    requires i < |effect.server.clients| && |effect.out| == |s.clients|
    ensures |a.out| == |s.clients|
  {
    var cs := effect.server.clients;
    if effect.crashed then Answer(effect.server, effect.out, NoReply, false, None, true)
    else
      Answer(if |cs| == 1 then Server([], WaitingForChange, []) else effect.server.(clients := Without(cs, i)),
             effect.out, NoReply, effect.decided, effect.chosen, false)
  }

  /** Run the algorithm without client i, then remove it. */
  function Disconnect(s: Server, i: nat): (a: Answer)
    requires i < |s.clients|
    ensures |a.out| == |s.clients|
  {
    var call := CallOf(s.clients[i], true);
    DoKeepsLength(s, call);
    FinishDisconnect(s, i, Do(s, call))
  }

  function Insert(cs: seq<Client>, c: Client): seq<Client> {
    if cs == [] then [c]
    else if cs[0].id > c.id then [c] + cs
    else [cs[0]] + Insert(cs[1..], c)
  }

  /** May a client with this id and tie-breaker join? */
  function CheckNewClient(cs: seq<Client>, id: nat, tieBreaker: TieBreaker): (error: ErrorCode)
    ensures error == NoError <==> forall c | c in cs :: c.id != id && c.tieBreaker == tieBreaker
  {
    if cs == [] then NoError
    else if cs[0].tieBreaker != tieBreaker then TieBreakerDiffersFromOtherNodes
    else if cs[0].id == id then DuplicateNodeId
    else CheckNewClient(cs[1..], id, tieBreaker)
  }

  function NewClient(id: nat, ring: RingId, tieBreaker: TieBreaker, keepActive: bool): Client {
    Client(id, tieBreaker, keepActive, ring, [], [], HeuristicsUndefined, ClientWaiting, 0)
  }

  function Join(s: Server, id: nat, ring: RingId, tieBreaker: TieBreaker, keepActive: bool): (a: Answer)
    ensures |a.out| == |s.clients|
  {
    var error := CheckNewClient(s.clients, id, tieBreaker);
    if error != NoError then Untouched(s, InitReplied(error))
    else Untouched(s, InitReplied(NoError)).(
           server := s.(clients := Insert(s.clients, NewClient(id, ring, tieBreaker, keepActive))))
  }

  function Handle(s: Server, e: Event): (a: Answer)
    requires ValidEvent(s, e)
    ensures |a.out| == |s.clients|
  {
    match e
    case InitReceived(id, ring, tieBreaker, keepActive) => Join(s, id, ring, tieBreaker, keepActive)
    case KeepActiveSet(i, on) =>
      Untouched(s, NoReply).(server := s.(clients := s.clients[i := s.clients[i].(keepActive := on)]))
    case ConfigReceived(i, nodes, initial) =>
      var c := s.clients[i];
      if nodes == [] || c.id !in nodes then Untouched(s, ErrorReply(InvalidConfigNodeList))
      else DecideAndStore(s, i, CallOf(c, false).(config := nodes), !initial && c.members != [])
    case MembershipReceived(i, ring, nodes, heuristics) =>
      var c := s.clients[i];
      if nodes == [] || c.id !in nodes then Untouched(s, ErrorReply(InvalidMembershipNodeList))
      else
        DecideAndStore(s, i, CallOf(c, false).(ring := ring, members := nodes, heuristics := heuristics), c.config != [])
    case HeuristicsReceived(i, heuristics) =>
      var c := s.clients[i];
      DecideAndStore(s, i, CallOf(c, false).(heuristics := heuristics), c.config != [] && c.members != [])
    case VoteReply(i, seqNo) =>
      var (t, out) := ReplyReceived(s, i, seqNo);
      Answer(t, out, NoReply, false, None, false)
    case Disconnected(i) => Disconnect(s, i)
  }
}
