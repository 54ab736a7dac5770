/**
  The voting side of a cluster node (`qdevice-model-net.c`, the cast vote timer, the
  votequorum callbacks and the ffsplit hooks) as functions of the node's state.
*/
module Qdevice {
  import opened Tlv

  /** NotConnected covers every state before the init message has been sent. */
  datatype Link = NotConnected | WaitingInitReply | Established

  datatype Device = Device(
    id: nat,
    tieBreaker: TieBreaker,
    pollRing: RingId,
    ring: RingId,
    members: seq<nat>,
    config: seq<nat>,
    keepActive: bool,
    link: Link,
    lastSentRing: RingId,
    vote: Vote,
    timerRunning: bool,
    paused: bool,
    membershipHeuristics: bool,
    connectHeuristics: bool,
    latestHeuristics: Heuristics)

  datatype ToServer =
    | Init(ring: RingId, tieBreaker: TieBreaker)
    | SetOption(keepActive: bool)
    | ConfigList(initial: bool, nodes: seq<nat>)
    | MembershipList(ring: RingId, nodes: seq<nat>, heuristics: Heuristics)
    | QuorumList
    | HeuristicsChange(heuristics: Heuristics)
    | VoteInfoReply(seqNo: nat)

  datatype ToDevice =
    | InitReply(error: ErrorCode)
    | SetOptionReply
    | ServerError(error: ErrorCode)
    | ListReply(ring: RingId, vote: Vote)
    | VoteInfo(seqNo: nat, ring: RingId, vote: Vote)

  /** What can happen to a node. */
  datatype Event =
    | NodeListNotify(ring: RingId, members: seq<nat>)
    | MembershipHeuristicsResult(heuristics: Heuristics)
    | ConnectHeuristicsResult(heuristics: Heuristics)
    | RegularHeuristicsResult(heuristics: Heuristics)
    | ConfigChanged(config: seq<nat>)
    | QuorumNotify
    | Connect
    | Receive(msg: ToDevice)
    | Disconnect

  /** The vote is cast by the timer callback, with the ring id in pollRing. */
  predicate CastsAck(d: Device) {
    d.timerRunning && !d.paused && d.vote == Ack
  }

  /** ACK and NACK are repeated by the timer; a node that waits casts nothing. */
  function TimerUpdate(d: Device, vote: Vote): Device {
    if vote == NoChange then d else d.(vote := vote, timerRunning := vote == Ack || vote == Nack)
  }

  /** Without an established connection an ACK is turned into a NACK. */
  function FallBack(d: Device): Vote {
    if d.link != Established && d.vote == Ack then Nack else NoChange
  }

  /** A new membership: cast nothing until its heuristics result is known. */
  function OnNodeList(d: Device, ring: RingId, members: seq<nat>): Device {
    TimerUpdate(d.(pollRing := ring, ring := ring, members := members, membershipHeuristics := true), FallBack(d))
      .(paused := true)
  }

  /** The heuristics result of a membership: report the membership and wait for a vote. */
  function OnMembershipHeuristics(d: Device, h: Heuristics): (Device, seq<ToServer>) {
    var d1 := d.(membershipHeuristics := false, latestHeuristics := h, paused := false);
    if d.link != Established then (TimerUpdate(d1, FallBack(d)), [])
    else (TimerUpdate(d1.(lastSentRing := d.ring), WaitForReply), [MembershipList(d.ring, d.members, h)])
  }

  /** The heuristics result after a connect: report everything and start voting. */
  function OnConnectHeuristics(d: Device, h: Heuristics): (Device, seq<ToServer>) {
    var d1 := d.(connectHeuristics := false);
    if d.link != WaitingInitReply then (d1, [])
    else
      (TimerUpdate(d1.(lastSentRing := d.ring, link := Established, latestHeuristics := h), WaitForReply),
       [SetOption(d.keepActive), ConfigList(true, d.config), MembershipList(d.ring, d.members, h), QuorumList])
  }

  function OnRegularHeuristics(d: Device, h: Heuristics): (Device, seq<ToServer>) {
    if h == HeuristicsUndefined then (d, [])
    else
      (d.(latestHeuristics := h),
       if h != d.latestHeuristics && d.link == Established then [HeuristicsChange(h)] else [])
  }

  function OnConfig(d: Device, config: seq<nat>): (Device, seq<ToServer>) {
    (TimerUpdate(d.(config := config), FallBack(d)),
     if d.link == Established then [ConfigList(false, config)] else [])
  }

  function OnQuorum(d: Device): (Device, seq<ToServer>) {
    (TimerUpdate(d, FallBack(d)), if d.link == Established then [QuorumList] else [])
  }

  function OnConnect(d: Device): (Device, seq<ToServer>) {
    if d.link != NotConnected then (d, [])
    else (d.(link := WaitingInitReply, lastSentRing := d.ring), [Init(d.ring, d.tieBreaker)])
  }

  /** A lost connection is a NACK: keeping the old vote could leave two quorate halves. */
  function OnDisconnect(d: Device): Device {
    TimerUpdate(d.(paused := false), Nack).(link := NotConnected)
  }

  /** A vote counts only when it is tagged with the ring id that was sent last. */
  function RingFiltered(d: Device, ring: RingId, vote: Vote): Vote {
    if ring == d.lastSentRing then vote else NoChange
  }

  function OnReceive(d: Device, m: ToDevice): (Device, seq<ToServer>) {
    match m
    case InitReply(error) =>
      if d.link != WaitingInitReply || error != NoError then (OnDisconnect(d), [])
      else (d.(connectHeuristics := true), [])
    case SetOptionReply => (if d.link == Established then d else OnDisconnect(d), [])
    case ServerError(_) => (OnDisconnect(d), [])
    case ListReply(ring, vote) =>
      (if d.link == Established then TimerUpdate(d, RingFiltered(d, ring, vote)) else OnDisconnect(d), [])
    case VoteInfo(seqNo, ring, vote) =>
      if d.link == Established then (TimerUpdate(d, RingFiltered(d, ring, vote)), [VoteInfoReply(seqNo)])
      else (OnDisconnect(d), [])
  }

  function Step(d: Device, e: Event): (Device, seq<ToServer>) {
    match e
    case NodeListNotify(ring, members) => (OnNodeList(d, ring, members), [])
    case MembershipHeuristicsResult(h) => OnMembershipHeuristics(d, h)
    case ConnectHeuristicsResult(h) => OnConnectHeuristics(d, h)
    case RegularHeuristicsResult(h) => OnRegularHeuristics(d, h)
    case ConfigChanged(config) => OnConfig(d, config)
    case QuorumNotify => OnQuorum(d)
    case Connect => OnConnect(d)
    case Receive(m) => OnReceive(d, m)
    case Disconnect => (OnDisconnect(d), [])
  }

  /** A heuristics callback runs only while its notifier is active. */
  predicate Possible(d: Device, e: Event) {
    match e
    case MembershipHeuristicsResult(_) => d.membershipHeuristics
    case ConnectHeuristicsResult(_) => d.connectHeuristics
    case Connect => d.link == NotConnected
    case Receive(_) => d.link != NotConnected
    case Disconnect => d.link != NotConnected
    case _ => true
  }

  /** A node that has just started: the first node list is known, nothing has been sent. */
  predicate Started(d: Device) {
    d.link == NotConnected && d.vote == AskLater && !d.timerRunning && !d.paused && d.pollRing == d.ring
    && !d.membershipHeuristics && !d.connectHeuristics
  }

  // ---------------------------------------------------------------- which ring id an ACK is for

  /** Kept by every event, whatever the server sends. */
  predicate DeviceInv(d: Device) {
    && d.pollRing == d.ring
    && (d.vote == Ack ==> d.link == Established)
    && (d.link == Established && !d.paused ==> d.lastSentRing == d.ring)
    && (d.timerRunning <==> d.vote == Ack || d.vote == Nack)
    && d.vote != NoChange
  }

  lemma NotifyKeepsDeviceInv(d: Device, ring: RingId, members: seq<nat>)
    requires DeviceInv(d)
    ensures DeviceInv(OnNodeList(d, ring, members))
  {
  }

  lemma MembershipKeepsDeviceInv(d: Device, h: Heuristics)
    requires DeviceInv(d)
    ensures DeviceInv(OnMembershipHeuristics(d, h).0)
  {
  }

  lemma ConnectKeepsDeviceInv(d: Device, h: Heuristics)
    requires DeviceInv(d)
    ensures DeviceInv(OnConnectHeuristics(d, h).0)
  {
  }

  lemma VoteKeepsDeviceInv(d: Device, vote: Vote)
    requires DeviceInv(d) && d.link == Established
    ensures DeviceInv(TimerUpdate(d, vote))
  {
  }

  lemma DisconnectKeepsDeviceInv(d: Device)
    requires DeviceInv(d)
    ensures DeviceInv(OnDisconnect(d))
  {
  }

  lemma ReceiveKeepsDeviceInv(d: Device, m: ToDevice)
    requires DeviceInv(d)
    ensures DeviceInv(OnReceive(d, m).0)
  {
    DisconnectKeepsDeviceInv(d);
    if d.link == Established && (m.ListReply? || m.VoteInfo?) {
      VoteKeepsDeviceInv(d, RingFiltered(d, m.ring, m.vote));
    }
  }

  lemma StepKeepsDeviceInv(d: Device, e: Event)
    requires DeviceInv(d) && Possible(d, e)
    ensures DeviceInv(Step(d, e).0)
  {
    match e
    case NodeListNotify(ring, members) => NotifyKeepsDeviceInv(d, ring, members);
    case MembershipHeuristicsResult(h) => MembershipKeepsDeviceInv(d, h);
    case ConnectHeuristicsResult(h) => ConnectKeepsDeviceInv(d, h);
    case Receive(m) => ReceiveKeepsDeviceInv(d, m);
    case _ =>
  }

  predicate PossibleRun(d: Device, events: seq<Event>)
    decreases |events|
  {
    events == [] || (Possible(d, events[0]) && PossibleRun(Step(d, events[0]).0, events[1..]))
  }

  function After(d: Device, events: seq<Event>): Device
    decreases |events|
  {
    if events == [] then d else After(Step(d, events[0]).0, events[1..])
  }

  /** The message that makes a node cast ACK for ring id `ring`. */
  predicate AcksRing(e: Event, ring: RingId) {
    e.Receive? && (e.msg.VoteInfo? || e.msg.ListReply?) && e.msg.ring == ring && e.msg.vote == Ack
  }

  /** Event k is such a message and nothing after it changes or interrupts the vote. */
  predicate Origin(events: seq<Event>, k: int, ring: RingId, paused: bool) {
    && 0 <= k < |events| && AcksRing(events[k], ring)
    && forall j | k < j < |events| ::
         !events[j].Disconnect? && (!paused ==> !events[j].NodeListNotify?)
  }

  /** An ACK that is still there without a new one was there before, for the same ring id. */
  lemma OldAck(s: Device, e: Event)
    requires DeviceInv(s) && Possible(s, e) && Step(s, e).0.vote == Ack
    requires !AcksRing(e, Step(s, e).0.lastSentRing)
    ensures var t := Step(s, e).0;
            s.vote == Ack && t.lastSentRing == s.lastSentRing && !e.Disconnect?
            && (s.paused ==> t.paused) && (e.NodeListNotify? ==> t.paused)
  {
    match e
    case Receive(m) => OldAckReceived(s, m);
    case _ =>
  }

  lemma OldAckReceived(s: Device, m: ToDevice)
    requires DeviceInv(s) && OnReceive(s, m).0.vote == Ack
    requires !AcksRing(Receive(m), OnReceive(s, m).0.lastSentRing)
    ensures var t := OnReceive(s, m).0;
            s.vote == Ack && t.lastSentRing == s.lastSentRing && s.paused == t.paused
  {
    if s.link == Established && (m.ListReply? || m.VoteInfo?) {
      OldVote(s, m.ring, m.vote);
    }
  }

  /** A vote that is not an ACK for the ring id sent last leaves no new ACK behind. */
  lemma OldVote(s: Device, ring: RingId, vote: Vote)
    requires !(ring == s.lastSentRing && vote == Ack)
    ensures var t := TimerUpdate(s, RingFiltered(s, ring, vote));
            t.lastSentRing == s.lastSentRing && t.paused == s.paused && (t.vote == Ack ==> s.vote == Ack)
  {
  }

  /** Where an ACK came from. */
  ghost predicate AckFrom(events: seq<Event>, t: Device) {
    t.vote == Ack ==> exists k :: Origin(events, k, t.lastSentRing, t.paused)
  }

  lemma OriginStep(front: seq<Event>, last: Event, s: Device)
    requires DeviceInv(s) && Possible(s, last) && AckFrom(front, s)
    ensures DeviceInv(Step(s, last).0) && AckFrom(front + [last], Step(s, last).0)
  {
    StepKeepsDeviceInv(s, last);
    var events, t := front + [last], Step(s, last).0;
    if t.vote == Ack {
      if AcksRing(last, t.lastSentRing) {
        assert Origin(events, |front|, t.lastSentRing, t.paused);
      } else {
        OldAck(s, last);
        var k :| Origin(front, k, s.lastSentRing, s.paused);
        assert Origin(events, k, t.lastSentRing, t.paused);
      }
    }
  }

  lemma {:induction false} AckHasOrigin(past: seq<Event>, d: Device, events: seq<Event>)
    requires DeviceInv(d) && AckFrom(past, d) && PossibleRun(d, events)
    ensures DeviceInv(After(d, events)) && AckFrom(past + events, After(d, events))
    decreases |events|
  {
    if events == [] {
      assert past + events == past;
    } else {
      OriginStep(past, events[0], d);
      AckHasOrigin(past + [events[0]], Step(d, events[0]).0, events[1..]);
      assert past + [events[0]] + events[1..] == past + events;
    }
  }

  /** Over every run against any server: when a node casts ACK, a message with that vote and
      with exactly the ring id it polls with has arrived, and since then there was neither a
      membership change nor a disconnect. */
  lemma AckComesFromServer(d: Device, events: seq<Event>)
    requires Started(d) && PossibleRun(d, events) && CastsAck(After(d, events))
    ensures var t := After(d, events);
            t.pollRing == t.lastSentRing && exists k :: Origin(events, k, t.pollRing, false)
  {
    AckHasOrigin([], d, events);
    assert [] + events == events;
  }

  // ---------------------------------------------------------------- a connection that has ended

  /** The messages that end a connection: an error, a refusal, and everything that is not
      expected in this state. */
  predicate EndsConnection(d: Device, m: ToDevice) {
    match m
    case InitReply(error) => d.link != WaitingInitReply || error != NoError
    case ServerError(_) => true
    case _ => d.link != Established
  }

  /** A node that says NACK again and again, unless it is paused. */
  predicate SaysNack(d: Device) {
    d.vote == Nack && d.timerRunning
  }

  predicate CastsNack(d: Device) {
    SaysNack(d) && !d.paused
  }

  /** The event ends the connection of the node. */
  predicate Ends(d: Device, e: Event) {
    d.link != NotConnected && (e.Disconnect? || (e.Receive? && EndsConnection(d, e.msg)))
  }

  /** A connection ends by these events only, and then the node casts NACK. */
  lemma EndingCastsNack(d: Device, e: Event)
    requires Possible(d, e) && d.link != NotConnected
    ensures Ends(d, e) <==> Step(d, e).0.link == NotConnected
    ensures Ends(d, e) ==> CastsNack(Step(d, e).0)
  {
    match e
    case ConnectHeuristicsResult(h) =>
    case Receive(m) =>
    case _ =>
  }

  /** It goes on until the node has been accepted by a server again. */
  lemma NackStays(d: Device, e: Event)
    requires Possible(d, e) && SaysNack(d) && d.link != Established
    ensures var t := Step(d, e).0;
            t.link != Established ==> SaysNack(t) && (t.paused <==> e.NodeListNotify? || (d.paused && !e.MembershipHeuristicsResult? && !Ends(d, e)))
  {
    match e
    case Receive(m) => NackStaysReceived(d, m);
    case _ =>
  }

  lemma NackStaysReceived(d: Device, m: ToDevice)
    requires SaysNack(d) && d.link == WaitingInitReply
    ensures var t := OnReceive(d, m).0;
            t.link != Established && SaysNack(t) && (t.paused <==> d.paused && !EndsConnection(d, m))
  {
  }

  /** Never established from here to the end. */
  predicate Apart(d: Device, events: seq<Event>)
    decreases |events|
  {
    d.link != Established && (events == [] || Apart(Step(d, events[0]).0, events[1..]))
  }

  lemma {:induction false} NackStaysOn(d: Device, events: seq<Event>)
    requires SaysNack(d) && PossibleRun(d, events) && Apart(d, events)
    ensures SaysNack(After(d, events))
    decreases |events|
  {
    if events != [] {
      NackStays(d, events[0]);
      NackStaysOn(Step(d, events[0]).0, events[1..]);
    }
  }

  /** Over every run: from the moment a connection has ended until the next one is established,
      the node says NACK, and casts it whenever it is not paused. */
  lemma LostConnectionMeansNack(d: Device, before: seq<Event>, e: Event, after: seq<Event>)
    requires PossibleRun(d, before) && Possible(After(d, before), e) && Ends(After(d, before), e)
    requires PossibleRun(Step(After(d, before), e).0, after) && Apart(Step(After(d, before), e).0, after)
    ensures var t := After(Step(After(d, before), e).0, after);
            SaysNack(t) && (!t.paused ==> CastsNack(t))
  {
    EndingCastsNack(After(d, before), e);
    NackStaysOn(Step(After(d, before), e).0, after);
  }

  // ---------------------------------------------------------------- the pause

  /** Is the node paused after an event? From a membership change until its heuristics result is
      known, or until the connection ends. */
  predicate PausedBy(paused: bool, d: Device, e: Event) {
    e.NodeListNotify? || (paused && !e.MembershipHeuristicsResult? && !Ends(d, e))
  }

  predicate PausedAfter(paused: bool, d: Device, events: seq<Event>)
    decreases |events|
  {
    if events == [] then paused else PausedAfter(PausedBy(paused, d, events[0]), Step(d, events[0]).0, events[1..])
  }

  lemma StepPauses(d: Device, e: Event)
    requires Possible(d, e)
    ensures Step(d, e).0.paused == PausedBy(d.paused, d, e)
  {
    match e
    case Receive(m) => ReceivePauses(d, m);
    case _ =>
  }

  lemma ReceivePauses(d: Device, m: ToDevice)
    requires d.link != NotConnected
    ensures OnReceive(d, m).0.paused <==> d.paused && !EndsConnection(d, m)
  {
    if EndsConnection(d, m) {
      EndedPause(d, m);
    }
  }

  lemma EndedPause(d: Device, m: ToDevice)
    requires EndsConnection(d, m)
    ensures OnReceive(d, m).0 == OnDisconnect(d) && !OnDisconnect(d).paused
  {
  }

  /** Over every run the node is paused exactly from a membership change until its result. */
  lemma {:induction false} PauseIsForMembership(d: Device, events: seq<Event>)
    requires PossibleRun(d, events)
    ensures After(d, events).paused == PausedAfter(d.paused, d, events)
    decreases |events|
  {
    if events != [] {
      StepPauses(d, events[0]);
      PauseIsForMembership(Step(d, events[0]).0, events[1..]);
    }
  }

  // ---------------------------------------------------------------- the results that are awaited

  /** Which of the two heuristics results a node still waits for. */
  datatype Awaited = Awaited(membership: bool, connect: bool)

  function AwaitedBy(w: Awaited, d: Device, e: Event): Awaited {
    match e
    case NodeListNotify(_, _) => w.(membership := true)
    case MembershipHeuristicsResult(_) => w.(membership := false)
    case ConnectHeuristicsResult(_) => w.(connect := false)
    case Receive(m) => if m == InitReply(NoError) && d.link == WaitingInitReply then w.(connect := true) else w
    case _ => w
  }

  function AwaitedAfter(w: Awaited, d: Device, events: seq<Event>): Awaited
    decreases |events|
  {
    if events == [] then w else AwaitedAfter(AwaitedBy(w, d, events[0]), Step(d, events[0]).0, events[1..])
  }

  lemma ReceiveAwaits(d: Device, m: ToDevice)
    ensures OnReceive(d, m).0.membershipHeuristics == d.membershipHeuristics
    ensures OnReceive(d, m).0.connectHeuristics <==>
              d.connectHeuristics || (m == InitReply(NoError) && d.link == WaitingInitReply)
  {
    match m
    case InitReply(error) =>
    case SetOptionReply =>
    case ServerError(_) =>
    case ListReply(ring, vote) =>
    case VoteInfo(_, ring, vote) =>
  }

  lemma StepAwaits(d: Device, e: Event)
    ensures var t := Step(d, e).0;
            Awaited(t.membershipHeuristics, t.connectHeuristics) == AwaitedBy(Awaited(d.membershipHeuristics, d.connectHeuristics), d, e)
  {
    match e
    case Receive(m) => ReceiveAwaits(d, m);
    case _ =>
  }

  /** Over every run a result is awaited from what asks for it until it comes, once. */
  lemma {:induction false} ResultsAreAwaitedOnce(d: Device, events: seq<Event>)
    ensures var t := After(d, events);
            Awaited(t.membershipHeuristics, t.connectHeuristics)
            == AwaitedAfter(Awaited(d.membershipHeuristics, d.connectHeuristics), d, events)
    decreases |events|
  {
    if events != [] {
      StepAwaits(d, events[0]);
      ResultsAreAwaitedOnce(Step(d, events[0]).0, events[1..]);
    }
  }
}
