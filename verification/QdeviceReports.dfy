/**
  What a node has told the server on its connection: while the connection is established, the
  server has been told everything the node knows, and every vote has been answered.
*/
module QdeviceReports {
  import opened Tlv
  import opened Qdevice

  /** What a listener at the other end of the connection has been told; None until then. */
  datatype Told = Told(
    keepActive: Option<bool>,
    config: Option<seq<nat>>,
    ring: Option<RingId>,
    members: Option<seq<nat>>,
    heuristics: Option<Heuristics>,
    answers: seq<nat>,
    quorums: nat)

  const NOTHING := Told(None, None, None, None, None, [], 0)

  function Hear(t: Told, m: ToServer): Told {
    match m
    case Init(_, _) => NOTHING
    case SetOption(on) => t.(keepActive := Some(on))
    case ConfigList(_, nodes) => t.(config := Some(nodes))
    case MembershipList(ring, nodes, h) => t.(ring := Some(ring), members := Some(nodes), heuristics := Some(h))
    case QuorumList => t.(quorums := t.quorums + 1)
    case HeuristicsChange(h) => t.(heuristics := Some(h))
    case VoteInfoReply(seqNo) => t.(answers := t.answers + [seqNo])
  }

  function HearAll(t: Told, ms: seq<ToServer>): Told
    decreases |ms|
  {
    if ms == [] then t else HearAll(Hear(t, ms[0]), ms[1..])
  }

  /** What has been told after these events. */
  function ToldBy(t: Told, d: Device, events: seq<Event>): Told
    decreases |events|
  {
    if events == [] then t else ToldBy(HearAll(t, Step(d, events[0]).1), Step(d, events[0]).0, events[1..])
  }

  /** The numbers of the votes that have arrived on the present connection. */
  function VotesArrived(seqNos: seq<nat>, d: Device, events: seq<Event>): seq<nat>
    decreases |events|
  {
    if events == [] then seqNos
    else
      VotesArrived(if events[0].Connect? then []
                   else if events[0].Receive? && events[0].msg.VoteInfo? && d.link == Established then seqNos + [events[0].msg.seqNo]
                   else seqNos,
                   Step(d, events[0]).0, events[1..])
  }

  /** How often the quorum was to be reported on the present connection: once when the connection
      is established, and at every notification after that. */
  function QuorumsDue(n: nat, d: Device, events: seq<Event>): nat
    decreases |events|
  {
    if events == [] then n
    else
      QuorumsDue(if events[0].Connect? then 0
                 else if events[0].QuorumNotify? && d.link == Established then n + 1
                 else if events[0].ConnectHeuristicsResult? && d.link == WaitingInitReply then n + 1
                 else n,
                 Step(d, events[0]).0, events[1..])
  }

  /** The listener knows what the node knows; a membership whose heuristics result is still
      awaited has not been reported yet. */
  predicate UpToDate(t: Told, d: Device) {
    d.link == Established ==>
      && t.keepActive == Some(d.keepActive) && t.config == Some(d.config)
      && t.heuristics == Some(d.latestHeuristics) && t.ring == Some(d.lastSentRing)
      && (!d.paused ==> t.ring == Some(d.ring) && t.members == Some(d.members))
  }

  lemma HearOne(t: Told, m: ToServer)
    ensures HearAll(t, [m]) == Hear(t, m)
  {
    assert [m][1..] == [];
  }

  lemma HearLists(t: Told, on: bool, config: seq<nat>, ring: RingId, members: seq<nat>, h: Heuristics)
    ensures HearAll(t, [SetOption(on), ConfigList(true, config), MembershipList(ring, members, h), QuorumList])
            == Told(Some(on), Some(config), Some(ring), Some(members), Some(h), t.answers, t.quorums + 1)
  {
    var last := [MembershipList(ring, members, h)] + [QuorumList];
    var lists := [ConfigList(true, config)] + last;
    assert [SetOption(on), ConfigList(true, config), MembershipList(ring, members, h), QuorumList] == [SetOption(on)] + lists;
    HearFirst(t, SetOption(on), lists);
    HearFirst(t.(keepActive := Some(on)), ConfigList(true, config), last);
    HearFirst(t.(keepActive := Some(on), config := Some(config)), MembershipList(ring, members, h), [QuorumList]);
    HearOne(t.(keepActive := Some(on), config := Some(config), ring := Some(ring), members := Some(members), heuristics := Some(h)), QuorumList);
  }

  lemma HearFirst(t: Told, m: ToServer, more: seq<ToServer>)
    ensures HearAll(t, [m] + more) == HearAll(Hear(t, m), more)
  {
    assert ([m] + more)[0] == m && ([m] + more)[1..] == more;
  }

  lemma ReportKeeps(t: Told, d: Device, e: Event)
    requires UpToDate(t, d) && Possible(d, e) && !e.Receive? && !e.ConnectHeuristicsResult?
    ensures UpToDate(HearAll(t, Step(d, e).1), Step(d, e).0)
    ensures HearAll(t, Step(d, e).1).answers == if e.Connect? then [] else t.answers
    ensures HearAll(t, Step(d, e).1).quorums
            == if e.Connect? then 0 else if e.QuorumNotify? && d.link == Established then t.quorums + 1 else t.quorums
  {
    if |Step(d, e).1| == 1 {
      HearOne(t, Step(d, e).1[0]);
      assert Step(d, e).1 == [Step(d, e).1[0]];
    }
  }

  lemma ConnectReported(t: Told, d: Device, h: Heuristics)
    requires UpToDate(t, d)
    ensures var (u, sent) := OnConnectHeuristics(d, h);
            UpToDate(HearAll(t, sent), u) && HearAll(t, sent).answers == t.answers
            && HearAll(t, sent).quorums == if d.link == WaitingInitReply then t.quorums + 1 else t.quorums
  {
    HearLists(t, d.keepActive, d.config, d.ring, d.members, h);
  }

  lemma ReceiveKeepsReports(t: Told, d: Device, m: ToDevice)
    requires UpToDate(t, d)
    ensures var (u, sent) := OnReceive(d, m);
            UpToDate(HearAll(t, sent), u)
            && HearAll(t, sent).answers == (if m.VoteInfo? && d.link == Established then t.answers + [m.seqNo] else t.answers)
            && HearAll(t, sent).quorums == t.quorums
  {
    if m.VoteInfo? {
      HearOne(t, VoteInfoReply(m.seqNo));
    }
  }

  lemma StepReported(t: Told, d: Device, e: Event)
    requires UpToDate(t, d) && Possible(d, e)
    ensures UpToDate(HearAll(t, Step(d, e).1), Step(d, e).0)
    ensures HearAll(t, Step(d, e).1).answers
            == if e.Connect? then []
               else if e.Receive? && e.msg.VoteInfo? && d.link == Established then t.answers + [e.msg.seqNo]
               else t.answers
    ensures HearAll(t, Step(d, e).1).quorums
            == if e.Connect? then 0
               else if (e.QuorumNotify? && d.link == Established) || (e.ConnectHeuristicsResult? && d.link == WaitingInitReply)
               then t.quorums + 1
               else t.quorums
  {
    match e
    case Receive(m) => ReceiveKeepsReports(t, d, m);
    case ConnectHeuristicsResult(h) => ConnectReported(t, d, h);
    case _ => ReportKeeps(t, d, e);
  }

  lemma {:induction false} RunReported(t: Told, d: Device, events: seq<Event>)
    requires UpToDate(t, d) && PossibleRun(d, events)
    ensures UpToDate(ToldBy(t, d, events), After(d, events))
    ensures ToldBy(t, d, events).answers == VotesArrived(t.answers, d, events)
    ensures ToldBy(t, d, events).quorums == QuorumsDue(t.quorums, d, events)
    decreases |events|
  {
    if events != [] {
      StepReported(t, d, events[0]);
      RunReported(HearAll(t, Step(d, events[0]).1), Step(d, events[0]).0, events[1..]);
    }
  }

  /** Over every run: while the connection is established the server has been told the node's
      option, configuration, last heuristics result and, unless its heuristics result is awaited,
      its membership; the votes that have arrived have been answered, each once, in order and with
      its own number; and the quorum has been reported as often as it was due. */
  lemma EverythingIsReported(d: Device, events: seq<Event>)
    requires Started(d) && PossibleRun(d, events)
    ensures UpToDate(ToldBy(NOTHING, d, events), After(d, events))
    ensures ToldBy(NOTHING, d, events).answers == VotesArrived([], d, events)
    ensures ToldBy(NOTHING, d, events).quorums == QuorumsDue(0, d, events)
  {
    RunReported(NOTHING, d, events);
  }
}
