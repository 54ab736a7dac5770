/**
  One node, the server's record of it and the two channels between them: what holds of such
  a pair at all times, step by step.
*/
module Peers {
  import opened Tlv
  import opened Ffsplit
  import opened Qdevice
  import Qnetd = FfsplitVotes

  type Ranks = map<RingId, nat>

  datatype Peer = Peer(device: Device, client: Client, toServer: seq<ToServer>, toDevice: seq<ToDevice>)

  // ---------------------------------------------------------------- the node alone

  /** `rank` orders the ring ids the node has met; the current one is the newest. */
  ghost predicate NodeInv(d: Device, rank: Ranks, clock: nat) {
    && DeviceInv(d)
    && d.id in d.config
    && d.ring in rank
    && (d.link != NotConnected ==> d.lastSentRing in rank)
    && (forall r | r in rank :: rank[r] <= rank[d.ring] && rank[r] < clock)
    && (forall r, q | r in rank && q in rank && rank[r] == rank[q] :: r == q)
  }

  // ---------------------------------------------------------------- messages under way

  /** Would this message make the node vote ACK for ring id r? */
  predicate GivesAck(m: ToDevice, r: RingId) {
    (m.VoteInfo? || m.ListReply?) && m.ring == r && m.vote == Ack
  }

  /** The node does not vote ACK and nothing under way makes it. */
  predicate Cold(p: Peer) {
    p.device.vote != Ack && forall m | m in p.toDevice :: !GivesAck(m, p.device.lastSentRing)
  }

  /** Will the votes under way leave the node voting ACK, if it does now exactly when `ack`? */
  predicate EndsInAck(ack: bool, r: RingId, q: seq<ToDevice>)
    decreases |q|
  {
    if q == [] then ack
    else EndsInAck(if q[0].VoteInfo? && q[0].ring == r then q[0].vote == Ack else ack, r, q[1..])
  }

  lemma {:induction false} EndsInAckAppend(ack: bool, r: RingId, q: seq<ToDevice>, m: ToDevice)
    ensures EndsInAck(ack, r, q + [m])
            == if m.VoteInfo? && m.ring == r then m.vote == Ack else EndsInAck(ack, r, q)
    decreases |q|
  {
    if q == [] {
      assert (q + [m])[1..] == [];
    } else {
      assert (q + [m])[1..] == q[1..] + [m];
      EndsInAckAppend(if q[0].VoteInfo? && q[0].ring == r then q[0].vote == Ack else ack, r, q[1..], m);
    }
  }

  /** Votes for another ring id do not count. */
  lemma {:induction false} NoVoteCounts(ack: bool, r: RingId, q: seq<ToDevice>)
    requires forall m | m in q && m.VoteInfo? :: m.ring != r
    ensures EndsInAck(ack, r, q) == ack
    decreases |q|
  {
    if q != [] {
      assert forall m | m in q[1..] :: m in q;
      NoVoteCounts(ack, r, q[1..]);
    }
  }

  lemma {:induction false} EndsInAckMonotone(r: RingId, q: seq<ToDevice>)
    requires EndsInAck(false, r, q)
    ensures EndsInAck(true, r, q)
    decreases |q|
  {
    if q != [] && !(q[0].VoteInfo? && q[0].ring == r) {
      EndsInAckMonotone(r, q[1..]);
    }
  }

  /** Vote numbers grow along the channel and do not exceed the one the server expects. */
  predicate NumbersGrow(q: seq<ToDevice>, expected: nat) {
    && (forall i | 0 <= i < |q| && q[i].VoteInfo? :: q[i].seqNo <= expected)
    && (forall i, j | 0 <= i < j < |q| && q[i].VoteInfo? && q[j].VoteInfo? :: q[i].seqNo < q[j].seqNo)
  }

  /** An answer under way is older than every vote under way. */
  predicate AnswersOlder(ts: seq<ToServer>, q: seq<ToDevice>, expected: nat) {
    forall x | x in ts && x.VoteInfoReply? ::
      x.seqNo <= expected && forall m | m in q && m.VoteInfo? :: x.seqNo < m.seqNo
  }

  /** Ring ids on their way to the server: not older than the stored one, in order, and not
      newer than the one sent last. */
  predicate RingsGrow(rank: Ranks, stored: RingId, ts: seq<ToServer>, last: RingId) {
    && stored in rank && last in rank && rank[stored] <= rank[last]
    && (forall i | 0 <= i < |ts| && ts[i].MembershipList? ::
          ts[i].ring in rank && rank[stored] <= rank[ts[i].ring] <= rank[last])
    && (forall i, j | 0 <= i < j < |ts| && ts[i].MembershipList? && ts[j].MembershipList? ::
          ts[i].ring in rank && ts[j].ring in rank && rank[ts[i].ring] <= rank[ts[j].ring])
  }

  /** The first list under way is a configuration. */
  predicate Opens(ts: seq<ToServer>) {
    |ts| >= 1 && (ts[0].ConfigList? || (ts[0].SetOption? && |ts| >= 2 && ts[1].ConfigList?))
  }

  predicate GoodMessages(id: nat, ts: seq<ToServer>) {
    forall x | x in ts :: !x.Init? && (x.ConfigList? ==> id in x.nodes)
  }

  /** Every vote under way carries a ring id the server has stored; nothing else is an ACK. */
  predicate GoodVotes(rank: Ranks, stored: RingId, q: seq<ToDevice>) {
    && stored in rank
    && (forall m | m in q && m.VoteInfo? ::
          m.ring in rank && rank[m.ring] <= rank[stored] && (m.vote == Ack || m.vote == Nack))
    && (forall m | m in q && m.ListReply? :: m.vote != Ack)
  }

  ghost predicate PeerCore(p: Peer, rank: Ranks) {
    var d, c := p.device, p.client;
    && d.link != NotConnected && c.id == d.id
    && GoodMessages(d.id, p.toServer)
    && (d.link == WaitingInitReply ==> p.toServer == [])
    && (d.link == Established && c.config == [] ==> Opens(p.toServer))
    && RingsGrow(rank, c.ring, p.toServer, d.lastSentRing)
    && GoodVotes(rank, c.ring, p.toDevice)
    && (d.vote == Ack ==> rank[d.lastSentRing] <= rank[c.ring])
    && NumbersGrow(p.toDevice, c.expected)
    && AnswersOlder(p.toServer, p.toDevice, c.expected)
    && (c.state == SendingNack ==> !EndsInAck(d.vote == Ack, d.lastSentRing, p.toDevice))
  }

  // ---------------------------------------------------------------- grants

  /** The node is in the partition, with the ring id its owner reported. */
  predicate Within(p: Peer, g: Option<Candidate>) {
    g.Some? && p.client.id in g.value.members && p.device.lastSentRing == g.value.ring
  }

  /** Only nodes of the granted partition vote ACK or have one under way. */
  predicate Granted(p: Peer, g: Option<Candidate>) {
    Cold(p) || Within(p, g)
  }

  /** While NACKs are being sent: a client outside the decided partition whose NACK is
      answered is cold, one waiting for its ACK reports the ring id of the partition. */
  predicate Refused(p: Peer, g: Option<Candidate>) {
    && (Cold(p) || p.client.state == SendingNack || Within(p, g))
    && (p.client.state == SendingAck ==> g.Some? && p.client.id in g.value.members && p.client.ring == g.value.ring)
  }

  /** A node that votes ACK, or is about to, has reported to the server the ring id it sent last. */
  lemma HotIsReported(p: Peer, rank: Ranks, clock: nat)
    requires NodeInv(p.device, rank, clock) && PeerCore(p, rank) && !Cold(p)
    ensures p.device.lastSentRing == p.client.ring
  {
    if p.device.vote != Ack {
      var m :| m in p.toDevice && GivesAck(m, p.device.lastSentRing);
    }
  }

  // ---------------------------------------------------------------- the server's steps

  /** What the server sends besides votes. */
  predicate PlainReply(m: ToDevice) {
    !m.VoteInfo? && (m.ListReply? ==> m.vote != Ack)
  }

  lemma AppendPlain(p: Peer, rank: Ranks, m: ToDevice)
    requires PeerCore(p, rank) && PlainReply(m)
    ensures PeerCore(p.(toDevice := p.toDevice + [m]), rank)
    ensures Cold(p) ==> Cold(p.(toDevice := p.toDevice + [m]))
  {
    EndsInAckAppend(p.device.vote == Ack, p.device.lastSentRing, p.toDevice, m);
  }

  /** One vote of a decision: the client gets its state and, if it is addressed, a vote with
      the next number and the ring id stored for it. */
  lemma NackSent(p: Peer, rank: Ranks, clock: nat)
    requires NodeInv(p.device, rank, clock) && PeerCore(p, rank)
    ensures var c := p.client;
            var q := Peer(p.device, c.(state := SendingNack, expected := c.expected + 1), p.toServer,
                          p.toDevice + [VoteInfo(c.expected + 1, c.ring, Nack)]);
            PeerCore(q, rank) && (Cold(p) ==> Cold(q))
  {
    var c, d := p.client, p.device;
    var m := VoteInfo(c.expected + 1, c.ring, Nack);
    EndsInAckAppend(d.vote == Ack, d.lastSentRing, p.toDevice, m);
    if c.ring != d.lastSentRing {
      assert rank[c.ring] < rank[d.lastSentRing];
      NoVoteCounts(d.vote == Ack, d.lastSentRing, p.toDevice);
    }
  }

  lemma AckSent(p: Peer, rank: Ranks)
    requires PeerCore(p, rank)
    ensures var c := p.client;
            var q := Peer(p.device, c.(state := SendingAck, expected := c.expected + 1), p.toServer,
                          p.toDevice + [VoteInfo(c.expected + 1, c.ring, Ack)]);
            PeerCore(q, rank) && (Cold(q) || p.device.lastSentRing == c.ring || !Cold(p))
  {
  }

  lemma StateChanged(p: Peer, rank: Ranks, state: ClientState)
    requires PeerCore(p, rank) && (state == SendingNack ==> p.client.state == SendingNack)
    ensures var q := p.(client := p.client.(state := state)); PeerCore(q, rank) && Cold(q) == Cold(p)
  {
  }

  /** The client's answer to its last vote: it is not voting ACK and will not. */
  lemma AnswerMeansCold(p: Peer, rank: Ranks)
    requires PeerCore(p, rank) && p.client.state == SendingNack
    requires p.toServer != [] && p.toServer[0] == VoteInfoReply(p.client.expected)
    ensures Cold(p)
  {
    assert p.toServer[0] in p.toServer;
    forall m | m in p.toDevice ensures !m.VoteInfo? {
      var i :| 0 <= i < |p.toDevice| && p.toDevice[i] == m;
    }
    NoVoteCounts(p.device.vote == Ack, p.device.lastSentRing, p.toDevice);
  }

  /** What the server keeps of a message it accepts. */
  function Stored(c: Client, m: ToServer): Client {
    match m
    case SetOption(on) => c.(keepActive := on)
    case ConfigList(_, nodes) => c.(config := nodes)
    case MembershipList(ring, nodes, h) => c.(ring := ring, members := nodes, heuristics := h)
    case HeuristicsChange(h) => c.(heuristics := h)
    case _ => c
  }

  /** A message has been taken from the channel and stored, or refused without being stored. */
  lemma MessageTaken(p: Peer, rank: Ranks, stored: bool)
    requires PeerCore(p, rank) && p.toServer != []
    requires !stored ==> !p.toServer[0].ConfigList?
    ensures var q := p.(client := if stored then Stored(p.client, p.toServer[0]) else p.client, toServer := p.toServer[1..]);
            PeerCore(q, rank) && Cold(q) == Cold(p)
  {
    var m, rest := p.toServer[0], p.toServer[1..];
    assert m in p.toServer && forall x | x in rest :: x in p.toServer;
    RingsTaken(rank, p.client.ring, p.toServer, p.device.lastSentRing);
    if m.ConfigList? {
      assert p.device.id in m.nodes;
    }
  }

  lemma RingsTaken(rank: Ranks, stored: RingId, ts: seq<ToServer>, last: RingId)
    requires RingsGrow(rank, stored, ts, last) && ts != []
    ensures RingsGrow(rank, stored, ts[1..], last)
    ensures ts[0].MembershipList? ==> RingsGrow(rank, ts[0].ring, ts[1..], last) && rank[stored] <= rank[ts[0].ring]
  {
  }

  // ---------------------------------------------------------------- the node's steps

  lemma SentGrows(p: Peer, rank: Ranks, x: ToServer, last: RingId)
    requires PeerCore(p, rank) && last in rank && rank[p.device.lastSentRing] <= rank[last]
    requires !x.Init? && !x.VoteInfoReply? && (x.ConfigList? ==> p.device.id in x.nodes)
    requires x.MembershipList? ==> x.ring == last
    ensures var ts := p.toServer + [x];
            && GoodMessages(p.device.id, ts) && RingsGrow(rank, p.client.ring, ts, last)
            && AnswersOlder(ts, p.toDevice, p.client.expected)
            && (p.device.link == Established && p.client.config == [] ==> Opens(ts))
  {
  }

  /** What the node does by itself may only take it away from ACK. */
  predicate Retreats(d: Device, t: Device) {
    && t.id == d.id && (t.link == d.link || t.link == Established)
    && (t.lastSentRing == d.lastSentRing || t.lastSentRing == d.ring)
    && (t.vote == Ack ==> d.vote == Ack && t.lastSentRing == d.lastSentRing)
  }

  lemma RetreatKeepsPeer(p: Peer, rank: Ranks, clock: nat, t: Device, ts: seq<ToServer>)
    requires NodeInv(p.device, rank, clock) && PeerCore(p, rank) && Retreats(p.device, t)
    requires GoodMessages(t.id, ts) && RingsGrow(rank, p.client.ring, ts, t.lastSentRing)
    requires AnswersOlder(ts, p.toDevice, p.client.expected)
    requires t.link == Established && p.client.config == [] ==> Opens(ts)
    requires t.link == WaitingInitReply ==> ts == []
    ensures var q := Peer(t, p.client, ts, p.toDevice);
            PeerCore(q, rank) && (Cold(q) || (!Cold(p) && t.lastSentRing == p.device.lastSentRing))
  {
    var d := p.device;
    if t.lastSentRing != d.lastSentRing {
      assert rank[d.lastSentRing] < rank[t.lastSentRing];
      NoVoteCounts(false, t.lastSentRing, p.toDevice);
    } else if p.client.state == SendingNack && EndsInAck(t.vote == Ack, t.lastSentRing, p.toDevice) && d.vote == Ack {
      if t.vote != Ack {
        EndsInAckMonotone(t.lastSentRing, p.toDevice);
      }
    }
  }

  /** Events at a connected node other than messages and disconnects. */
  predicate Local(e: Event) {
    !e.Connect? && !e.Receive? && !e.Disconnect?
  }

  lemma LocalEvent(p: Peer, rank: Ranks, clock: nat, e: Event)
    requires NodeInv(p.device, rank, clock) && PeerCore(p, rank) && Local(e) && Possible(p.device, e)
    requires e.ConfigChanged? ==> p.device.id in e.config
    ensures var (t, sent) := Step(p.device, e);
            t.link != NotConnected && MovedPeer(p, Peer(t, p.client, p.toServer + sent, p.toDevice), rank)
  {
    var (t, sent) := Step(p.device, e);
    LocalFacts(p.device, e);
    if |sent| == 4 {
      ListsSent(p, rank, clock, t, sent);
    } else if sent == [] {
      assert p.toServer + sent == p.toServer;
      NothingSent(p, rank, clock, t);
    } else {
      OneSent(p, rank, clock, t, sent[0]);
      assert sent == [sent[0]];
    }
  }

  /** The node and the channels have moved: a cold pair stays cold, and one that is not has
      kept its ring id. */
  ghost predicate MovedPeer(p: Peer, q: Peer, rank: Ranks) {
    PeerCore(q, rank) && (Cold(q) || (!Cold(p) && q.device.lastSentRing == p.device.lastSentRing))
  }

  predicate Burst(t: Device, sent: seq<ToServer>) {
    && |sent| == 4 && sent[0].SetOption? && sent[1].ConfigList? && t.id in sent[1].nodes
    && sent[2].MembershipList? && sent[2].ring == t.lastSentRing && sent[3].QuorumList?
  }

  /** All that matters of a local event. */
  lemma LocalFacts(d: Device, e: Event)
    requires DeviceInv(d) && d.id in d.config && Local(e) && Possible(d, e) && d.link != NotConnected
    requires e.ConfigChanged? ==> d.id in e.config
    ensures var (t, sent) := Step(d, e);
            && Retreats(d, t)
            && (if d.link == WaitingInitReply && e.ConnectHeuristicsResult? then Burst(t, sent) && t.link == Established
                else t.link == d.link && |sent| <= 1)
            && (sent == [] ==> t.lastSentRing == d.lastSentRing)
            && (|sent| == 1 ==>
                  && d.link == Established
                  && !sent[0].Init? && !sent[0].VoteInfoReply? && (sent[0].ConfigList? ==> d.id in sent[0].nodes)
                  && (sent[0].MembershipList? ==> sent[0].ring == t.lastSentRing))
  {
  }

  lemma ListsSent(p: Peer, rank: Ranks, clock: nat, t: Device, sent: seq<ToServer>)
    requires NodeInv(p.device, rank, clock) && PeerCore(p, rank) && Retreats(p.device, t)
    requires p.device.link == WaitingInitReply && t.link == Established && Burst(t, sent)
    ensures MovedPeer(p, Peer(t, p.client, p.toServer + sent, p.toDevice), rank)
  {
    assert p.toServer + sent == sent;
    BurstGrows(t, rank, p.client.ring, sent);
    assert AnswersOlder(sent, p.toDevice, p.client.expected);
    RetreatKeepsPeer(p, rank, clock, t, sent);
  }

  lemma BurstGrows(t: Device, rank: Ranks, stored: RingId, sent: seq<ToServer>)
    requires Burst(t, sent) && stored in rank && t.lastSentRing in rank && rank[stored] <= rank[t.lastSentRing]
    ensures GoodMessages(t.id, sent) && RingsGrow(rank, stored, sent, t.lastSentRing) && Opens(sent)
    ensures forall x | x in sent :: !x.VoteInfoReply?
  {
    forall x | x in sent ensures !x.Init? && !x.VoteInfoReply? && (x.ConfigList? ==> t.id in x.nodes) {
      var i :| 0 <= i < |sent| && sent[i] == x;
      assert i == 0 || i == 1 || i == 2 || i == 3;
    }
  }

  lemma OneSent(p: Peer, rank: Ranks, clock: nat, t: Device, x: ToServer)
    requires NodeInv(p.device, rank, clock) && PeerCore(p, rank) && Retreats(p.device, t)
    requires p.device.link == Established == t.link
    requires !x.Init? && !x.VoteInfoReply? && (x.ConfigList? ==> p.device.id in x.nodes)
    requires x.MembershipList? ==> x.ring == t.lastSentRing
    ensures MovedPeer(p, Peer(t, p.client, p.toServer + [x], p.toDevice), rank)
  {
    SentGrows(p, rank, x, t.lastSentRing);
    RetreatKeepsPeer(p, rank, clock, t, p.toServer + [x]);
  }

  lemma NothingSent(p: Peer, rank: Ranks, clock: nat, t: Device)
    requires NodeInv(p.device, rank, clock) && PeerCore(p, rank) && Retreats(p.device, t)
    requires t.link == p.device.link && t.lastSentRing == p.device.lastSentRing
    ensures MovedPeer(p, Peer(t, p.client, p.toServer, p.toDevice), rank)
  {
    RetreatKeepsPeer(p, rank, clock, t, p.toServer);
  }

  /** A message has been received and did not end the connection. */
  lemma ReceivedMessage(p: Peer, rank: Ranks, clock: nat)
    requires NodeInv(p.device, rank, clock) && PeerCore(p, rank) && p.toDevice != []
    requires OnReceive(p.device, p.toDevice[0]).0.link != NotConnected
    ensures var (t, sent) := OnReceive(p.device, p.toDevice[0]);
            MovedPeer(p, Peer(t, p.client, p.toServer + sent, p.toDevice[1..]), rank)
  {
    var m := p.toDevice[0];
    var (t, sent) := OnReceive(p.device, m);
    assert m in p.toDevice;
    ReceiveFacts(p.device, m);
    if m.VoteInfo? {
      VoteReceived(p, rank, clock, t);
    } else {
      assert p.toServer + sent == p.toServer;
      PlainReceived(p, rank, t);
    }
  }

  lemma ReceiveFacts(d: Device, m: ToDevice)
    requires OnReceive(d, m).0.link != NotConnected
    requires m.VoteInfo? ==> m.vote == Ack || m.vote == Nack
    requires m.ListReply? ==> m.vote != Ack
    ensures var (t, sent) := OnReceive(d, m);
            && t.id == d.id && t.link == d.link && t.lastSentRing == d.lastSentRing
            && (if m.VoteInfo? then
                  d.link == Established && sent == [VoteInfoReply(m.seqNo)]
                  && t.vote == (if m.ring == d.lastSentRing then m.vote else d.vote)
                else sent == [] && (t.vote == Ack ==> d.vote == Ack))
  {
  }

  lemma VoteReceived(p: Peer, rank: Ranks, clock: nat, t: Device)
    requires PeerCore(p, rank) && p.toDevice != [] && p.toDevice[0].VoteInfo?
    requires p.device.link == Established
    requires t.id == p.device.id && t.link == p.device.link && t.lastSentRing == p.device.lastSentRing
    requires t.vote == if p.toDevice[0].ring == p.device.lastSentRing then p.toDevice[0].vote else p.device.vote
    ensures MovedPeer(p, Peer(t, p.client, p.toServer + [VoteInfoReply(p.toDevice[0].seqNo)], p.toDevice[1..]), rank)
  {
    var m, rest := p.toDevice[0], p.toDevice[1..];
    assert m in p.toDevice && forall x | x in rest :: x in p.toDevice;
    AnswerSent(p.toServer, p.toDevice, p.client.expected);
  }

  lemma AnswerSent(ts: seq<ToServer>, q: seq<ToDevice>, expected: nat)
    requires NumbersGrow(q, expected) && AnswersOlder(ts, q, expected) && q != [] && q[0].VoteInfo?
    ensures NumbersGrow(q[1..], expected) && AnswersOlder(ts + [VoteInfoReply(q[0].seqNo)], q[1..], expected)
  {
    forall v | v in q[1..] && v.VoteInfo? ensures v in q && q[0].seqNo < v.seqNo {
      var i :| 0 <= i < |q[1..]| && q[1..][i] == v;
      assert q[i + 1] == v;
    }
  }

  lemma PlainReceived(p: Peer, rank: Ranks, t: Device)
    requires PeerCore(p, rank) && p.toDevice != [] && !p.toDevice[0].VoteInfo?
    requires t.id == p.device.id && t.link == p.device.link && t.lastSentRing == p.device.lastSentRing
    requires t.vote == Ack ==> p.device.vote == Ack
    ensures MovedPeer(p, Peer(t, p.client, p.toServer, p.toDevice[1..]), rank)
  {
    var rest := p.toDevice[1..];
    assert forall x | x in rest :: x in p.toDevice;
    if p.device.vote == Ack && t.vote != Ack && EndsInAck(false, t.lastSentRing, rest) {
      EndsInAckMonotone(t.lastSentRing, rest);
    }
  }

  /** A new ring id at the end of the order changes nothing for the old ones. */
  lemma NewestRing(p: Peer, rank: Ranks, ring: RingId, k: nat)
    requires PeerCore(p, rank) && ring !in rank
    ensures PeerCore(p, rank[ring := k])
  {
  }

  // ---------------------------------------------------------------- the node's own invariant

  lemma NodeNotifyKeeps(d: Device, rank: Ranks, clock: nat, ring: RingId, members: seq<nat>)
    requires NodeInv(d, rank, clock) && ring !in rank
    ensures NodeInv(OnNodeList(d, ring, members), rank[ring := clock], clock + 1)
  {
    NotifyKeepsDeviceInv(d, ring, members);
  }

  /** The fields that matter here change only as stated. */
  predicate Kept(d: Device, t: Device, config: seq<nat>) {
    && t.id == d.id && t.ring == d.ring && t.config == config
    && (t.lastSentRing == d.lastSentRing || t.lastSentRing == d.ring)
    && (d.link == NotConnected && t.link != NotConnected ==> t.lastSentRing == d.ring)
  }

  lemma DisconnectKept(d: Device)
    ensures Kept(d, OnDisconnect(d), d.config)
  {
  }

  lemma HeuristicsKept(d: Device, h: Heuristics)
    ensures Kept(d, OnMembershipHeuristics(d, h).0, d.config)
    ensures Kept(d, OnConnectHeuristics(d, h).0, d.config)
    ensures d.link == NotConnected ==>
              var ((t, x), (u, y)) := (OnMembershipHeuristics(d, h), OnConnectHeuristics(d, h));
              t.link == NotConnected && x == [] && u.link == NotConnected && y == []
  {
  }

  lemma ReceiveKept(d: Device, m: ToDevice)
    ensures Kept(d, OnReceive(d, m).0, d.config)
    ensures d.link == NotConnected ==> OnReceive(d, m).0.link == NotConnected && OnReceive(d, m).1 == []
  {
    DisconnectKept(d);
  }

  lemma StepFacts(d: Device, e: Event)
    requires !e.NodeListNotify?
    ensures var (t, sent) := Step(d, e);
            && Kept(d, t, if e.ConfigChanged? then e.config else d.config)
            && (d.link == NotConnected && !e.Connect? ==> t.link == NotConnected && sent == [])
  {
    match e
    case MembershipHeuristicsResult(h) => HeuristicsKept(d, h);
    case ConnectHeuristicsResult(h) => HeuristicsKept(d, h);
    case Receive(m) => ReceiveKept(d, m);
    case Disconnect => DisconnectKept(d);
    case _ =>
  }

  lemma NodeKeepsInv(d: Device, rank: Ranks, clock: nat, e: Event)
    requires NodeInv(d, rank, clock) && Possible(d, e) && !e.NodeListNotify?
    requires e.ConfigChanged? ==> d.id in e.config
    ensures NodeInv(Step(d, e).0, rank, clock)
  {
    StepKeepsDeviceInv(d, e);
    StepFacts(d, e);
  }
}
