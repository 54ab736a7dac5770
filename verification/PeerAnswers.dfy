/**
  What each answer of the server means for one node and its record: a decision, an undecided
  event, and the reply to a vote.
*/
module PeerAnswers {
  import opened Tlv
  import opened Ffsplit
  import opened Qdevice
  import opened FfsplitTwoPhase
  import opened SystemInvariant
  import opened Peers
  import Qnetd = FfsplitVotes

  function VoteMessages(o: Option<Qnetd.VoteInfo>): seq<ToDevice> {
    match o
    case None => []
    case Some(info) => [VoteInfo(info.seqNo, info.ring, info.vote)]
  }

  /** The pair after an answer: `mine` when the answer is to a message of this client. */
  function Shown(p: Peer, c: Client, mine: bool, o: Option<Qnetd.VoteInfo>, replies: seq<ToDevice>): Peer
    requires mine ==> p.toServer != []
  {
    Peer(p.device, c, if mine then p.toServer[1..] else p.toServer,
         p.toDevice + VoteMessages(o) + if mine then replies else [])
  }

  /** At most one message, and not a vote. */
  predicate Plain(replies: seq<ToDevice>) {
    |replies| <= 1 && forall m | m in replies :: PlainReply(m)
  }

  lemma RepliesAppended(p: Peer, rank: Ranks, replies: seq<ToDevice>)
    requires PeerCore(p, rank) && Plain(replies)
    ensures var q := p.(toDevice := p.toDevice + replies); PeerCore(q, rank) && (Cold(p) ==> Cold(q))
  {
    if replies == [] {
      assert p.toDevice + replies == p.toDevice;
    } else {
      assert replies == [replies[0]] && replies[0] in replies;
      AppendPlain(p, rank, replies[0]);
    }
  }

  // ---------------------------------------------------------------- without a decision

  lemma UndecidedPeer(p: Peer, rank: Ranks, nacks: bool, after: bool, decided: Option<Candidate>, granted: Option<Candidate>,
                      c: Client, mine: bool, replies: seq<ToDevice>)
    requires PeerGood(p, rank, nacks, decided, granted) && Plain(replies)
    requires if mine then p.toServer != [] && (c == Stored(p.client, p.toServer[0]) || (c == p.client && !p.toServer[0].ConfigList?))
             else c == p.client
    requires after ==> nacks && c.ring == p.client.ring
    ensures PeerGood(Shown(p, c, mine, None, replies), rank, after, decided, granted)
  {
    assert p.toDevice + [] == p.toDevice;
    if mine {
      MessageTaken(p, rank, c == Stored(p.client, p.toServer[0]));
      RepliesAppended(Peer(p.device, c, p.toServer[1..], p.toDevice), rank, replies);
    }
  }

  // ---------------------------------------------------------------- a decision

  /** What the decision means for one client: its ring id, if it is selected, is the granted one. */
  predicate GrantFor(c: Client, call: Call, quorate: seq<nat>, g: Option<Candidate>) {
    && (g.None? ==> quorate == [])
    && (g.Some? ==> quorate == g.value.members && (c.id in quorate && !Leaves(c, call) ==> Seen(c, call).ring == g.value.ring))
  }

  /** The vote of a decision sent to a client whose new values are stored. */
  lemma VotePeer(p: Peer, rank: Ranks, clock: nat, quorate: seq<nat>, g: Option<Candidate>, nacks: bool, c: Client, o: Option<Qnetd.VoteInfo>)
    requires NodeInv(p.device, rank, clock) && PeerCore(p, rank)
    requires if g.None? then quorate == []
             else quorate == g.value.members && (p.client.id in quorate ==> p.client.ring == g.value.ring)
    requires p.client.id !in quorate ==> nacks
    requires var sent := (p.client.id in quorate) != nacks;
             && c == p.client.(state := if p.client.id in quorate then SendingAck else SendingNack,
                               expected := p.client.expected + if sent then 1 else 0)
             && o == if sent then Some(Qnetd.VoteInfo(p.client.expected + 1, p.client.ring, if nacks then Nack else Ack)) else None
    ensures var q := Peer(p.device, c, p.toServer, p.toDevice + VoteMessages(o));
            PeerCore(q, rank) && Refused(q, g) && (nacks && Cold(p) ==> Cold(q))
  {
    if p.client.id in quorate {
      if !Cold(p) {
        HotIsReported(p, rank, clock);
      }
      if nacks {
        StateChanged(p, rank, SendingAck);
        assert p.toDevice + [] == p.toDevice;
      } else {
        AckSent(p, rank);
      }
    } else {
      NackSent(p, rank, clock);
    }
  }

  lemma DecidedPeer(p: Peer, rank: Ranks, clock: nat, call: Call, t: Qnetd.Server, d: Client, o: Option<Qnetd.VoteInfo>,
                    mine: bool, replies: seq<ToDevice>, g: Option<Candidate>, granted: Option<Candidate>)
    requires NodeInv(p.device, rank, clock) && PeerCore(p, rank) && Granted(p, granted) && Plain(replies)
    requires !Leaves(p.client, call) && Decided(p.client, call, t, d, o) && GrantFor(p.client, call, t.quorate, g)
    requires t.state != Qnetd.SendingNacks ==> d.state != SendingNack
    requires mine <==> p.client.id == call.id
    requires mine ==> p.toServer != [] && Seen(p.client, call) == Stored(p.client, p.toServer[0])
    ensures var nacks := t.state == Qnetd.SendingNacks;
            PeerGood(Shown(p, Seen(d, call), mine, o, replies), rank, nacks, g, if nacks then granted else g)
  {
    var p1 := Peer(p.device, Seen(p.client, call), if mine then p.toServer[1..] else p.toServer, p.toDevice);
    if mine {
      MessageTaken(p, rank, true);
    }
    VotedPeer(p1, rank, clock, t, Seen(d, call), o, if mine then replies else [], g, granted);
  }

  /** The same for a client whose new values are stored and whose message has been taken. */
  lemma VotedPeer(p: Peer, rank: Ranks, clock: nat, t: Qnetd.Server, c: Client, o: Option<Qnetd.VoteInfo>, replies: seq<ToDevice>,
                  g: Option<Candidate>, granted: Option<Candidate>)
    requires NodeInv(p.device, rank, clock) && PeerCore(p, rank) && Granted(p, granted) && Plain(replies)
    requires if g.None? then t.quorate == []
             else t.quorate == g.value.members && (p.client.id in t.quorate ==> p.client.ring == g.value.ring)
    requires p.client.id !in t.quorate ==> t.state == Qnetd.SendingNacks
    requires var sent := (p.client.id in t.quorate) != (t.state == Qnetd.SendingNacks);
             && c == p.client.(state := if p.client.id in t.quorate then SendingAck else SendingNack,
                               expected := p.client.expected + if sent then 1 else 0)
             && o == if sent then Some(Qnetd.VoteInfo(p.client.expected + 1, p.client.ring,
                                                      if t.state == Qnetd.SendingNacks then Nack else Ack)) else None
    ensures var nacks := t.state == Qnetd.SendingNacks;
            PeerGood(Peer(p.device, c, p.toServer, p.toDevice + VoteMessages(o) + replies), rank, nacks, g, if nacks then granted else g)
  {
    VotePeer(p, rank, clock, t.quorate, g, t.state == Qnetd.SendingNacks, c, o);
    RepliesAppended(Peer(p.device, c, p.toServer, p.toDevice + VoteMessages(o)), rank, replies);
  }

  // ---------------------------------------------------------------- a reply to a vote

  lemma ReplyPeer(p: Peer, rank: Ranks, nacks: bool, acks: bool, decided: Option<Candidate>, granted: Option<Candidate>,
                  c: Client, o: Option<Qnetd.VoteInfo>, mine: bool)
    requires PeerGood(p, rank, nacks, decided, granted)
    requires mine ==> p.toServer != [] && p.toServer[0] == VoteInfoReply(p.client.expected)
    requires acks ==> nacks && (mine || p.client.state != SendingNack)
    requires var state := if mine then ClientWaiting else p.client.state;
             var sent := acks && state == SendingAck;
             && c == p.client.(state := state, expected := p.client.expected + if sent then 1 else 0)
             && o == if sent then Some(Qnetd.VoteInfo(p.client.expected + 1, p.client.ring, Ack)) else None
    ensures PeerGood(Shown(p, c, mine, o, []), rank, nacks && !acks, decided, if acks then decided else granted)
  {
    assert p.toDevice + [] == p.toDevice;
    if mine {
      if p.client.state == SendingNack {
        AnswerMeansCold(p, rank);
      }
      MessageTaken(p, rank, false);
      StateChanged(p.(toServer := p.toServer[1..]), rank, ClientWaiting);
    } else if o.Some? {
      AckSent(p, rank);
      assert p.toDevice + VoteMessages(o) + [] == p.toDevice + VoteMessages(o);
    }
  }
}
