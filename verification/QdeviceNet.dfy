/**
  The voting side of a node as it runs: callbacks that change one instance in place. Every
  callback is proved against the function of `Qdevice` for its event, and every vote it casts
  is recorded.
*/
module QdeviceNet {
  import opened Tlv
  import opened Qdevice

  /** One call of votequorum_qdevice_poll. */
  datatype Poll = Poll(ring: RingId, ack: bool)

  /** The vote a node has just taken over, as it is cast at once. */
  function CastNow(paused: bool, ring: RingId, vote: Vote): seq<Poll> {
    if paused then []
    else
      match vote
      case Ack => [Poll(ring, true)]
      case Nack => [Poll(ring, false)]
      case _ => []
  }

  class Net {
    const id: nat
    const tieBreaker: TieBreaker
    var pollRing: RingId
    var ring: RingId
    var members: seq<nat>
    var config: seq<nat>
    var keepActive: bool
    var link: Link
    var lastSentRing: RingId
    var vote: Vote
    var timerRunning: bool
    var paused: bool
    var membershipHeuristics: bool
    var connectHeuristics: bool
    var latestHeuristics: Heuristics
    var out: seq<ToServer>
    var polls: seq<Poll>

    function View(): Device
      reads this
    {
      Device(id, tieBreaker, pollRing, ring, members, config, keepActive, link, lastSentRing, vote, timerRunning, paused,
             membershipHeuristics, connectHeuristics, latestHeuristics)
    }

    /** An instance that knows its first node list and has not connected yet. */
    constructor (id: nat, tieBreaker: TieBreaker, ring: RingId, members: seq<nat>, config: seq<nat>, keepActive: bool)
      ensures Started(View()) && DeviceInv(View())
      ensures View().id == id && View().ring == ring && View().members == members && View().config == config
      ensures out == [] && polls == []
    {
      this.id, this.tieBreaker, this.keepActive := id, tieBreaker, keepActive;
      pollRing, this.ring, lastSentRing, this.members, this.config := ring, ring, ring, members, config;
      link, vote, timerRunning, paused := NotConnected, AskLater, false, false;
      membershipHeuristics, connectHeuristics, latestHeuristics := false, false, HeuristicsUndefined;
      out, polls := [], [];
    }

    /** What a callback may have cast: an ACK only in a state that casts ACK, for its poll ring. */
    twostate predicate CastsHonestly()
      reads this
    {
      old(polls) <= polls
      && forall i | |old(polls)| <= i < |polls| && polls[i].ack :: CastsAck(View()) && polls[i].ring == pollRing
    }

    /** The timer: the vote of a paused timer is not cast; no other vote than ACK and NACK is met. */
    method CastVoteTimerCallback()
      requires timerRunning && DeviceInv(View())
      modifies this`polls
      ensures polls == if paused then old(polls) else old(polls) + [Poll(pollRing, vote == Ack)]
      ensures CastsHonestly()
    {
      if paused {
        return;
      }
      match vote {
        case Ack => polls := polls + [Poll(pollRing, true)];
        case Nack => polls := polls + [Poll(pollRing, false)];
        case _ => assert false;
      }
    }

    /** Set the vote; ACK and NACK start the timer and are cast at once. */
    method CastVoteTimerUpdate(newVote: Vote)
      modifies this`vote, this`timerRunning, this`polls
      ensures View() == TimerUpdate(old(View()), newVote)
      ensures polls == old(polls) + CastNow(paused, pollRing, newVote)
    {
      match newVote {
        case Ack =>
          vote, timerRunning := Ack, true;
          if !paused { polls := polls + [Poll(pollRing, true)]; }
        case Nack =>
          vote, timerRunning := Nack, true;
          if !paused { polls := polls + [Poll(pollRing, false)]; }
        case WaitForReply => vote, timerRunning := WaitForReply, false;
        case AskLater => vote, timerRunning := AskLater, false;
        case NoChange =>
      }
    }

    /** Without a connection an ACK has to become a NACK. */
    method VoteNotConnected() returns (newVote: Vote)
      ensures newVote == FallBack(View())
    {
      newVote := NoChange;
      if link != Established && vote == Ack {
        newVote := Nack;
      }
    }

    method SendMembershipNodeList(h: Heuristics)
      modifies this`lastSentRing, this`out
      ensures lastSentRing == ring && out == old(out) + [MembershipList(ring, members, h)]
    {
      lastSentRing := ring;
      out := out + [MembershipList(ring, members, h)];
    }

    /** Everything the server needs after the connection has been accepted. */
    method SendLists(h: Heuristics)
      modifies this`lastSentRing, this`out
      ensures lastSentRing == ring
      ensures out == old(out) + [SetOption(keepActive), ConfigList(true, config), MembershipList(ring, members, h), QuorumList]
    {
      out := out + [SetOption(keepActive), ConfigList(true, config)];
      SendMembershipNodeList(h);
      out := out + [QuorumList];
    }

    /** A paused timer goes on running but casts nothing. */
    method SetPaused(pause: bool)
      modifies this`paused
      ensures View() == old(View()).(paused := pause)
    {
      paused := pause;
    }

    /** The new membership is known and its heuristics result is awaited. */
    method RememberMembership(newRing: RingId, nodes: seq<nat>)
      modifies this`pollRing, this`ring, this`members, this`membershipHeuristics
      ensures View() == old(View()).(pollRing := newRing, ring := newRing, members := nodes, membershipHeuristics := true)
    {
      pollRing, ring, members, membershipHeuristics := newRing, newRing, nodes, true;
    }

    method StopForMembership(newRing: RingId, nodes: seq<nat>)
      modifies this
      ensures View() == OnNodeList(old(View()), newRing, nodes) && out == old(out)
      ensures polls == old(polls) + CastNow(old(paused), newRing, FallBack(old(View())))
    {
      var newVote := VoteNotConnected();
      RememberMembership(newRing, nodes);
      CastVoteTimerUpdate(newVote);
      SetPaused(true);
    }

    method VotequorumNodeListNotify(newRing: RingId, nodes: seq<nat>)
      requires DeviceInv(View())
      modifies this
      ensures View() == OnNodeList(old(View()), newRing, nodes) && out == old(out) && polls == old(polls)
      ensures DeviceInv(View())
    {
      NotifyKeepsDeviceInv(View(), newRing, nodes);
      StopForMembership(newRing, nodes);
    }

    /** The result of the membership's heuristics ends the pause. */
    method ResultKnown(h: Heuristics)
      modifies this`membershipHeuristics, this`latestHeuristics, this`paused
      ensures View() == old(View()).(membershipHeuristics := false, latestHeuristics := h, paused := false)
    {
      membershipHeuristics, latestHeuristics := false, h;
      SetPaused(false);
    }

    /** Report the membership and wait for the vote, or fall back when there is nobody to ask. */
    method ReportMembership(h: Heuristics)
      modifies this
      ensures View() == OnMembershipHeuristics(old(View()), h).0 && out == old(out) + OnMembershipHeuristics(old(View()), h).1
      ensures polls == old(polls) + CastNow(false, pollRing, FallBack(old(View())))
    {
      ResultKnown(h);
      if link != Established {
        var newVote := VoteNotConnected();
        CastVoteTimerUpdate(newVote);
      } else {
        SendMembershipNodeList(h);
        CastVoteTimerUpdate(WaitForReply);
      }
    }

    method VotequorumHeuristicsResult(h: Heuristics)
      requires DeviceInv(View())
      modifies this
      ensures var r := OnMembershipHeuristics(old(View()), h); View() == r.0 && out == old(out) + r.1
      ensures DeviceInv(View()) && polls == old(polls)
    {
      MembershipKeepsDeviceInv(View(), h);
      ReportMembership(h);
    }

    method Establish(h: Heuristics)
      modifies this`link, this`latestHeuristics
      ensures View() == old(View()).(link := Established, latestHeuristics := h)
    {
      link, latestHeuristics := Established, h;
    }

    /** The connection is up: send every list and wait for the vote. */
    method StartVoting(h: Heuristics)
      modifies this
      ensures View() == OnConnectHeuristics(old(View()), h).0 && out == old(out) + OnConnectHeuristics(old(View()), h).1
      ensures polls == old(polls)
    {
      connectHeuristics := false;
      if link == WaitingInitReply {
        SendLists(h);
        Establish(h);
        CastVoteTimerUpdate(WaitForReply);
      }
    }

    method ConnectHeuristicsResult(h: Heuristics)
      requires DeviceInv(View())
      modifies this
      ensures var r := OnConnectHeuristics(old(View()), h); View() == r.0 && out == old(out) + r.1
      ensures DeviceInv(View()) && polls == old(polls)
    {
      ConnectKeepsDeviceInv(View(), h);
      StartVoting(h);
    }

    method RegularHeuristicsResult(h: Heuristics)
      requires DeviceInv(View())
      modifies this
      ensures var r := OnRegularHeuristics(old(View()), h); View() == r.0 && out == old(out) + r.1
      ensures DeviceInv(View()) && polls == old(polls)
    {
      if h == HeuristicsUndefined {
        return;
      }
      if latestHeuristics != h {
        if link == Established {
          out := out + [HeuristicsChange(h)];
        }
        CastVoteTimerUpdate(NoChange);
      }
      latestHeuristics := h;
    }

    method ConfigNodeListChanged(nodes: seq<nat>)
      requires DeviceInv(View())
      modifies this
      ensures var r := OnConfig(old(View()), nodes); View() == r.0 && out == old(out) + r.1
      ensures DeviceInv(View()) && polls == old(polls)
    {
      config := nodes;
      var newVote := VoteNotConnected();
      CastVoteTimerUpdate(newVote);
      if link == Established {
        out := out + [ConfigList(false, nodes)];
      }
    }

    method VotequorumQuorumNotify()
      requires DeviceInv(View())
      modifies this
      ensures var r := OnQuorum(old(View())); View() == r.0 && out == old(out) + r.1
      ensures DeviceInv(View()) && polls == old(polls)
    {
      var newVote := VoteNotConnected();
      CastVoteTimerUpdate(newVote);
      if link == Established {
        out := out + [QuorumList];
      }
    }

    method SendInit()
      requires DeviceInv(View()) && link == NotConnected
      modifies this
      ensures var r := OnConnect(old(View())); View() == r.0 && out == old(out) + r.1
      ensures DeviceInv(View()) && polls == old(polls)
    {
      lastSentRing := ring;
      out := out + [Init(ring, tieBreaker)];
      link := WaitingInitReply;
    }

    /** After the poll loop: the timer may not stay paused, and the vote is NACK. */
    method Disconnected()
      requires DeviceInv(View())
      modifies this
      ensures View() == OnDisconnect(old(View())) && out == old(out)
      ensures vote == Nack && timerRunning && !paused && link == NotConnected
      ensures polls == old(polls) + [Poll(pollRing, false)]
      ensures DeviceInv(View())
    {
      DisconnectKeepsDeviceInv(View());
      paused := false;
      CastVoteTimerUpdate(Nack);
      link := NotConnected;
    }

    /** A message of the server; an unexpected one ends the connection. */
    method MessageReceived(m: ToDevice)
      requires DeviceInv(View())
      modifies this
      ensures var r := OnReceive(old(View()), m); View() == r.0 && out == old(out) + r.1
      ensures polls == old(polls) + (if EndsConnection(old(View()), m) then [Poll(pollRing, false)]
                                     else if m.ListReply? || m.VoteInfo? then
                                       CastNow(paused, pollRing, if m.ring == old(lastSentRing) then m.vote else NoChange)
                                     else [])
      ensures DeviceInv(View()) && CastsHonestly()
    {
      ReceiveKeepsDeviceInv(View(), m);
      match m {
        case InitReply(error) =>
          if link != WaitingInitReply || error != NoError {
            Disconnected();
          } else {
            connectHeuristics := true;
          }
        case SetOptionReply =>
          if link != Established {
            Disconnected();
          }
        case ServerError(_) => Disconnected();
        case ListReply(msgRing, msgVote) => VoteArrived(msgRing, msgVote);
        case VoteInfo(seqNo, msgRing, msgVote) =>
          var expected := link == Established;
          VoteArrived(msgRing, msgVote);
          if expected {
            out := out + [VoteInfoReply(seqNo)];
          }
      }
    }

    /** A vote tagged with an old ring id changes nothing. */
    method VoteArrived(msgRing: RingId, msgVote: Vote)
      requires DeviceInv(View())
      modifies this
      ensures View() == if old(link) != Established then OnDisconnect(old(View()))
                        else TimerUpdate(old(View()), RingFiltered(old(View()), msgRing, msgVote))
      ensures polls == old(polls) + (if old(link) != Established then [Poll(pollRing, false)]
                                     else CastNow(paused, pollRing, if msgRing == old(lastSentRing) then msgVote else NoChange))
      ensures out == old(out) && DeviceInv(View()) && CastsHonestly()
    {
      if link != Established {
        Disconnected();
        return;
      }
      var newVote := msgVote;
      if msgRing != lastSentRing {
        newVote := NoChange;
      }
      VoteKeepsDeviceInv(View(), newVote);
      CastVoteTimerUpdate(newVote);
    }
  }
}
