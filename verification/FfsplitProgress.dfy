/**
  Progress of an undisturbed decision: every reply to a vote of this decision brings it one
  step nearer to its end, and at the end every client in the selected list has been sent
  exactly one ACK and every other client exactly one NACK.
*/
module FfsplitProgress {
  import opened Tlv
  import opened Ffsplit
  import opened FfsplitVotes
  import opened FfsplitTwoPhase

  /** The votes sent to each client since the decision, by position. */
  type Log = seq<seq<Vote>>

  function VotesOf(o: Option<VoteInfo>): seq<Vote> {
    match o
    case None => []
    case Some(info) => [info.vote]
  }

  function Extend(log: Log, out: Outbox): (r: Log)
    requires |out| == |log|
    ensures |r| == |log| && forall i | 0 <= i < |log| :: r[i] == log[i] + VotesOf(out[i])
  {
    seq(|log|, i requires 0 <= i < |log| => log[i] + VotesOf(out[i]))
  }

  predicate Sending(c: Client) {
    c.state == SendingNack || c.state == SendingAck
  }

  /** The number of clients still in a sending state. */
  function Pending(cs: seq<Client>): nat {
    if cs == [] then 0 else Pending(cs[..|cs| - 1]) + if Sending(cs[|cs| - 1]) then 1 else 0
  }

  /** A client of a decision in progress: what it has been sent fits its state. */
  predicate OnTrack(state: ClusterState, quorate: seq<nat>, c: Client, votes: seq<Vote>) {
    if c.id in quorate then
      match state
      case SendingNacks => c.state == SendingAck && votes == []
      case SendingAcks => c.state != SendingNack && votes == [Ack]
      case _ => c.state == ClientWaiting && votes == [Ack]
    else
      votes == [Nack] && (if state == SendingNacks then c.state != SendingAck else c.state == ClientWaiting)
  }

  predicate InProgress(s: Server, log: Log) {
    && |log| == |s.clients| && Sorted(s.clients)
    && s.state != WaitingForStableMembership
    && (forall i | 0 <= i < |log| :: OnTrack(s.state, s.quorate, s.clients[i], log[i]))
    && (s.state == SendingNacks ==> !NoneSending(s.clients, SendingNack))
    && (s.state == SendingAcks ==> !NoneSending(s.clients, SendingAck))
  }

  /** Client i has been sent a vote of this decision and has not answered it. */
  predicate Owes(s: Server, i: int) {
    0 <= i < |s.clients|
    && ((s.state == SendingNacks && s.clients[i].state == SendingNack)
        || (s.state == SendingAcks && s.clients[i].state == SendingAck))
  }

  /** The decision is over and each client got its one vote. */
  predicate Finished(s: Server, log: Log) {
    && s.state == WaitingForChange && |log| == |s.clients|
    && forall i | 0 <= i < |log| ::
         s.clients[i].state == ClientWaiting && log[i] == [if s.clients[i].id in s.quorate then Ack else Nack]
  }

  /** A decision taken for a client that stays starts such a progress. */
  lemma DecisionStarts(s: Server, call: Call, e: Effect)
    requires Sorted(s.clients) && !call.leaving && e.decided && EffectShape(s, call, e)
    ensures InProgress(e.server, Extend(seq(|s.clients|, _ => []), e.out))
  {
    forall i | 0 <= i < |s.clients|
      ensures e.server.clients[i].id == s.clients[i].id
      ensures OnTrack(e.server.state, e.server.quorate, e.server.clients[i], [] + VotesOf(e.out[i]))
    {
      assert Decided(s.clients[i], call, e.server, e.server.clients[i], e.out[i]);
    }
  }

  /** So does one taken because client i leaves, once it is removed. */
  lemma DisconnectStarts(s: Server, i: nat, call: Call, e: Effect)
    requires Sorted(s.clients) && i < |s.clients| && call == CallOf(s.clients[i], true)
    requires e.decided && EffectShape(s, call, e)
    ensures var log := Extend(seq(|s.clients|, _ => []), e.out);
            InProgress(e.server.(clients := Without(e.server.clients, i)), log[..i] + log[i + 1..])
  {
    var log := Extend(seq(|s.clients|, _ => []), e.out);
    SortedIsUnique(s.clients);
    forall j | 0 <= j < |s.clients|
      ensures e.server.clients[j].id == s.clients[j].id
      ensures j == i ==> e.server.clients[j].state == ClientWaiting
      ensures j != i ==> OnTrack(e.server.state, e.server.quorate, e.server.clients[j], log[j])
    {
      assert Decided(s.clients[j], call, e.server, e.server.clients[j], e.out[j]);
      assert j != i ==> s.clients[j].id != s.clients[i].id;
    }
    RemovalStaysOnTrack(e.server, log, i);
  }

  lemma RemovalStaysOnTrack(s: Server, log: Log, i: nat)
    requires Sorted(s.clients) && |log| == |s.clients| && i < |log|
    requires s.clients[i].state == ClientWaiting && s.state != WaitingForStableMembership
    requires forall j | 0 <= j < |log| && j != i :: OnTrack(s.state, s.quorate, s.clients[j], log[j])
    requires s.state == SendingNacks ==> !NoneSending(s.clients, SendingNack)
    requires s.state == SendingAcks ==> !NoneSending(s.clients, SendingAck)
    ensures InProgress(s.(clients := Without(s.clients, i)), log[..i] + log[i + 1..])
  {
    WithoutElements(s.clients, i);
    StillSending(s.clients, i, SendingNack);
    StillSending(s.clients, i, SendingAck);
    OthersOnTrack(s, log, i);
  }

  lemma OthersOnTrack(s: Server, log: Log, i: nat)
    requires |log| == |s.clients| && i < |log|
    requires forall j | 0 <= j < |log| && j != i :: OnTrack(s.state, s.quorate, s.clients[j], log[j])
    ensures var cs, rest := Without(s.clients, i), log[..i] + log[i + 1..];
            |rest| == |cs| && forall j | 0 <= j < |rest| :: OnTrack(s.state, s.quorate, cs[j], rest[j])
  {
    var cs, rest := Without(s.clients, i), log[..i] + log[i + 1..];
    forall j | 0 <= j < |rest| ensures OnTrack(s.state, s.quorate, cs[j], rest[j]) {
      var k := if j < i then j else j + 1;
      assert cs[j] == s.clients[k] && rest[j] == log[k];
    }
  }

  lemma StillSending(cs: seq<Client>, i: nat, state: ClientState)
    requires i < |cs| && cs[i].state == ClientWaiting && state != ClientWaiting
    requires Sorted(cs)
    ensures NoneSending(Without(cs, i), state) ==> NoneSending(cs, state)
  {
    if NoneSending(Without(cs, i), state) {
      forall j | 0 <= j < |cs| ensures cs[j].state != state {
        if j != i {
          assert Without(cs, i)[if j < i then j else j - 1] == cs[j];
        }
      }
    }
  }

  lemma {:induction false} PendingUpdate(cs: seq<Client>, ds: seq<Client>, i: nat)
    requires |cs| == |ds| && i < |cs| && Sending(cs[i]) && !Sending(ds[i])
    requires forall j | 0 <= j < |cs| && j != i :: Sending(cs[j]) == Sending(ds[j])
    ensures Pending(ds) == Pending(cs) - 1
  {
    var n := |cs| - 1;
    if i == n {
      PendingSame(cs[..n], ds[..n]);
    } else {
      PendingUpdate(cs[..n], ds[..n], i);
    }
  }

  lemma {:induction false} PendingSame(cs: seq<Client>, ds: seq<Client>)
    requires |cs| == |ds|
    requires forall j | 0 <= j < |cs| :: Sending(cs[j]) == Sending(ds[j])
    ensures Pending(ds) == Pending(cs)
  {
    if cs != [] {
      PendingSame(cs[..|cs| - 1], ds[..|ds| - 1]);
    }
  }

  /** A reply that answers a vote of this decision. */
  lemma ReplyAdvances(s: Server, log: Log, i: nat)
    requires InProgress(s, log) && Owes(s, i)
    ensures var (t, out) := ReplyReceived(s, i, s.clients[i].expected);
            InProgress(t, Extend(log, out)) && Pending(t.clients) == Pending(s.clients) - 1
  {
    var (t, out) := ReplyReceived(s, i, s.clients[i].expected);
    SortedIsUnique(s.clients);
    ReplyShape(s, i, s.clients[i].expected);
    var acks := LastNackAnswered(s, i);
    forall j | 0 <= j < |s.clients|
      ensures t.clients[j].id == s.clients[j].id
      ensures t.clients[j].state == if j == i then ClientWaiting else s.clients[j].state
      ensures out[j] == (if acks && j != i && s.clients[j].state == SendingAck
                         then Some(VoteInfo(s.clients[j].expected + 1, s.clients[j].ring, Ack)) else None)
    {
      assert Answered(s, i, j, acks, t.clients[j], out[j]);
    }
    PendingUpdate(s.clients, t.clients, i);
    ReplyKeepsTrack(s, log, i, t, out);
  }

  lemma ReplyKeepsTrack(s: Server, log: Log, i: nat, t: Server, out: Outbox)
    requires InProgress(s, log) && Owes(s, i)
    requires |t.clients| == |s.clients| == |out| && t.quorate == s.quorate
    requires forall j | 0 <= j < |s.clients| ::
               && t.clients[j].id == s.clients[j].id
               && t.clients[j].state == (if j == i then ClientWaiting else s.clients[j].state)
               && out[j] == (if LastNackAnswered(s, i) && j != i && s.clients[j].state == SendingAck
                             then Some(VoteInfo(s.clients[j].expected + 1, s.clients[j].ring, Ack)) else None)
    requires t.state == (if s.state == SendingNacks && !LastNackAnswered(s, i) then SendingNacks
                         else if NoneSending(t.clients, SendingAck) then WaitingForChange else SendingAcks)
    ensures InProgress(t, Extend(log, out))
  {
    var log' := Extend(log, out);
    if s.state == SendingNacks && !LastNackAnswered(s, i) {
      var j :| 0 <= j < |s.clients| && j != i && s.clients[j].state == SendingNack;
      assert t.clients[j].state == SendingNack;
    }
    forall j | 0 <= j < |log'| ensures OnTrack(t.state, t.quorate, t.clients[j], log'[j]) {
      assert OnTrack(s.state, s.quorate, s.clients[j], log[j]);
      assert OnTrack(s.state, s.quorate, s.clients[i], log[i]);
    }
  }

  /** A reply that answers a vote of this decision, or repeats an answer, leaves the decision on
      its way; a reply to an earlier decision's vote does not when its sender still waits for its
      ACK, because that client is then marked as having answered and gets no vote. */
  lemma ReplyKeepsProgressIff(s: Server, log: Log, i: nat)
    requires InProgress(s, log) && i < |s.clients|
    ensures var (t, out) := ReplyReceived(s, i, s.clients[i].expected);
            InProgress(t, Extend(log, out)) <==> !(s.state == SendingNacks && s.clients[i].state == SendingAck)
  {
    var (t, out) := ReplyReceived(s, i, s.clients[i].expected);
    assert OnTrack(s.state, s.quorate, s.clients[i], log[i]);
    if Owes(s, i) {
      ReplyAdvances(s, log, i);
    } else if s.clients[i].state == SendingAck {
      EarlyReplyLosesAck(s, log, i);
    } else {
      RepeatedReply(s, log, i);
    }
  }

  lemma EarlyReplyLosesAck(s: Server, log: Log, i: nat)
    requires InProgress(s, log) && i < |s.clients| && s.state == SendingNacks && s.clients[i].state == SendingAck
    ensures var (t, out) := ReplyReceived(s, i, s.clients[i].expected);
            && t.state == SendingNacks && t.clients[i].state == ClientWaiting && t.clients[i].id in t.quorate
            && log[i] + VotesOf(out[i]) == [] && !InProgress(t, Extend(log, out))
  {
    var (t, out) := ReplyReceived(s, i, s.clients[i].expected);
    SortedIsUnique(s.clients);
    ReplyShape(s, i, s.clients[i].expected);
    assert OnTrack(s.state, s.quorate, s.clients[i], log[i]);
    var j :| 0 <= j < |s.clients| && s.clients[j].state == SendingNack;
    assert !LastNackAnswered(s, i);
    assert Answered(s, i, i, false, t.clients[i], out[i]);
    assert !OnTrack(t.state, t.quorate, t.clients[i], Extend(log, out)[i]);
  }

  lemma RepeatedReply(s: Server, log: Log, i: nat)
    requires InProgress(s, log) && i < |s.clients| && s.clients[i].state == ClientWaiting
    ensures var (t, out) := ReplyReceived(s, i, s.clients[i].expected);
            t == s && Extend(log, out) == log
  {
    var (t, out) := ReplyReceived(s, i, s.clients[i].expected);
    assert s.clients[i := s.clients[i].(state := ClientWaiting)] == s.clients;
    assert forall j | 0 <= j < |log| :: log[j] + VotesOf(None) == log[j];
  }

  lemma {:induction false} PendingZero(cs: seq<Client>)
    ensures Pending(cs) == 0 <==> forall i | 0 <= i < |cs| :: !Sending(cs[i])
  {
    if cs != [] {
      PendingZero(cs[..|cs| - 1]);
    }
  }

  /** While the decision is in progress somebody owes a reply, and only then. */
  lemma SomebodyOwes(s: Server, log: Log)
    requires InProgress(s, log)
    ensures Pending(s.clients) > 0 <==> exists i :: Owes(s, i)
    ensures Pending(s.clients) == 0 ==> Finished(s, log)
  {
    PendingZero(s.clients);
    if s.state == SendingNacks {
      var i :| 0 <= i < |s.clients| && s.clients[i].state == SendingNack;
      assert Owes(s, i) && Sending(s.clients[i]);
    } else if s.state == SendingAcks {
      var i :| 0 <= i < |s.clients| && s.clients[i].state == SendingAck;
      assert Owes(s, i) && Sending(s.clients[i]);
    } else {
      forall i | 0 <= i < |s.clients| ensures !Sending(s.clients[i]) {
        assert OnTrack(s.state, s.quorate, s.clients[i], log[i]);
      }
      forall i | 0 <= i < |log|
        ensures s.clients[i].state == ClientWaiting && log[i] == [if s.clients[i].id in s.quorate then Ack else Nack]
      {
        assert OnTrack(s.state, s.quorate, s.clients[i], log[i]);
      }
    }
  }

  /** A run of replies, each from a client that owes one. */
  predicate Replies(s: Server, who: seq<nat>)
    decreases |who|
  {
    who == [] || (Owes(s, who[0]) && Replies(ReplyReceived(s, who[0], s.clients[who[0]].expected).0, who[1..]))
  }

  function AfterReplies(s: Server, log: Log, who: seq<nat>): (Server, Log)
    requires Replies(s, who) && |log| == |s.clients|
    decreases |who|
  {
    if who == [] then (s, log)
    else
      var (t, out) := ReplyReceived(s, who[0], s.clients[who[0]].expected);
      ReplyLength(s, who[0], s.clients[who[0]].expected);
      AfterReplies(t, Extend(log, out), who[1..])
  }

  lemma ReplyLength(s: Server, i: nat, seqNo: nat)
    requires i < |s.clients|
    ensures |ReplyReceived(s, i, seqNo).0.clients| == |s.clients|
  {
  }

  /** Whatever the order of the replies, a decision with n clients to hear from takes exactly n
      of them and then is finished. */
  lemma {:induction false} DecisionCompletes(s: Server, log: Log, who: seq<nat>)
    requires InProgress(s, log) && Replies(s, who)
    ensures |who| <= Pending(s.clients)
    ensures var (t, log') := AfterReplies(s, log, who);
            InProgress(t, log') && Pending(t.clients) == Pending(s.clients) - |who|
            && (|who| == Pending(s.clients) <==> Finished(t, log'))
    decreases |who|
  {
    if who == [] {
      SomebodyOwes(s, log);
      PendingZero(s.clients);
    } else {
      ReplyAdvances(s, log, who[0]);
      ReplyLength(s, who[0], s.clients[who[0]].expected);
      var (t, out) := ReplyReceived(s, who[0], s.clients[who[0]].expected);
      DecisionCompletes(t, Extend(log, out), who[1..]);
    }
  }

  // ---------------------------------------------------------------- from the event on

  /** What the decision of this event has sent, to each client that is connected after it. */
  function FirstVotes(e: Event, a: Answer): Log
    requires e.Disconnected? ==> e.client < |a.out|
  {
    var log := Extend(seq(|a.out|, _ => []), a.out);
    match e
    case Disconnected(i) => log[..i] + log[i + 1..]
    case _ => log
  }

  /** Storing what a client has sent changes neither its id nor its state. */
  lemma StoringStaysOnTrack(s: Server, log: Log, i: nat, call: Call)
    requires InProgress(s, log) && i < |s.clients|
    ensures InProgress(s.(clients := s.clients[i := Seen(s.clients[i], call)]), log)
  {
    var cs := s.clients[i := Seen(s.clients[i], call)];
    forall j | 0 <= j < |cs| ensures cs[j].id == s.clients[j].id && cs[j].state == s.clients[j].state {
    }
    forall state | NoneSending(cs, state) ensures NoneSending(s.clients, state) {
      forall j | 0 <= j < |cs| ensures s.clients[j].state != state {
        assert cs[j].state != state;
      }
    }
  }

  lemma StoredDecisionStarts(s: Server, i: nat, call: Call, ready: bool)
    requires Sorted(s.clients) && i < |s.clients| && call.id == s.clients[i].id && !call.leaving
    requires DecideAndStore(s, i, call, ready).decided
    ensures var a := DecideAndStore(s, i, call, ready);
            InProgress(a.server, Extend(seq(|a.out|, _ => []), a.out))
  {
    var e := Do(s, call);
    DoShape(s, call);
    DecisionStarts(s, call, e);
    StoringStaysOnTrack(e.server, Extend(seq(|s.clients|, _ => []), e.out), i, call);
  }

  /** Every event that makes a decision starts its progress. */
  lemma EventStarts(s: Server, e: Event)
    requires Sorted(s.clients) && ValidEvent(s, e) && Handle(s, e).decided
    ensures var a := Handle(s, e); InProgress(a.server, FirstVotes(e, a))
  {
    match e
    case ConfigReceived(i, nodes, initial) =>
      StoredDecisionStarts(s, i, CallOf(s.clients[i], false).(config := nodes), !initial && s.clients[i].members != []);
    case MembershipReceived(i, ring, nodes, heuristics) =>
      StoredDecisionStarts(s, i, CallOf(s.clients[i], false).(ring := ring, members := nodes, heuristics := heuristics),
                           s.clients[i].config != []);
    case HeuristicsReceived(i, heuristics) =>
      StoredDecisionStarts(s, i, CallOf(s.clients[i], false).(heuristics := heuristics),
                           s.clients[i].config != [] && s.clients[i].members != []);
    case Disconnected(i) =>
      var call := CallOf(s.clients[i], true);
      DoShape(s, call);
      DisconnectStarts(s, i, call, Do(s, call));
    case _ =>
  }

  /** A decision from the event that makes it: whatever the order in which the clients that owe
      an answer give it, the decision takes as many answers as there are clients in a sending
      state, and after exactly these each connected client has been sent one vote, ACK if it is
      in the selected list and NACK if not, and the cluster waits for the next change. */
  lemma DecisionRunsToItsEnd(s: Server, e: Event, who: seq<nat>)
    requires Sorted(s.clients) && ValidEvent(s, e) && Handle(s, e).decided
    requires Replies(Handle(s, e).server, who)
    ensures |FirstVotes(e, Handle(s, e))| == |Handle(s, e).server.clients|
    ensures var a := Handle(s, e);
            var (t, log) := AfterReplies(a.server, FirstVotes(e, a), who);
            |who| <= Pending(a.server.clients)
            && (|who| == Pending(a.server.clients) <==> Finished(t, log))
            && (|who| < Pending(a.server.clients) ==> exists i :: Owes(t, i))
  {
    var a := Handle(s, e);
    EventStarts(s, e);
    DecisionCompletes(a.server, FirstVotes(e, a), who);
    var (t, log) := AfterReplies(a.server, FirstVotes(e, a), who);
    SomebodyOwes(t, log);
  }
}
