/** Every step of the server keeps the system invariant. */
module ServerSteps {
  import opened Tlv
  import opened Ffsplit
  import opened Qdevice
  import opened FfsplitSelection
  import opened FfsplitStability
  import opened FfsplitTwoPhase
  import opened System
  import opened SystemInvariant
  import opened PeerAnswers
  import opened Peers
  import Qnetd = FfsplitVotes

  // ---------------------------------------------------------------- delivering an answer

  /** Only the server, its channels and the history of decisions differ. */
  ghost predicate OnlyServer(s: Sys, t: Sys) {
    && t.devices == s.devices && t.sock == s.sock && t.ranks == s.ranks && t.clock == s.clock
    && Fair(t.decided) && Fair(t.granted)
  }

  lemma ServerStepKeeps(s: Sys, t: Sys)
    requires SysInv(s) && OnlyServer(s, t) && Shape(t)
    requires forall n | n in t.devices :: UnacceptedOk(t, n)
    requires forall c | c in t.server.clients :: PeerOk(t, c)
    ensures SysInv(t)
  {
    forall n | n in t.devices ensures NodeOk(t, n) {
      assert NodeOk(s, n);
    }
  }

  /** The position of the client on record for connection k. */
  lemma RecordPosition(s: Sys, j: nat, k: nat)
    requires Shape(s) && j < |s.server.clients| && k in s.conns
    ensures s.server.clients[j].id in s.record
    ensures s.record[s.server.clients[j].id] == k ==>
              Accepted(s, k) && s.conns[k].owner == s.server.clients[j].id && Find(s.server.clients, s.conns[k].owner) == j
  {
    assert s.server.clients[j].id in Ids(s.server.clients);
    SortedIsUnique(s.server.clients);
    FindAt(s.server.clients, j);
  }

  lemma AcceptedPosition(s: Sys, k: nat)
    requires Shape(s) && Accepted(s, k)
    ensures var i := Find(s.server.clients, s.conns[k].owner);
            i < |s.server.clients| && s.server.clients[i].id == s.conns[k].owner && s.record[s.server.clients[i].id] == k
  {
  }

  predicate SameIds(cs: seq<Client>, ds: seq<Client>) {
    |ds| == |cs| && forall j | 0 <= j < |cs| :: ds[j].id == cs[j].id
  }

  lemma SameIdsShape(s: Sys, t: Sys)
    requires Shape(s) && t.devices == s.devices && t.sock == s.sock && t.ranks == s.ranks && t.record == s.record
    requires t.conns.Keys == s.conns.Keys && forall k | k in s.conns :: t.conns[k].owner == s.conns[k].owner
    requires SameIds(s.server.clients, t.server.clients)
    ensures Shape(t)
  {
    SameIdsSet(s.server.clients, t.server.clients);
  }

  lemma SameIdsSet(cs: seq<Client>, ds: seq<Client>)
    requires SameIds(cs, ds) && Sorted(cs)
    ensures Ids(ds) == Ids(cs) && Sorted(ds)
  {
    forall c | c in cs ensures c.id in Ids(ds) {
      var j :| 0 <= j < |cs| && cs[j] == c;
      assert ds[j] in ds;
    }
    forall d | d in ds ensures d.id in Ids(cs) {
      var j :| 0 <= j < |ds| && ds[j] == d;
      assert cs[j] in cs;
    }
  }

  /** The client at every position is shown the answer. */
  ghost predicate AllShown(s: Sys, t: Sys, k: nat, out: Qnetd.Outbox, replies: seq<ToDevice>)
    requires Shape(s) && k in s.conns && s.conns[k].toServer != []
    requires |out| == |s.server.clients| == |t.server.clients|
  {
    forall j | 0 <= j < |out| && Live(s, s.server.clients[j].id) ::
      PeerGood(Shown(PeerOf(s, s.server.clients[j]), t.server.clients[j], s.record[s.server.clients[j].id] == k, out[j], replies),
               s.ranks[s.server.clients[j].id], t.server.state == Qnetd.SendingNacks, t.decided, t.granted)
  }

  lemma ShownPeer(s: Sys, t: Sys, k: nat, out: Qnetd.Outbox, replies: seq<ToDevice>, j: nat)
    requires Shape(s) && k in s.conns && s.conns[k].toServer != [] && |out| == |s.server.clients| == |t.server.clients|
    requires t.conns == Reply(Deliver(s, out), k, replies) && t.sock == s.sock && t.devices == s.devices
    requires j < |out| && Live(s, s.server.clients[j].id) && t.server.clients[j].id == s.server.clients[j].id
    ensures PeerOf(t, t.server.clients[j])
            == Shown(PeerOf(s, s.server.clients[j]), t.server.clients[j], s.record[s.server.clients[j].id] == k, out[j], replies)
  {
    var n := s.server.clients[j].id;
    RecordPosition(s, j, s.record[n]);
    assert VotesOn(s, out, s.sock[n]) == VoteMessages(out[j]);
  }

  lemma UnacceptedUntouched(s: Sys, k: nat, out: Qnetd.Outbox, replies: seq<ToDevice>, n: nat)
    requires Shape(s) && Accepted(s, k) && s.conns[k].toServer != [] && |out| == |s.server.clients|
    requires n in s.sock && !Live(s, n)
    ensures Reply(Deliver(s, out), k, replies)[s.sock[n]] == s.conns[s.sock[n]]
  {
    assert !Accepted(s, s.sock[n]) && s.sock[n] != k;
    assert s.conns[s.sock[n]].toDevice + [] == s.conns[s.sock[n]].toDevice;
  }

  lemma AnswerKeepsUnaccepted(s: Sys, t: Sys, k: nat, out: Qnetd.Outbox, replies: seq<ToDevice>, n: nat)
    requires Shape(s) && Shape(t) && Accepted(s, k) && s.conns[k].toServer != [] && |out| == |s.server.clients|
    requires t.conns == Reply(Deliver(s, out), k, replies) && t.record == s.record && OnlyServer(s, t)
    requires n in s.devices && UnacceptedOk(s, n)
    ensures UnacceptedOk(t, n)
  {
    if n in s.sock && !Live(s, n) {
      UnacceptedUntouched(s, k, out, replies, n);
    }
  }

  lemma AnswerKeepsPeer(s: Sys, t: Sys, k: nat, out: Qnetd.Outbox, replies: seq<ToDevice>, j: nat)
    requires Shape(s) && Shape(t) && Accepted(s, k) && s.conns[k].toServer != [] && |out| == |s.server.clients|
    requires t.conns == Reply(Deliver(s, out), k, replies) && t.record == s.record && OnlyServer(s, t)
    requires SameIds(s.server.clients, t.server.clients) && AllShown(s, t, k, out, replies) && j < |out|
    ensures PeerOk(t, t.server.clients[j])
  {
    assert t.server.clients[j].id == s.server.clients[j].id;
    if Live(s, t.server.clients[j].id) {
      ShownPeer(s, t, k, out, replies, j);
    }
  }

  lemma AnswerKeeps(s: Sys, t: Sys, k: nat, out: Qnetd.Outbox, replies: seq<ToDevice>)
    requires SysInv(s) && Accepted(s, k) && s.conns[k].toServer != [] && |out| == |s.server.clients|
    requires t.conns == Reply(Deliver(s, out), k, replies) && t.record == s.record && OnlyServer(s, t)
    requires SameIds(s.server.clients, t.server.clients)
    requires AllShown(s, t, k, out, replies)
    ensures SysInv(t)
  {
    AnswerShape(s, t, k, out, replies);
    AllUnacceptedKept(s, t, k, out, replies);
    AllPeersKept(s, t, k, out, replies);
    ServerStepKeeps(s, t);
  }

  lemma AllUnacceptedKept(s: Sys, t: Sys, k: nat, out: Qnetd.Outbox, replies: seq<ToDevice>)
    requires SysInv(s) && Shape(t) && Accepted(s, k) && s.conns[k].toServer != [] && |out| == |s.server.clients|
    requires t.conns == Reply(Deliver(s, out), k, replies) && t.record == s.record && OnlyServer(s, t)
    ensures forall n | n in t.devices :: UnacceptedOk(t, n)
  {
    forall n | n in t.devices ensures UnacceptedOk(t, n) {
      assert UnacceptedOk(s, n);
      AnswerKeepsUnaccepted(s, t, k, out, replies, n);
    }
  }

  lemma AllPeersKept(s: Sys, t: Sys, k: nat, out: Qnetd.Outbox, replies: seq<ToDevice>)
    requires Shape(s) && Shape(t) && Accepted(s, k) && s.conns[k].toServer != [] && |out| == |s.server.clients|
    requires t.conns == Reply(Deliver(s, out), k, replies) && t.record == s.record && OnlyServer(s, t)
    requires SameIds(s.server.clients, t.server.clients) && AllShown(s, t, k, out, replies)
    ensures forall c | c in t.server.clients :: PeerOk(t, c)
  {
    forall c | c in t.server.clients ensures PeerOk(t, c) {
      var j :| 0 <= j < |t.server.clients| && t.server.clients[j] == c;
      AnswerKeepsPeer(s, t, k, out, replies, j);
    }
  }

  lemma AnswerShape(s: Sys, t: Sys, k: nat, out: Qnetd.Outbox, replies: seq<ToDevice>)
    requires Shape(s) && k in s.conns && s.conns[k].toServer != [] && |out| == |s.server.clients|
    requires t.conns == Reply(Deliver(s, out), k, replies) && t.record == s.record && OnlyServer(s, t)
    requires SameIds(s.server.clients, t.server.clients)
    ensures Shape(t)
  {
    ReplyOwners(s, k, out, replies);
    SameIdsShape(s, t);
  }

  lemma ReplyOwners(s: Sys, k: nat, out: Qnetd.Outbox, replies: seq<ToDevice>)
    requires k in s.conns && s.conns[k].toServer != [] && |out| == |s.server.clients|
    ensures var conns := Reply(Deliver(s, out), k, replies);
            conns.Keys == s.conns.Keys && forall x | x in conns :: conns[x].owner == s.conns[x].owner
  {
  }

  // ---------------------------------------------------------------- a list or a heuristics result

  /** What a call into the algorithm means for every client. */
  ghost predicate Deals(s: Qnetd.Server, call: Call, e: Qnetd.Effect) {
    && EffectShape(s, call, e)
    && (e.decided ==> Fair(e.chosen) && forall c | c in s.clients :: GrantFor(c, call, e.server.quorate, e.chosen))
  }

  /** Client j after the decision `e` on a message of the client with id call.id. */
  lemma DecisionShown(s: Sys, k: nat, call: Call, e: Qnetd.Effect, replies: seq<ToDevice>, j: nat)
    requires SysInv(s) && Accepted(s, k) && s.conns[k].toServer != []
    requires call.id == s.conns[k].owner && !call.leaving && Deals(s.server, call, e) && e.decided && Plain(replies)
    requires Seen(s.server.clients[Find(s.server.clients, call.id)], call)
             == Stored(s.server.clients[Find(s.server.clients, call.id)], s.conns[k].toServer[0])
    requires j < |s.server.clients| && Live(s, s.server.clients[j].id)
    ensures var c := s.server.clients[j];
            PeerGood(Shown(PeerOf(s, c), Seen(e.server.clients[j], call), s.record[c.id] == k, e.out[j], replies),
                     s.ranks[c.id], e.server.state == Qnetd.SendingNacks, e.chosen,
                     if e.server.state == Qnetd.SendingNacks then s.granted else e.chosen)
  {
    var c := s.server.clients[j];
    RecordPosition(s, j, k);
    AcceptedPosition(s, k);
    assert NodeOk(s, c.id) && PeerOk(s, c);
    assert Decided(c, call, e.server, e.server.clients[j], e.out[j]);
    assert e.server.state != Qnetd.SendingNacks ==> e.server.clients[j].state != SendingNack;
    assert s.record[c.id] == k <==> c.id == call.id;
    DecidedPeer(PeerOf(s, c), s.ranks[c.id], s.clock, call, e.server, e.server.clients[j], e.out[j],
                s.record[c.id] == k, replies, e.chosen, s.granted);
  }

  lemma NoDecisionShown(s: Sys, k: nat, c: Client, state: Qnetd.ClusterState, replies: seq<ToDevice>, j: nat)
    requires SysInv(s) && Accepted(s, k) && s.conns[k].toServer != [] && Plain(replies)
    requires j < |s.server.clients| && Live(s, s.server.clients[j].id)
    requires if s.record[s.server.clients[j].id] == k
             then c == Stored(s.server.clients[j], s.conns[k].toServer[0])
                  || (c == s.server.clients[j] && !s.conns[k].toServer[0].ConfigList?)
             else c == s.server.clients[j]
    requires state == Qnetd.SendingNacks ==> s.server.state == Qnetd.SendingNacks && c.ring == s.server.clients[j].ring
    ensures var b := s.server.clients[j];
            PeerGood(Shown(PeerOf(s, b), c, s.record[b.id] == k, None, replies),
                     s.ranks[b.id], state == Qnetd.SendingNacks, s.decided, s.granted)
  {
    var b := s.server.clients[j];
    assert PeerOk(s, b);
    UndecidedPeer(PeerOf(s, b), s.ranks[b.id], s.server.state == Qnetd.SendingNacks, state == Qnetd.SendingNacks,
                  s.decided, s.granted, c, s.record[b.id] == k, replies);
  }

  /** The server and its channels after an answer on connection k. */
  function Outcome(s: Sys, k: nat, server: Qnetd.Server, out: Qnetd.Outbox, replies: seq<ToDevice>,
                   decided: Option<Candidate>, granted: Option<Candidate>): Sys
    requires k in s.conns && s.conns[k].toServer != [] && |out| == |s.server.clients|
  {
    s.(server := server, conns := Reply(Deliver(s, out), k, replies), decided := decided, granted := granted)
  }

  lemma OutcomeKeeps(s: Sys, t: Sys, k: nat, server: Qnetd.Server, out: Qnetd.Outbox, replies: seq<ToDevice>,
                     decided: Option<Candidate>, granted: Option<Candidate>)
    requires SysInv(s) && Accepted(s, k) && s.conns[k].toServer != [] && |out| == |s.server.clients|
    requires Fair(decided) && Fair(granted) && t == Outcome(s, k, server, out, replies, decided, granted)
    requires SameIds(s.server.clients, server.clients) && AllShown(s, t, k, out, replies)
    ensures SysInv(t)
  {
    AnswerKeeps(s, t, k, out, replies);
  }

  lemma FairHistory(s: Sys)
    requires SysInv(s)
    ensures Shape(s) && Fair(s.decided) && Fair(s.granted)
  {
  }

  lemma OneChanged(cs: seq<Client>, i: nat, c: Client)
    requires i < |cs| && cs[i].id == c.id
    ensures SameIds(cs, cs[i := c])
  {
  }

  lemma DecisionKeeps(s: Sys, k: nat, call: Call, e: Qnetd.Effect, replies: seq<ToDevice>)
    requires SysInv(s) && Accepted(s, k) && s.conns[k].toServer != []
    requires call.id == s.conns[k].owner && !call.leaving && Deals(s.server, call, e) && e.decided && Plain(replies)
    requires Seen(s.server.clients[Find(s.server.clients, call.id)], call)
             == Stored(s.server.clients[Find(s.server.clients, call.id)], s.conns[k].toServer[0])
    ensures var i := Find(s.server.clients, call.id);
            SysInv(Outcome(s, k, e.server.(clients := e.server.clients[i := Seen(e.server.clients[i], call)]), e.out, replies,
                           e.chosen, if e.server.state == Qnetd.SendingNacks then s.granted else e.chosen))
  {
    var i := Find(s.server.clients, call.id);
    var cs := e.server.clients[i := Seen(e.server.clients[i], call)];
    var t := Outcome(s, k, e.server.(clients := cs), e.out, replies,
                     e.chosen, if e.server.state == Qnetd.SendingNacks then s.granted else e.chosen);
    forall j | 0 <= j < |cs| ensures cs[j].id == s.server.clients[j].id && cs[j] == Seen(e.server.clients[j], call) {
      assert Decided(s.server.clients[j], call, e.server, e.server.clients[j], e.out[j]);
      RecordPosition(s, j, k);
      AcceptedPosition(s, k);
    }
    forall j | 0 <= j < |e.out| && Live(s, s.server.clients[j].id)
      ensures PeerGood(Shown(PeerOf(s, s.server.clients[j]), cs[j], s.record[s.server.clients[j].id] == k, e.out[j], replies),
                       s.ranks[s.server.clients[j].id], e.server.state == Qnetd.SendingNacks, t.decided, t.granted)
    {
      DecisionShown(s, k, call, e, replies, j);
    }
    AnswerKeeps(s, t, k, e.out, replies);
  }

  lemma NoDecisionAllShown(s: Sys, t: Sys, k: nat, i: nat, c: Client, replies: seq<ToDevice>)
    requires SysInv(s) && Accepted(s, k) && s.conns[k].toServer != [] && Plain(replies)
    requires i == Find(s.server.clients, s.conns[k].owner) && i < |s.server.clients|
    requires t.server.clients == s.server.clients[i := c] && t.decided == s.decided && t.granted == s.granted
    requires t.server.state == Qnetd.SendingNacks ==> s.server.state == Qnetd.SendingNacks
    requires Live(s, s.conns[k].owner) ==>
               && (c == Stored(s.server.clients[i], s.conns[k].toServer[0])
                   || (c == s.server.clients[i] && !s.conns[k].toServer[0].ConfigList?))
               && (t.server.state == Qnetd.SendingNacks ==> c.ring == s.server.clients[i].ring)
    ensures AllShown(s, t, k, Qnetd.Silence(|s.server.clients|), replies)
  {
    AcceptedPosition(s, k);
    forall j | 0 <= j < |s.server.clients| && Live(s, s.server.clients[j].id)
      ensures PeerGood(Shown(PeerOf(s, s.server.clients[j]), t.server.clients[j], s.record[s.server.clients[j].id] == k, None, replies),
                       s.ranks[s.server.clients[j].id], t.server.state == Qnetd.SendingNacks, s.decided, s.granted)
    {
      RecordPosition(s, j, k);
      NoDecisionShown(s, k, t.server.clients[j], t.server.state, replies, j);
    }
  }

  /** The message of the accepted client at position i without a decision: it becomes c. */
  lemma NoDecisionKeeps(s: Sys, k: nat, i: nat, c: Client, state: Qnetd.ClusterState, replies: seq<ToDevice>)
    requires SysInv(s) && Accepted(s, k) && s.conns[k].toServer != [] && Plain(replies)
    requires c.id == s.conns[k].owner && i == Find(s.server.clients, c.id) && i < |s.server.clients|
    requires state == Qnetd.SendingNacks ==> s.server.state == Qnetd.SendingNacks
    requires Live(s, c.id) ==>
               && (c == Stored(s.server.clients[i], s.conns[k].toServer[0])
                   || (c == s.server.clients[i] && !s.conns[k].toServer[0].ConfigList?))
               && (state == Qnetd.SendingNacks ==> c.ring == s.server.clients[i].ring)
    ensures SysInv(Outcome(s, k, s.server.(clients := s.server.clients[i := c], state := state),
                           Qnetd.Silence(|s.server.clients|), replies, s.decided, s.granted))
  {
    var out := Qnetd.Silence(|s.server.clients|);
    var server := s.server.(clients := s.server.clients[i := c], state := state);
    var t := Outcome(s, k, server, out, replies, s.decided, s.granted);
    FairHistory(s);
    OneChanged(s.server.clients, i, c);
    NoDecisionAllShown(s, t, k, i, c, replies);
    OutcomeKeeps(s, t, k, server, out, replies, s.decided, s.granted);
  }

  /** What `AfterMessage` leaves behind, in the terms of `Outcome`. */
  lemma StoreOutcome(s: Sys, k: nat, i: nat, call: Call, e: Qnetd.Effect, replies: seq<ToDevice>)
    requires k in s.conns && s.conns[k].toServer != [] && EffectShape(s.server, call, e) && i < |s.server.clients|
    ensures |e.server.clients| == |e.out| == |s.server.clients|
    ensures var t := AfterMessage(s, k, Qnetd.FinishStore(s.server, i, call, e), replies);
            var stored := e.server.(clients := e.server.clients[i := Seen(e.server.clients[i], call)]);
            && (e.crashed ==> t == s.(crashed := true))
            && (e.decided ==> t == Outcome(s, k, stored, e.out, replies, e.chosen,
                                           if e.server.state == Qnetd.SendingNacks then s.granted else e.chosen))
            && (!e.decided && !e.crashed ==>
                  t == Outcome(s, k, s.server.(clients := s.server.clients[i := Seen(s.server.clients[i], call)], state := e.server.state),
                               Qnetd.Silence(|s.server.clients|), replies, s.decided, s.granted))
  {
  }

  lemma CrashKeeps(s: Sys)
    requires SysInv(s)
    ensures SysInv(s.(crashed := true))
  {
    var t := s.(crashed := true);
    assert Shape(t);
    forall n | n in t.devices ensures NodeOk(t, n) && UnacceptedOk(t, n) {
      assert NodeOk(s, n) && UnacceptedOk(s, n);
    }
    forall c | c in t.server.clients ensures PeerOk(t, c) {
      assert PeerOk(s, c);
    }
  }

  /** A list or a heuristics result has been handled by the algorithm and stored. */
  lemma StoreKeeps(s: Sys, k: nat, i: nat, call: Call, e: Qnetd.Effect, replies: seq<ToDevice>)
    requires SysInv(s) && Accepted(s, k) && s.conns[k].toServer != []
    requires call.id == s.conns[k].owner && !call.leaving && Deals(s.server, call, e) && Plain(replies)
    requires i == Find(s.server.clients, call.id) && i < |s.server.clients|
    requires Seen(s.server.clients[i], call) == Stored(s.server.clients[i], s.conns[k].toServer[0])
    requires !e.decided && e.server.state == Qnetd.SendingNacks && Live(s, call.id) ==> call.ring == s.server.clients[i].ring
    ensures |e.server.clients| == |e.out| == |s.server.clients|
    ensures SysInv(AfterMessage(s, k, Qnetd.FinishStore(s.server, i, call, e), replies))
  {
    StoreOutcome(s, k, i, call, e, replies);
    if e.crashed {
      CrashKeeps(s);
    } else if e.decided {
      DecisionKeeps(s, k, call, e, replies);
    } else {
      NoDecisionKeeps(s, k, i, Seen(s.server.clients[i], call), e.server.state, replies);
    }
  }

  // ---------------------------------------------------------------- a reply to a vote

  lemma ReplyShown(s: Sys, t: Sys, k: nat, i: nat, out: Qnetd.Outbox, j: nat)
    requires SysInv(s) && Accepted(s, k) && i == Find(s.server.clients, s.conns[k].owner) && i < |s.server.clients|
    requires s.conns[k].toServer != [] && s.conns[k].toServer[0] == VoteInfoReply(s.server.clients[i].expected)
    requires |t.server.clients| == |out| == |s.server.clients| && j < |out| && Live(s, s.server.clients[j].id)
    requires FfsplitTwoPhase.Answered(s.server, i, j, LastNackAnswered(s.server, i), t.server.clients[j], out[j])
    ensures var c := s.server.clients[j];
            var acks := LastNackAnswered(s.server, i);
            PeerGood(Shown(PeerOf(s, c), t.server.clients[j], s.record[c.id] == k, out[j], []), s.ranks[c.id],
                     s.server.state == Qnetd.SendingNacks && !acks, s.decided, if acks then s.decided else s.granted)
  {
    var c := s.server.clients[j];
    assert PeerOk(s, c);
    RecordPosition(s, j, k);
    AcceptedPosition(s, k);
    assert s.record[c.id] == k <==> j == i;
    ReplyPeer(PeerOf(s, c), s.ranks[c.id], s.server.state == Qnetd.SendingNacks, LastNackAnswered(s.server, i),
              s.decided, s.granted, t.server.clients[j], out[j], j == i);
  }

  lemma CurrentReplyKeeps(s: Sys, k: nat, i: nat, u: Qnetd.Server, out: Qnetd.Outbox)
    requires SysInv(s) && Accepted(s, k) && i == Find(s.server.clients, s.conns[k].owner) && i < |s.server.clients|
    requires s.conns[k].toServer != [] && s.conns[k].toServer[0] == VoteInfoReply(s.server.clients[i].expected)
    requires |u.clients| == |out| == |s.server.clients|
    requires forall j | 0 <= j < |out| ::
               FfsplitTwoPhase.Answered(s.server, i, j, LastNackAnswered(s.server, i), u.clients[j], out[j])
    requires u.state == Qnetd.SendingNacks <==> s.server.state == Qnetd.SendingNacks && !LastNackAnswered(s.server, i)
    ensures SysInv(Outcome(s, k, u, out, [], s.decided, if LastNackAnswered(s.server, i) then s.decided else s.granted))
  {
    var granted := if LastNackAnswered(s.server, i) then s.decided else s.granted;
    var t := Outcome(s, k, u, out, [], s.decided, granted);
    FairHistory(s);
    forall j | 0 <= j < |out| ensures u.clients[j].id == s.server.clients[j].id {
      assert FfsplitTwoPhase.Answered(s.server, i, j, LastNackAnswered(s.server, i), u.clients[j], out[j]);
    }
    forall j | 0 <= j < |out| && Live(s, s.server.clients[j].id)
      ensures PeerGood(Shown(PeerOf(s, s.server.clients[j]), u.clients[j], s.record[s.server.clients[j].id] == k, out[j], []),
                       s.ranks[s.server.clients[j].id], u.state == Qnetd.SendingNacks, s.decided, granted)
    {
      ReplyShown(s, t, k, i, out, j);
    }
    OutcomeKeeps(s, t, k, u, out, [], s.decided, granted);
  }

  /** The effect of a reply: nothing when its number is old, else client i has answered. */
  ghost predicate ReplyEffect(s: Qnetd.Server, i: nat, seqNo: nat, u: Qnetd.Server, out: Qnetd.Outbox)
    requires i < |s.clients|
  {
    if s.clients[i].expected != seqNo then u == s && out == Qnetd.Silence(|s.clients|)
    else
      && |u.clients| == |out| == |s.clients|
      && (forall j | 0 <= j < |out| :: FfsplitTwoPhase.Answered(s, i, j, LastNackAnswered(s, i), u.clients[j], out[j]))
      && (u.state == Qnetd.SendingNacks <==> s.state == Qnetd.SendingNacks && !LastNackAnswered(s, i))
      && (s.state == Qnetd.SendingNacks ==> u.state != Qnetd.WaitingForStableMembership)
  }

  lemma ReplyHasEffect(s: Qnetd.Server, i: nat, seqNo: nat)
    requires i < |s.clients| && Sorted(s.clients)
    ensures var (u, out) := Qnetd.ReplyReceived(s, i, seqNo); ReplyEffect(s, i, seqNo, u, out)
  {
    SortedIsUnique(s.clients);
    ReplyShape(s, i, seqNo);
  }

  lemma ReplyOutcome(s: Sys, k: nat, i: nat, u: Qnetd.Server, out: Qnetd.Outbox)
    requires k in s.conns && s.conns[k].toServer != [] && i < |s.server.clients| && |out| == |s.server.clients|
    requires u.state == Qnetd.SendingNacks <==> s.server.state == Qnetd.SendingNacks && !LastNackAnswered(s.server, i)
    requires s.server.state == Qnetd.SendingNacks ==> u.state != Qnetd.WaitingForStableMembership
    ensures AfterMessage(s, k, Qnetd.Answer(u, out, Qnetd.NoReply, false, None, false), [])
            == Outcome(s, k, u, out, [], s.decided, if LastNackAnswered(s.server, i) then s.decided else s.granted)
  {
  }

  lemma UnchangedOutcome(s: Sys, k: nat, i: nat, reply: Qnetd.Reply, replies: seq<ToDevice>)
    requires k in s.conns && s.conns[k].toServer != [] && i < |s.server.clients|
    ensures var out, c := Qnetd.Silence(|s.server.clients|), s.server.clients[i];
            AfterMessage(s, k, Qnetd.Answer(s.server, out, reply, false, None, false), replies)
            == Outcome(s, k, s.server.(clients := s.server.clients[i := c], state := s.server.state), out, replies, s.decided, s.granted)
  {
    assert s.server.clients[i := s.server.clients[i]] == s.server.clients;
  }

  lemma VoteReplyKeeps(s: Sys, k: nat, i: nat, seqNo: nat, u: Qnetd.Server, out: Qnetd.Outbox)
    requires SysInv(s) && Accepted(s, k) && i == Find(s.server.clients, s.conns[k].owner) && i < |s.server.clients|
    requires s.conns[k].toServer != [] && s.conns[k].toServer[0] == VoteInfoReply(seqNo)
    requires ReplyEffect(s.server, i, seqNo, u, out)
    ensures |out| == |s.server.clients|
    ensures SysInv(AfterMessage(s, k, Qnetd.Answer(u, out, Qnetd.NoReply, false, None, false), []))
  {
    if s.server.clients[i].expected == seqNo {
      CurrentReplyKeeps(s, k, i, u, out);
      ReplyOutcome(s, k, i, u, out);
    } else {
      AcceptedPosition(s, k);
      UnchangedOutcome(s, k, i, Qnetd.NoReply, []);
      NoDecisionKeeps(s, k, i, s.server.clients[i], s.server.state, []);
    }
  }

  // ---------------------------------------------------------------- messages of accepted clients

  lemma DoDeals(s: Qnetd.Server, call: Call)
    requires Sorted(s.clients)
    ensures Deals(s, call, Qnetd.Do(s, call))
    ensures var e := Qnetd.Do(s, call);
            (!e.decided ==> e.server.state == Qnetd.WaitingForStableMembership) && e.vote != Ack
  {
    DoShape(s, call);
    var e := Qnetd.Do(s, call);
    if e.decided {
      SortedIsUnique(s.clients);
      DecisionGrants(s, call);
    }
  }

  /** The selected clients share the ring id that goes with the grant, and are no minority. */
  lemma DecisionGrants(s: Qnetd.Server, call: Call)
    requires UniqueIds(s.clients) && Qnetd.Do(s, call).decided
    ensures var e := Qnetd.Do(s, call);
            Fair(e.chosen) && forall c | c in s.clients :: GrantFor(c, call, e.server.quorate, e.chosen)
  {
    var e := Qnetd.Do(s, call);
    if e.chosen.Some? {
      var o := e.chosen.value.owner;
      NeverAMinority(s.clients, call, s.quorate, |s.clients|);
      forall c | c in s.clients && c.id in e.server.quorate && !Leaves(c, call)
        ensures Seen(c, call).ring == e.chosen.value.ring
      {
        var j :| 0 <= j < |s.clients| && s.clients[j] == c;
        SelectedShareRing(s.clients, call, o, j);
      }
    }
  }

  /** What is known of the message of a live client. */
  lemma LiveHead(s: Sys, k: nat, i: nat)
    requires SysInv(s) && Accepted(s, k) && s.conns[k].toServer != [] && Live(s, s.conns[k].owner)
    requires i == Find(s.server.clients, s.conns[k].owner) && i < |s.server.clients|
    ensures var m, c := s.conns[k].toServer[0], s.server.clients[i];
            && !m.Init?
            && (m.ConfigList? ==> c.id in m.nodes)
            && (m.MembershipList? ==> c.config != [])
  {
    AcceptedPosition(s, k);
    assert PeerOk(s, s.server.clients[i]);
    assert s.conns[k].toServer[0] in s.conns[k].toServer;
  }

  /** The message changes at most the stored values of its client. */
  lemma QuietKeeps(s: Sys, k: nat, i: nat, c: Client, a: Qnetd.Answer, replies: seq<ToDevice>, t: Sys)
    requires SysInv(s) && Accepted(s, k) && s.conns[k].toServer != [] && Plain(replies)
    requires c.id == s.conns[k].owner && i == Find(s.server.clients, c.id) && i < |s.server.clients|
    requires Live(s, c.id) ==>
               && (c == Stored(s.server.clients[i], s.conns[k].toServer[0])
                   || (c == s.server.clients[i] && !s.conns[k].toServer[0].ConfigList?))
               && c.ring == s.server.clients[i].ring
    requires a.server == s.server.(clients := s.server.clients[i := c]) && a.out == Qnetd.Silence(|s.server.clients|)
    requires !a.decided && !a.crashed && t == AfterMessage(s, k, a, replies)
    ensures SysInv(t)
  {
    QuietOutcome(s, k, i, c, a, replies);
    NoDecisionKeeps(s, k, i, c, s.server.state, replies);
  }

  lemma QuietOutcome(s: Sys, k: nat, i: nat, c: Client, a: Qnetd.Answer, replies: seq<ToDevice>)
    requires k in s.conns && s.conns[k].toServer != [] && i < |s.server.clients|
    requires a.server == s.server.(clients := s.server.clients[i := c]) && a.out == Qnetd.Silence(|s.server.clients|)
    requires !a.decided && !a.crashed
    ensures AfterMessage(s, k, a, replies)
            == Outcome(s, k, s.server.(clients := s.server.clients[i := c], state := s.server.state),
                       Qnetd.Silence(|s.server.clients|), replies, s.decided, s.granted)
  {
  }

  /** An accepted connection with a message to serve, and the position of its client. */
  ghost predicate Serving(s: Sys, k: nat, i: nat) {
    SysInv(s) && Accepted(s, k) && s.conns[k].toServer != []
    && i == Find(s.server.clients, s.conns[k].owner) && i < |s.server.clients|
  }

  lemma AfterDecide(s: Sys, k: nat, i: nat, call: Call, ready: bool, e: Qnetd.Effect)
    requires k in s.conns && s.conns[k].toServer != [] && i < |s.server.clients| && call.id == s.server.clients[i].id
    requires EffectShape(s.server, call, e) && e == if ready then Qnetd.Do(s.server, call) else Qnetd.AskLaterEffect(s.server)
    ensures |e.server.clients| == |e.out| == |s.server.clients|
    ensures var a, b := Qnetd.DecideAndStore(s.server, i, call, ready), Qnetd.FinishStore(s.server, i, call, e);
            AfterMessage(s, k, a, ReplyMessages(a.reply)) == AfterMessage(s, k, b, ReplyMessages(b.reply))
  {
  }

  /** The effect of the algorithm on a message, or of asking the client to wait. */
  lemma ReadyDeals(s: Qnetd.Server, call: Call, ready: bool, e: Qnetd.Effect)
    requires Sorted(s.clients) && e == if ready then Qnetd.Do(s, call) else Qnetd.AskLaterEffect(s)
    ensures Deals(s, call, e) && e.vote != Ack
    ensures ready && !e.decided ==> e.server.state == Qnetd.WaitingForStableMembership
  {
    DoDeals(s, call);
  }

  lemma DecideKeeps(s: Sys, k: nat, i: nat, call: Call, ready: bool, t: Sys)
    requires Serving(s, k, i) && call.id == s.server.clients[i].id && !call.leaving
    requires Seen(s.server.clients[i], call) == Stored(s.server.clients[i], s.conns[k].toServer[0])
    requires !ready && Live(s, call.id) ==> call.ring == s.server.clients[i].ring
    requires var a := Qnetd.DecideAndStore(s.server, i, call, ready);
             t == AfterMessage(s, k, a, ReplyMessages(a.reply))
    ensures SysInv(t)
  {
    FairHistory(s);
    AcceptedPosition(s, k);
    var e := if ready then Qnetd.Do(s.server, call) else Qnetd.AskLaterEffect(s.server);
    ReadyDeals(s.server, call, ready, e);
    AfterDecide(s, k, i, call, ready, e);
    StoredAndReplied(s, k, i, call, e);
  }

  lemma StoredAndReplied(s: Sys, k: nat, i: nat, call: Call, e: Qnetd.Effect)
    requires SysInv(s) && Accepted(s, k) && s.conns[k].toServer != []
    requires call.id == s.conns[k].owner && !call.leaving && Deals(s.server, call, e) && e.vote != Ack
    requires i == Find(s.server.clients, call.id) && i < |s.server.clients|
    requires Seen(s.server.clients[i], call) == Stored(s.server.clients[i], s.conns[k].toServer[0])
    requires !e.decided && e.server.state == Qnetd.SendingNacks && Live(s, call.id) ==> call.ring == s.server.clients[i].ring
    ensures |e.server.clients| == |e.out| == |s.server.clients|
    ensures var a := Qnetd.FinishStore(s.server, i, call, e);
            SysInv(AfterMessage(s, k, a, ReplyMessages(a.reply)))
  {
    StoreReplies(s.server, i, call, e);
    StoreKeeps(s, k, i, call, e, ReplyMessages(Qnetd.FinishStore(s.server, i, call, e).reply));
  }

  lemma StoreReplies(s: Qnetd.Server, i: nat, call: Call, e: Qnetd.Effect)
    requires i < |s.clients| && EffectShape(s, call, e) && e.vote != Ack
    ensures |e.server.clients| == |e.out| == |s.clients|
    ensures Plain(ReplyMessages(Qnetd.FinishStore(s, i, call, e).reply))
  {
  }

  lemma DeliverNothing(s: Sys)
    ensures Deliver(s, Qnetd.Silence(|s.server.clients|)) == s.conns
  {
    var conns := Deliver(s, Qnetd.Silence(|s.server.clients|));
    forall k | k in s.conns ensures conns[k] == s.conns[k] {
      assert s.conns[k].toDevice + [] == s.conns[k].toDevice;
    }
  }

  /** Messages the algorithm does not see. */
  lemma NoAlgorithmKeeps(s: Sys, k: nat, i: nat, c: Client, replies: seq<ToDevice>)
    requires SysInv(s) && Accepted(s, k) && s.conns[k].toServer != [] && Plain(replies)
    requires c.id == s.conns[k].owner && i == Find(s.server.clients, c.id) && i < |s.server.clients|
    requires Live(s, c.id) ==> c == s.server.clients[i] && !s.conns[k].toServer[0].ConfigList?
    ensures SysInv(NoAlgorithm(s.(server := s.server.(clients := s.server.clients[i := c])), k, replies))
  {
    NoDecisionKeeps(s, k, i, c, s.server.state, replies);
    DeliverNothing(s);
  }

  lemma RefusedKeeps(s: Sys, k: nat, i: nat, error: ErrorCode, t: Sys)
    requires Serving(s, k, i) && (Live(s, s.server.clients[i].id) ==> !s.conns[k].toServer[0].ConfigList?)
    requires t == AfterMessage(s, k, Qnetd.Untouched(s.server, Qnetd.ErrorReply(error)), [ServerError(error)])
    ensures SysInv(t)
  {
    RefusedIs(s, k, i, error);
    ErrorIsPlain(error);
    UnchangedKeeps(s, k, i, [ServerError(error)], t);
  }

  lemma ErrorIsPlain(error: ErrorCode)
    ensures Plain([ServerError(error)])
  {
  }

  lemma RefusedIs(s: Sys, k: nat, i: nat, error: ErrorCode)
    requires k in s.conns && s.conns[k].toServer != [] && i < |s.server.clients|
    ensures AfterMessage(s, k, Qnetd.Untouched(s.server, Qnetd.ErrorReply(error)), [ServerError(error)])
            == Outcome(s, k, s.server.(clients := s.server.clients[i := s.server.clients[i]], state := s.server.state),
                       Qnetd.Silence(|s.server.clients|), [ServerError(error)], s.decided, s.granted)
  {
    UnchangedOutcome(s, k, i, Qnetd.ErrorReply(error), [ServerError(error)]);
  }

  /** A message that changes no client is answered. */
  lemma UnchangedKeeps(s: Sys, k: nat, i: nat, replies: seq<ToDevice>, t: Sys)
    requires Serving(s, k, i) && (Live(s, s.server.clients[i].id) ==> !s.conns[k].toServer[0].ConfigList?) && Plain(replies)
    requires t == Outcome(s, k, s.server.(clients := s.server.clients[i := s.server.clients[i]], state := s.server.state),
                          Qnetd.Silence(|s.server.clients|), replies, s.decided, s.granted)
    ensures SysInv(t)
  {
    AcceptedPosition(s, k);
    NoDecisionKeeps(s, k, i, s.server.clients[i], s.server.state, replies);
  }

  lemma AfterConfig(s: Sys, k: nat, i: nat, initial: bool, nodes: seq<nat>)
    requires k in s.conns && s.conns[k].toServer != [] && i < |s.server.clients|
    requires s.conns[k].toServer[0] == ConfigList(initial, nodes)
    ensures var c := s.server.clients[i];
            ServeClient(s, k, i)
            == if nodes == [] || c.id !in nodes
               then AfterMessage(s, k, Qnetd.Untouched(s.server, Qnetd.ErrorReply(InvalidConfigNodeList)), [ServerError(InvalidConfigNodeList)])
               else var a := Qnetd.DecideAndStore(s.server, i, Qnetd.CallOf(c, false).(config := nodes), !initial && c.members != []);
                    AfterMessage(s, k, a, ReplyMessages(a.reply))
  {
    var a := Qnetd.Handle(s.server, Qnetd.ConfigReceived(i, nodes, initial));
    assert ServeClient(s, k, i) == AfterMessage(s, k, a, ReplyMessages(a.reply));
  }

  lemma ConfigKeeps(s: Sys, k: nat, i: nat, initial: bool, nodes: seq<nat>, t: Sys)
    requires Serving(s, k, i) && s.conns[k].toServer[0] == ConfigList(initial, nodes) && t == ServeClient(s, k, i)
    ensures SysInv(t)
  {
    var c := s.server.clients[i];
    AfterConfig(s, k, i, initial, nodes);
    if nodes == [] || c.id !in nodes {
      AcceptedPosition(s, k);
      if Live(s, c.id) {
        LiveHead(s, k, i);
      }
      RefusedKeeps(s, k, i, InvalidConfigNodeList, t);
    } else {
      DecideKeeps(s, k, i, Qnetd.CallOf(c, false).(config := nodes), !initial && c.members != [], t);
    }
  }

  lemma AfterMembership(s: Sys, k: nat, i: nat, ring: RingId, nodes: seq<nat>, h: Heuristics)
    requires k in s.conns && s.conns[k].toServer != [] && i < |s.server.clients|
    requires s.conns[k].toServer[0] == MembershipList(ring, nodes, h)
    ensures var c := s.server.clients[i];
            ServeClient(s, k, i)
            == if nodes == [] || c.id !in nodes
               then AfterMessage(s, k, Qnetd.Untouched(s.server, Qnetd.ErrorReply(InvalidMembershipNodeList)), [ServerError(InvalidMembershipNodeList)])
               else var call := Qnetd.CallOf(c, false).(ring := ring, members := nodes, heuristics := h);
                    var a := Qnetd.DecideAndStore(s.server, i, call, c.config != []);
                    AfterMessage(s, k, a, ReplyMessages(a.reply))
  {
    var a := Qnetd.Handle(s.server, Qnetd.MembershipReceived(i, ring, nodes, h));
    assert ServeClient(s, k, i) == AfterMessage(s, k, a, ReplyMessages(a.reply));
  }

  lemma MembershipKeeps(s: Sys, k: nat, i: nat, ring: RingId, nodes: seq<nat>, h: Heuristics, t: Sys)
    requires Serving(s, k, i) && s.conns[k].toServer[0] == MembershipList(ring, nodes, h) && t == ServeClient(s, k, i)
    ensures SysInv(t)
  {
    var c := s.server.clients[i];
    AfterMembership(s, k, i, ring, nodes, h);
    AcceptedPosition(s, k);
    if nodes == [] || c.id !in nodes {
      RefusedKeeps(s, k, i, InvalidMembershipNodeList, t);
    } else {
      if Live(s, c.id) {
        LiveHead(s, k, i);
      }
      DecideKeeps(s, k, i, Qnetd.CallOf(c, false).(ring := ring, members := nodes, heuristics := h), c.config != [], t);
    }
  }

  lemma AfterHeuristics(s: Sys, k: nat, i: nat, h: Heuristics)
    requires k in s.conns && s.conns[k].toServer != [] && i < |s.server.clients|
    requires s.conns[k].toServer[0] == HeuristicsChange(h)
    ensures var c := s.server.clients[i];
            ServeClient(s, k, i)
            == if h == HeuristicsUndefined then NoAlgorithm(s, k, [ServerError(RequiredOptionMissing)])
               else var a := Qnetd.DecideAndStore(s.server, i, Qnetd.CallOf(c, false).(heuristics := h), c.config != [] && c.members != []);
                    AfterMessage(s, k, a, ReplyMessages(a.reply))
  {
    if h != HeuristicsUndefined {
      var a := Qnetd.Handle(s.server, Qnetd.HeuristicsReceived(i, h));
      assert ServeClient(s, k, i) == AfterMessage(s, k, a, ReplyMessages(a.reply));
    }
  }

  lemma HeuristicsKeeps(s: Sys, k: nat, i: nat, h: Heuristics, t: Sys)
    requires Serving(s, k, i) && s.conns[k].toServer[0] == HeuristicsChange(h) && t == ServeClient(s, k, i)
    ensures SysInv(t)
  {
    if h == HeuristicsUndefined {
      AfterHeuristics(s, k, i, h);
      PlainKeeps(s, k, i, ServerError(RequiredOptionMissing), t);
    } else {
      HeuristicsDecided(s, k, i, h, t);
    }
  }

  lemma HeuristicsDecided(s: Sys, k: nat, i: nat, h: Heuristics, t: Sys)
    requires Serving(s, k, i) && s.conns[k].toServer[0] == HeuristicsChange(h) && t == ServeClient(s, k, i)
    requires h != HeuristicsUndefined
    ensures SysInv(t)
  {
    var c := s.server.clients[i];
    ResultStored(c, h);
    AfterResult(s, k, i, h);
    DecideKeeps(s, k, i, Qnetd.CallOf(c, false).(heuristics := h), c.config != [] && c.members != [], t);
  }

  lemma ResultStored(c: Client, h: Heuristics)
    ensures var call := Qnetd.CallOf(c, false).(heuristics := h);
            Seen(c, call) == Stored(c, HeuristicsChange(h)) && call.id == c.id && !call.leaving && call.ring == c.ring
  {
  }

  lemma AfterResult(s: Sys, k: nat, i: nat, h: Heuristics)
    requires k in s.conns && s.conns[k].toServer != [] && i < |s.server.clients|
    requires s.conns[k].toServer[0] == HeuristicsChange(h) && h != HeuristicsUndefined
    ensures var c := s.server.clients[i];
            var a := Qnetd.DecideAndStore(s.server, i, Qnetd.CallOf(c, false).(heuristics := h), c.config != [] && c.members != []);
            ServeClient(s, k, i) == AfterMessage(s, k, a, ReplyMessages(a.reply))
  {
    AfterHeuristics(s, k, i, h);
  }

  lemma AfterOption(s: Sys, k: nat, i: nat, on: bool)
    requires k in s.conns && s.conns[k].toServer != [] && i < |s.server.clients|
    requires s.conns[k].toServer[0] == SetOption(on)
    ensures var server := s.server.(clients := s.server.clients[i := s.server.clients[i].(keepActive := on)]);
            ServeClient(s, k, i)
            == AfterMessage(s, k, Qnetd.Untouched(s.server, Qnetd.NoReply).(server := server), [SetOptionReply])
  {
  }

  lemma OptionKeeps(s: Sys, k: nat, i: nat, on: bool, t: Sys)
    requires Serving(s, k, i) && s.conns[k].toServer[0] == SetOption(on) && t == ServeClient(s, k, i)
    ensures SysInv(t)
  {
    AfterOption(s, k, i, on);
    OptionAnswered(s, k, i, on, t);
  }

  lemma OptionAnswered(s: Sys, k: nat, i: nat, on: bool, t: Sys)
    requires Serving(s, k, i) && s.conns[k].toServer[0] == SetOption(on)
    requires var server := s.server.(clients := s.server.clients[i := s.server.clients[i].(keepActive := on)]);
             t == AfterMessage(s, k, Qnetd.Untouched(s.server, Qnetd.NoReply).(server := server), [SetOptionReply])
    ensures SysInv(t)
  {
    AcceptedPosition(s, k);
    var c := s.server.clients[i].(keepActive := on);
    QuietKeeps(s, k, i, c, Qnetd.Untouched(s.server, Qnetd.NoReply).(server := s.server.(clients := s.server.clients[i := c])),
               [SetOptionReply], t);
  }

  lemma RepeatedInitKeeps(s: Sys, k: nat, i: nat, t: Sys)
    requires Serving(s, k, i) && s.conns[k].toServer[0].Init?
    requires exists ring, error :: RepeatedInit(s, k, i, t, ring, error)
    ensures SysInv(t)
  {
    AcceptedPosition(s, k);
    if Live(s, s.conns[k].owner) {
      LiveHead(s, k, i);
    }
    var ring, error :| RepeatedInit(s, k, i, t, ring, error);
    NoAlgorithmKeeps(s, k, i, s.server.clients[i].(ring := ring), [InitReply(error)]);
  }

  ghost predicate RepeatedInit(s: Sys, k: nat, i: nat, t: Sys, ring: RingId, error: ErrorCode)
    requires k in s.conns && s.conns[k].toServer != [] && i < |s.server.clients|
  {
    t == NoAlgorithm(s.(server := s.server.(clients := s.server.clients[i := s.server.clients[i].(ring := ring)])),
                     k, [InitReply(error)])
  }

  lemma PlainKeeps(s: Sys, k: nat, i: nat, reply: ToDevice, t: Sys)
    requires Serving(s, k, i) && !s.conns[k].toServer[0].ConfigList? && PlainReply(reply)
    requires t == NoAlgorithm(s, k, [reply])
    ensures SysInv(t)
  {
    var c := s.server.clients[i];
    AcceptedPosition(s, k);
    NoAlgorithmKeeps(s, k, i, c, [reply]);
    assert s.server.clients[i := c] == s.server.clients;
    assert s.(server := s.server.(clients := s.server.clients[i := c])) == s;
  }

  lemma AfterReplyToVote(s: Sys, k: nat, i: nat, seqNo: nat)
    requires k in s.conns && s.conns[k].toServer != [] && i < |s.server.clients|
    requires s.conns[k].toServer[0] == VoteInfoReply(seqNo)
    ensures var (u, out) := Qnetd.ReplyReceived(s.server, i, seqNo);
            ServeClient(s, k, i) == AfterMessage(s, k, Qnetd.Answer(u, out, Qnetd.NoReply, false, None, false), [])
  {
    var a := Qnetd.Handle(s.server, Qnetd.VoteReply(i, seqNo));
    assert a.reply == Qnetd.NoReply;
    assert ServeClient(s, k, i) == AfterMessage(s, k, a, []);
  }

  lemma ReplyToVoteKeeps(s: Sys, k: nat, i: nat, seqNo: nat, t: Sys)
    requires Serving(s, k, i) && s.conns[k].toServer[0] == VoteInfoReply(seqNo) && t == ServeClient(s, k, i)
    ensures SysInv(t)
  {
    FairHistory(s);
    ReplyHasEffect(s.server, i, seqNo);
    var (u, out) := Qnetd.ReplyReceived(s.server, i, seqNo);
    AfterReplyToVote(s, k, i, seqNo);
    VoteReplyKeeps(s, k, i, seqNo, u, out);
  }

  lemma AfterOther(s: Sys, k: nat, i: nat)
    requires k in s.conns && s.conns[k].toServer != [] && i < |s.server.clients|
    ensures s.conns[k].toServer[0].Init? ==> exists ring, error :: RepeatedInit(s, k, i, ServeClient(s, k, i), ring, error)
    ensures s.conns[k].toServer[0].QuorumList? ==>
              ServeClient(s, k, i) == NoAlgorithm(s, k, [ListReply(s.server.clients[i].ring, NoChange)])
  {
    if s.conns[k].toServer[0].Init? {
      var m := s.conns[k].toServer[0];
      assert RepeatedInit(s, k, i, ServeClient(s, k, i), m.ring,
                          Qnetd.CheckNewClient(s.server.clients, s.server.clients[i].id, m.tieBreaker));
    }
  }

  lemma {:induction false} ServeClientKeeps(s: Sys, k: nat, i: nat, t: Sys)
    requires Serving(s, k, i) && t == ServeClient(s, k, i)
    ensures SysInv(t)
  {
    AfterOther(s, k, i);
    match s.conns[k].toServer[0]
    case Init(ring, tieBreaker) => RepeatedInitKeeps(s, k, i, t);
    case SetOption(on) => OptionKeeps(s, k, i, on, t);
    case ConfigList(initial, nodes) => ConfigKeeps(s, k, i, initial, nodes, t);
    case MembershipList(ring, nodes, h) => MembershipKeeps(s, k, i, ring, nodes, h, t);
    case QuorumList => PlainKeeps(s, k, i, ListReply(s.server.clients[i].ring, NoChange), t);
    case HeuristicsChange(h) => HeuristicsKeeps(s, k, i, h, t);
    case VoteInfoReply(seqNo) => ReplyToVoteKeeps(s, k, i, seqNo, t);
  }
}
