/** Connections that the server closes, and connections whose init message it handles. */
module ConnectionSteps {
  import opened Tlv
  import opened Ffsplit
  import opened Qdevice
  import opened FfsplitTwoPhase
  import opened System
  import opened SystemInvariant
  import opened PeerAnswers
  import opened Peers
  import opened ServerSteps
  import Qnetd = FfsplitVotes

  // ---------------------------------------------------------------- a connection is gone

  /** The connections that are left after the votes have been sent and k is closed. */
  function Closed(s: Sys, k: nat, server: Qnetd.Server, out: Qnetd.Outbox,
                  decided: Option<Candidate>, granted: Option<Candidate>): Sys
    requires k in s.conns && |out| == |s.server.clients|
  {
    s.(server := server, conns := Deliver(s, out) - {k}, record := s.record - {s.conns[k].owner},
       decided := decided, granted := granted)
  }

  /** The node has given the connection up before the server noticed. */
  ghost predicate Leaving(s: Sys, k: nat, i: nat) {
    SysInv(s) && Accepted(s, k) && !Live(s, s.conns[k].owner)
    && i == Find(s.server.clients, s.conns[k].owner) && i < |s.server.clients|
  }

  lemma ClosedIds(cs: seq<Client>, ds: seq<Client>, i: nat)
    requires Sorted(cs) && SameIds(cs, ds) && i < |cs|
    ensures Sorted(Qnetd.Without(ds, i)) && Ids(Qnetd.Without(ds, i)) == Ids(cs) - {cs[i].id}
  {
    SameIdsSet(cs, ds);
    WithoutElements(ds, i);
    assert Ids(Qnetd.Without(ds, i)) == Ids(ds) - {ds[i].id};
  }

  lemma ClosedShape(s: Sys, k: nat, t: Sys)
    requires Shape(s) && k in s.conns && s.conns[k].owner in s.record && s.record[s.conns[k].owner] == k
    requires !Live(s, s.conns[k].owner) && OnlyServer(s, t)
    requires Sorted(t.server.clients) && Ids(t.server.clients) == Ids(s.server.clients) - {s.conns[k].owner}
    requires t.conns.Keys == s.conns.Keys - {k} && forall x | x in t.conns :: t.conns[x].owner == s.conns[x].owner
    requires t.record == s.record - {s.conns[k].owner}
    ensures Shape(t)
  {
    forall n | n in t.record ensures t.record[n] in t.conns {
      assert s.conns[s.record[n]].owner == n;
    }
    forall n | n in t.sock ensures t.sock[n] in t.conns {
      assert s.conns[s.sock[n]].owner == n;
    }
  }

  lemma ClosedUnaccepted(s: Sys, k: nat, out: Qnetd.Outbox, t: Sys, n: nat)
    requires Shape(s) && Shape(t) && Accepted(s, k) && |out| == |s.server.clients| && OnlyServer(s, t)
    requires t.conns == Deliver(s, out) - {k} && t.record == s.record - {s.conns[k].owner}
    requires !Live(s, s.conns[k].owner) && n in s.devices && UnacceptedOk(s, n)
    ensures UnacceptedOk(t, n)
  {
    if n in s.sock && !Live(s, n) {
      UntouchedConn(s, k, out, n);
      UnacceptedStays(s, t, n);
    }
  }

  lemma UnacceptedStays(s: Sys, t: Sys, n: nat)
    requires Shape(s) && Shape(t) && OnlyServer(s, t) && n in s.devices && n in s.sock && !Live(s, n)
    requires t.conns[s.sock[n]] == s.conns[s.sock[n]]
    requires UnacceptedOk(s, n)
    ensures UnacceptedOk(t, n)
  {
  }

  /** The connection of a node that is not on record is sent nothing and stays. */
  lemma UntouchedConn(s: Sys, k: nat, out: Qnetd.Outbox, n: nat)
    requires Shape(s) && Accepted(s, k) && |out| == |s.server.clients| && !Live(s, s.conns[k].owner)
    requires n in s.sock && !Live(s, n)
    ensures s.sock[n] in Deliver(s, out) - {k} && Deliver(s, out)[s.sock[n]] == s.conns[s.sock[n]]
  {
    assert !Accepted(s, s.sock[n]) && s.sock[n] != k;
    assert s.conns[s.sock[n]].toDevice + [] == s.conns[s.sock[n]].toDevice;
  }

  /** Everybody but the client that leaves is shown the answer. */
  ghost predicate OthersShown(s: Sys, i: nat, ds: seq<Client>, out: Qnetd.Outbox, nacks: bool, decided: Option<Candidate>, granted: Option<Candidate>)
    requires Shape(s) && |ds| == |out| == |s.server.clients|
  {
    forall j | 0 <= j < |ds| && j != i && Live(s, s.server.clients[j].id) ::
      PeerGood(Shown(PeerOf(s, s.server.clients[j]), ds[j], false, out[j], []),
               s.ranks[s.server.clients[j].id], nacks, decided, granted)
  }

  /** The connection of a live client, after the votes have been sent. */
  lemma DeliveredConn(s: Sys, k: nat, out: Qnetd.Outbox, j: nat)
    requires Shape(s) && k in s.conns && |out| == |s.server.clients| && j < |out|
    requires Live(s, s.server.clients[j].id) && s.conns[k].owner != s.server.clients[j].id
    ensures var x := s.sock[s.server.clients[j].id];
            x in s.conns && x != k
            && Deliver(s, out)[x] == s.conns[x].(toDevice := s.conns[x].toDevice + VoteMessages(out[j]))
  {
    var n := s.server.clients[j].id;
    RecordPosition(s, j, s.record[n]);
    assert VotesOn(s, out, s.sock[n]) == VoteMessages(out[j]);
  }

  lemma ShownOther(p: Peer, c: Client, o: Option<Qnetd.VoteInfo>)
    ensures Shown(p, c, false, o, []) == Peer(p.device, c, p.toServer, p.toDevice + VoteMessages(o))
  {
    assert p.toDevice + VoteMessages(o) + [] == p.toDevice + VoteMessages(o);
  }

  lemma StillLive(s: Sys, k: nat, t: Sys, n: nat)
    requires k in s.conns && t.record == s.record - {s.conns[k].owner} && t.sock == s.sock && Live(t, n)
    ensures Live(s, n) && n != s.conns[k].owner
  {
  }

  lemma ClosedPeerOf(s: Sys, k: nat, ds: seq<Client>, out: Qnetd.Outbox, t: Sys, j: nat)
    requires Shape(s) && Shape(t) && k in s.conns && |out| == |s.server.clients| && SameIds(s.server.clients, ds)
    requires t.conns == Deliver(s, out) - {k} && t.record == s.record - {s.conns[k].owner}
    requires t.devices == s.devices && t.sock == s.sock && j < |ds| && Live(t, ds[j].id)
    ensures Live(s, s.server.clients[j].id) && ds[j].id == s.server.clients[j].id
    ensures PeerOf(t, ds[j]) == Shown(PeerOf(s, s.server.clients[j]), ds[j], false, out[j], [])
  {
    StillLive(s, k, t, ds[j].id);
    DeliveredConn(s, k, out, j);
    ShownOther(PeerOf(s, s.server.clients[j]), ds[j], out[j]);
  }

  lemma ClosedPeer(s: Sys, k: nat, i: nat, ds: seq<Client>, out: Qnetd.Outbox, t: Sys, j: nat)
    requires Shape(s) && Shape(t) && k in s.conns
    requires |out| == |s.server.clients| && SameIds(s.server.clients, ds) && OnlyServer(s, t)
    requires t.conns == Deliver(s, out) - {k} && t.record == s.record - {s.conns[k].owner}
    requires OthersShown(s, i, ds, out, t.server.state == Qnetd.SendingNacks, t.decided, t.granted)
    requires j < |ds| && j != i
    ensures PeerOk(t, ds[j])
  {
    if Live(t, ds[j].id) {
      ClosedPeerOf(s, k, ds, out, t, j);
    }
  }

  lemma AllClosedPeers(s: Sys, k: nat, i: nat, ds: seq<Client>, out: Qnetd.Outbox, t: Sys)
    requires Shape(s) && Shape(t) && k in s.conns
    requires |out| == |s.server.clients| && SameIds(s.server.clients, ds) && OnlyServer(s, t)
    requires t.conns == Deliver(s, out) - {k} && t.record == s.record - {s.conns[k].owner}
    requires OthersShown(s, i, ds, out, t.server.state == Qnetd.SendingNacks, t.decided, t.granted)
    ensures forall j | 0 <= j < |ds| && j != i :: PeerOk(t, ds[j])
  {
    forall j | 0 <= j < |ds| && j != i ensures PeerOk(t, ds[j]) {
      ClosedPeer(s, k, i, ds, out, t, j);
    }
  }

  lemma ClosedPeers(i: nat, ds: seq<Client>, t: Sys)
    requires Shape(t) && i < |ds| && t.server.clients == Qnetd.Without(ds, i)
    requires forall j | 0 <= j < |ds| && j != i :: PeerOk(t, ds[j])
    ensures forall c | c in t.server.clients :: PeerOk(t, c)
  {
    forall c | c in t.server.clients ensures PeerOk(t, c) {
      var x :| 0 <= x < |t.server.clients| && t.server.clients[x] == c;
      assert PeerOk(t, ds[if x < i then x else x + 1]);
    }
  }

  lemma ClosedKeeps(s: Sys, k: nat, i: nat, ds: seq<Client>, out: Qnetd.Outbox, t: Sys)
    requires Leaving(s, k, i) && |out| == |s.server.clients| && SameIds(s.server.clients, ds) && OnlyServer(s, t)
    requires t.server.clients == Qnetd.Without(ds, i)
    requires t.conns == Deliver(s, out) - {k} && t.record == s.record - {s.conns[k].owner}
    requires OthersShown(s, i, ds, out, t.server.state == Qnetd.SendingNacks, t.decided, t.granted)
    ensures SysInv(t)
  {
    FairHistory(s);
    AcceptedPosition(s, k);
    ClosedIds(s.server.clients, ds, i);
    ClosedShape(s, k, t);
    forall n | n in t.devices ensures UnacceptedOk(t, n) {
      assert UnacceptedOk(s, n);
      ClosedUnaccepted(s, k, out, t, n);
    }
    AllClosedPeers(s, k, i, ds, out, t);
    ClosedPeers(i, ds, t);
    ServerStepKeeps(s, t);
  }

  lemma OtherShown(s: Sys, i: nat, call: Call, e: Qnetd.Effect, state: Qnetd.ClusterState, j: nat)
    requires SysInv(s) && i < |s.server.clients| && call.id == s.server.clients[i].id && Deals(s.server, call, e)
    requires j < |s.server.clients| && j != i && Live(s, s.server.clients[j].id) && !e.crashed
    requires |e.server.clients| == |e.out| == |s.server.clients| && state == e.server.state
    requires !e.decided ==> e.server.state == Qnetd.WaitingForStableMembership
    ensures PeerGood(Shown(PeerOf(s, s.server.clients[j]), e.server.clients[j], false, e.out[j], []),
                     s.ranks[s.server.clients[j].id], state == Qnetd.SendingNacks,
                     if e.decided then e.chosen else s.decided,
                     if e.decided && state != Qnetd.SendingNacks then e.chosen else s.granted)
  {
    var c := s.server.clients[j];
    SortedIsUnique(s.server.clients);
    assert NodeOk(s, c.id) && PeerOk(s, c) && c.id != call.id;
    if e.decided {
      assert Decided(c, call, e.server, e.server.clients[j], e.out[j]);
      assert state != Qnetd.SendingNacks ==> e.server.clients[j].state != SendingNack;
      DecidedPeer(PeerOf(s, c), s.ranks[c.id], s.clock, call, e.server, e.server.clients[j], e.out[j],
                  false, [], e.chosen, s.granted);
    } else {
      UndecidedPeer(PeerOf(s, c), s.ranks[c.id], s.server.state == Qnetd.SendingNacks, false,
                    s.decided, s.granted, c, false, []);
    }
  }

  lemma OthersAreShown(s: Sys, k: nat, i: nat, call: Call, e: Qnetd.Effect)
    requires Leaving(s, k, i) && call.id == s.server.clients[i].id && Deals(s.server, call, e) && !e.crashed
    requires !e.decided ==> e.server.state == Qnetd.WaitingForStableMembership
    ensures |e.server.clients| == |e.out| == |s.server.clients| && SameIds(s.server.clients, e.server.clients)
    ensures OthersShown(s, i, e.server.clients, e.out, e.server.state == Qnetd.SendingNacks,
                        if e.decided then e.chosen else s.decided,
                        if e.decided && e.server.state != Qnetd.SendingNacks then e.chosen else s.granted)
  {
    forall j | 0 <= j < |s.server.clients| ensures e.server.clients[j].id == s.server.clients[j].id {
      if e.decided {
        assert Decided(s.server.clients[j], call, e.server, e.server.clients[j], e.out[j]);
      }
    }
    forall j | 0 <= j < |s.server.clients| && j != i && Live(s, s.server.clients[j].id)
      ensures PeerGood(Shown(PeerOf(s, s.server.clients[j]), e.server.clients[j], false, e.out[j], []),
                       s.ranks[s.server.clients[j].id], e.server.state == Qnetd.SendingNacks,
                       if e.decided then e.chosen else s.decided,
                       if e.decided && e.server.state != Qnetd.SendingNacks then e.chosen else s.granted)
    {
      OtherShown(s, i, call, e, e.server.state, j);
    }
  }

  lemma AfterDisconnect(s: Qnetd.Server, i: nat, e: Qnetd.Effect)
    requires i < |s.clients| && e == Qnetd.Do(s, Qnetd.CallOf(s.clients[i], true)) && |e.server.clients| == |e.out| == |s.clients|
    ensures Qnetd.Handle(s, Qnetd.Disconnected(i)) == Qnetd.FinishDisconnect(s, i, e)
  {
  }

  lemma NoticeUnfolds(s: Sys, k: nat, i: nat, a: Qnetd.Answer)
    requires Accepted(s, k) && i == Find(s.server.clients, s.conns[k].owner)
    requires a == Qnetd.Handle(s.server, Qnetd.Disconnected(i))
    ensures ServerNotices(s, k)
            == if a.crashed then AfterAnswer(s, a, Deliver(s, a.out) - {k})
               else AfterAnswer(s, a, Deliver(s, a.out) - {k}).(record := s.record - {s.conns[k].owner})
  {
  }

  /** What closing an accepted connection amounts to. */
  lemma NoticeIs(s: Sys, k: nat, i: nat, e: Qnetd.Effect, a: Qnetd.Answer, t: Sys)
    requires k in s.conns && i < |s.server.clients| && |e.server.clients| == |e.out| == |s.server.clients|
    requires a == Qnetd.FinishDisconnect(s.server, i, e)
    requires t == if a.crashed then AfterAnswer(s, a, Deliver(s, a.out) - {k})
                  else AfterAnswer(s, a, Deliver(s, a.out) - {k}).(record := s.record - {s.conns[k].owner})
    requires !e.decided && !e.crashed ==> e.server.state == Qnetd.WaitingForStableMembership
    ensures if e.crashed then t == s.(crashed := true)
            else
              && t == s.(server := t.server, conns := Deliver(s, e.out) - {k}, record := s.record - {s.conns[k].owner},
                         decided := t.decided, granted := t.granted)
              && t.server.clients == Qnetd.Without(e.server.clients, i)
              && (t.decided == if e.decided then e.chosen else s.decided)
              && (|e.server.clients| != 1 ==>
                    t.server.state == e.server.state
                    && (t.granted == if e.decided && e.server.state != Qnetd.SendingNacks then e.chosen else s.granted))
              && (t.granted == e.chosen || t.granted == s.granted || t.granted == s.decided)
  {
  }

  lemma NoticedKeeps(s: Sys, k: nat, i: nat, call: Call, e: Qnetd.Effect, t: Sys)
    requires Leaving(s, k, i) && call.id == s.server.clients[i].id && Deals(s.server, call, e) && !e.crashed
    requires !e.decided ==> e.server.state == Qnetd.WaitingForStableMembership && e.chosen.None?
    requires |e.server.clients| == |e.out| == |s.server.clients|
    requires t == s.(server := t.server, conns := Deliver(s, e.out) - {k}, record := s.record - {s.conns[k].owner},
                     decided := t.decided, granted := t.granted)
    requires t.server.clients == Qnetd.Without(e.server.clients, i)
    requires t.decided == if e.decided then e.chosen else s.decided
    requires |e.server.clients| != 1 ==>
               t.server.state == e.server.state
               && (t.granted == if e.decided && e.server.state != Qnetd.SendingNacks then e.chosen else s.granted)
    requires t.granted == e.chosen || t.granted == s.granted || t.granted == s.decided
    ensures SysInv(t)
  {
    FairHistory(s);
    OthersAreShown(s, k, i, call, e);
    ClosedKeeps(s, k, i, e.server.clients, e.out, t);
  }

  lemma RecordAccepted(s: Sys, n: nat)
    requires Shape(s) && n in s.record
    ensures Accepted(s, s.record[n])
  {
    var c :| c in s.server.clients && c.id == n;
    var j :| 0 <= j < |s.server.clients| && s.server.clients[j] == c;
    RecordPosition(s, j, s.record[n]);
  }

  lemma UnacceptedRecord(s: Sys, k: nat)
    requires Shape(s) && k in s.conns && !Accepted(s, k)
    ensures forall n | n in s.record :: s.record[n] != k
  {
    forall n | n in s.record ensures s.record[n] != k {
      RecordAccepted(s, n);
    }
  }

  lemma ForgottenKeeps(s: Sys, k: nat)
    requires SysInv(s) && k in s.conns && !Accepted(s, k)
    requires !(s.conns[k].owner in s.sock && s.sock[s.conns[k].owner] == k)
    ensures SysInv(s.(conns := s.conns - {k}))
  {
    var t := s.(conns := s.conns - {k});
    UnacceptedRecord(s, k);
    assert Shape(t);
    forall n | n in t.devices ensures UnacceptedOk(t, n) {
      assert UnacceptedOk(s, n);
    }
    forall c | c in t.server.clients ensures PeerOk(t, c) {
      assert PeerOk(s, c);
    }
    ServerStepKeeps(s, t);
  }

  lemma NoticesKeeps(s: Sys, k: nat, t: Sys)
    requires SysInv(s) && Enabled(s, Notices(k)) && t == ServerNotices(s, k)
    ensures SysInv(t)
  {
    if Accepted(s, k) {
      NoticesClientKeeps(s, k, t);
    } else {
      ForgottenKeeps(s, k);
    }
  }

  lemma NoticesClientKeeps(s: Sys, k: nat, t: Sys)
    requires SysInv(s) && Enabled(s, Notices(k)) && Accepted(s, k) && t == ServerNotices(s, k)
    ensures SysInv(t)
  {
    FairHistory(s);
    var i := Find(s.server.clients, s.conns[k].owner);
    var call := Qnetd.CallOf(s.server.clients[i], true);
    var e := Qnetd.Do(s.server, call);
    DoDeals(s.server, call);
    var a := Qnetd.Handle(s.server, Qnetd.Disconnected(i));
    AfterDisconnect(s.server, i, e);
    NoticeUnfolds(s, k, i, a);
    NoticeIs(s, k, i, e, a, t);
    if e.crashed {
      CrashKeeps(s);
    } else {
      NoticedKeeps(s, k, i, call, e, t);
    }
  }

  // ---------------------------------------------------------------- connections not yet accepted

  /** The head message of connection k is answered without an effect on the clients. */
  lemma RefusedConnKeeps(s: Sys, k: nat, reply: ToDevice, t: Sys)
    requires SysInv(s) && k in s.conns && !Accepted(s, k) && s.conns[k].toServer != []
    requires reply.ServerError? || (reply.InitReply? && reply.error != NoError)
    requires s.conns[k].toServer[0].Init? || reply.ServerError?
    requires t == NoAlgorithm(s, k, [reply])
    ensures SysInv(t)
  {
    UnacceptedRecord(s, k);
    RefusedShape(s, k, reply);
    forall n | n in t.devices ensures UnacceptedOk(t, n) {
      assert UnacceptedOk(s, n);
      RefusedUnaccepted(s, k, reply, t, n);
    }
    forall c | c in t.server.clients ensures PeerOk(t, c) {
      assert PeerOk(s, c);
    }
    ServerStepKeeps(s, t);
  }

  lemma RefusedShape(s: Sys, k: nat, reply: ToDevice)
    requires Shape(s) && k in s.conns && s.conns[k].toServer != []
    ensures Shape(NoAlgorithm(s, k, [reply]))
  {
  }

  lemma RefusedUnaccepted(s: Sys, k: nat, reply: ToDevice, t: Sys, n: nat)
    requires Shape(s) && Shape(t) && k in s.conns && s.conns[k].toServer != [] && n in s.devices && UnacceptedOk(s, n)
    requires reply.ServerError? || (reply.InitReply? && reply.error != NoError)
    requires s.conns[k].toServer[0].Init? || reply.ServerError?
    requires t == NoAlgorithm(s, k, [reply])
    ensures UnacceptedOk(t, n)
  {
    if n in s.sock && s.sock[n] == k && !Live(s, n) {
      RefusedConn(s.devices[n], s.conns[k], s.ranks[n], reply);
    }
  }

  lemma RefusedConn(d: Device, conn: Conn, rank: Ranks, reply: ToDevice)
    requires Unaccepted(d, conn, rank) && conn.toServer != []
    requires reply.ServerError? || (reply.InitReply? && reply.error != NoError)
    requires conn.toServer[0].Init? || reply.ServerError?
    ensures Unaccepted(d, conn.(toServer := conn.toServer[1..], toDevice := conn.toDevice + [reply]), rank)
  {
    assert forall x | x in conn.toServer[1..] :: x in conn.toServer;
    assert conn.toServer[0] in conn.toServer;
  }

  /** Connection k is accepted: its owner becomes a client. */
  lemma AcceptedKeeps(s: Sys, k: nat, c: Client, t: Sys)
    requires SysInv(s) && k in s.conns && !Accepted(s, k) && s.conns[k].toServer != [] && s.conns[k].toServer[0].Init?
    requires c.id == s.conns[k].owner && c.ring == s.conns[k].toServer[0].ring
    requires c == Newcomer(c.id, c.ring).(tieBreaker := c.tieBreaker, keepActive := c.keepActive)
    requires forall d | d in s.server.clients :: d.id != c.id
    requires t == s.(server := s.server.(clients := Qnetd.Insert(s.server.clients, c)),
                     conns := Reply(s.conns, k, [InitReply(NoError)]), record := s.record[c.id := k])
    ensures SysInv(t)
  {
    UnacceptedRecord(s, k);
    InsertKeepsSorted(s.server.clients, c);
    AcceptedShape(s, k, c, t);
    forall n | n in t.devices ensures UnacceptedOk(t, n) {
      assert UnacceptedOk(s, n);
      AcceptedOthers(s, k, c, t, n);
    }
    forall d | d in t.server.clients ensures PeerOk(t, d) {
      if d == c {
        assert NodeOk(s, c.id) && UnacceptedOk(s, c.id);
        AcceptedPeer(s, k, c, t);
      } else {
        assert PeerOk(s, d);
        OtherPeer(s, k, c, t, d);
      }
    }
    ServerStepKeeps(s, t);
  }

  /** The nodes that still have no accepted connection. */
  lemma AcceptedOthers(s: Sys, k: nat, c: Client, t: Sys, n: nat)
    requires Shape(s) && Shape(t) && k in s.conns && s.conns[k].toServer != [] && n in s.devices && UnacceptedOk(s, n)
    requires c.id == s.conns[k].owner && !Accepted(s, k) && c.id !in s.record
    requires t == s.(server := t.server, conns := Reply(s.conns, k, [InitReply(NoError)]), record := s.record[c.id := k])
    ensures UnacceptedOk(t, n)
  {
    if n in t.sock && !Live(t, n) {
      assert t.sock[n] != k;
    }
  }

  lemma AcceptedPeer(s: Sys, k: nat, c: Client, t: Sys)
    requires Shape(s) && Shape(t) && k in s.conns && s.conns[k].toServer != [] && s.conns[k].toServer[0].Init?
    requires c.id == s.conns[k].owner && c.id !in s.record && NodeOk(s, c.id) && UnacceptedOk(s, c.id)
    requires c == Newcomer(c.id, s.conns[k].toServer[0].ring).(tieBreaker := c.tieBreaker, keepActive := c.keepActive)
    requires t == s.(server := t.server, conns := Reply(s.conns, k, [InitReply(NoError)]), record := s.record[c.id := k])
    requires t.server.state == s.server.state
    ensures PeerOk(t, c)
  {
    if Live(t, c.id) {
      NewPeer(s.devices[c.id], s.conns[k], s.ranks[c.id], c, s.server.state == Qnetd.SendingNacks, s.decided, s.granted);
    }
  }

  lemma OtherPeer(s: Sys, k: nat, c: Client, t: Sys, d: Client)
    requires Shape(s) && Shape(t) && k in s.conns && s.conns[k].toServer != [] && c.id == s.conns[k].owner
    requires d in s.server.clients && d.id != c.id && PeerOk(s, d)
    requires t == s.(server := t.server, conns := Reply(s.conns, k, [InitReply(NoError)]), record := s.record[c.id := k])
    requires t.server.state == s.server.state
    ensures PeerOk(t, d)
  {
    assert Live(t, d.id) <==> Live(s, d.id);
  }

  lemma AcceptedShape(s: Sys, k: nat, c: Client, t: Sys)
    requires Shape(s) && k in s.conns && s.conns[k].toServer != [] && c.id == s.conns[k].owner
    requires Sorted(t.server.clients) && forall d :: d in t.server.clients <==> d == c || d in s.server.clients
    requires t == s.(server := t.server, conns := Reply(s.conns, k, [InitReply(NoError)]), record := s.record[c.id := k])
    ensures Shape(t)
  {
    assert Ids(t.server.clients) == Ids(s.server.clients) + {c.id};
  }

  lemma NewPeer(d: Device, conn: Conn, rank: Ranks, c: Client, nacks: bool, decided: Option<Candidate>, granted: Option<Candidate>)
    requires Unaccepted(d, conn, rank) && conn.toServer != [] && conn.toServer[0].Init?
    requires c == Newcomer(d.id, conn.toServer[0].ring).(tieBreaker := c.tieBreaker, keepActive := c.keepActive)
    ensures PeerGood(Peer(d, c, conn.toServer[1..], conn.toDevice + [InitReply(NoError)]), rank, nacks, decided, granted)
  {
    assert conn.toServer[0] in conn.toServer;
    var p := Peer(d, c, conn.toServer[1..], []);
    assert PeerCore(p, rank);
    AppendPlain(p, rank, InitReply(NoError));
  }

  lemma NotInitIs(s: Sys, k: nat)
    requires k in s.conns && s.conns[k].toServer != [] && !Accepted(s, k) && !s.conns[k].toServer[0].Init?
    ensures ServerServes(s, k) == NoAlgorithm(s, k, [ServerError(InitRequired)])
  {
  }

  lemma NewIs(s: Sys, k: nat, error: ErrorCode)
    requires k in s.conns && s.conns[k].toServer != [] && !Accepted(s, k) && s.conns[k].toServer[0].Init?
    requires error == Qnetd.CheckNewClient(s.server.clients, s.conns[k].owner, s.conns[k].toServer[0].tieBreaker)
    ensures var m, n := s.conns[k].toServer[0], s.conns[k].owner;
            ServerServes(s, k)
            == if error != NoError then NoAlgorithm(s, k, [InitReply(error)])
               else
                 var c := Qnetd.NewClient(n, m.ring, m.tieBreaker, s.keepActive);
                 s.(server := s.server.(clients := Qnetd.Insert(s.server.clients, c)),
                    conns := Reply(s.conns, k, [InitReply(NoError)]), record := s.record[n := k])
  {
    DeliverNothing(s);
  }

  lemma ServesNewKeeps(s: Sys, k: nat, t: Sys)
    requires SysInv(s) && k in s.conns && s.conns[k].toServer != [] && !Accepted(s, k) && t == ServerServes(s, k)
    ensures SysInv(t)
  {
    var m, n := s.conns[k].toServer[0], s.conns[k].owner;
    if !m.Init? {
      NotInitIs(s, k);
      RefusedConnKeeps(s, k, ServerError(InitRequired), t);
    } else {
      var error := Qnetd.CheckNewClient(s.server.clients, n, m.tieBreaker);
      NewIs(s, k, error);
      if error != NoError {
        RefusedConnKeeps(s, k, InitReply(error), t);
      } else {
        AcceptedKeeps(s, k, Qnetd.NewClient(n, m.ring, m.tieBreaker, s.keepActive), t);
      }
    }
  }
}
