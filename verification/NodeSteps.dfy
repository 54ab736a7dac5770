/** Every step of one node keeps the system invariant. */
module NodeSteps {
  import opened Tlv
  import opened Ffsplit
  import opened Qdevice
  import opened System
  import opened SystemInvariant
  import opened Peers
  import Qnetd = FfsplitVotes

  // ---------------------------------------------------------------- steps of one node

  /** Only node n and the connections it owns differ. */
  ghost predicate OnlyNode(s: Sys, t: Sys, n: nat) {
    && n in s.devices && n in t.ranks
    && t.server == s.server && t.record == s.record && t.decided == s.decided && t.granted == s.granted
    && t.devices.Keys == s.devices.Keys && t.ranks.Keys == s.ranks.Keys && s.clock <= t.clock
    && (forall m | m in s.devices && m != n :: t.devices[m] == s.devices[m])
    && (forall m | m in s.ranks && m != n :: t.ranks[m] == s.ranks[m])
    && (forall m | m != n :: (m in s.sock <==> m in t.sock) && (m in s.sock ==> t.sock[m] == s.sock[m]))
    && (n in t.sock ==> t.sock[n] in t.conns && t.conns[t.sock[n]].owner == n)
    && (forall k | k in s.conns :: k in t.conns && t.conns[k].owner == s.conns[k].owner
          && (s.conns[k].owner != n ==> t.conns[k] == s.conns[k]))
    && (forall k | k in t.conns && k !in s.conns :: t.conns[k].owner == n)
  }

  lemma OnlyNodeShape(s: Sys, t: Sys, n: nat)
    requires Shape(s) && OnlyNode(s, t, n)
    ensures Shape(t)
  {
  }

  lemma LaterClock(d: Device, rank: Ranks, clock: nat, later: nat)
    requires NodeInv(d, rank, clock) && clock <= later
    ensures NodeInv(d, rank, later)
  {
  }

  lemma OtherNode(s: Sys, t: Sys, n: nat, m: nat)
    requires Shape(s) && OnlyNode(s, t, n) && Shape(t) && m in s.devices && m != n
    requires NodeOk(s, m) && UnacceptedOk(s, m)
    ensures NodeOk(t, m) && UnacceptedOk(t, m)
  {
    LaterClock(s.devices[m], s.ranks[m], s.clock, t.clock);
  }

  lemma NodeStepKeeps(s: Sys, t: Sys, n: nat)
    requires SysInv(s) && OnlyNode(s, t, n)
    requires Shape(t) ==> NodeOk(t, n) && UnacceptedOk(t, n)
    requires Shape(t) ==> forall c | c in s.server.clients && c.id == n :: PeerOk(t, c)
    ensures SysInv(t)
  {
    OnlyNodeShape(s, t, n);
    forall m | m in t.devices ensures NodeOk(t, m) && UnacceptedOk(t, m) {
      if m != n {
        OtherNode(s, t, n, m);
      }
    }
    forall c | c in t.server.clients ensures PeerOk(t, c) {
      if c.id != n {
        assert PeerOk(s, c);
        assert Live(t, c.id) <==> Live(s, c.id);
      }
    }
  }

  lemma MovedGood(p: Peer, q: Peer, rank: Ranks, nacks: bool, decided: Option<Candidate>, granted: Option<Candidate>)
    requires PeerGood(p, rank, nacks, decided, granted) && MovedPeer(p, q, rank) && q.client == p.client
    ensures PeerGood(q, rank, nacks, decided, granted)
  {
  }

  lemma NewestGood(p: Peer, rank: Ranks, nacks: bool, decided: Option<Candidate>, granted: Option<Candidate>, ring: RingId, k: nat)
    requires PeerGood(p, rank, nacks, decided, granted) && ring !in rank
    ensures PeerGood(p, rank[ring := k], nacks, decided, granted)
  {
    NewestRing(p, rank, ring, k);
  }

  /** A local event at a node whose connection is not accepted. */
  lemma LocalUnaccepted(d: Device, conn: Conn, rank: Ranks, clock: nat, e: Event)
    requires NodeInv(d, rank, clock) && Unaccepted(d, conn, rank) && d.link != NotConnected
    requires Local(e) && Possible(d, e) && (e.ConfigChanged? ==> d.id in e.config)
    ensures var (t, sent) := Step(d, e);
            t.link != NotConnected && Unaccepted(t, conn.(toServer := conn.toServer + sent), rank)
  {
    if conn.toServer != [] && conn.toServer[0].Init? {
      assert conn.toServer[0] in conn.toServer;
      LocalWaiting(d, conn, rank, clock, e);
    } else {
      LocalFacts(d, e);
      SendsNoInit(d, e);
    }
  }

  /** The same, for a connection whose init message has not been answered. */
  lemma LocalWaiting(d: Device, conn: Conn, rank: Ranks, clock: nat, e: Event)
    requires NodeInv(d, rank, clock) && d.vote != Ack && conn.toDevice == []
    requires conn.toServer != [] && conn.toServer[0].Init?
    requires PeerCore(Peer(d, Newcomer(d.id, conn.toServer[0].ring), conn.toServer[1..], []), rank)
    requires Local(e) && Possible(d, e) && (e.ConfigChanged? ==> d.id in e.config)
    ensures var (t, sent) := Step(d, e);
            t.link != NotConnected && t.vote != Ack && t.id == d.id
            && PeerCore(Peer(t, Newcomer(d.id, conn.toServer[0].ring), (conn.toServer + sent)[1..], []), rank)
  {
    var (t, sent) := Step(d, e);
    LocalFacts(d, e);
    LocalEvent(Peer(d, Newcomer(d.id, conn.toServer[0].ring), conn.toServer[1..], []), rank, clock, e);
    assert (conn.toServer + sent)[1..] == conn.toServer[1..] + sent;
  }

  lemma SendsNoInit(d: Device, e: Event)
    requires Local(e)
    ensures forall x | x in Step(d, e).1 :: !x.Init?
  {
  }

  lemma NewestUnaccepted(d: Device, conn: Conn, rank: Ranks, ring: RingId, k: nat)
    requires Unaccepted(d, conn, rank) && ring !in rank
    ensures Unaccepted(d, conn, rank[ring := k])
  {
    if conn.toServer != [] && conn.toServer[0].Init? && conn.toDevice == [] {
      NewestRing(Peer(d, Newcomer(d.id, conn.toServer[0].ring), conn.toServer[1..], []), rank, ring, k);
    }
  }

  lemma MovedOnlyNode(s: Sys, n: nat, d: Device, sent: seq<ToServer>)
    requires Shape(s) && n in s.devices && (n in s.sock || d.link == NotConnected)
    ensures OnlyNode(s, Moved(s, n, d, sent), n)
    ensures n in s.sock && d.link != NotConnected ==>
              var t := Moved(s, n, d, sent);
              n in t.sock && t.sock[n] == s.sock[n]
              && t.conns[t.sock[n]] == s.conns[s.sock[n]].(toServer := s.conns[s.sock[n]].toServer + sent)
  {
  }

  /** Node n has moved and is no longer connected. */
  lemma NowhereKeeps(s: Sys, t: Sys, n: nat)
    requires SysInv(s) && OnlyNode(s, t, n) && n !in t.sock
    requires t.devices[n].id == n && t.devices[n].link == NotConnected && NodeInv(t.devices[n], t.ranks[n], t.clock)
    ensures SysInv(t)
  {
    NodeStepKeeps(s, t, n);
  }

  /** Node n in state d with connection `conn` is what the server of s may meet. */
  ghost predicate ConnGood(s: Sys, n: nat, d: Device, conn: Conn, rank: Ranks) {
    if Live(s, n) then
      forall c | c in s.server.clients && c.id == n ::
        PeerGood(Peer(d, c, conn.toServer, conn.toDevice), rank, s.server.state == Qnetd.SendingNacks, s.decided, s.granted)
    else Unaccepted(d, conn, rank)
  }

  lemma ConnIsGood(s: Sys, n: nat)
    requires SysInv(s) && n in s.sock
    ensures ConnGood(s, n, s.devices[n], s.conns[s.sock[n]], s.ranks[n])
  {
    assert UnacceptedOk(s, n);
    forall c | Live(s, n) && c in s.server.clients && c.id == n
      ensures PeerGood(PeerOf(s, c), s.ranks[n], s.server.state == Qnetd.SendingNacks, s.decided, s.granted)
    {
      assert PeerOk(s, c);
    }
  }

  /** Node n has moved and keeps its connection. */
  lemma ConnectedKeeps(s: Sys, t: Sys, n: nat)
    requires SysInv(s) && OnlyNode(s, t, n) && n in s.sock && n in t.sock && t.sock[n] == s.sock[n]
    requires t.devices[n].id == n && t.devices[n].link != NotConnected && NodeInv(t.devices[n], t.ranks[n], t.clock)
    requires ConnGood(s, n, t.devices[n], t.conns[t.sock[n]], t.ranks[n])
    ensures SysInv(t)
  {
    NodeStepKeeps(s, t, n);
  }

  // ---------------------------------------------------------------- local events

  function WithSent(conn: Conn, sent: seq<ToServer>): Conn {
    conn.(toServer := conn.toServer + sent)
  }

  lemma LocalGood(s: Sys, n: nat, d: Device, conn: Conn, rank: Ranks, clock: nat, e: Event)
    requires ConnGood(s, n, d, conn, rank) && NodeInv(d, rank, clock) && d.link != NotConnected
    requires Local(e) && Possible(d, e) && (e.ConfigChanged? ==> d.id in e.config)
    ensures var (t, sent) := Step(d, e);
            t.link != NotConnected && ConnGood(s, n, t, WithSent(conn, sent), rank)
  {
    LinkStays(d, e);
    if Live(s, n) {
      forall c | c in s.server.clients && c.id == n
        ensures var (t, sent) := Step(d, e);
                PeerGood(Peer(t, c, conn.toServer + sent, conn.toDevice), rank,
                         s.server.state == Qnetd.SendingNacks, s.decided, s.granted)
      {
        LocalEvent(Peer(d, c, conn.toServer, conn.toDevice), rank, clock, e);
        var (t, sent) := Step(d, e);
        MovedGood(Peer(d, c, conn.toServer, conn.toDevice), Peer(t, c, conn.toServer + sent, conn.toDevice), rank,
                  s.server.state == Qnetd.SendingNacks, s.decided, s.granted);
      }
    } else {
      LocalUnaccepted(d, conn, rank, clock, e);
    }
  }

  lemma LinkStays(d: Device, e: Event)
    requires Local(e)
    ensures Step(d, e).0.link == NotConnected <==> d.link == NotConnected
  {
  }

  /** A new ring id, added to the history. */
  lemma RankedGood(s: Sys, n: nat, d: Device, conn: Conn, rank: Ranks, ring: RingId, k: nat)
    requires ConnGood(s, n, d, conn, rank) && ring !in rank
    ensures ConnGood(s, n, d, conn, rank[ring := k])
  {
    if Live(s, n) {
      forall c | c in s.server.clients && c.id == n
        ensures PeerGood(Peer(d, c, conn.toServer, conn.toDevice), rank[ring := k],
                         s.server.state == Qnetd.SendingNacks, s.decided, s.granted)
      {
        NewestGood(Peer(d, c, conn.toServer, conn.toDevice), rank,
                   s.server.state == Qnetd.SendingNacks, s.decided, s.granted, ring, k);
      }
    } else {
      NewestUnaccepted(d, conn, rank, ring, k);
    }
  }

  lemma LocalKeepsNode(d: Device, rank: Ranks, clock: nat, e: Event)
    requires NodeInv(d, rank, clock) && Possible(d, e) && Local(e) && (e.ConfigChanged? ==> d.id in e.config)
    requires e.NodeListNotify? ==> e.ring !in rank
    ensures Step(d, e).0.id == d.id
    ensures if e.NodeListNotify? then NodeInv(Step(d, e).0, rank[e.ring := clock], clock + 1)
            else NodeInv(Step(d, e).0, rank, clock)
  {
    if e.NodeListNotify? {
      NodeNotifyKeeps(d, rank, clock, e.ring, e.members);
    } else {
      NodeKeepsInv(d, rank, clock, e);
      StepFacts(d, e);
    }
  }

  /** Node n changes to d with the same history. */
  lemma MovedKeeps(s: Sys, n: nat, d: Device, sent: seq<ToServer>)
    requires SysInv(s) && n in s.devices && d.id == n && NodeInv(d, s.ranks[n], s.clock)
    requires n in s.sock <==> d.link != NotConnected
    requires n in s.sock ==> ConnGood(s, n, d, WithSent(s.conns[s.sock[n]], sent), s.ranks[n])
    ensures SysInv(Moved(s, n, d, sent))
  {
    MovedOnlyNode(s, n, d, sent);
    if n in s.sock {
      ConnectedKeeps(s, Moved(s, n, d, sent), n);
    } else {
      NowhereKeeps(s, Moved(s, n, d, sent), n);
    }
  }

  lemma NotifiedKeeps(s: Sys, n: nat, d: Device, sent: seq<ToServer>, ring: RingId)
    requires SysInv(s) && n in s.devices && d.id == n && ring !in s.ranks[n]
    requires NodeInv(d, s.ranks[n][ring := s.clock], s.clock + 1)
    requires n in s.sock <==> d.link != NotConnected
    requires n in s.sock ==> ConnGood(s, n, d, WithSent(s.conns[s.sock[n]], sent), s.ranks[n])
    ensures SysInv(Moved(s, n, d, sent).(ranks := s.ranks[n := Ranked(s.ranks[n], ring, s.clock)], clock := s.clock + 1))
  {
    var t0 := Moved(s, n, d, sent);
    var t := t0.(ranks := s.ranks[n := Ranked(s.ranks[n], ring, s.clock)], clock := s.clock + 1);
    MovedOnlyNode(s, n, d, sent);
    assert OnlyNode(s, t, n);
    if n in s.sock {
      RankedGood(s, n, d, t.conns[t.sock[n]], s.ranks[n], ring, s.clock);
      ConnectedKeeps(s, t, n);
    } else {
      NowhereKeeps(s, t, n);
    }
  }

  function Happened(s: Sys, n: nat, e: Event, d: Device, sent: seq<ToServer>): Sys
    requires n in s.devices && n in s.ranks
  {
    if e.NodeListNotify?
    then Moved(s, n, d, sent).(ranks := s.ranks[n := Ranked(s.ranks[n], e.ring, s.clock)], clock := s.clock + 1)
    else Moved(s, n, d, sent)
  }

  lemma HappensIs(s: Sys, n: nat, e: Event)
    requires n in s.devices && n in s.ranks
    ensures var (d, sent) := Step(s.devices[n], e); NodeNotified(s, n, e) == Happened(s, n, e, d, sent)
  {
  }

  lemma HappenedKeeps(s: Sys, n: nat, e: Event, d: Device, sent: seq<ToServer>, t: Sys)
    requires SysInv(s) && n in s.devices && d.id == n
    requires if e.NodeListNotify? then e.ring !in s.ranks[n] && NodeInv(d, s.ranks[n][e.ring := s.clock], s.clock + 1)
             else NodeInv(d, s.ranks[n], s.clock)
    requires n in s.sock <==> d.link != NotConnected
    requires n in s.sock ==> ConnGood(s, n, d, WithSent(s.conns[s.sock[n]], sent), s.ranks[n])
    requires t == Happened(s, n, e, d, sent)
    ensures SysInv(t)
  {
    if e.NodeListNotify? {
      NotifiedKeeps(s, n, d, sent, e.ring);
    } else {
      MovedKeeps(s, n, d, sent);
    }
  }

  lemma HappensKeeps(s: Sys, n: nat, e: Event, t: Sys)
    requires SysInv(s) && Enabled(s, Happens(n, e)) && t == NodeNotified(s, n, e)
    ensures SysInv(t)
  {
    assert NodeOk(s, n);
    LocalKeepsNode(s.devices[n], s.ranks[n], s.clock, e);
    LinkStays(s.devices[n], e);
    if n in s.sock {
      ConnIsGood(s, n);
      LocalGood(s, n, s.devices[n], s.conns[s.sock[n]], s.ranks[n], s.clock, e);
    }
    var (d, sent) := Step(s.devices[n], e);
    HappensIs(s, n, e);
    HappenedKeeps(s, n, e, d, sent, t);
  }

  // ---------------------------------------------------------------- messages, lost and new connections

  /** Node n changes to d after its connection has become `conn`. */
  lemma ChangedOnlyNode(s: Sys, n: nat, conn: Conn, d: Device, sent: seq<ToServer>)
    requires Shape(s) && n in s.sock && conn.owner == n
    ensures var t := Moved(s.(conns := s.conns[s.sock[n] := conn]), n, d, sent);
            && OnlyNode(s, t, n)
            && (d.link == NotConnected ==> n !in t.sock)
            && (d.link != NotConnected ==>
                  n in t.sock && t.sock[n] == s.sock[n] && t.conns[t.sock[n]] == WithSent(conn, sent))
  {
  }

  lemma ChangedKeeps(s: Sys, n: nat, conn: Conn, d: Device, sent: seq<ToServer>)
    requires SysInv(s) && n in s.sock && conn.owner == n
    requires d.id == n && NodeInv(d, s.ranks[n], s.clock)
    requires d.link != NotConnected ==> ConnGood(s, n, d, WithSent(conn, sent), s.ranks[n])
    ensures SysInv(Moved(s.(conns := s.conns[s.sock[n] := conn]), n, d, sent))
  {
    ChangedOnlyNode(s, n, conn, d, sent);
    var t := Moved(s.(conns := s.conns[s.sock[n] := conn]), n, d, sent);
    if d.link == NotConnected {
      NowhereKeeps(s, t, n);
    } else {
      ConnectedKeeps(s, t, n);
    }
  }

  lemma ReceivedGood(s: Sys, n: nat, d: Device, conn: Conn, rank: Ranks, clock: nat)
    requires ConnGood(s, n, d, conn, rank) && NodeInv(d, rank, clock) && conn.toDevice != []
    requires OnReceive(d, conn.toDevice[0]).0.link != NotConnected
    ensures var (t, sent) := OnReceive(d, conn.toDevice[0]);
            ConnGood(s, n, t, WithSent(conn.(toDevice := conn.toDevice[1..]), sent), rank)
  {
    var (t, sent) := OnReceive(d, conn.toDevice[0]);
    if Live(s, n) {
      forall c | c in s.server.clients && c.id == n
        ensures PeerGood(Peer(t, c, conn.toServer + sent, conn.toDevice[1..]), rank,
                         s.server.state == Qnetd.SendingNacks, s.decided, s.granted)
      {
        ReceivedMessage(Peer(d, c, conn.toServer, conn.toDevice), rank, clock);
        MovedGood(Peer(d, c, conn.toServer, conn.toDevice), Peer(t, c, conn.toServer + sent, conn.toDevice[1..]), rank,
                  s.server.state == Qnetd.SendingNacks, s.decided, s.granted);
      }
    } else {
      var m := conn.toDevice[0];
      assert m in conn.toDevice;
      RefusalEnds(d, m);
    }
  }

  lemma RefusalEnds(d: Device, m: ToDevice)
    requires m.ServerError? || (m.InitReply? && m.error != NoError)
    ensures OnReceive(d, m).0.link == NotConnected
  {
  }

  lemma ReceivesKeeps(s: Sys, n: nat)
    requires SysInv(s) && Enabled(s, Receives(n))
    ensures SysInv(NodeReceives(s, n))
  {
    var conn := s.conns[s.sock[n]];
    var m := conn.toDevice[0];
    assert NodeOk(s, n);
    ConnIsGood(s, n);
    NodeKeepsInv(s.devices[n], s.ranks[n], s.clock, Receive(m));
    StepFacts(s.devices[n], Receive(m));
    if OnReceive(s.devices[n], m).0.link != NotConnected {
      ReceivedGood(s, n, s.devices[n], conn, s.ranks[n], s.clock);
    }
    var (d, sent) := OnReceive(s.devices[n], m);
    ChangedKeeps(s, n, conn.(toDevice := conn.toDevice[1..]), d, sent);
  }

  lemma DropsKeeps(s: Sys, n: nat, kept: nat)
    requires SysInv(s) && Enabled(s, Drops(n, kept))
    ensures SysInv(NodeDrops(s, n, kept))
  {
    var conn := s.conns[s.sock[n]];
    assert NodeOk(s, n);
    NodeKeepsInv(s.devices[n], s.ranks[n], s.clock, Disconnect);
    StepFacts(s.devices[n], Disconnect);
    ChangedKeeps(s, n, conn.(toServer := conn.toServer[..kept]), OnDisconnect(s.devices[n]), []);
  }

  lemma FreshUnaccepted(d: Device, rank: Ranks, clock: nat)
    requires NodeInv(d, rank, clock) && d.link == NotConnected
    ensures var (t, sent) := Step(d, Connect);
            t.link != NotConnected && Unaccepted(t, Conn(d.id, sent, []), rank)
  {
  }

  lemma ConnectedOnlyNode(s: Sys, n: nat, k: nat)
    requires SysInv(s) && Enabled(s, Connects(n, k))
    ensures OnlyNode(s, NodeConnects(s, n, k), n)
  {
  }

  lemma ConnectsKeeps(s: Sys, n: nat, k: nat)
    requires SysInv(s) && Enabled(s, Connects(n, k))
    ensures SysInv(NodeConnects(s, n, k))
  {
    assert NodeOk(s, n);
    NodeKeepsInv(s.devices[n], s.ranks[n], s.clock, Connect);
    StepFacts(s.devices[n], Connect);
    FreshUnaccepted(s.devices[n], s.ranks[n], s.clock);
    ConnectedOnlyNode(s, n, k);
    NodeStepKeeps(s, NodeConnects(s, n, k), n);
  }
}
