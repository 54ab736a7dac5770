/**
  The invariant of the whole system: every accepted connection satisfies the invariant of
  `Peers`, and no node votes ACK on a connection the server has not accepted.
*/
module SystemInvariant {
  import opened Tlv
  import opened Ffsplit
  import opened Qdevice
  import opened FfsplitTwoPhase
  import opened System
  import opened Peers
  import Qnetd = FfsplitVotes

  // ---------------------------------------------------------------- the invariant

  ghost predicate Shape(s: Sys) {
    && s.ranks.Keys == s.devices.Keys
    && (forall n | n in s.sock :: n in s.devices && s.sock[n] in s.conns && s.conns[s.sock[n]].owner == n)
    && (forall n | n in s.record :: n in s.devices && s.record[n] in s.conns && s.conns[s.record[n]].owner == n)
    && (forall k | k in s.conns :: s.conns[k].owner in s.devices)
    && Sorted(s.server.clients)
    && s.record.Keys == Ids(s.server.clients)
  }

  /** The node's open connection is the one the server has on record. */
  predicate Live(s: Sys, n: nat) {
    n in s.sock && n in s.record && s.sock[n] == s.record[n]
  }

  ghost predicate NodeOk(s: Sys, n: nat)
    requires n in s.devices && n in s.ranks
  {
    && s.devices[n].id == n
    && NodeInv(s.devices[n], s.ranks[n], s.clock)
    && (n in s.sock <==> s.devices[n].link != NotConnected)
  }

  /** What the server will store when it accepts an init message. */
  function Newcomer(id: nat, ring: RingId): Client {
    Qnetd.NewClient(id, ring, Lowest, false)
  }

  /** A connection without a client: its init message is under way, or has been refused. */
  ghost predicate Unaccepted(d: Device, conn: Conn, rank: Ranks) {
    && d.vote != Ack
    && (|| (conn.toServer != [] && conn.toServer[0].Init? && conn.toDevice == []
            && PeerCore(Peer(d, Newcomer(d.id, conn.toServer[0].ring), conn.toServer[1..], []), rank))
        || ((forall x | x in conn.toServer :: !x.Init?)
            && forall m | m in conn.toDevice :: m.ServerError? || (m.InitReply? && m.error != NoError)))
  }

  ghost predicate UnacceptedOk(s: Sys, n: nat)
    requires Shape(s) && n in s.devices
  {
    n in s.sock && !Live(s, n) ==> Unaccepted(s.devices[n], s.conns[s.sock[n]], s.ranks[n])
  }

  function PeerOf(s: Sys, c: Client): Peer
    requires c.id in s.devices && c.id in s.sock && s.sock[c.id] in s.conns
  {
    Peer(s.devices[c.id], c, s.conns[s.sock[c.id]].toServer, s.conns[s.sock[c.id]].toDevice)
  }

  ghost predicate PeerGood(p: Peer, rank: Ranks, nacks: bool, decided: Option<Candidate>, granted: Option<Candidate>) {
    PeerCore(p, rank) && Granted(p, granted) && (nacks ==> Refused(p, decided))
  }

  ghost predicate PeerOk(s: Sys, c: Client)
    requires Shape(s)
  {
    Live(s, c.id) ==> PeerGood(PeerOf(s, c), s.ranks[c.id], s.server.state == Qnetd.SendingNacks, s.decided, s.granted)
  }

  /** At least half of the configured nodes. */
  predicate Fair(g: Option<Candidate>) {
    g.Some? ==> 2 * |g.value.members| >= |g.value.config|
  }

  ghost predicate SysInv(s: Sys) {
    && Shape(s)
    && (forall n {:trigger NodeOk(s, n)} {:trigger UnacceptedOk(s, n)} | n in s.devices :: NodeOk(s, n) && UnacceptedOk(s, n))
    && (forall c {:trigger PeerOk(s, c)} | c in s.server.clients :: PeerOk(s, c))
    && Fair(s.granted) && Fair(s.decided)
  }
}
