/**
  The whole voting system as a state machine: one server, any number of nodes, and for every
  connection one FIFO channel in each direction. A step is an event at one node or one
  message handled by the server.
*/
module System {
  import opened Tlv
  import opened Ffsplit
  import opened Qdevice
  import Qnetd = FfsplitVotes

  /** A connection opened by node `owner`, with the messages under way. */
  datatype Conn = Conn(owner: nat, toServer: seq<ToServer>, toDevice: seq<ToDevice>)

  /**
    `sock` is the connection a node has open, `record` the connection of each client the
    server has accepted; they may differ until the server notices a lost connection.
    The last four fields are history: in which order each node has met its ring ids, the
    partition of the last decision and the last partition to which ACKs were released.
  */
  datatype Sys = Sys(
    server: Qnetd.Server,
    crashed: bool,
    keepActive: bool,
    devices: map<nat, Device>,
    conns: map<nat, Conn>,
    sock: map<nat, nat>,
    record: map<nat, nat>,
    ranks: map<nat, map<RingId, nat>>,
    clock: nat,
    decided: Option<Candidate>,
    granted: Option<Candidate>)

  datatype Action =
    | Happens(node: nat, event: Event)
    | Connects(node: nat, conn: nat)
    | Receives(node: nat)
    | Drops(node: nat, kept: nat)
    | Serves(conn: nat)
    | Notices(conn: nat)

  // ---------------------------------------------------------------- what a node does

  predicate Connected(s: Sys, n: nat) {
    n in s.devices && n in s.sock && s.sock[n] in s.conns
  }

  /** Node n changes to d and sends `sent` on its open connection. */
  function Moved(s: Sys, n: nat, d: Device, sent: seq<ToServer>): Sys
    requires n in s.devices
  {
    s.(devices := s.devices[n := d],
       conns := if Connected(s, n)
                then s.conns[s.sock[n] := s.conns[s.sock[n]].(toServer := s.conns[s.sock[n]].toServer + sent)]
                else s.conns,
       sock := if d.link == NotConnected then s.sock - {n} else s.sock)
  }

  function NodeMoves(s: Sys, n: nat, e: Event): Sys
    requires n in s.devices
  {
    var (d, sent) := Step(s.devices[n], e);
    Moved(s, n, d, sent)
  }

  function Ranked(rank: map<RingId, nat>, ring: RingId, k: nat): map<RingId, nat> {
    rank[ring := k]
  }

  function NodeNotified(s: Sys, n: nat, e: Event): Sys
    requires n in s.devices && n in s.ranks
  {
    var t := NodeMoves(s, n, e);
    if e.NodeListNotify? then t.(ranks := s.ranks[n := Ranked(s.ranks[n], e.ring, s.clock)], clock := s.clock + 1) else t
  }

  function NodeConnects(s: Sys, n: nat, k: nat): Sys
    requires n in s.devices
  {
    var (d, sent) := Step(s.devices[n], Connect);
    s.(devices := s.devices[n := d], conns := s.conns[k := Conn(n, sent, [])], sock := s.sock[n := k])
  }

  function NodeReceives(s: Sys, n: nat): Sys
    requires Connected(s, n) && s.conns[s.sock[n]].toDevice != []
  {
    var k := s.sock[n];
    var c := s.conns[k];
    NodeMoves(s.(conns := s.conns[k := c.(toDevice := c.toDevice[1..])]), n, Receive(c.toDevice[0]))
  }

  /** The node gives the connection up; only a prefix of what it sent may still arrive. */
  function NodeDrops(s: Sys, n: nat, kept: nat): Sys
    requires Connected(s, n) && kept <= |s.conns[s.sock[n]].toServer|
  {
    var k := s.sock[n];
    var c := s.conns[k];
    NodeMoves(s.(conns := s.conns[k := c.(toServer := c.toServer[..kept])]), n, Disconnect)
  }

  // ---------------------------------------------------------------- what the server does

  /** Has the server accepted the init message of connection k? */
  predicate Accepted(s: Sys, k: nat) {
    && k in s.conns
    && s.conns[k].owner in s.record && s.record[s.conns[k].owner] == k
    && Find(s.server.clients, s.conns[k].owner) < |s.server.clients|
  }

  /** The vote sent on connection k, if its client is addressed. */
  function VotesOn(s: Sys, out: Qnetd.Outbox, k: nat): seq<ToDevice>
    requires k in s.conns && |out| == |s.server.clients|
  {
    if Accepted(s, k) then
      match out[Find(s.server.clients, s.conns[k].owner)]
      case None => []
      case Some(info) => [VoteInfo(info.seqNo, info.ring, info.vote)]
    else []
  }

  function Deliver(s: Sys, out: Qnetd.Outbox): (conns: map<nat, Conn>)
    requires |out| == |s.server.clients|
    ensures conns.Keys == s.conns.Keys
  {
    map k | k in s.conns :: s.conns[k].(toDevice := s.conns[k].toDevice + VotesOn(s, out, k))
  }

  /** The head message of connection k has been handled and answered. */
  function Reply(conns: map<nat, Conn>, k: nat, replies: seq<ToDevice>): map<nat, Conn>
    requires k in conns && conns[k].toServer != []
  {
    conns[k := conns[k].(toServer := conns[k].toServer[1..], toDevice := conns[k].toDevice + replies)]
  }

  /** ACKs are released by a decision that refuses nobody, or by the last answer to a NACK. */
  function Released(s: Sys, a: Qnetd.Answer): Option<Candidate> {
    if a.decided then (if a.server.state == Qnetd.SendingNacks then s.granted else a.chosen)
    else if s.server.state == Qnetd.SendingNacks && a.server.state != Qnetd.SendingNacks
            && a.server.state != Qnetd.WaitingForStableMembership
    then s.decided
    else s.granted
  }

  function AfterAnswer(s: Sys, a: Qnetd.Answer, conns: map<nat, Conn>): (t: Sys)
    ensures t.devices == s.devices
  {
    if a.crashed then s.(crashed := true)
    else
      s.(server := a.server, conns := conns, granted := Released(s, a),
         decided := if a.decided then a.chosen else s.decided)
  }

  function ReplyMessages(r: Qnetd.Reply): seq<ToDevice> {
    match r
    case NoReply => []
    case InitReplied(error) => [InitReply(error)]
    case ErrorReply(error) => [ServerError(error)]
    case VoteReplied(ring, vote) => [ListReply(ring, vote)]
  }

  function AfterMessage(s: Sys, k: nat, a: Qnetd.Answer, replies: seq<ToDevice>): (t: Sys)
    requires k in s.conns && s.conns[k].toServer != [] && |a.out| == |s.server.clients|
    ensures t.devices == s.devices
  {
    AfterAnswer(s, a, Reply(Deliver(s, a.out), k, replies))
  }

  function NoAlgorithm(s: Sys, k: nat, replies: seq<ToDevice>): Sys
    requires k in s.conns && s.conns[k].toServer != []
  {
    s.(conns := Reply(s.conns, k, replies))
  }

  /** A message of the accepted client at position i. */
  function ServeClient(s: Sys, k: nat, i: nat): (t: Sys)
    requires k in s.conns && s.conns[k].toServer != [] && i < |s.server.clients|
    ensures t.devices == s.devices
  {
    var c := s.server.clients[i];
    match s.conns[k].toServer[0]
    case Init(ring, tieBreaker) =>
      var error := Qnetd.CheckNewClient(s.server.clients, c.id, tieBreaker);
      NoAlgorithm(s.(server := s.server.(clients := s.server.clients[i := c.(ring := ring)])), k, [InitReply(error)])
    case SetOption(on) =>
      var a := Qnetd.Handle(s.server, Qnetd.KeepActiveSet(i, on));
      AfterMessage(s, k, a, [SetOptionReply])
    case ConfigList(initial, nodes) =>
      var a := Qnetd.Handle(s.server, Qnetd.ConfigReceived(i, nodes, initial));
      AfterMessage(s, k, a, ReplyMessages(a.reply))
    case MembershipList(ring, nodes, heuristics) =>
      var a := Qnetd.Handle(s.server, Qnetd.MembershipReceived(i, ring, nodes, heuristics));
      AfterMessage(s, k, a, ReplyMessages(a.reply))
    case QuorumList => NoAlgorithm(s, k, [ListReply(c.ring, NoChange)])
    case HeuristicsChange(heuristics) =>
      if heuristics == HeuristicsUndefined then NoAlgorithm(s, k, [ServerError(RequiredOptionMissing)])
      else
        var a := Qnetd.Handle(s.server, Qnetd.HeuristicsReceived(i, heuristics));
        AfterMessage(s, k, a, ReplyMessages(a.reply))
    case VoteInfoReply(seqNo) =>
      var a := Qnetd.Handle(s.server, Qnetd.VoteReply(i, seqNo));
      AfterMessage(s, k, a, ReplyMessages(a.reply))
  }

  /** A message on a connection that has not been accepted: only init is allowed. */
  function ServeNew(s: Sys, k: nat): (t: Sys)
    requires k in s.conns && s.conns[k].toServer != []
    ensures t.devices == s.devices
  {
    match s.conns[k].toServer[0]
    case Init(ring, tieBreaker) =>
      var n := s.conns[k].owner;
      var a := Qnetd.Handle(s.server, Qnetd.InitReceived(n, ring, tieBreaker, s.keepActive));
      AfterMessage(s, k, a, ReplyMessages(a.reply))
        .(record := if a.reply == Qnetd.InitReplied(NoError) then s.record[n := k] else s.record)
    case _ => NoAlgorithm(s, k, [ServerError(InitRequired)])
  }

  function ServerServes(s: Sys, k: nat): (t: Sys)
    requires k in s.conns && s.conns[k].toServer != []
    ensures t.devices == s.devices
  {
    if Accepted(s, k) then ServeClient(s, k, Find(s.server.clients, s.conns[k].owner)) else ServeNew(s, k)
  }

  /** The server learns that connection k is gone. */
  function ServerNotices(s: Sys, k: nat): (t: Sys)
    requires k in s.conns
    ensures t.devices == s.devices
  {
    if Accepted(s, k) then
      var n := s.conns[k].owner;
      var a := Qnetd.Handle(s.server, Qnetd.Disconnected(Find(s.server.clients, n)));
      var t := AfterAnswer(s, a, Deliver(s, a.out) - {k});
      if a.crashed then t else t.(record := s.record - {n})
    else s.(conns := s.conns - {k})
  }

  // ---------------------------------------------------------------- runs

  /**
    The environment: a node never meets the same ring id twice, its configuration contains
    the node itself, and the server does not consider a connection lost before the node does
    (the node, which notices first, then votes NACK).
  */
  predicate Enabled(s: Sys, a: Action) {
    match a
    case Happens(n, e) =>
      n in s.devices && n in s.ranks && Possible(s.devices[n], e)
      && (match e
          case NodeListNotify(ring, _) => ring !in s.ranks[n]
          case ConfigChanged(config) => s.devices[n].id in config
          case Connect => false
          case Receive(_) => false
          case Disconnect => false
          case _ => true)
    case Connects(n, k) => n in s.devices && s.devices[n].link == NotConnected && k !in s.conns
    case Receives(n) => Connected(s, n) && s.conns[s.sock[n]].toDevice != []
    case Drops(n, kept) => Connected(s, n) && kept <= |s.conns[s.sock[n]].toServer|
    case Serves(k) => !s.crashed && k in s.conns && s.conns[k].toServer != []
    case Notices(k) =>
      !s.crashed && k in s.conns
      && !(s.conns[k].owner in s.sock && s.sock[s.conns[k].owner] == k)
  }

  function Next(s: Sys, a: Action): Sys
    requires Enabled(s, a)
  {
    match a
    case Happens(n, e) => NodeNotified(s, n, e)
    case Connects(n, k) => NodeConnects(s, n, k)
    case Receives(n) => NodeReceives(s, n)
    case Drops(n, kept) => NodeDrops(s, n, kept)
    case Serves(k) => ServerServes(s, k)
    case Notices(k) => ServerNotices(s, k)
  }

  /** Nodes that have just started, a server without clients, no connections. */
  ghost predicate Initial(s: Sys) {
    && s.server == Qnetd.Server([], Qnetd.WaitingForChange, []) && !s.crashed
    && s.conns == map[] && s.sock == map[] && s.record == map[]
    && s.decided.None? && s.granted.None?
    && s.ranks.Keys == s.devices.Keys && s.clock == 1
    && forall n | n in s.devices ::
         var d := s.devices[n];
         Started(d) && d.id == n && d.id in d.config && s.ranks[n] == map[d.ring := 0]
  }

  predicate SystemRun(s: Sys, run: seq<Action>)
    decreases |run|
  {
    run == [] || (Enabled(s, run[0]) && SystemRun(Next(s, run[0]), run[1..]))
  }

  function EndOf(s: Sys, run: seq<Action>): Sys
    requires SystemRun(s, run)
    decreases |run|
  {
    if run == [] then s else EndOf(Next(s, run[0]), run[1..])
  }
}
