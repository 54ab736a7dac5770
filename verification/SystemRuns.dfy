/**
  The system does come to vote: whatever nodes wait with one ring id, configuration and list of
  at least half of the configured nodes, there is a run after which each of them votes ACK.
*/
module SystemRuns {
  import opened Tlv
  import opened Ffsplit
  import opened Qdevice
  import opened FfsplitSelection
  import opened FfsplitTheorems
  import opened FfsplitTwoPhase
  import opened System
  import opened ServerSteps
  import Qnetd = FfsplitVotes

  /** What the nodes of the partition know, and the heuristics result they report. */
  datatype Plan = Plan(ring: RingId, config: seq<nat>, members: seq<nat>, tieBreaker: TieBreaker, heuristics: Heuristics)

  /** At least half of the configured nodes, more than half when their number is odd. */
  predicate HasHalf(p: Plan) {
    p.members != [] && 2 * |p.members| >= |p.config| && |p.members| < SIZE_MODULUS / 2
  }

  /** A node of the partition that has just started. */
  predicate Waits(d: Device, p: Plan, n: nat) {
    && Started(d) && d.id == n && d.ring == p.ring && d.config == p.config && d.members == p.members
    && d.tieBreaker == p.tieBreaker && n in p.config && n in p.members
  }

  /** A client that has reported everything. */
  predicate Fits(c: Client, p: Plan) {
    c.ring == p.ring && c.config == p.config && c.members == p.members && c.tieBreaker == p.tieBreaker && c.id in p.members
  }

  /** The nodes that vote ACK, those still to come, and the one whose turn it is, with its
      connection. */
  datatype Turn = Turn(plan: Plan, done: set<nat>, todo: set<nat>, node: nat, conn: nat)

  ghost predicate OthersFit(cs: seq<Client>, t: Turn) {
    Sorted(cs) && forall c | c in cs && c.id != t.node :: c.id in t.done && Fits(c, t.plan)
  }

  /** Everything but the node whose turn it is. */
  ghost predicate Around(s: Sys, t: Turn) {
    && !s.crashed && s.ranks.Keys == s.devices.Keys
    && t.node in s.devices && t.node !in t.done && t.node !in t.todo
    && (forall m | m in t.done :: m in s.devices && CastsAck(s.devices[m]))
    && (forall m | m in t.todo :: m in s.devices && Waits(s.devices[m], t.plan, m))
    && (forall x | x in s.conns :: x <= t.conn)
    && (forall m | m in s.record :: m in t.done || m == t.node)
    && OthersFit(s.server.clients, t)
  }

  /** The node has state d, and these messages are under way on its connection. */
  ghost predicate At(s: Sys, t: Turn, d: Device, up: seq<ToServer>, down: seq<ToDevice>) {
    && Around(s, t) && s.devices[t.node] == d
    && t.conn in s.conns && s.conns[t.conn] == Conn(t.node, up, down)
    && t.node in s.sock && s.sock[t.node] == t.conn
  }

  /** The server has c on record for the node's connection. */
  ghost predicate OnRecord(s: Sys, t: Turn, c: Client) {
    t.node in s.record && s.record[t.node] == t.conn && c.id == t.node && c in s.server.clients
  }

  // ---------------------------------------------------------------- the node's steps

  /** Between two turns. */
  ghost predicate Between(s: Sys, p: Plan, done: set<nat>, todo: set<nat>, k: nat) {
    && !s.crashed && s.ranks.Keys == s.devices.Keys && done !! todo
    && (forall m | m in done :: m in s.devices && CastsAck(s.devices[m]))
    && (forall m | m in todo :: m in s.devices && Waits(s.devices[m], p, m))
    && (forall x | x in s.conns :: x < k)
    && (forall m | m in s.record :: m in done)
    && Sorted(s.server.clients) && forall c | c in s.server.clients :: c.id in done && Fits(c, p)
  }

  lemma NodeConnected(s: Sys, p: Plan, done: set<nat>, todo: set<nat>, t: Turn)
    requires Between(s, p, done, todo, t.conn) && t.node in todo && t == Turn(p, done, todo - {t.node}, t.node, t.conn)
    ensures Enabled(s, Connects(t.node, t.conn))
    ensures var d := s.devices[t.node].(link := WaitingInitReply, lastSentRing := p.ring);
            At(Next(s, Connects(t.node, t.conn)), t, d, [Init(p.ring, p.tieBreaker)], [])
  {
  }

  lemma NodeMoved(s: Sys, t: Turn, d: Device, up: seq<ToServer>, down: seq<ToDevice>, d': Device, sent: seq<ToServer>)
    requires At(s, t, d, up, down) && d'.link != NotConnected
    ensures var u := Moved(s, t.node, d', sent);
            At(u, t, d', up + sent, down) && u.server == s.server && u.record == s.record
  {
  }

  /** The connection without its first message to the node. */
  function HeadTaken(s: Sys, k: nat): Sys
    requires k in s.conns && s.conns[k].toDevice != []
  {
    s.(conns := s.conns[k := s.conns[k].(toDevice := s.conns[k].toDevice[1..])])
  }

  lemma HeadTakenAt(s: Sys, t: Turn, d: Device, up: seq<ToServer>, down: seq<ToDevice>)
    requires At(s, t, d, up, down) && down != []
    ensures At(HeadTaken(s, t.conn), t, d, up, down[1..])
  {
  }

  lemma ReceivesIs(s: Sys, n: nat, d: Device, m: ToDevice, d': Device, sent: seq<ToServer>)
    requires Connected(s, n) && s.conns[s.sock[n]].toDevice != [] && s.conns[s.sock[n]].toDevice[0] == m
    requires s.devices[n] == d && OnReceive(d, m) == (d', sent)
    ensures Next(s, Receives(n)) == Moved(HeadTaken(s, s.sock[n]), n, d', sent)
  {
  }

  lemma NodeReceived(s: Sys, t: Turn, d: Device, up: seq<ToServer>, down: seq<ToDevice>, d': Device, sent: seq<ToServer>)
    requires At(s, t, d, up, down) && down != [] && OnReceive(d, down[0]) == (d', sent) && d'.link != NotConnected
    ensures Enabled(s, Receives(t.node))
    ensures var u := Next(s, Receives(t.node));
            At(u, t, d', up + sent, down[1..]) && u.server == s.server && u.record == s.record
  {
    HeadTakenAt(s, t, d, up, down);
    ReceivesIs(s, t.node, d, down[0], d', sent);
    NodeMoved(HeadTaken(s, t.conn), t, d, up, down[1..], d', sent);
  }

  lemma NodeReports(s: Sys, t: Turn, d: Device, up: seq<ToServer>, down: seq<ToDevice>, h: Heuristics)
    requires At(s, t, d, up, down) && d.link == WaitingInitReply && d.connectHeuristics
    ensures Enabled(s, Happens(t.node, ConnectHeuristicsResult(h)))
    ensures var u := Next(s, Happens(t.node, ConnectHeuristicsResult(h)));
            At(u, t, OnConnectHeuristics(d, h).0, up + OnConnectHeuristics(d, h).1, down)
            && u.server == s.server && u.record == s.record
  {
    var (d', sent) := OnConnectHeuristics(d, h);
    NodeMoved(s, t, d, up, down, d', sent);
  }

  // ---------------------------------------------------------------- the server's steps

  lemma SilentVotes(s: Sys, k: nat)
    requires k in s.conns
    ensures VotesOn(s, Qnetd.Silence(|s.server.clients|), k) == []
  {
  }

  /** The head message of the node's connection is answered. */
  lemma Answered(s: Sys, t: Turn, d: Device, up: seq<ToServer>, down: seq<ToDevice>, a: Qnetd.Answer, replies: seq<ToDevice>)
    requires At(s, t, d, up, down) && up != [] && |a.out| == |s.server.clients| && !a.crashed
    requires OthersFit(a.server.clients, t)
    ensures var u := AfterMessage(s, t.conn, a, replies);
            At(u, t, d, up[1..], down + VotesOn(s, a.out, t.conn) + replies) && u.server == a.server && u.record == s.record
  {
  }

  lemma RecordFound(s: Sys, t: Turn, d: Device, up: seq<ToServer>, down: seq<ToDevice>, c: Client) returns (i: nat)
    requires At(s, t, d, up, down) && OnRecord(s, t, c)
    ensures i < |s.server.clients| && s.server.clients[i] == c && i == Find(s.server.clients, t.node)
    ensures Accepted(s, t.conn)
  {
    SortedIsUnique(s.server.clients);
    i :| 0 <= i < |s.server.clients| && s.server.clients[i] == c;
    FindAt(s.server.clients, i);
  }

  /** The node's client changes. */
  lemma ClientChanges(cs: seq<Client>, t: Turn, i: nat, c: Client)
    requires OthersFit(cs, t) && i < |cs| && cs[i].id == c.id == t.node
    ensures OthersFit(cs[i := c], t) && c in cs[i := c]
  {
    var ds := cs[i := c];
    assert ds[i] == c;
    forall e | e in ds && e.id != t.node ensures e in cs {
      var j :| 0 <= j < |ds| && ds[j] == e;
      assert cs[j] == e;
    }
  }

  lemma InitAccepted(s: Qnetd.Server, t: Turn, c: Client) returns (a: Qnetd.Answer)
    requires OthersFit(s.clients, t) && forall e | e in s.clients :: e.id != t.node
    requires c == Qnetd.NewClient(t.node, t.plan.ring, t.plan.tieBreaker, c.keepActive)
    ensures a == Qnetd.Join(s, t.node, t.plan.ring, t.plan.tieBreaker, c.keepActive)
    ensures !a.crashed && a.reply == Qnetd.InitReplied(NoError) && a.out == Qnetd.Silence(|s.clients|)
    ensures OthersFit(a.server.clients, t) && c in a.server.clients
  {
    InsertKeepsSorted(s.clients, c);
    a := Qnetd.Join(s, t.node, t.plan.ring, t.plan.tieBreaker, c.keepActive);
  }

  /** The init message is accepted. */
  lemma ServesInit(s: Sys, t: Turn, d: Device, up: seq<ToServer>) returns (c: Client)
    requires At(s, t, d, up, []) && up == [Init(t.plan.ring, t.plan.tieBreaker)] && t.node !in s.record
    requires forall e | e in s.server.clients :: e.id != t.node
    ensures Enabled(s, Serves(t.conn))
    ensures c == Qnetd.NewClient(t.node, t.plan.ring, t.plan.tieBreaker, s.keepActive)
    ensures var u := Next(s, Serves(t.conn));
            At(u, t, d, [], [InitReply(NoError)]) && OnRecord(u, t, c)
  {
    c := Qnetd.NewClient(t.node, t.plan.ring, t.plan.tieBreaker, s.keepActive);
    var a := InitAccepted(s.server, t, c);
    SilentVotes(s, t.conn);
    Answered(s, t, d, up, [], a, [InitReply(NoError)]);
    assert [] + [] + [InitReply(NoError)] == [InitReply(NoError)];
    InitIs(s, t, a);
  }

  lemma InitIs(s: Sys, t: Turn, a: Qnetd.Answer)
    requires t.conn in s.conns && t.node !in s.record && s.conns[t.conn].owner == t.node
    requires s.conns[t.conn].toServer == [Init(t.plan.ring, t.plan.tieBreaker)]
    requires a == Qnetd.Join(s.server, t.node, t.plan.ring, t.plan.tieBreaker, s.keepActive) && a.reply == Qnetd.InitReplied(NoError)
    ensures ServerServes(s, t.conn) == AfterMessage(s, t.conn, a, [InitReply(NoError)]).(record := s.record[t.node := t.conn])
  {
  }

  /** A message of the client on record has been handled with answer a; e is its client now. */
  lemma Handled(s: Sys, t: Turn, d: Device, up: seq<ToServer>, down: seq<ToDevice>, i: nat,
                a: Qnetd.Answer, replies: seq<ToDevice>, e: Client)
    requires At(s, t, d, up, down) && up != [] && |a.out| == |s.server.clients| && !a.crashed
    requires Accepted(s, t.conn) && i == Find(s.server.clients, t.node)
    requires ServeClient(s, t.conn, i) == AfterMessage(s, t.conn, a, replies)
    requires OthersFit(a.server.clients, t) && e in a.server.clients && e.id == t.node
    ensures Enabled(s, Serves(t.conn))
    ensures var u := Next(s, Serves(t.conn));
            At(u, t, d, up[1..], down + VotesOn(s, a.out, t.conn) + replies) && OnRecord(u, t, e)
  {
    Answered(s, t, d, up, down, a, replies);
  }

  /** The same for an answer that only changes this client and addresses nobody else. */
  lemma ClientStored(s: Sys, t: Turn, d: Device, up: seq<ToServer>, down: seq<ToDevice>, i: nat,
                     a: Qnetd.Answer, replies: seq<ToDevice>, e: Client)
    requires At(s, t, d, up, down) && up != [] && e.id == t.node
    requires Accepted(s, t.conn) && i == Find(s.server.clients, t.node)
    requires !a.crashed && a.out == Qnetd.Silence(|s.server.clients|) && a.server.clients == s.server.clients[i := e]
    requires ServeClient(s, t.conn, i) == AfterMessage(s, t.conn, a, replies)
    ensures Enabled(s, Serves(t.conn))
    ensures var u := Next(s, Serves(t.conn));
            At(u, t, d, up[1..], down + replies) && OnRecord(u, t, e)
  {
    ClientChanges(s.server.clients, t, i, e);
    NothingMore(s, t.conn, a.out, down);
    Handled(s, t, d, up, down, i, a, replies, e);
  }

  lemma NothingMore(s: Sys, k: nat, out: Qnetd.Outbox, down: seq<ToDevice>)
    requires k in s.conns && out == Qnetd.Silence(|s.server.clients|)
    ensures down + VotesOn(s, out, k) == down
  {
    SilentVotes(s, k);
    assert down + [] == down;
  }

  function Stored(s: Qnetd.Server, i: nat, e: Client, reply: Qnetd.Reply): Qnetd.Answer
    requires i < |s.clients|
  {
    Qnetd.Untouched(s, reply).(server := s.(clients := s.clients[i := e]))
  }

  lemma ServesOption(s: Sys, t: Turn, d: Device, up: seq<ToServer>, down: seq<ToDevice>, c: Client, on: bool)
    requires At(s, t, d, up, down) && OnRecord(s, t, c) && up != [] && up[0] == SetOption(on)
    ensures Enabled(s, Serves(t.conn))
    ensures var u := Next(s, Serves(t.conn));
            At(u, t, d, up[1..], down + [SetOptionReply]) && OnRecord(u, t, c.(keepActive := on))
  {
    var i := RecordFound(s, t, d, up, down, c);
    AfterOption(s, t.conn, i, on);
    var e := c.(keepActive := on);
    ClientStored(s, t, d, up, down, i, Stored(s.server, i, e, Qnetd.NoReply), [SetOptionReply], e);
  }

  /** The first configuration list is stored and nothing is decided. */
  lemma ConfigStored(s: Qnetd.Server, i: nat, c: Client, config: seq<nat>)
    requires i < |s.clients| && s.clients[i] == c
    ensures var call := Qnetd.CallOf(c, false).(config := config);
            Qnetd.DecideAndStore(s, i, call, false) == Stored(s, i, c.(config := config), Qnetd.VoteReplied(c.ring, AskLater))
  {
    var call := Qnetd.CallOf(c, false).(config := config);
    assert Seen(c, call) == c.(config := config);
  }

  lemma ConfigIs(s: Sys, k: nat, i: nat, c: Client, config: seq<nat>)
    requires k in s.conns && s.conns[k].toServer != [] && i < |s.server.clients| && s.server.clients[i] == c
    requires s.conns[k].toServer[0] == ConfigList(true, config) && c.id in config
    ensures ServeClient(s, k, i)
            == AfterMessage(s, k, Stored(s.server, i, c.(config := config), Qnetd.VoteReplied(c.ring, AskLater)),
                            [ListReply(c.ring, AskLater)])
  {
    AfterConfig(s, k, i, true, config);
    ConfigStored(s.server, i, c, config);
  }

  lemma ServesConfig(s: Sys, t: Turn, d: Device, up: seq<ToServer>, down: seq<ToDevice>, c: Client)
    requires At(s, t, d, up, down) && OnRecord(s, t, c) && t.node in t.plan.config
    requires up != [] && up[0] == ConfigList(true, t.plan.config)
    ensures Enabled(s, Serves(t.conn))
    ensures var u := Next(s, Serves(t.conn));
            At(u, t, d, up[1..], down + [ListReply(c.ring, AskLater)]) && OnRecord(u, t, c.(config := t.plan.config))
  {
    var i := RecordFound(s, t, d, up, down, c);
    ConfigIs(s, t.conn, i, c, t.plan.config);
    var e := c.(config := t.plan.config);
    ClientStored(s, t, d, up, down, i, Stored(s.server, i, e, Qnetd.VoteReplied(c.ring, AskLater)), [ListReply(c.ring, AskLater)], e);
  }

  // ---------------------------------------------------------------- the decision

  /** As this decision sees them, all clients report the one partition. */
  ghost predicate AllFit(cs: seq<Client>, call: Call, p: Plan) {
    && Sorted(cs) && !call.leaving && HasHalf(p) && p.config != []
    && forall i | 0 <= i < |cs| :: Fits(Seen(cs[i], call), p)
  }

  lemma AllFitIsStable(cs: seq<Client>, call: Call, p: Plan)
    requires AllFit(cs, call, p)
    ensures Stable(cs, call)
  {
    forall i | 0 <= i < |cs| ensures PartitionStable(cs, call, i) {
      assert Fits(Seen(cs[i], call), p);
    }
    forall i, j | 0 <= i < |cs| && 0 <= j < |cs| ensures ConfigsAgree(cs, call, i, j) {
      assert Fits(Seen(cs[i], call), p) && Fits(Seen(cs[j], call), p);
    }
  }

  lemma AllFitSelects(cs: seq<Client>, call: Call, p: Plan, quorate: seq<nat>)
    requires AllFit(cs, call, p) && cs != []
    ensures var r := Select(cs, call, quorate);
            r.Selected? && r.best.Some? && r.best.value.members == p.members
  {
    SortedIsUnique(cs);
    forall i | Staying(cs, call, i) ensures Fits(Seen(cs[i], call), p) && cs[i].id == Seen(cs[i], call).id {
    }
    NothingSelectedIff(cs, call, quorate);
    assert ReportsHalf(cs, call, 0);
  }

  /** One client after the decision: an ACK has been sent. */
  predicate Acked(c: Client, d: Client, out: Option<Qnetd.VoteInfo>, call: Call) {
    && d == c.(state := SendingAck, expected := c.expected + 1)
    && out == Some(Qnetd.VoteInfo(c.expected + 1, Qnetd.RingToSend(c, call), Ack))
  }

  predicate AllAcked(cs: seq<Client>, ds: seq<Client>, out: Qnetd.Outbox, call: Call) {
    |ds| == |cs| == |out| && forall i | 0 <= i < |cs| :: Acked(cs[i], ds[i], out[i], call)
  }

  lemma AllFitDecides(s: Qnetd.Server, call: Call, p: Plan)
    requires AllFit(s.clients, call, p) && s.clients != []
    ensures var e := Qnetd.Do(s, call);
            !e.crashed && e.vote == NoChange && AllAcked(s.clients, e.server.clients, e.out, call)
  {
    var cs := s.clients;
    AllFitIsStable(cs, call, p);
    AllFitSelects(cs, call, p, s.quorate);
    var ds := Qnetd.Assign(cs, call, p.members);
    forall i | 0 <= i < |cs| ensures ds[i] == cs[i].(state := SendingAck) {
      assert Fits(Seen(cs[i], call), p);
    }
    AcksForAll(s.(quorate := p.members, clients := ds), call);
  }

  /** With nobody to refuse the ACKs are sent at once. */
  lemma AcksForAll(s: Qnetd.Server, call: Call)
    requires !call.leaving && forall i | 0 <= i < |s.clients| :: s.clients[i].state == SendingAck
    ensures var (u, out) := Qnetd.SendVotes(s, call);
            |u.clients| == |out| == |s.clients| && forall i | 0 <= i < |s.clients| :: Acked(s.clients[i], u.clients[i], out[i], call)
  {
    assert Qnetd.NoneAddressed(s.clients, call, false);
  }

  /** Every client is sent ACK, and then client i is replaced by what it has reported. */
  ghost predicate AcksAll(s: Qnetd.Server, i: nat, call: Call, a: Qnetd.Answer, ds: seq<Client>) {
    && i < |s.clients| && call.id == s.clients[i].id
    && |a.out| == |s.clients| && !a.crashed && a.reply == Qnetd.VoteReplied(call.ring, NoChange)
    && AllAcked(s.clients, ds, a.out, call) && a.server.clients == ds[i := Seen(ds[i], call)]
  }

  /** The decision on the last list to come. */
  lemma DecisionAcks(s: Qnetd.Server, i: nat, call: Call, p: Plan) returns (a: Qnetd.Answer, ds: seq<Client>)
    requires AllFit(s.clients, call, p) && i < |s.clients| && call.id == s.clients[i].id
    ensures a == Qnetd.DecideAndStore(s, i, call, true) && AcksAll(s, i, call, a, ds)
  {
    AllFitDecides(s, call, p);
    Qnetd.DoKeepsLength(s, call);
    a, ds := Qnetd.DecideAndStore(s, i, call, true), Qnetd.Do(s, call).server.clients;
  }

  lemma MembershipAccepted(s: Sys, k: nat, i: nat, call: Call, p: Plan, a: Qnetd.Answer)
    requires k in s.conns && s.conns[k].toServer != [] && i < |s.server.clients|
    requires s.conns[k].toServer[0] == MembershipList(p.ring, p.members, p.heuristics)
    requires s.server.clients[i].config != [] && s.server.clients[i].id == call.id && call.id in p.members
    requires call == Qnetd.CallOf(s.server.clients[i], false).(ring := p.ring, members := p.members, heuristics := p.heuristics)
    requires a == Qnetd.DecideAndStore(s.server, i, call, true) && a.reply == Qnetd.VoteReplied(p.ring, NoChange)
    ensures ServeClient(s, k, i) == AfterMessage(s, k, a, [ListReply(p.ring, NoChange)])
  {
    AfterMembership(s, k, i, p.ring, p.members, p.heuristics);
  }

  /** What the server answers to the membership list of the node. */
  lemma MembershipIs(s: Sys, k: nat, i: nat, call: Call, p: Plan) returns (a: Qnetd.Answer, ds: seq<Client>)
    requires k in s.conns && s.conns[k].toServer != [] && i < |s.server.clients|
    requires s.conns[k].toServer[0] == MembershipList(p.ring, p.members, p.heuristics)
    requires AllFit(s.server.clients, call, p) && s.server.clients[i].config != [] && call.id == s.server.clients[i].id
    requires call == Qnetd.CallOf(s.server.clients[i], false).(ring := p.ring, members := p.members, heuristics := p.heuristics)
    requires call.id in p.members
    ensures AcksAll(s.server, i, call, a, ds) && ServeClient(s, k, i) == AfterMessage(s, k, a, [ListReply(p.ring, NoChange)])
  {
    a, ds := DecisionAcks(s.server, i, call, p);
    MembershipAccepted(s, k, i, call, p, a);
  }

  lemma AcksFit(s: Qnetd.Server, t: Turn, i: nat, call: Call, a: Qnetd.Answer, ds: seq<Client>)
    returns (e: Client, info: Qnetd.VoteInfo)
    requires OthersFit(s.clients, t) && AcksAll(s, i, call, a, ds)
    requires t.node == call.id && call.ring == t.plan.ring && Fits(Seen(s.clients[i], call), t.plan)
    ensures |a.out| == |s.clients| && !a.crashed
    ensures a.out[i] == Some(info) && info == Qnetd.VoteInfo(s.clients[i].expected + 1, t.plan.ring, Ack)
    ensures OthersFit(a.server.clients, t) && e in a.server.clients && e.id == t.node && Fits(e, t.plan)
  {
    DecisionFits(s.clients, ds, a.out, t, call);
    assert Acked(s.clients[i], ds[i], a.out[i], call);
    e, info := Seen(ds[i], call), a.out[i].value;
    ClientChanges(ds, t, i, e);
  }

  lemma VoteSent(s: Sys, out: Qnetd.Outbox, k: nat, i: nat, info: Qnetd.VoteInfo)
    requires Accepted(s, k) && i == Find(s.server.clients, s.conns[k].owner)
    requires |out| == |s.server.clients| && out[i] == Some(info)
    ensures VotesOn(s, out, k) == [VoteInfo(info.seqNo, info.ring, info.vote)]
  {
  }

  function Reported(c: Client, p: Plan): Call {
    Qnetd.CallOf(c, false).(ring := p.ring, members := p.members, heuristics := p.heuristics)
  }

  lemma MembershipRead(s: Sys, t: Turn, d: Device, up: seq<ToServer>, down: seq<ToDevice>, i: nat, c: Client)
    returns (a: Qnetd.Answer, ds: seq<Client>)
    requires At(s, t, d, up, down) && HasHalf(t.plan) && t.node in t.plan.members
    requires c.config == t.plan.config != [] && c.tieBreaker == t.plan.tieBreaker && c.id == t.node
    requires i < |s.server.clients| && s.server.clients[i] == c
    requires up != [] && up[0] == MembershipList(t.plan.ring, t.plan.members, t.plan.heuristics)
    ensures Reported(c, t.plan).ring == t.plan.ring
    ensures AcksAll(s.server, i, Reported(c, t.plan), a, ds) && Fits(Seen(c, Reported(c, t.plan)), t.plan)
    ensures ServeClient(s, t.conn, i) == AfterMessage(s, t.conn, a, [ListReply(t.plan.ring, NoChange)])
  {
    SeenFit(s.server.clients, t, c, Reported(c, t.plan));
    a, ds := MembershipIs(s, t.conn, i, Reported(c, t.plan), t.plan);
  }

  lemma AcksOn(s: Sys, t: Turn, i: nat, c: Client, call: Call, a: Qnetd.Answer, ds: seq<Client>) returns (e: Client)
    requires OthersFit(s.server.clients, t) && AcksAll(s.server, i, call, a, ds) && s.server.clients[i] == c
    requires Accepted(s, t.conn) && s.conns[t.conn].owner == t.node && i == Find(s.server.clients, t.node)
    requires t.node == call.id && call.ring == t.plan.ring && Fits(Seen(c, call), t.plan)
    ensures |a.out| == |s.server.clients| && !a.crashed
    ensures VotesOn(s, a.out, t.conn) == [VoteInfo(c.expected + 1, t.plan.ring, Ack)]
    ensures OthersFit(a.server.clients, t) && e in a.server.clients && e.id == t.node && Fits(e, t.plan)
  {
    var info;
    e, info := AcksFit(s.server, t, i, call, a, ds);
    VoteSent(s, a.out, t.conn, i, info);
  }

  /** The membership list of the last node to come: every client is sent ACK, the node with its
      own ring id. */
  lemma ServesMembership(s: Sys, t: Turn, d: Device, up: seq<ToServer>, down: seq<ToDevice>, c: Client) returns (e: Client)
    requires At(s, t, d, up, down) && OnRecord(s, t, c) && HasHalf(t.plan) && t.node in t.plan.members
    requires c.config == t.plan.config != [] && c.tieBreaker == t.plan.tieBreaker
    requires up != [] && up[0] == MembershipList(t.plan.ring, t.plan.members, t.plan.heuristics)
    ensures Enabled(s, Serves(t.conn)) && Fits(e, t.plan)
    ensures var u := Next(s, Serves(t.conn));
            && At(u, t, d, up[1..], down + [VoteInfo(c.expected + 1, t.plan.ring, Ack)] + [ListReply(t.plan.ring, NoChange)])
            && OnRecord(u, t, e)
  {
    var i := RecordFound(s, t, d, up, down, c);
    var a, ds := MembershipRead(s, t, d, up, down, i, c);
    e := AcksOn(s, t, i, c, Reported(c, t.plan), a, ds);
    Handled(s, t, d, up, down, i, a, [ListReply(t.plan.ring, NoChange)], e);
  }

  lemma SeenFit(cs: seq<Client>, t: Turn, c: Client, call: Call)
    requires OthersFit(cs, t) && HasHalf(t.plan) && t.node in t.plan.members && c in cs && c.id == t.node
    requires c.config == t.plan.config != [] && c.tieBreaker == t.plan.tieBreaker
    requires call == Qnetd.CallOf(c, false).(ring := t.plan.ring, members := t.plan.members, heuristics := t.plan.heuristics)
    ensures AllFit(cs, call, t.plan)
  {
    SortedIsUnique(cs);
    forall i | 0 <= i < |cs| ensures Fits(Seen(cs[i], call), t.plan) {
      assert cs[i] in cs;
      if cs[i].id == t.node {
        assert cs[i] == c;
      }
    }
  }

  lemma DecisionFits(cs: seq<Client>, ds: seq<Client>, out: Qnetd.Outbox, t: Turn, call: Call)
    requires OthersFit(cs, t) && AllAcked(cs, ds, out, call)
    ensures OthersFit(ds, t)
  {
    forall i | 0 <= i < |cs| ensures ds[i] == cs[i].(state := SendingAck, expected := cs[i].expected + 1) {
      assert Acked(cs[i], ds[i], out[i], call);
    }
    forall e | e in ds && e.id != t.node ensures e.id in t.done && Fits(e, t.plan) {
      var i :| 0 <= i < |ds| && ds[i] == e;
      assert cs[i] in cs;
    }
  }

  // ---------------------------------------------------------------- one turn

  /** One more step at the end of a run. */
  lemma {:induction false} Extended(s: Sys, run: seq<Action>, a: Action)
    requires SystemRun(s, run) && Enabled(EndOf(s, run), a)
    ensures SystemRun(s, run + [a]) && EndOf(s, run + [a]) == Next(EndOf(s, run), a)
    decreases |run|
  {
    if run == [] {
      assert [] + [a] == [a] && [a][1..] == [];
    } else {
      Extended(Next(s, run[0]), run[1..], a);
      assert (run + [a])[0] == run[0] && (run + [a])[1..] == run[1..] + [a];
    }
  }

  /** A run from s that ends in u. */
  ghost predicate LeadsTo(s: Sys, run: seq<Action>, u: Sys) {
    SystemRun(s, run) && EndOf(s, run) == u
  }

  lemma OneMore(s: Sys, run: seq<Action>, u: Sys, a: Action)
    requires LeadsTo(s, run, u) && Enabled(u, a)
    ensures LeadsTo(s, run + [a], Next(u, a))
  {
    Extended(s, run, a);
  }

  /** A run from s whose end shows the node as in `At`, with client c on record. */
  ghost predicate Reached(s: Sys, run: seq<Action>, u: Sys, t: Turn, d: Device, up: seq<ToServer>, down: seq<ToDevice>, c: Client) {
    LeadsTo(s, run, u) && At(u, t, d, up, down) && OnRecord(u, t, c)
  }

  lemma ToConnection(s: Sys, p: Plan, done: set<nat>, todo: set<nat>, t: Turn, s0: Sys, run: seq<Action>)
    returns (more: seq<Action>, u: Sys, d: Device)
    requires LeadsTo(s0, run, s)
    requires Between(s, p, done, todo, t.conn) && t.node in todo && t == Turn(p, done, todo - {t.node}, t.node, t.conn)
    ensures LeadsTo(s0, more, u) && At(u, t, d, [Init(p.ring, p.tieBreaker)], [])
    ensures d == s.devices[t.node].(link := WaitingInitReply, lastSentRing := p.ring)
    ensures t.node !in u.record && forall e | e in u.server.clients :: e.id != t.node
  {
    NodeConnected(s, p, done, todo, t);
    OneMore(s0, run, s, Connects(t.node, t.conn));
    d := s.devices[t.node].(link := WaitingInitReply, lastSentRing := p.ring);
    more, u := run + [Connects(t.node, t.conn)], Next(s, Connects(t.node, t.conn));
    NobodyYet(s, p, done, todo, t, u);
  }

  lemma NobodyYet(s: Sys, p: Plan, done: set<nat>, todo: set<nat>, t: Turn, u: Sys)
    requires Between(s, p, done, todo, t.conn) && t.node in todo && Enabled(s, Connects(t.node, t.conn))
    requires u == Next(s, Connects(t.node, t.conn))
    ensures t.node !in u.record && forall e | e in u.server.clients :: e.id != t.node
  {
  }

  lemma ToAccepted(s0: Sys, run: seq<Action>, s: Sys, t: Turn, d: Device) returns (more: seq<Action>, u: Sys, c: Client)
    requires LeadsTo(s0, run, s) && At(s, t, d, [Init(t.plan.ring, t.plan.tieBreaker)], [])
    requires t.node !in s.record && forall e | e in s.server.clients :: e.id != t.node
    ensures Reached(s0, more, u, t, d, [], [InitReply(NoError)], c)
    ensures c == Qnetd.NewClient(t.node, t.plan.ring, t.plan.tieBreaker, c.keepActive)
  {
    c := ServesInit(s, t, d, [Init(t.plan.ring, t.plan.tieBreaker)]);
    OneMore(s0, run, s, Serves(t.conn));
    more, u := run + [Serves(t.conn)], Next(s, Serves(t.conn));
  }

  lemma ToReceived(s0: Sys, run: seq<Action>, s: Sys, t: Turn, d: Device, up: seq<ToServer>, down: seq<ToDevice>, c: Client,
                   d': Device, sent: seq<ToServer>)
    returns (more: seq<Action>, u: Sys)
    requires Reached(s0, run, s, t, d, up, down, c)
    requires down != [] && OnReceive(d, down[0]) == (d', sent) && d'.link != NotConnected
    ensures Reached(s0, more, u, t, d', up + sent, down[1..], c)
  {
    NodeReceived(s, t, d, up, down, d', sent);
    OneMore(s0, run, s, Receives(t.node));
    more, u := run + [Receives(t.node)], Next(s, Receives(t.node));
  }

  lemma ToReported(s0: Sys, run: seq<Action>, s: Sys, t: Turn, d: Device, up: seq<ToServer>, down: seq<ToDevice>, c: Client, h: Heuristics)
    returns (more: seq<Action>, u: Sys)
    requires Reached(s0, run, s, t, d, up, down, c) && d.link == WaitingInitReply && d.connectHeuristics
    ensures Reached(s0, more, u, t, OnConnectHeuristics(d, h).0, up + OnConnectHeuristics(d, h).1, down, c)
  {
    NodeReports(s, t, d, up, down, h);
    OneMore(s0, run, s, Happens(t.node, ConnectHeuristicsResult(h)));
    more, u := run + [Happens(t.node, ConnectHeuristicsResult(h))], Next(s, Happens(t.node, ConnectHeuristicsResult(h)));
  }

  lemma ToOption(s0: Sys, run: seq<Action>, s: Sys, t: Turn, d: Device, up: seq<ToServer>, down: seq<ToDevice>, c: Client, on: bool)
    returns (more: seq<Action>, u: Sys)
    requires Reached(s0, run, s, t, d, up, down, c) && up != [] && up[0] == SetOption(on)
    ensures Reached(s0, more, u, t, d, up[1..], down + [SetOptionReply], c.(keepActive := on))
  {
    ServesOption(s, t, d, up, down, c, on);
    OneMore(s0, run, s, Serves(t.conn));
    more, u := run + [Serves(t.conn)], Next(s, Serves(t.conn));
  }

  lemma ToConfig(s0: Sys, run: seq<Action>, s: Sys, t: Turn, d: Device, up: seq<ToServer>, down: seq<ToDevice>, c: Client)
    returns (more: seq<Action>, u: Sys)
    requires Reached(s0, run, s, t, d, up, down, c) && t.node in t.plan.config
    requires up != [] && up[0] == ConfigList(true, t.plan.config)
    ensures Reached(s0, more, u, t, d, up[1..], down + [ListReply(c.ring, AskLater)], c.(config := t.plan.config))
  {
    ServesConfig(s, t, d, up, down, c);
    OneMore(s0, run, s, Serves(t.conn));
    more, u := run + [Serves(t.conn)], Next(s, Serves(t.conn));
  }

  lemma ToMembership(s0: Sys, run: seq<Action>, s: Sys, t: Turn, d: Device, up: seq<ToServer>, down: seq<ToDevice>, c: Client)
    returns (more: seq<Action>, u: Sys, e: Client)
    requires Reached(s0, run, s, t, d, up, down, c) && HasHalf(t.plan) && t.node in t.plan.members
    requires c.config == t.plan.config != [] && c.tieBreaker == t.plan.tieBreaker
    requires up != [] && up[0] == MembershipList(t.plan.ring, t.plan.members, t.plan.heuristics)
    ensures Reached(s0, more, u, t, d, up[1..], down + [VoteInfo(c.expected + 1, t.plan.ring, Ack)] + [ListReply(t.plan.ring, NoChange)], e)
    ensures Fits(e, t.plan)
  {
    e := ServesMembership(s, t, d, up, down, c);
    OneMore(s0, run, s, Serves(t.conn));
    more, u := run + [Serves(t.conn)], Next(s, Serves(t.conn));
  }

  /** The node after its init message has been answered, after it has reported everything, and
      after it has received the vote. */
  function Introduced(d: Device, p: Plan): Device {
    d.(link := WaitingInitReply, lastSentRing := p.ring, connectHeuristics := true)
  }

  function Reporting(d: Device, p: Plan): Device {
    d.(link := Established, lastSentRing := p.ring, connectHeuristics := false, latestHeuristics := p.heuristics,
       vote := WaitForReply, timerRunning := false)
  }

  function Voting(d: Device, p: Plan): Device {
    Reporting(d, p).(vote := Ack, timerRunning := true)
  }

  function Reports(d: Device, p: Plan): seq<ToServer> {
    [SetOption(d.keepActive), ConfigList(true, p.config), MembershipList(p.ring, p.members, p.heuristics), QuorumList]
  }

  function Replies(p: Plan, seqNo: nat): seq<ToDevice> {
    [SetOptionReply, ListReply(p.ring, AskLater), VoteInfo(seqNo, p.ring, Ack), ListReply(p.ring, NoChange)]
  }

  lemma ReportIs(d: Device, p: Plan, n: nat)
    requires Waits(d, p, n)
    ensures OnConnectHeuristics(Introduced(d, p), p.heuristics) == (Reporting(d, p), Reports(d, p))
  {
  }

  /** The first three messages of the server, on the node's side. */
  lemma VoteIs(d: Device, p: Plan, n: nat, seqNo: nat)
    requires Waits(d, p, n)
    ensures var d1, d2 := Reporting(d, p), Reporting(d, p).(vote := AskLater);
            && OnReceive(d1, SetOptionReply) == (d1, [])
            && OnReceive(d1, ListReply(p.ring, AskLater)) == (d2, [])
            && OnReceive(d2, VoteInfo(seqNo, p.ring, Ack)) == (Voting(d, p), [VoteInfoReply(seqNo)])
            && CastsAck(Voting(d, p))
  {
  }

  /** The node takes the answer to its init message and reports everything. */
  lemma NodeReportsEverything(s0: Sys, run: seq<Action>, s: Sys, t: Turn, b: Device, d: Device, c: Client)
    returns (more: seq<Action>, u: Sys)
    requires Waits(b, t.plan, t.node) && d == b.(link := WaitingInitReply, lastSentRing := t.plan.ring)
    requires Reached(s0, run, s, t, d, [], [InitReply(NoError)], c)
    ensures Reached(s0, more, u, t, Reporting(b, t.plan), Reports(b, t.plan), [], c)
  {
    var p := t.plan;
    assert [InitReply(NoError)][1..] == [] && [] + Reports(b, p) == Reports(b, p);
    more, u := ToReceived(s0, run, s, t, d, [], [InitReply(NoError)], c, Introduced(b, p), []);
    ReportIs(b, p, t.node);
    more, u := ToReported(s0, more, u, t, Introduced(b, p), [], [], c, p.heuristics);
  }

  /** From the connect to the reports. */
  lemma NodeReporting(s0: Sys, run: seq<Action>, s: Sys, p: Plan, done: set<nat>, todo: set<nat>, t: Turn)
    returns (more: seq<Action>, u: Sys, c: Client)
    requires LeadsTo(s0, run, s)
    requires Between(s, p, done, todo, t.conn) && t.node in todo && t == Turn(p, done, todo - {t.node}, t.node, t.conn)
    ensures Reached(s0, more, u, t, Reporting(s.devices[t.node], p), Reports(s.devices[t.node], p), [], c)
    ensures c == Qnetd.NewClient(t.node, p.ring, p.tieBreaker, c.keepActive)
  {
    var d;
    more, u, d := ToConnection(s, p, done, todo, t, s0, run);
    more, u, c := ToAccepted(s0, more, u, t, d);
    more, u := NodeReportsEverything(s0, more, u, t, s.devices[t.node], d, c);
  }

  function LastReports(p: Plan): seq<ToServer> {
    [MembershipList(p.ring, p.members, p.heuristics), QuorumList]
  }

  lemma ReportsInOrder(d: Device, p: Plan)
    ensures Reports(d, p)[0] == SetOption(d.keepActive)
    ensures Reports(d, p)[1..][0] == ConfigList(true, p.config)
    ensures Reports(d, p)[1..][1..] == LastReports(p)
  {
  }

  /** The server reads the option and the configuration. */
  lemma ServerConfigured(s0: Sys, run: seq<Action>, s: Sys, t: Turn, d: Device, b: Device, c: Client)
    returns (more: seq<Action>, u: Sys)
    requires Reached(s0, run, s, t, d, Reports(b, t.plan), [], c) && t.node in t.plan.config
    ensures Reached(s0, more, u, t, d, LastReports(t.plan), [SetOptionReply, ListReply(c.ring, AskLater)],
                    c.(keepActive := b.keepActive, config := t.plan.config))
  {
    ReportsInOrder(b, t.plan);
    more, u := ToOption(s0, run, s, t, d, Reports(b, t.plan), [], c, b.keepActive);
    assert [] + [SetOptionReply] == [SetOptionReply];
    more, u := ToConfig(s0, more, u, t, d, Reports(b, t.plan)[1..], [SetOptionReply], c.(keepActive := b.keepActive));
    assert [SetOptionReply] + [ListReply(c.ring, AskLater)] == [SetOptionReply, ListReply(c.ring, AskLater)];
  }

  /** And then the membership. */
  lemma ServerVoting(s0: Sys, run: seq<Action>, s: Sys, t: Turn, d: Device, c: Client)
    returns (more: seq<Action>, u: Sys, e: Client)
    requires Reached(s0, run, s, t, d, LastReports(t.plan), [SetOptionReply, ListReply(t.plan.ring, AskLater)], c)
    requires HasHalf(t.plan) && t.node in t.plan.members
    requires c.config == t.plan.config != [] && c.tieBreaker == t.plan.tieBreaker
    ensures Reached(s0, more, u, t, d, [QuorumList], Replies(t.plan, c.expected + 1), e) && Fits(e, t.plan)
  {
    var p := t.plan;
    assert LastReports(p)[0] == MembershipList(p.ring, p.members, p.heuristics) && LastReports(p)[1..] == [QuorumList];
    var down := [SetOptionReply, ListReply(p.ring, AskLater)];
    more, u, e := ToMembership(s0, run, s, t, d, LastReports(p), down, c);
    assert down + [VoteInfo(c.expected + 1, p.ring, Ack)] + [ListReply(p.ring, NoChange)] == Replies(p, c.expected + 1);
  }

  /** The node reads the answers up to the vote. */
  lemma NodeVoting(s0: Sys, run: seq<Action>, s: Sys, t: Turn, b: Device, up: seq<ToServer>, seqNo: nat, c: Client)
    returns (more: seq<Action>, u: Sys)
    requires Waits(b, t.plan, t.node)
    requires Reached(s0, run, s, t, Reporting(b, t.plan), up, Replies(t.plan, seqNo), c)
    ensures Reached(s0, more, u, t, Voting(b, t.plan), up + [] + [] + [VoteInfoReply(seqNo)], Replies(t.plan, seqNo)[1..][1..][1..], c)
  {
    var p, down := t.plan, Replies(t.plan, seqNo);
    var d1 := Reporting(b, p);
    VoteIs(b, p, t.node, seqNo);
    more, u := ToReceived(s0, run, s, t, d1, up, down, c, d1, []);
    assert down[1..][0] == ListReply(p.ring, AskLater);
    more, u := ToReceived(s0, more, u, t, d1, up + [], down[1..], c, d1.(vote := AskLater), []);
    assert down[1..][1..][0] == VoteInfo(seqNo, p.ring, Ack);
    more, u := ToReceived(s0, more, u, t, d1.(vote := AskLater), up + [] + [], down[1..][1..], c, Voting(b, p), [VoteInfoReply(seqNo)]);
  }

  lemma TurnEnds(u: Sys, t: Turn, d: Device, up: seq<ToServer>, down: seq<ToDevice>, e: Client)
    requires At(u, t, d, up, down) && OnRecord(u, t, e) && Fits(e, t.plan) && CastsAck(d) && t.done !! t.todo
    ensures Between(u, t.plan, t.done + {t.node}, t.todo, t.conn + 1)
  {
    SortedIsUnique(u.server.clients);
    forall c | c in u.server.clients && c.id == t.node ensures c == e {
    }
  }

  /** One node after another comes to vote ACK, and those before it still do. */
  lemma OneTurn(s0: Sys, run: seq<Action>, s: Sys, p: Plan, done: set<nat>, todo: set<nat>, n: nat, k: nat)
    returns (more: seq<Action>, u: Sys)
    requires LeadsTo(s0, run, s) && Between(s, p, done, todo, k) && n in todo && HasHalf(p)
    ensures LeadsTo(s0, more, u) && Between(u, p, done + {n}, todo - {n}, k + 1)
  {
    var t, b := Turn(p, done, todo - {n}, n, k), s.devices[n];
    var c;
    assert Waits(b, p, n);
    more, u, c := NodeReporting(s0, run, s, p, done, todo, t);
    more, u := ServerConfigured(s0, more, u, t, Reporting(b, p), b, c);
    var e;
    more, u, e := ServerVoting(s0, more, u, t, Reporting(b, p), c.(keepActive := b.keepActive, config := p.config));
    more, u := NodeVoting(s0, more, u, t, b, [QuorumList], 1, e);
    VoteIs(b, p, n, 1);
    TurnEnds(u, t, Voting(b, p), [QuorumList] + [] + [] + [VoteInfoReply(1)], Replies(p, 1)[1..][1..][1..], e);
  }

  lemma {:induction false} AllTurns(s0: Sys, run: seq<Action>, s: Sys, p: Plan, done: set<nat>, todo: set<nat>, k: nat)
    returns (more: seq<Action>, u: Sys)
    requires LeadsTo(s0, run, s) && Between(s, p, done, todo, k) && HasHalf(p)
    ensures LeadsTo(s0, more, u) && forall n | n in done + todo :: n in u.devices && CastsAck(u.devices[n])
    decreases todo
  {
    if todo == {} {
      return run, s;
    }
    var n :| n in todo;
    more, u := OneTurn(s0, run, s, p, done, todo, n, k);
    more, u := AllTurns(s0, more, u, p, done + {n}, todo - {n}, k + 1);
    assert done + {n} + (todo - {n}) == done + todo;
  }

  /** Whatever nodes wait with one ring id, one configuration and one list of at least half of
      it: from any initial state there is a run after which each of them votes ACK. */
  lemma PartitionComesToVote(s: Sys, p: Plan, nodes: set<nat>) returns (run: seq<Action>)
    requires Initial(s) && HasHalf(p) && forall n | n in nodes :: n in s.devices && Waits(s.devices[n], p, n)
    ensures SystemRun(s, run) && forall n | n in nodes :: n in EndOf(s, run).devices && CastsAck(EndOf(s, run).devices[n])
  {
    var u;
    assert LeadsTo(s, [], s);
    run, u := AllTurns(s, [], s, p, {}, nodes, 0);
  }
}
