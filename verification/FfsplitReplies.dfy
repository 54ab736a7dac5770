/**
  What a client is told at once when it reports something: nothing is decided without both
  lists or on an unstable membership, and then the client is told to ask later or to wait.
*/
module FfsplitReplies {
  import opened Tlv
  import opened Ffsplit
  import opened FfsplitVotes
  import opened FfsplitTwoPhase

  /** The report, as the decision sees it, and whether client i has sent both lists by now. */
  datatype Report = Report(call: Call, complete: bool, error: ErrorCode)

  function Complain(nodes: seq<nat>, id: nat, error: ErrorCode): ErrorCode {
    if nodes == [] || id !in nodes then error else NoError
  }

  function ReportOf(s: Server, e: Event): Report
    requires ValidEvent(s, e) && (e.ConfigReceived? || e.MembershipReceived? || e.HeuristicsReceived?)
  {
    var c := s.clients[e.client];
    var before := Call(c.id, false, c.ring, c.config, c.members, c.heuristics);
    match e
    case ConfigReceived(_, nodes, initial) =>
      Report(before.(config := nodes), !initial && c.members != [], Complain(nodes, c.id, InvalidConfigNodeList))
    case MembershipReceived(_, ring, nodes, h) =>
      Report(before.(ring := ring, members := nodes, heuristics := h), c.config != [], Complain(nodes, c.id, InvalidMembershipNodeList))
    case HeuristicsReceived(_, h) => Report(before.(heuristics := h), c.config != [] && c.members != [], NoError)
  }

  /** Nobody is sent a vote. */
  predicate Silent(out: Outbox) {
    forall i | 0 <= i < |out| :: out[i] == None
  }

  /** Client i has these lists, this ring id and this result; everything else is as before. */
  predicate OnlyStored(s: Server, t: Server, i: nat, call: Call) {
    && i < |s.clients| == |t.clients| && t.quorate == s.quorate
    && (forall j | 0 <= j < |s.clients| && j != i :: t.clients[j] == s.clients[j])
    && t.clients[i] == s.clients[i].(ring := call.ring, config := call.config, members := call.members, heuristics := call.heuristics)
  }

  lemma Unready(s: Server, i: nat, call: Call)
    requires i < |s.clients| && call.id == s.clients[i].id
    ensures var a := DecideAndStore(s, i, call, false);
            a.reply == VoteReplied(call.ring, AskLater) && !a.decided && !a.crashed && Silent(a.out)
            && OnlyStored(s, a.server, i, call) && a.server.state == s.state
  {
  }

  lemma Unstable(s: Server, i: nat, call: Call)
    requires i < |s.clients| && call.id == s.clients[i].id && !Stable(s.clients, call)
    ensures var a := DecideAndStore(s, i, call, true);
            a.reply == VoteReplied(call.ring, WaitForReply) && !a.decided && !a.crashed && Silent(a.out)
            && OnlyStored(s, a.server, i, call) && a.server.state == WaitingForStableMembership
  {
  }

  lemma Settled(s: Server, i: nat, call: Call)
    requires i < |s.clients| && call.id == s.clients[i].id && Stable(s.clients, call)
    ensures var a := DecideAndStore(s, i, call, true);
            if Select(s.clients, call, s.quorate).Aborted? then a.crashed && Silent(a.out)
            else !a.crashed && a.decided && a.reply == VoteReplied(call.ring, NoChange)
  {
  }

  /** A list without its sender is an error and changes nothing. Otherwise, until both lists have
      been sent the client is told to ask later; on an unstable membership it is told to wait; and
      in both cases nobody is sent a vote and only the report is stored. On a stable membership
      the server decides, or fails, and the reply leaves the vote to the decision. */
  lemma ReportAnswered(s: Server, e: Event)
    requires ValidEvent(s, e) && (e.ConfigReceived? || e.MembershipReceived? || e.HeuristicsReceived?)
    ensures var a, r := Handle(s, e), ReportOf(s, e);
            && (r.error != NoError ==> a.reply == ErrorReply(r.error) && a.server == s && Silent(a.out) && !a.decided && !a.crashed)
            && (r.error == NoError && !r.complete ==>
                  a.reply == VoteReplied(r.call.ring, AskLater) && !a.decided && !a.crashed && Silent(a.out)
                  && OnlyStored(s, a.server, e.client, r.call) && a.server.state == s.state)
            && (r.error == NoError && r.complete && !Stable(s.clients, r.call) ==>
                  a.reply == VoteReplied(r.call.ring, WaitForReply) && !a.decided && !a.crashed && Silent(a.out)
                  && OnlyStored(s, a.server, e.client, r.call) && a.server.state == WaitingForStableMembership)
            && (r.error == NoError && r.complete && Stable(s.clients, r.call) && !a.crashed ==>
                  a.decided && a.reply == VoteReplied(r.call.ring, NoChange))
  {
    var r := ReportOf(s, e);
    if r.error == NoError {
      assert Handle(s, e) == DecideAndStore(s, e.client, r.call, r.complete);
      if !r.complete {
        Unready(s, e.client, r.call);
      } else if !Stable(s.clients, r.call) {
        Unstable(s, e.client, r.call);
      } else {
        Settled(s, e.client, r.call);
      }
    }
  }

  // ---------------------------------------------------------------- joining and leaving

  lemma {:induction false} FirstObjection(cs: seq<Client>, id: nat, tieBreaker: TieBreaker)
    ensures CheckNewClient(cs, id, tieBreaker) in {NoError, DuplicateNodeId, TieBreakerDiffersFromOtherNodes}
  {
    if cs != [] {
      FirstObjection(cs[1..], id, tieBreaker);
    }
  }

  /** A client with a new id and the common tie-breaker joins, knows nothing yet and waits; every
      other one is refused. Nobody else notices. */
  lemma JoinAnswered(s: Server, id: nat, ring: RingId, tieBreaker: TieBreaker, keepActive: bool)
    requires Sorted(s.clients)
    ensures var a := Handle(s, InitReceived(id, ring, tieBreaker, keepActive));
            var welcome := forall c | c in s.clients :: c.id != id && c.tieBreaker == tieBreaker;
            var newcomer := Client(id, tieBreaker, keepActive, ring, [], [], HeuristicsUndefined, ClientWaiting, 0);
            && Silent(a.out) && !a.decided && !a.crashed && a.reply.InitReplied?
            && (welcome <==> a.reply == InitReplied(NoError))
            && a.server.state == s.state && a.server.quorate == s.quorate
            && (welcome ==> Sorted(a.server.clients) && forall c :: c in a.server.clients <==> c == newcomer || c in s.clients)
            && (!welcome ==> a.server == s)
  {
    if CheckNewClient(s.clients, id, tieBreaker) == NoError {
      InsertKeepsSorted(s.clients, NewClient(id, ring, tieBreaker, keepActive));
    }
  }

  /** The last client takes the data of the cluster along. */
  lemma LastClientLeaves(s: Server)
    requires |s.clients| == 1
    ensures var a := Handle(s, Disconnected(0));
            a.server == Server([], WaitingForChange, []) && !a.crashed && a.decided && a.chosen == None && Silent(a.out)
  {
    var call := CallOf(s.clients[0], true);
    assert Leaves(s.clients[0], call);
    assert Stable(s.clients, call);
    NobodySelected(s.clients, call, s.quorate);
    var ds := Assign(s.clients, call, []);
    assert NoneAddressed(ds, call, false) && NoneAddressed(ds, call, true);
  }

  lemma NobodySelected(cs: seq<Client>, call: Call, quorate: seq<nat>)
    requires |cs| == 1 && Leaves(cs[0], call)
    ensures Select(cs, call, quorate) == Selected(None)
  {
    assert SelectUpTo(cs, call, quorate, 0) == Selected(None);
  }
}
