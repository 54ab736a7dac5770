/**
  The 50:50 split algorithm as the server runs it: loops over client records that are changed
  in place. Every method is proved against the functions of `Ffsplit` and `FfsplitVotes`.
*/
module FfsplitServer {
  import opened Tlv
  import opened Ffsplit
  import opened FfsplitVotes
  import FfsplitTheorems

  /** A connected client with its algorithm data and the vote messages queued for it. */
  class ClientRecord {
    const id: nat
    const tieBreaker: TieBreaker
    var keepActive: bool
    var ring: RingId
    var config: seq<nat>
    var members: seq<nat>
    var heuristics: Heuristics
    var state: ClientState
    var expected: nat
    var sent: seq<VoteInfo>

    function View(): Client
      reads this
    {
      Client(id, tieBreaker, keepActive, ring, config, members, heuristics, state, expected)
    }

    constructor (id: nat, ring: RingId, tieBreaker: TieBreaker, keepActive: bool)
      ensures View() == NewClient(id, ring, tieBreaker, keepActive) && sent == []
    {
      this.id, this.ring, this.tieBreaker, this.keepActive := id, ring, tieBreaker, keepActive;
      config, members, heuristics, state, expected, sent := [], [], HeuristicsUndefined, ClientWaiting, 0, [];
    }
  }

  function Queued(o: Option<VoteInfo>): seq<VoteInfo> {
    match o
    case None => []
    case Some(info) => [info]
  }

  ghost function ViewsOf(records: seq<ClientRecord>): (vs: seq<Client>)
    reads records
    ensures |vs| == |records| && forall i | 0 <= i < |records| :: vs[i] == records[i].View()
  {
    seq(|records|, i requires 0 <= i < |records| reads records => records[i].View())
  }

  ghost function MailOf(records: seq<ClientRecord>): (mail: seq<seq<VoteInfo>>)
    reads records
    ensures |mail| == |records| && forall i | 0 <= i < |records| :: mail[i] == records[i].sent
  {
    seq(|records|, i requires 0 <= i < |records| reads records => records[i].sent)
  }

  class Cluster {
    var clients: seq<ClientRecord>
    var state: ClusterState
    var quorate: seq<nat>

    constructor ()
      ensures Valid() && Value() == Server([], WaitingForChange, [])
    {
      clients, state, quorate := [], WaitingForChange, [];
    }

    ghost predicate Valid()
      reads `clients
    {
      forall i, j | 0 <= i < j < |clients| :: clients[i] != clients[j]
    }

    ghost function Views(): (vs: seq<Client>)
      reads `clients, clients
      ensures |vs| == |clients| && forall i | 0 <= i < |clients| :: vs[i] == clients[i].View()
    {
      ViewsOf(clients)
    }

    ghost function Value(): Server
      reads this, clients
    {
      Server(Views(), state, quorate)
    }

    // -------------------------------------------------------------- node lists

    static method FindNode(l: seq<nat>, id: nat) returns (found: bool)
      ensures found <==> id in l
    {
      for i := 0 to |l|
        invariant id !in l[..i]
      {
        if l[i] == id {
          return true;
        }
      }
      found := false;
    }

    static method AllFound(a: seq<nat>, b: seq<nat>) returns (found: bool)
      ensures found <==> Subset(a, b)
    {
      for i := 0 to |a|
        invariant forall j | 0 <= j < i :: a[j] in b
      {
        var here := FindNode(b, a[i]);
        if !here {
          return false;
        }
      }
      found := true;
    }

    /** The position of the client with this node id. */
    method FindClient(id: nat) returns (k: nat)
      ensures k == Find(Views(), id)
    {
      k := 0;
      while k < |clients|
        invariant k <= |clients|
        invariant forall j | 0 <= j < k :: clients[j].id != id
      {
        if clients[k].id == id {
          break;
        }
        k := k + 1;
      }
      FirstIsFind(Views(), id, k);
    }

    static lemma FirstIsFind(cs: seq<Client>, id: nat, k: nat)
      requires k <= |cs| && (k < |cs| ==> cs[k].id == id) && forall j | 0 <= j < k :: cs[j].id != id
      ensures Find(cs, id) == k
    {
      assert Find(cs, id) >= k;
    }

    // -------------------------------------------------------------- stability

    method ConfigsAreStable(call: Call) returns (stable: bool)
      ensures stable <==> ConfigsStable(Views(), call)
    {
      ghost var cs := Views();
      for i := 0 to |clients|
        invariant forall k, j | 0 <= k < i && 0 <= j < |cs| :: ConfigsAgree(cs, call, k, j)
      {
        for j := 0 to |clients|
          invariant forall k | 0 <= k < j :: ConfigsAgree(cs, call, i, k)
        {
          if i == j || (call.leaving && (clients[i].id == call.id || clients[j].id == call.id)) {
            continue;
          }
          var config1 := if clients[i].id == call.id then call.config else clients[i].config;
          var config2 := if clients[j].id == call.id then call.config else clients[j].config;
          var found := AllFound(config1, config2);
          if !found {
            assert !ConfigsAgree(cs, call, i, j);
            assert !ConfigsStable(cs, call);
            return false;
          }
        }
      }
      stable := true;
    }

    /** Does client i agree with the client that has node id n, if there is one that stays? */
    method AgreesWith(call: Call, i: nat, ring1: RingId, members1: seq<nat>, n: nat) returns (agrees: bool)
      requires i < |clients| && ring1 == Seen(Views()[i], call).ring && members1 == Seen(Views()[i], call).members
      ensures agrees <==> PartitionAgrees(Views(), call, i, n)
    {
      var k := FindClient(n);
      if k == |clients| || (clients[k].id == call.id && call.leaving) {
        return true;
      }
      var members2 := if clients[k].id == call.id then call.members else clients[k].members;
      var ring2 := if clients[k].id == call.id then call.ring else clients[k].ring;
      if ring1 != ring2 {
        return false;
      }
      agrees := AllFound(members1, members2);
    }

    method PartitionIsStable(call: Call, i: nat) returns (stable: bool)
      requires i < |clients|
      ensures stable <==> PartitionStable(Views(), call, i)
    {
      if clients[i].id == call.id && call.leaving {
        return true;
      }
      ghost var cs := Views();
      var members1 := if clients[i].id == call.id then call.members else clients[i].members;
      var ring1 := if clients[i].id == call.id then call.ring else clients[i].ring;
      for m := 0 to |members1|
        invariant forall x | 0 <= x < m :: PartitionAgrees(cs, call, i, members1[x])
      {
        stable := AgreesWith(call, i, ring1, members1, members1[m]);
        if !stable {
          assert members1[m] in Seen(cs[i], call).members;
          return;
        }
      }
      stable := true;
    }

    method IsMembershipStable(call: Call) returns (stable: bool)
      ensures stable <==> Stable(Views(), call)
    {
      stable := ConfigsAreStable(call);
      if !stable {
        return;
      }
      for i := 0 to |clients|
        invariant forall k | 0 <= k < i :: PartitionStable(Views(), call, k)
      {
        stable := PartitionIsStable(call, i);
        if !stable {
          return;
        }
      }
    }

    // -------------------------------------------------------------- comparing and selecting

    /** One more list entry in the statistics. */
    static lemma StatsStep(cs: seq<Client>, owner: nat, heuristics: Heuristics, members: seq<nat>, i: nat)
      requires i < |members|
      ensures var before, k := Stats(cs, owner, heuristics, members[..i]), Find(cs, members[i]);
              Stats(cs, owner, heuristics, members[..i + 1])
              == if k == |cs| then before else CountOne(before, HeuristicsSeenFrom(cs, owner, heuristics, k))
    {
      assert members[..i + 1][..i] == members[..i];
    }

    /** Count the client with this node id, if it is connected. */
    method CountNode(counts: Counts, owner: nat, id: nat, heuristics: Heuristics) returns (r: Counts)
      ensures var k := Find(Views(), id);
              r == if k == |clients| then counts else CountOne(counts, HeuristicsSeenFrom(Views(), owner, heuristics, k))
    {
      r := counts;
      var k := FindClient(id);
      if k < |clients| {
        r := r.(active := r.active + 1);
        var h := if k == owner then heuristics else clients[k].heuristics;
        if h == Pass {
          r := r.(pass := r.pass + 1);
        } else if h == Fail {
          r := r.(fail := r.fail + 1);
        }
      }
    }

    method PartitionStats(owner: nat, members: seq<nat>, heuristics: Heuristics) returns (counts: Counts)
      ensures counts == Stats(Views(), owner, heuristics, members)
    {
      ghost var cs := Views();
      counts := Counts(0, 0, 0);
      for i := 0 to |members|
        invariant counts == Stats(cs, owner, heuristics, members[..i])
      {
        StatsStep(cs, owner, heuristics, members, i);
        counts := CountNode(counts, owner, members[i], heuristics);
      }
      assert members[..|members|] == members;
    }

    static method IsPreferredPartition(tieBreaker: TieBreaker, config: seq<nat>, members: seq<nat>) returns (r: Comparison)
      ensures r == Preference(tieBreaker, config, members)
    {
      var preferred: nat;
      match tieBreaker {
        case Lowest =>
          if config == [] {
            return AssertFailed;
          }
          preferred := config[0];
          for i := 0 to |config|
            invariant preferred in config && forall j | 0 <= j < i :: preferred <= config[j]
          {
            if config[i] < preferred {
              preferred := config[i];
            }
          }
        case Highest =>
          if config == [] {
            return AssertFailed;
          }
          preferred := config[0];
          for i := 0 to |config|
            invariant preferred in config && forall j | 0 <= j < i :: preferred >= config[j]
          {
            if config[i] > preferred {
              preferred := config[i];
            }
          }
        case Nominated(id) => preferred := id;
      }
      var found := FindNode(members, preferred);
      r := if found then Better else NotBetter;
    }

    /** In size_t arithmetic; for the counts of a partition the integer active + pass - fail. */
    static method PartitionScore(counts: Counts) returns (score: int)
      ensures score == Score(counts)
      ensures counts.pass + counts.fail <= counts.active < SIZE_MODULUS / 2 ==>
                score == counts.active + counts.pass - counts.fail && score >= counts.pass
    {
      var active, pass, fail := counts.active, counts.pass, counts.fail;
      var difference := if pass >= fail then pass - fail else pass - fail + SIZE_MODULUS;
      score := if active + difference < SIZE_MODULUS then active + difference else active + difference - SIZE_MODULUS;
    }

    /** Without a partition all figures are zero. */
    method PartitionFigures(p: Option<Candidate>) returns (f: Figures)
      requires p.Some? ==> p.value.owner < |clients|
      ensures f == FiguresOf(Views(), p, quorate)
    {
      var counts, was := Counts(0, 0, 0), false;
      if p.Some? {
        counts := PartitionStats(p.value.owner, p.value.members, p.value.heuristics);
        was := FindNode(quorate, clients[p.value.owner].id);
      }
      var score := PartitionScore(counts);
      f := Figures(score, counts.active, was);
    }

    /** Is the partition better than the best one found so far? */
    method PartitionCmp(p: Candidate, best: Option<Candidate>, keep: bool) returns (r: Comparison)
      requires p.owner < |clients| && (best.Some? ==> best.value.owner < |clients|)
      ensures r == Compare(Views(), p, best, quorate, keep)
    {
      if |p.config| % 2 != 0 {
        return if |p.members| > |p.config| / 2 then Better else NotBetter;
      } else if |p.members| > |p.config| / 2 {
        return Better;
      } else if |p.members| < |p.config| / 2 {
        return NotBetter;
      }
      var figures1 := PartitionFigures(Some(p));
      var figures2 := PartitionFigures(best);
      var preference := IsPreferredPartition(clients[p.owner].tieBreaker, p.config, p.members);
      r := CompareHalves(figures1, figures2, keep && best.Some?, preference);
    }

    static method CompareHalves(f1: Figures, f2: Figures, keep: bool, preference: Comparison) returns (r: Comparison)
      ensures r == CompareFigures(f1, f2, keep, preference)
    {
      if f1.score > f2.score {
        return Better;
      } else if f1.score < f2.score {
        return NotBetter;
      }
      if f1.active > f2.active {
        return Better;
      } else if f1.active < f2.active {
        return NotBetter;
      }
      if keep {
        if f1.wasQuorate && !f2.wasQuorate {
          return Better;
        } else if !f1.wasQuorate && f2.wasQuorate {
          return NotBetter;
        }
      }
      r := preference;
    }

    method AllKeepActiveNow() returns (keep: bool)
      ensures keep <==> AllKeepActive(Views())
    {
      for i := 0 to |clients|
        invariant forall j | 0 <= j < i :: clients[j].keepActive
      {
        if !clients[i].keepActive {
          assert !Views()[i].keepActive;
          return false;
        }
      }
      keep := true;
    }

    /** Client i against the best partition so far. */
    method SelectNext(ghost cs: seq<Client>, call: Call, best: Option<Candidate>, i: nat, keep: bool) returns (s: Selection)
      requires cs == Views() && i < |cs| && ReportedBest(cs, call, best, i) && keep == AllKeepActive(cs)
      ensures s == SelectStep(cs, call, quorate, best, i)
    {
      if clients[i].id == call.id && call.leaving {
        return Selected(best);
      }
      var p := if clients[i].id == call.id then Candidate(i, call.ring, call.config, call.members, call.heuristics)
               else Candidate(i, clients[i].ring, clients[i].config, clients[i].members, clients[i].heuristics);
      var r := PartitionCmp(p, best, keep);
      match r {
        case Better => s := Selected(Some(p));
        case NotBetter => s := Selected(best);
        case AssertFailed => s := Aborted;
      }
    }

    static lemma SelectOneMore(cs: seq<Client>, call: Call, quorate: seq<nat>, i: nat, before: Selection, after: Selection)
      requires i < |cs| && SelectUpTo(cs, call, quorate, i) == before && before.Selected?
      requires after == SelectStep(cs, call, quorate, before.best, i)
      ensures SelectUpTo(cs, call, quorate, i + 1) == after
      ensures after.Aborted? ==> Select(cs, call, quorate) == after
      ensures after.Selected? ==> ReportedBest(cs, call, after.best, i + 1)
    {
      if after.Aborted? {
        FfsplitTheorems.AbortIsFinal(cs, call, quorate, i + 1, |cs|);
      }
    }

    /** What the loop over the clients has selected after the first n. */
    static ghost predicate SelectedSoFar(cs: seq<Client>, call: Call, quorate: seq<nat>, s: Selection, n: nat) {
      n <= |cs| && s.Selected? && s == SelectUpTo(cs, call, quorate, n) && ReportedBest(cs, call, s.best, n)
    }

    /** One turn of the loop over the clients. */
    method SelectOneFurther(ghost cs: seq<Client>, call: Call, before: Selection, i: nat, keep: bool) returns (s: Selection)
      requires cs == Views() && i < |cs| && keep == AllKeepActive(cs) && SelectedSoFar(cs, call, quorate, before, i)
      ensures if s.Aborted? then Select(cs, call, quorate) == s else SelectedSoFar(cs, call, quorate, s, i + 1)
    {
      s := SelectNext(cs, call, before.best, i, keep);
      SelectOneMore(cs, call, quorate, i, before, s);
    }

    static lemma SelectedAll(cs: seq<Client>, call: Call, quorate: seq<nat>, s: Selection)
      requires SelectedSoFar(cs, call, quorate, s, |cs|)
      ensures s == Select(cs, call, quorate)
    {
    }

    static lemma SelectedNothing(cs: seq<Client>, call: Call, quorate: seq<nat>)
      ensures SelectedSoFar(cs, call, quorate, Selected(None), 0)
    {
    }

    /** The best partition over all clients that stay; a failed assertion aborts. */
    method SelectPartition(call: Call) returns (s: Selection)
      ensures s == Select(Views(), call, quorate)
    {
      var keep := AllKeepActiveNow();
      ghost var cs := Views();
      s := Selected(None);
      SelectedNothing(cs, call, quorate);
      for i := 0 to |clients|
        invariant SelectedSoFar(cs, call, quorate, s, i)
      {
        s := SelectOneFurther(cs, call, s, i, keep);
        if s.Aborted? {
          return;
        }
      }
      SelectedAll(cs, call, quorate, s);
    }

    // -------------------------------------------------------------- sending votes

    /** The vote messages queued for every client. */
    ghost function Mail(): (mail: seq<seq<VoteInfo>>)
      reads `clients, clients
      ensures |mail| == |clients| && forall i | 0 <= i < |clients| :: mail[i] == clients[i].sent
    {
      MailOf(clients)
    }

    method UpdateNodesState(call: Call, partition: seq<nat>)
      requires Valid()
      modifies clients
      ensures Views() == Assign(old(Views()), call, partition) && Mail() == old(Mail())
    {
      for i := 0 to |clients|
        invariant forall j | 0 <= j < |clients| :: clients[j].sent == old(clients[j].sent)
        invariant forall j | i <= j < |clients| :: clients[j].View() == old(clients[j].View())
        invariant forall j | 0 <= j < i ::
                    clients[j].View() == old(clients[j].View()).(state := NextState(old(clients[j].View()), call, partition))
      {
        if clients[i].id == call.id && call.leaving {
          clients[i].state := ClientWaiting;
          continue;
        }
        var found := FindNode(partition, clients[i].id);
        clients[i].state := if found then SendingAck else SendingNack;
      }
    }

    /** The vote of this round for client i, if it is addressed. */
    method SendVote(i: nat, call: Call, acks: bool) returns (sent: bool)
      requires i < |clients|
      modifies clients[i]
      ensures clients[i].View() == Bumped(old(clients[i].View()), call, acks)
      ensures clients[i].sent == old(clients[i].sent) + Queued(VoteFor(old(clients[i].View()), call, acks))
      ensures sent <==> Addressed(old(clients[i].View()), call, acks)
    {
      var c := clients[i];
      if (c.id == call.id && call.leaving) || c.state != if acks then SendingAck else SendingNack {
        return false;
      }
      var ringToSend := if c.id == call.id then call.ring else c.ring;
      c.expected := c.expected + 1;
      c.sent := c.sent + [VoteInfo(c.expected, ringToSend, if acks then Ack else Nack)];
      sent := true;
    }

    /** The same in terms of all clients. */
    method SendVoteTo(i: nat, call: Call, acks: bool) returns (sent: bool)
      requires Valid() && i < |clients|
      modifies clients[i]
      ensures Views() == old(Views())[i := Bumped(old(Views())[i], call, acks)]
      ensures Mail() == old(Mail())[i := old(Mail())[i] + Queued(VoteFor(old(Views())[i], call, acks))]
      ensures sent <==> Addressed(old(Views())[i], call, acks)
    {
      sent := SendVote(i, call, acks);
    }

    /** One round of votes; the number of votes sent. */
    method SendVotesRound(call: Call, acks: bool) returns (count: nat)
      requires Valid()
      modifies clients
      ensures Views() == SendRound(old(Views()), call, acks).0
      ensures Posted(old(Mail()), Mail(), SendRound(old(Views()), call, acks).1)
      ensures count == 0 <==> NoneAddressed(old(Views()), call, acks)
    {
      count := 0;
      ghost var cs, mail := Views(), Mail();
      for i := 0 to |clients|
        invariant RoundUpTo(cs, mail, Views(), Mail(), call, acks, i)
        invariant count == 0 <==> forall j | 0 <= j < i :: !Addressed(cs[j], call, acks)
      {
        RoundMore(cs, mail, Views(), Mail(), call, acks, i);
        var sent := SendVoteTo(i, call, acks);
        if sent {
          count := count + 1;
        }
      }
      RoundDone(cs, mail, Views(), Mail(), call, acks);
    }

    /** Nothing left to send means the decision is finished. */
    method SendAcksNow(call: Call)
      requires Valid()
      modifies this`state, clients
      ensures Value() == SendAcks(old(Value()), call).0
      ensures Posted(old(Mail()), Mail(), SendAcks(old(Value()), call).1)
    {
      ghost var was := Value();
      state := SendingAcks;
      var count := SendVotesRound(call, true);
      if count == 0 {
        state := WaitingForChange;
      }
      AcksSent(was, call, Value());
    }

    method NoClientsSending(which: ClientState) returns (none: bool)
      ensures none <==> NoneSending(Views(), which)
    {
      for i := 0 to |clients|
        invariant forall j | 0 <= j < i :: clients[j].state != which
      {
        if clients[i].state == which {
          assert Views()[i].state == which;
          return false;
        }
      }
      none := true;
    }

    /** NACKs first, ACKs at once when there are none. */
    method SendVotesNow(call: Call)
      requires Valid()
      modifies this`state, clients
      ensures Value() == SendVotes(old(Value()), call).0
      ensures Posted(old(Mail()), Mail(), SendVotes(old(Value()), call).1)
    {
      ghost var was, mail := Value(), Mail();
      state := SendingNacks;
      var count := SendVotesRound(call, false);
      if count == 0 {
        NobodyBumped(was.clients, call, false);
        NothingPosted(mail, Mail());
        SendAcksNow(call);
        AcksDespiteState(was, call, SendingNacks);
      }
    }

    /** Store the selected partition and vote for it. */
    method Decide(call: Call, best: Option<Candidate>)
      requires Valid()
      modifies this`state, this`quorate, clients
      ensures var t := Voted(old(Value()), call, best); Value() == t.0 && Posted(old(Mail()), Mail(), t.1)
    {
      quorate := if best.Some? then best.value.members else [];
      UpdateNodesState(call, quorate);
      SendVotesNow(call);
    }

    /** The membership is stable: select a partition and vote. */
    method RunStable(call: Call, ghost was: Server, ghost mail: seq<seq<VoteInfo>>) returns (vote: Vote, aborted: bool)
      requires Valid() && Stable(was.clients, call) && state == WaitingForStableMembership
      requires Value() == was.(state := WaitingForStableMembership) && Mail() == mail
      modifies this`state, this`quorate, clients
      ensures var e := Do(was, call);
              Value() == e.server && Posted(mail, Mail(), e.out) && vote == e.vote && aborted == e.crashed
    {
      vote, aborted := NoChange, false;
      var selection := SelectPartition(call);
      if selection.Aborted? {
        DoAborts(was, call, mail);
        aborted := true;
        return;
      }
      Decide(call, selection.best);
      DoDecides(was, call, selection.best, WaitingForStableMembership);
    }

    /** Run the decision: wait for a stable membership, select a partition, vote. */
    method Run(call: Call) returns (vote: Vote, aborted: bool)
      requires Valid()
      modifies this`state, this`quorate, clients
      ensures var e := Do(old(Value()), call);
              Value() == e.server && Posted(old(Mail()), Mail(), e.out) && vote == e.vote && aborted == e.crashed
    {
      ghost var was, mail := Value(), Mail();
      state := WaitingForStableMembership;
      var stable := IsMembershipStable(call);
      if stable {
        vote, aborted := RunStable(call, was, mail);
      } else {
        DoWaits(was, call, mail);
        vote, aborted := WaitForReply, false;
      }
    }

    // -------------------------------------------------------------- messages and disconnects

    /** Run the decision for a message of client i, or ask it to wait for more. */
    method RunFor(call: Call, ready: bool) returns (vote: Vote, aborted: bool)
      requires Valid()
      modifies this`state, this`quorate, clients
      ensures var e := if ready then Do(old(Value()), call) else AskLaterEffect(old(Value()));
              Value() == e.server && Posted(old(Mail()), Mail(), e.out) && vote == e.vote && aborted == e.crashed
    {
      if ready {
        vote, aborted := Run(call);
      } else {
        vote, aborted := AskLater, false;
      }
    }

    /** Store what the message of client i has brought; the rest of the call is what it had. */
    method Store(i: nat, call: Call)
      requires Valid() && i < |clients| && clients[i].id == call.id
      modifies clients[i]
      ensures Views() == old(Views())[i := Seen(old(Views())[i], call)] && Mail() == old(Mail())
    {
      var c := clients[i];
      c.ring, c.config, c.members, c.heuristics := call.ring, call.config, call.members, call.heuristics;
    }

    /** Decide on a message of client i, store it and answer. */
    method DecideThenStore(i: nat, call: Call, ready: bool) returns (reply: Reply, aborted: bool)
      requires Valid() && i < |clients| && clients[i].id == call.id
      modifies this`state, this`quorate, clients
      ensures var a := DecideAndStore(old(Value()), i, call, ready);
              Value() == a.server && Posted(old(Mail()), Mail(), a.out) && reply == a.reply && aborted == a.crashed
    {
      ghost var was := Value();
      ghost var e := if ready then Do(was, call) else AskLaterEffect(was);
      DecideIs(was, i, call, ready, e);
      var vote;
      vote, aborted := RunFor(call, ready);
      if aborted {
        return NoReply, true;
      }
      Store(i, call);
      reply := VoteReplied(call.ring, vote);
    }

    /** A configuration node list. */
    method ConfigListReceived(i: nat, nodes: seq<nat>, initial: bool) returns (reply: Reply, aborted: bool)
      requires Valid() && i < |clients|
      modifies this`state, this`quorate, clients
      ensures var a := Handle(old(Value()), ConfigReceived(i, nodes, initial));
              Value() == a.server && Posted(old(Mail()), Mail(), a.out) && reply == a.reply && aborted == a.crashed
    {
      ConfigIs(Value(), i, nodes, initial);
      var c := clients[i];
      var listed := FindNode(nodes, c.id);
      if nodes == [] || !listed {
        return ErrorReply(InvalidConfigNodeList), false;
      }
      var call := Call(c.id, false, c.ring, nodes, c.members, c.heuristics);
      reply, aborted := DecideThenStore(i, call, !initial && c.members != []);
    }

    /** A membership node list with the ring id and the heuristics result it came with. */
    method MembershipListReceived(i: nat, ring: RingId, nodes: seq<nat>, heuristics: Heuristics)
      returns (reply: Reply, aborted: bool)
      requires Valid() && i < |clients|
      modifies this`state, this`quorate, clients
      ensures var a := Handle(old(Value()), MembershipReceived(i, ring, nodes, heuristics));
              Value() == a.server && Posted(old(Mail()), Mail(), a.out) && reply == a.reply && aborted == a.crashed
    {
      MembershipIs(Value(), i, ring, nodes, heuristics);
      var c := clients[i];
      var listed := FindNode(nodes, c.id);
      if nodes == [] || !listed {
        return ErrorReply(InvalidMembershipNodeList), false;
      }
      reply, aborted := DecideThenStore(i, Call(c.id, false, ring, c.config, nodes, heuristics), c.config != []);
    }

    method HeuristicsChanged(i: nat, heuristics: Heuristics) returns (reply: Reply, aborted: bool)
      requires Valid() && i < |clients| && heuristics != HeuristicsUndefined
      modifies this`state, this`quorate, clients
      ensures var a := Handle(old(Value()), HeuristicsReceived(i, heuristics));
              Value() == a.server && Posted(old(Mail()), Mail(), a.out) && reply == a.reply && aborted == a.crashed
    {
      HeuristicsIs(Value(), i, heuristics);
      var c := clients[i];
      reply, aborted := DecideThenStore(i, Call(c.id, false, c.ring, c.config, c.members, heuristics),
                                        c.config != [] && c.members != []);
    }

    method MarkWaiting(i: nat)
      requires Valid() && i < |clients|
      modifies clients[i]
      ensures Views() == old(Views())[i := old(Views())[i].(state := ClientWaiting)] && Mail() == old(Mail())
    {
      clients[i].state := ClientWaiting;
    }

    /** After an answer: with no NACK unanswered send the ACKs, with no ACK unanswered finish. */
    method Advance(call: Call)
      requires Valid()
      modifies this`state, clients
      ensures var t := Advanced(old(Value()), call); Value() == t.0 && Posted(old(Mail()), Mail(), t.1)
    {
      if state == SendingNacks {
        var none := NoClientsSending(SendingNack);
        if none {
          SendAcksNow(call);
        }
      } else if state == SendingAcks {
        var none := NoClientsSending(SendingAck);
        if none {
          state := WaitingForChange;
        }
      }
    }

    /** A reply to a vote: an old number is ignored. */
    method VoteInfoReplyReceived(i: nat, seqNo: nat)
      requires Valid() && i < |clients|
      modifies this`state, clients
      ensures var t := ReplyReceived(old(Value()), i, seqNo); Value() == t.0 && Posted(old(Mail()), Mail(), t.1)
    {
      var c := clients[i];
      if c.expected != seqNo {
        return;
      }
      ReplyIs(Value(), i, Value().clients[i := Value().clients[i].(state := ClientWaiting)]);
      MarkWaiting(i);
      Advance(Call(c.id, false, c.ring, c.config, c.members, c.heuristics));
    }

    /** Take the record of client i out of the list. */
    method Remove(i: nat)
      requires Valid() && i < |clients|
      modifies this
      ensures Valid() && Value() == Removed(old(Value()), i)
    {
      clients := clients[..i] + clients[i + 1..];
      if clients == [] {
        state, quorate := WaitingForChange, [];
      }
    }

    /** Decide without client i, then remove its record. */
    method RunWithout(i: nat, call: Call) returns (aborted: bool)
      requires Valid() && i < |clients|
      modifies this, clients
      ensures Valid()
      ensures var e := Do(old(Value()), call);
              && |e.server.clients| == |old(clients)| && aborted == e.crashed
              && Value() == (if aborted then e.server else Removed(e.server, i))
              && Posted(old(Mail()), MailOf(old(clients)), e.out)
    {
      var vote;
      vote, aborted := Run(call);
      if !aborted {
        Remove(i);
      }
    }

    /** Client i is gone. */
    method ClientDisconnected(i: nat) returns (aborted: bool)
      requires Valid() && i < |clients|
      modifies this, clients
      ensures Valid()
      ensures var a := Disconnect(old(Value()), i);
              aborted == a.crashed && Value() == a.server && Posted(old(Mail()), MailOf(old(clients)), a.out)
    {
      var c := clients[i];
      var call := Call(c.id, true, c.ring, c.config, c.members, c.heuristics);
      DisconnectIs(Value(), i, Do(Value(), call));
      aborted := RunWithout(i, call);
    }

    /** May a client with this id and tie-breaker join? */
    method MayJoin(id: nat, tieBreaker: TieBreaker) returns (error: ErrorCode)
      ensures error == CheckNewClient(Views(), id, tieBreaker)
    {
      ghost var cs := Views();
      for k := 0 to |clients|
        invariant CheckNewClient(cs, id, tieBreaker) == CheckNewClient(cs[k..], id, tieBreaker)
      {
        if clients[k].tieBreaker != tieBreaker {
          return TieBreakerDiffersFromOtherNodes;
        }
        if clients[k].id == id {
          return DuplicateNodeId;
        }
        assert cs[k..][1..] == cs[k + 1..];
      }
      error := NoError;
    }

    method Place(c: ClientRecord, k: nat)
      requires Valid() && c !in clients && k <= |clients|
      modifies this`clients
      ensures Valid() && Views() == old(Views())[..k] + [c.View()] + old(Views())[k..]
    {
      clients := clients[..k] + [c] + clients[k..];
    }

    /** Insert a record in the order of the node ids. */
    method InsertSorted(c: ClientRecord)
      requires Valid() && c !in clients
      modifies this`clients
      ensures Valid() && Views() == Insert(old(Views()), c.View())
    {
      ghost var cs := Views();
      var k := 0;
      while k < |clients| && clients[k].id <= c.id
        invariant k <= |clients| && forall j | 0 <= j < k :: clients[j].id <= c.id
      {
        k := k + 1;
      }
      InsertAt(cs, c.View(), k);
      Place(c, k);
    }

    /** An init message: a new record unless the id is taken or the tie-breaker differs. */
    method ClientInit(id: nat, ring: RingId, tieBreaker: TieBreaker, keepActive: bool) returns (reply: Reply)
      requires Valid()
      modifies this`clients
      ensures Valid()
      ensures var a := Handle(old(Value()), InitReceived(id, ring, tieBreaker, keepActive));
              Value() == a.server && reply == a.reply
    {
      var error := MayJoin(id, tieBreaker);
      if error == NoError {
        var c := new ClientRecord(id, ring, tieBreaker, keepActive);
        InsertSorted(c);
      }
      reply := InitReplied(error);
    }
  }

  /** Without client i; the last one takes the cluster data along. */
  function Removed(s: Server, i: nat): Server
    requires i < |s.clients|
  {
    if |s.clients| == 1 then Server([], WaitingForChange, []) else s.(clients := Without(s.clients, i))
  }

  /** After an answer: what is sent and what the cluster state becomes. */
  function Advanced(s: Server, call: Call): (r: (Server, Outbox))
    ensures |r.1| == |s.clients|
  {
    if s.state == SendingNacks && NoneSending(s.clients, SendingNack) then SendAcks(s, call)
    else (if s.state == SendingAcks && NoneSending(s.clients, SendingAck) then s.(state := WaitingForChange) else s,
          Silence(|s.clients|))
  }

  lemma ReplyIs(s: Server, i: nat, cs: seq<Client>)
    requires i < |s.clients| && cs == s.clients[i := s.clients[i].(state := ClientWaiting)]
    ensures ReplyReceived(s, i, s.clients[i].expected) == Advanced(s.(clients := cs), CallOf(s.clients[i], false))
  {
  }

  lemma {:induction false} InsertAt(cs: seq<Client>, c: Client, k: nat)
    requires k <= |cs| && (forall j | 0 <= j < k :: cs[j].id <= c.id) && (k < |cs| ==> cs[k].id > c.id)
    ensures Insert(cs, c) == cs[..k] + [c] + cs[k..]
  {
    if k > 0 {
      InsertAt(cs[1..], c, k - 1);
      assert cs[..k] == [cs[0]] + cs[1..][..k - 1] && cs[k..] == cs[1..][k - 1..];
    } else if cs != [] {
      assert cs[..0] + [c] + cs[0..] == [c] + cs;
    }
  }

  lemma DecideIs(s: Server, i: nat, call: Call, ready: bool, e: Effect)
    requires i < |s.clients| && call.id == s.clients[i].id && e == if ready then Do(s, call) else AskLaterEffect(s)
    ensures |e.server.clients| == |s.clients|
    ensures var a := DecideAndStore(s, i, call, ready);
            && a.out == e.out && a.crashed == e.crashed
            && (if e.crashed then a.server == e.server && a.reply == NoReply
                else a.server == e.server.(clients := e.server.clients[i := Seen(e.server.clients[i], call)])
                     && a.reply == VoteReplied(call.ring, e.vote))
  {
    DoKeepsLength(s, call);
  }

  lemma ConfigIs(s: Server, i: nat, nodes: seq<nat>, initial: bool)
    requires i < |s.clients|
    ensures var c := s.clients[i];
            Handle(s, ConfigReceived(i, nodes, initial))
            == if nodes == [] || c.id !in nodes then Untouched(s, ErrorReply(InvalidConfigNodeList))
               else DecideAndStore(s, i, CallOf(c, false).(config := nodes), !initial && c.members != [])
  {
  }

  lemma MembershipIs(s: Server, i: nat, ring: RingId, nodes: seq<nat>, heuristics: Heuristics)
    requires i < |s.clients|
    ensures var c := s.clients[i];
            Handle(s, MembershipReceived(i, ring, nodes, heuristics))
            == if nodes == [] || c.id !in nodes then Untouched(s, ErrorReply(InvalidMembershipNodeList))
               else DecideAndStore(s, i, CallOf(c, false).(ring := ring, members := nodes, heuristics := heuristics), c.config != [])
  {
  }

  lemma HeuristicsIs(s: Server, i: nat, heuristics: Heuristics)
    requires i < |s.clients| && heuristics != HeuristicsUndefined
    ensures var c := s.clients[i];
            Handle(s, HeuristicsReceived(i, heuristics))
            == DecideAndStore(s, i, CallOf(c, false).(heuristics := heuristics), c.config != [] && c.members != [])
  {
  }

  lemma DisconnectIs(s: Server, i: nat, e: Effect)
    requires i < |s.clients| && e == Do(s, CallOf(s.clients[i], true))
    ensures |e.server.clients| == |s.clients|
    ensures var a := Disconnect(s, i);
            && a.out == e.out && a.crashed == e.crashed
            && a.server == if e.crashed then e.server else Removed(e.server, i)
  {
    DoKeepsLength(s, CallOf(s.clients[i], true));
  }

  lemma NothingPosted(before: seq<seq<VoteInfo>>, after: seq<seq<VoteInfo>>)
    requires Posted(before, after, Silence(|before|))
    ensures before == after
  {
    forall i | 0 <= i < |before| ensures before[i] == after[i] {
      assert Silence(|before|)[i] == None;
    }
  }

  lemma DoWaits(s: Server, call: Call, mail: seq<seq<VoteInfo>>)
    requires !Stable(s.clients, call) && |mail| == |s.clients|
    ensures var e := Do(s, call);
            e.server == s.(state := WaitingForStableMembership) && e.vote == WaitForReply && !e.crashed && Posted(mail, mail, e.out)
  {
  }

  lemma DoAborts(s: Server, call: Call, mail: seq<seq<VoteInfo>>)
    requires Stable(s.clients, call) && Select(s.clients, call, s.quorate).Aborted? && |mail| == |s.clients|
    ensures var e := Do(s, call);
            e.server == s.(state := WaitingForStableMembership) && e.vote == NoChange && e.crashed && Posted(mail, mail, e.out)
  {
  }

  /** The votes of a decision do not depend on the cluster state before it. */
  lemma DoDecides(s: Server, call: Call, best: Option<Candidate>, before: ClusterState)
    requires Stable(s.clients, call) && Select(s.clients, call, s.quorate) == Selected(best)
    ensures var t := Voted(s.(state := before), call, best);
            var e := Do(s, call);
            e.server == t.0 && e.out == t.1 && e.vote == NoChange && !e.crashed
  {
  }

  /** The state after the votes for a selected partition. */
  function Voted(s: Server, call: Call, best: Option<Candidate>): (r: (Server, Outbox))
    ensures |r.1| == |s.clients|
  {
    var partition := if best.Some? then best.value.members else [];
    SendVotes(s.(quorate := partition, clients := Assign(s.clients, call, partition)), call)
  }

  /** A round of ACKs does not look at the cluster state. */
  lemma AcksDespiteState(s: Server, call: Call, state: ClusterState)
    ensures SendAcks(s.(state := state), call) == SendAcks(s, call)
  {
  }

  /** Each client's queue has grown by the vote sent to it. */
  ghost predicate Posted(before: seq<seq<VoteInfo>>, after: seq<seq<VoteInfo>>, out: Outbox) {
    |before| == |after| == |out| && forall i | 0 <= i < |out| :: after[i] == before[i] + Queued(out[i])
  }

  /** The first n clients have been sent what the round sends them, the others nothing yet. */
  predicate RoundUpTo(cs: seq<Client>, mail: seq<seq<VoteInfo>>, views: seq<Client>, sent: seq<seq<VoteInfo>>, call: Call, acks: bool, n: nat) {
    && |cs| == |mail| == |views| == |sent| && n <= |cs|
    && (forall j | 0 <= j < n ::
          views[j] == Bumped(cs[j], call, acks) && sent[j] == mail[j] + Queued(VoteFor(cs[j], call, acks)))
    && (forall j | n <= j < |cs| :: views[j] == cs[j] && sent[j] == mail[j])
  }

  lemma RoundMore(cs: seq<Client>, mail: seq<seq<VoteInfo>>, views: seq<Client>, sent: seq<seq<VoteInfo>>, call: Call, acks: bool, n: nat)
    requires RoundUpTo(cs, mail, views, sent, call, acks, n) && n < |cs|
    ensures views[n] == cs[n]
    ensures RoundUpTo(cs, mail, views[n := Bumped(views[n], call, acks)],
                      sent[n := sent[n] + Queued(VoteFor(views[n], call, acks))], call, acks, n + 1)
  {
  }

  lemma RoundDone(cs: seq<Client>, mail: seq<seq<VoteInfo>>, views: seq<Client>, sent: seq<seq<VoteInfo>>, call: Call, acks: bool)
    requires RoundUpTo(cs, mail, views, sent, call, acks, |cs|)
    ensures views == SendRound(cs, call, acks).0 && Posted(mail, sent, SendRound(cs, call, acks).1)
  {
  }

  lemma AcksSent(s: Server, call: Call, t: Server)
    requires t.clients == SendRound(s.clients, call, true).0 && t.quorate == s.quorate
    requires t.state == if NoneAddressed(s.clients, call, true) then WaitingForChange else SendingAcks
    ensures t == SendAcks(s, call).0 && SendRound(s.clients, call, true).1 == SendAcks(s, call).1
  {
  }

  lemma NobodyBumped(cs: seq<Client>, call: Call, acks: bool)
    requires NoneAddressed(cs, call, acks)
    ensures SendRound(cs, call, acks).0 == cs && SendRound(cs, call, acks).1 == Silence(|cs|)
  {
    var (ds, out) := SendRound(cs, call, acks);
    forall i | 0 <= i < |cs| ensures ds[i] == cs[i] && out[i] == None {
      assert !Addressed(cs[i], call, acks);
    }
  }
}
