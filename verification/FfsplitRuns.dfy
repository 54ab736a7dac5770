/**
  Two runs of the server from an empty cluster that reach what `FfsplitTheorems.AssertionFailsIff`
  and `FfsplitProgress.ReplyKeepsProgressIff` describe: the assertion that fails, and the
  decision that never sends its ACK.
*/
module FfsplitRuns {
  import opened Tlv
  import opened Ffsplit
  import opened FfsplitSelection
  import opened FfsplitTheorems
  import opened FfsplitVotes
  import opened FfsplitTwoPhase
  import opened FfsplitProgress

  const EMPTY := Server([], WaitingForChange, [])

  /** The states a run goes through, from the empty cluster on. */
  ghost predicate History(run: seq<Event>, stages: seq<Server>) {
    && |stages| == |run| + 1 && stages[0] == EMPTY
    && forall k | 0 <= k < |run| :: ValidEvent(stages[k], run[k]) && Handle(stages[k], run[k]).server == stages[k + 1]
  }

  lemma {:induction false} HistoryIsRun(run: seq<Event>, stages: seq<Server>, k: nat)
    requires History(run, stages) && k <= |run|
    ensures ValidRun(stages[k], run[k..])
    decreases |run| - k
  {
    if k < |run| {
      HistoryIsRun(run, stages, k + 1);
      assert run[k..][0] == run[k] && run[k..][1..] == run[k + 1..];
    }
  }

  // ---------------------------------------------------------------- clusters of two

  lemma FindOfTwo(c: Client, d: Client, id: nat)
    requires c.id != d.id
    ensures Find([c, d], id) == if id == c.id then 0 else if id == d.id then 1 else 2
  {
    var cs := [c, d];
    var k := Find(cs, id);
    assert cs[0] == c && cs[1] == d;
  }

  lemma TwoJoin(c: Client, d: Client)
    requires c.id < d.id && c.tieBreaker == d.tieBreaker
    ensures CheckNewClient([], c.id, c.tieBreaker) == NoError && Insert([], c) == [c]
    ensures CheckNewClient([c], d.id, d.tieBreaker) == NoError && Insert([c], d) == [c, d]
  {
    assert [c][1..] == [];
    assert Insert([c], d) == [c] + Insert([], d);
  }

  // ---------------------------------------------------------------- the failing assertion

  function AssertionRun(m: nat, n: nat, a: RingId, b: RingId): seq<Event> {
    [InitReceived(m, a, Lowest, false), InitReceived(n, b, Lowest, false), Disconnected(0)]
  }

  /** Two clients that have only sent their init messages; the first one leaves. */
  lemma LeavesNothing(c: Client, d: Client, quorate: seq<nat>)
    requires c.id < d.id && c.tieBreaker == d.tieBreaker == Lowest
    requires c.config == c.members == d.config == d.members == []
    ensures var call := CallOf(c, true);
            Stable([c, d], call) && Select([c, d], call, quorate).Aborted?
  {
    var cs, call := [c, d], CallOf(c, true);
    assert Leaves(cs[0], call) && Staying(cs, call, 1);
    assert FirstStaying(cs, call, 0) == 1;
    assert AcceptedLists(cs, call);
    AssertionFailsIff(cs, call, quorate);
  }

  /** Two clients connect and the one with the lower id disconnects before the other has sent a
      list: the assertion stops the server. */
  lemma AssertionReached(m: nat, n: nat, a: RingId, b: RingId)
    requires m < n
    ensures var run := AssertionRun(m, n, a, b);
            ValidRun(EMPTY, run) && exists stages :: History(run, stages) && Handle(stages[2], run[2]).crashed
  {
    var run := AssertionRun(m, n, a, b);
    var c, d := NewClient(m, a, Lowest, false), NewClient(n, b, Lowest, false);
    TwoJoin(c, d);
    LeavesNothing(c, d, []);
    var s1, s2 := EMPTY.(clients := [c]), EMPTY.(clients := [c, d]);
    assert Handle(EMPTY, run[0]).server == s1;
    assert Handle(s1, run[1]).server == s2;
    var stages := [EMPTY, s1, s2, Handle(s2, run[2]).server];
    assert Handle(stages[2], run[2]).crashed;
    HistoryIsRun(run, stages, 0);
    assert run[0..] == run;
  }

  // ---------------------------------------------------------------- the late reply

  /** Both nodes report one partition and are sent ACK number 1; before they have answered the
      cluster splits and node 1 is selected; then the answer to the old ACK arrives. */
  function LateReplyRun(a: RingId, b: RingId, c: RingId): seq<Event> {
    [InitReceived(1, a, Lowest, false), InitReceived(2, a, Lowest, false),
     ConfigReceived(0, [1, 2], true), ConfigReceived(1, [1, 2], true),
     MembershipReceived(0, a, [1, 2], HeuristicsUndefined), MembershipReceived(1, a, [1, 2], HeuristicsUndefined),
     MembershipReceived(0, b, [1], HeuristicsUndefined), MembershipReceived(1, c, [2], HeuristicsUndefined),
     VoteReply(0, 1), VoteReply(1, 2)]
  }

  function Node(id: nat, ring: RingId, members: seq<nat>, state: ClientState, expected: nat): Client {
    Client(id, Lowest, false, ring, [1, 2], members, HeuristicsUndefined, state, expected)
  }

  function Pair(c: Client, d: Client, state: ClusterState, quorate: seq<nat>): Server {
    Server([c, d], state, quorate)
  }

  /** The server before event k of the run. */
  function Stage(k: nat, a: RingId, b: RingId, c: RingId): Server
    requires k <= 10
  {
    var m, n := NewClient(1, a, Lowest, false), NewClient(2, a, Lowest, false);
    if k == 0 then EMPTY
    else if k == 1 then EMPTY.(clients := [m])
    else if k == 2 then EMPTY.(clients := [m, n])
    else if k == 3 then EMPTY.(clients := [m.(config := [1, 2]), n])
    else if k == 4 then
      Pair(Node(1, a, [], ClientWaiting, 0), Node(2, a, [], ClientWaiting, 0), WaitingForChange, [])
    else if k == 5 then
      Pair(Node(1, a, [1, 2], ClientWaiting, 0), Node(2, a, [], ClientWaiting, 0), WaitingForStableMembership, [])
    else if k == 6 then
      Pair(Node(1, a, [1, 2], SendingAck, 1), Node(2, a, [1, 2], SendingAck, 1), SendingAcks, [1, 2])
    else if k == 7 then
      Pair(Node(1, b, [1], SendingAck, 1), Node(2, a, [1, 2], SendingAck, 1), WaitingForStableMembership, [1, 2])
    else if k == 8 then
      Pair(Node(1, b, [1], SendingAck, 1), Node(2, c, [2], SendingNack, 2), SendingNacks, [1])
    else if k == 9 then
      Pair(Node(1, b, [1], ClientWaiting, 1), Node(2, c, [2], SendingNack, 2), SendingNacks, [1])
    else
      Pair(Node(1, b, [1], ClientWaiting, 1), Node(2, c, [2], ClientWaiting, 2), WaitingForChange, [1])
  }

  lemma BothConfigured(k: nat, a: RingId, b: RingId, c: RingId)
    requires k < 4
    ensures ValidEvent(Stage(k, a, b, c), LateReplyRun(a, b, c)[k])
    ensures Handle(Stage(k, a, b, c), LateReplyRun(a, b, c)[k]).server == Stage(k + 1, a, b, c)
  {
    TwoJoin(NewClient(1, a, Lowest, false), NewClient(2, a, Lowest, false));
  }

  /** A membership that one of two clients does not share yet is only stored. */
  lemma NotYetStable(c: Client, d: Client, state: ClusterState, quorate: seq<nat>, i: nat, ring: RingId, nodes: seq<nat>, j: nat)
    requires c.id == 1 && d.id == 2 && i < 2 && j < 2 && [c, d][i].id in nodes && [c, d][i].config != []
    requires var call := CallOf([c, d][i], false).(ring := ring, members := nodes, heuristics := HeuristicsUndefined);
             [c, d][1 - j].id in Seen([c, d][j], call).members
             && !Subset(Seen([c, d][j], call).members, Seen([c, d][1 - j], call).members)
    ensures Handle(Pair(c, d, state, quorate), MembershipReceived(i, ring, nodes, HeuristicsUndefined)).server
            == Server([c, d][i := [c, d][i].(ring := ring, members := nodes, heuristics := HeuristicsUndefined)],
                      WaitingForStableMembership, quorate)
  {
    var cs := [c, d];
    var call := CallOf(cs[i], false).(ring := ring, members := nodes, heuristics := HeuristicsUndefined);
    FindOfTwo(c, d, cs[1 - j].id);
    assert !PartitionAgrees(cs, call, j, cs[1 - j].id);
    assert !PartitionStable(cs, call, j);
    assert !Stable(cs, call);
  }

  // ---------------------------------------------------------------- the two decisions

  /** The decision on the list with which the second of two clients makes the membership stable. */
  function SecondCall(d: Client, ring: RingId, nodes: seq<nat>): Call {
    CallOf(d, false).(ring := ring, members := nodes, heuristics := HeuristicsUndefined)
  }

  lemma TogetherStable(a: RingId)
    ensures Stable([Node(1, a, [1, 2], ClientWaiting, 0), Node(2, a, [], ClientWaiting, 0)],
                   SecondCall(Node(2, a, [], ClientWaiting, 0), a, [1, 2]))
  {
    var c, d := Node(1, a, [1, 2], ClientWaiting, 0), Node(2, a, [], ClientWaiting, 0);
    FindOfTwo(c, d, 1);
    FindOfTwo(c, d, 2);
  }

  lemma TogetherSelected(a: RingId)
    ensures var cs := [Node(1, a, [1, 2], ClientWaiting, 0), Node(2, a, [], ClientWaiting, 0)];
            var call := SecondCall(cs[1], a, [1, 2]);
            Select(cs, call, []) == Selected(Some(CandidateOf(cs, call, 1)))
  {
    var cs := [Node(1, a, [1, 2], ClientWaiting, 0), Node(2, a, [], ClientWaiting, 0)];
    var call := SecondCall(cs[1], a, [1, 2]);
    var p, q := CandidateOf(cs, call, 0), CandidateOf(cs, call, 1);
    assert SelectUpTo(cs, call, [], 0) == Selected(None);
    assert Compare(cs, p, None, [], AllKeepActive(cs)) == Better;
    assert SelectUpTo(cs, call, [], 1) == Selected(Some(p));
    assert Compare(cs, q, Some(p), [], AllKeepActive(cs)) == Better;
  }

  lemma ApartStable(a: RingId, b: RingId, c: RingId)
    ensures Stable([Node(1, b, [1], SendingAck, 1), Node(2, a, [1, 2], SendingAck, 1)],
                   SecondCall(Node(2, a, [1, 2], SendingAck, 1), c, [2]))
  {
    var m, n := Node(1, b, [1], SendingAck, 1), Node(2, a, [1, 2], SendingAck, 1);
    FindOfTwo(m, n, 1);
    FindOfTwo(m, n, 2);
  }

  lemma StatsOfOne(cs: seq<Client>, owner: nat, id: nat)
    requires Find(cs, id) < |cs| && cs[Find(cs, id)].heuristics == HeuristicsUndefined
    ensures Stats(cs, owner, HeuristicsUndefined, [id]) == Counts(1, 0, 0)
  {
    assert [id][..0] == [];
    assert Stats(cs, owner, HeuristicsUndefined, []) == Counts(0, 0, 0);
  }

  lemma ApartSelected(a: RingId, b: RingId, c: RingId)
    ensures var cs := [Node(1, b, [1], SendingAck, 1), Node(2, a, [1, 2], SendingAck, 1)];
            var call := SecondCall(cs[1], c, [2]);
            Select(cs, call, [1, 2]) == Selected(Some(CandidateOf(cs, call, 0)))
  {
    var cs := [Node(1, b, [1], SendingAck, 1), Node(2, a, [1, 2], SendingAck, 1)];
    var call := SecondCall(cs[1], c, [2]);
    var p, q := CandidateOf(cs, call, 0), CandidateOf(cs, call, 1);
    FindOfTwo(cs[0], cs[1], 1);
    FindOfTwo(cs[0], cs[1], 2);
    StatsOfOne(cs, 0, 1);
    StatsOfOne(cs, 1, 2);
    assert !cs[0].keepActive;
    assert PreferredNode(Lowest, [1, 2]) == Some(1);
    assert SelectUpTo(cs, call, [1, 2], 0) == Selected(None);
    assert Compare(cs, p, None, [1, 2], false) == Better;
    assert SelectUpTo(cs, call, [1, 2], 1) == Selected(Some(p));
    assert Compare(cs, q, Some(p), [1, 2], false) == NotBetter;
  }

  lemma DoChooses(s: Server, call: Call, best: Candidate)
    requires Stable(s.clients, call) && Select(s.clients, call, s.quorate) == Selected(Some(best))
    ensures var e := Do(s, call);
            e.decided && e.chosen == Some(best) && e.vote == NoChange && !e.crashed && e.server.quorate == best.members
  {
  }

  /** The decision itself: both are sent an ACK, or the second one is refused. */
  lemma DecisionOfTwo(s: Server, c: Client, d: Client, call: Call, e: Effect)
    requires s.clients == [c, d] && c.id == 1 && d.id == call.id == 2 && !call.leaving && 1 in e.server.quorate
    requires e.decided && EffectShape(s, call, e)
    ensures 2 in e.server.quorate ==>
              e.server.clients == [c.(state := SendingAck, expected := c.expected + 1), d.(state := SendingAck, expected := d.expected + 1)]
              && e.server.state == SendingAcks
    ensures 2 !in e.server.quorate ==>
              e.server.clients == [c.(state := SendingAck), d.(state := SendingNack, expected := d.expected + 1)]
              && e.server.state == SendingNacks && e.out[0] == None
  {
    assert Decided(c, call, e.server, e.server.clients[0], e.out[0]);
    assert Decided(d, call, e.server, e.server.clients[1], e.out[1]);
    assert e.server.clients[0].state == SendingAck;
    assert e.server.clients == [e.server.clients[0], e.server.clients[1]];
  }

  lemma StoredSecond(s: Server, d: Client, ring: RingId, nodes: seq<nat>, e: Effect)
    requires |s.clients| == 2 && s.clients[1] == d && d.id == 2 && 2 in nodes && d.config != []
    requires e == Do(s, SecondCall(d, ring, nodes)) && !e.crashed && |e.server.clients| == 2
    ensures var a := Handle(s, MembershipReceived(1, ring, nodes, HeuristicsUndefined));
            && a.decided == e.decided && a.chosen == e.chosen && a.out == e.out
            && a.server == e.server.(clients := e.server.clients[1 := Seen(e.server.clients[1], SecondCall(d, ring, nodes))])
  {
  }

  /** A stable membership of two: both are voted for, or the second is refused. */
  lemma SecondReports(c: Client, d: Client, state: ClusterState, quorate: seq<nat>, ring: RingId, nodes: seq<nat>, best: Candidate)
    requires c.id == 1 && d.id == 2 && 2 in nodes && d.config != [] && 1 in best.members
    requires Stable([c, d], SecondCall(d, ring, nodes))
    requires Select([c, d], SecondCall(d, ring, nodes), quorate) == Selected(Some(best))
    ensures var a := Handle(Pair(c, d, state, quorate), MembershipReceived(1, ring, nodes, HeuristicsUndefined));
            var d' := d.(ring := ring, members := nodes, heuristics := HeuristicsUndefined);
            && a.decided && a.chosen == Some(best)
            && (2 in best.members ==>
                  a.server == Pair(c.(state := SendingAck, expected := c.expected + 1),
                                   d'.(state := SendingAck, expected := d.expected + 1), SendingAcks, best.members))
            && (2 !in best.members ==>
                  a.server == Pair(c.(state := SendingAck), d'.(state := SendingNack, expected := d.expected + 1), SendingNacks, best.members)
                  && a.out[0] == None)
  {
    var s, call := Pair(c, d, state, quorate), SecondCall(d, ring, nodes);
    DoShape(s, call);
    DoChooses(s, call, best);
    DecisionOfTwo(s, c, d, call, Do(s, call));
    StoredSecond(s, d, ring, nodes, Do(s, call));
  }

  // ---------------------------------------------------------------- the run

  lemma StageStep(k: nat, a: RingId, b: RingId, c: RingId)
    requires k < 10
    ensures ValidEvent(Stage(k, a, b, c), LateReplyRun(a, b, c)[k])
    ensures Handle(Stage(k, a, b, c), LateReplyRun(a, b, c)[k]).server == Stage(k + 1, a, b, c)
    ensures k == 7 ==> var answer := Handle(Stage(7, a, b, c), LateReplyRun(a, b, c)[7]);
              answer.decided && answer.chosen.Some? && answer.chosen.value.members == [1] && answer.out[0] == None
    ensures k == 8 || k == 9 ==> Handle(Stage(k, a, b, c), LateReplyRun(a, b, c)[k]).out[0] == None
  {
    if k < 4 {
      BothConfigured(k, a, b, c);
      return;
    }
    var s := Stage(k, a, b, c);
    var (m, n) := (s.clients[0], s.clients[1]);
    if k == 4 {
      NotYetStable(m, n, s.state, s.quorate, 0, a, [1, 2], 0);
    } else if k == 5 {
      TogetherStable(a);
      TogetherSelected(a);
      SecondReports(m, n, s.state, s.quorate, a, [1, 2], CandidateOf([m, n], SecondCall(n, a, [1, 2]), 1));
    } else if k == 6 {
      assert [1, 2][1] == 2 && 2 !in [1];
      NotYetStable(m, n, s.state, s.quorate, 0, b, [1], 1);
    } else if k == 7 {
      ApartStable(a, b, c);
      ApartSelected(a, b, c);
      SecondReports(m, n, s.state, s.quorate, c, [2], CandidateOf([m, n], SecondCall(n, c, [2]), 0));
    } else {
      LateReplies(k, a, b, c);
    }
  }

  lemma LateReplies(k: nat, a: RingId, b: RingId, c: RingId)
    requires k == 8 || k == 9
    ensures var t := ReplyReceived(Stage(k, a, b, c), k - 8, k - 7);
            t.0 == Stage(k + 1, a, b, c) && t.1[0] == None
  {
    var s := Stage(k, a, b, c);
    ReplyShape(s, k - 8, k - 7);
    var (t, out) := ReplyReceived(s, k - 8, k - 7);
    assert Answered(s, k - 8, 0, LastNackAnswered(s, k - 8), t.clients[0], out[0]);
    assert Answered(s, k - 8, 1, LastNackAnswered(s, k - 8), t.clients[1], out[1]);
    assert s.clients[1].state == SendingNack;
    assert t.clients == [t.clients[0], t.clients[1]];
  }

  function AllStages(a: RingId, b: RingId, c: RingId): (stages: seq<Server>)
    ensures |stages| == 11 && forall k | 0 <= k < 11 :: stages[k] == Stage(k, a, b, c)
  {
    seq(11, k requires 0 <= k < 11 => Stage(k, a, b, c))
  }

  /** The run is a run of the server from the empty cluster, and the stages are its states. */
  lemma RunHistory(a: RingId, b: RingId, c: RingId)
    ensures History(LateReplyRun(a, b, c), AllStages(a, b, c)) && ValidRun(EMPTY, LateReplyRun(a, b, c))
  {
    var run, stages := LateReplyRun(a, b, c), AllStages(a, b, c);
    forall k | 0 <= k < |run| ensures ValidEvent(stages[k], run[k]) && Handle(stages[k], run[k]).server == stages[k + 1] {
      StageStep(k, a, b, c);
    }
    HistoryIsRun(run, stages, 0);
    assert run[0..] == run;
  }

  lemma NoVoteToNode1(a: RingId, b: RingId, c: RingId)
    ensures forall k | 7 <= k < 10 ::
              ValidEvent(Stage(k, a, b, c), LateReplyRun(a, b, c)[k])
              && Handle(Stage(k, a, b, c), LateReplyRun(a, b, c)[k]).out[0] == None
              && Handle(Stage(k, a, b, c), LateReplyRun(a, b, c)[k]).decided == (k == 7)
  {
    forall k | 7 <= k < 10
      ensures ValidEvent(Stage(k, a, b, c), LateReplyRun(a, b, c)[k])
      ensures Handle(Stage(k, a, b, c), LateReplyRun(a, b, c)[k]).out[0] == None
      ensures Handle(Stage(k, a, b, c), LateReplyRun(a, b, c)[k]).decided == (k == 7)
    {
      StageStep(k, a, b, c);
    }
  }

  /** Node 1 has not been sent its ACK in state 8, node 2 has been sent its NACK. */
  lemma AckPending(a: RingId, b: RingId, c: RingId)
    ensures InProgress(Stage(8, a, b, c), [[], [Nack]])
  {
    assert Stage(8, a, b, c).clients[1].state == SendingNack;
  }

  /** The run, whose states are the stages (`RunHistory`), selects the list of node 1 in event 7
      and ends with the cluster waiting for the next change, although since then no vote has been
      sent to node 1: the answer to the old ACK, which arrives in a state that
      `ReplyKeepsProgressIff` excludes, has been taken for the answer to the new one. */
  lemma SelectedButNeverAcked(a: RingId, b: RingId, c: RingId)
    ensures forall k | 7 <= k < 10 ::
              ValidEvent(Stage(k, a, b, c), LateReplyRun(a, b, c)[k])
              && Handle(Stage(k, a, b, c), LateReplyRun(a, b, c)[k]).out[0] == None
              && Handle(Stage(k, a, b, c), LateReplyRun(a, b, c)[k]).decided == (k == 7)
    ensures InProgress(Stage(8, a, b, c), [[], [Nack]])
    ensures var s := Stage(8, a, b, c);
            s.quorate == [1] && s.clients[0].id == 1 && s.state == SendingNacks && s.clients[0].state == SendingAck
            && LateReplyRun(a, b, c)[8] == VoteReply(0, s.clients[0].expected)
    ensures var s := Stage(10, a, b, c); s.quorate == [1] && s.clients[0].id == 1 && s.state == WaitingForChange
  {
    NoVoteToNode1(a, b, c);
    AckPending(a, b, c);
  }
}
