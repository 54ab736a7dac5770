/**
  The two-phase handshake over every sequence of events: no ACK leaves the server while a
  still connected client has a NACK of the same decision unanswered, and a decision that is
  not disturbed runs to its end.
*/
module FfsplitTwoPhase {
  import opened Tlv
  import opened Ffsplit
  import opened FfsplitVotes

  // ---------------------------------------------------------------- the shape of a step

  /** What a decision does to one client. */
  predicate Decided(c: Client, call: Call, t: Server, d: Client, o: Option<VoteInfo>) {
    var state := NextState(c, call, t.quorate);
    var sent := state == if t.state == SendingNacks then SendingNack else SendingAck;
    && d == c.(state := state, expected := c.expected + if sent then 1 else 0)
    && o == if sent then Some(VoteInfo(c.expected + 1, RingToSend(c, call), if state == SendingAck then Ack else Nack))
            else None
  }

  predicate DecisionShape(s: Server, call: Call, t: Server, out: Outbox) {
    && |t.clients| == |s.clients| == |out|
    && (forall i | 0 <= i < |out| :: Decided(s.clients[i], call, t, t.clients[i], out[i]))
    && t.state != WaitingForStableMembership
    && (t.state == SendingNacks <==> !NoneSending(t.clients, SendingNack))
    && (t.state == WaitingForChange ==> NoneSending(t.clients, SendingAck))
    && (t.state == SendingAcks ==> !NoneSending(t.clients, SendingAck))
  }

  /** What any call into the algorithm leaves behind. */
  predicate EffectShape(s: Server, call: Call, e: Effect) {
    if e.decided then DecisionShape(s, call, e.server, e.out) && !e.crashed
    else
      && e.server == s.(state := e.server.state)
      && (e.server.state == s.state || e.server.state == WaitingForStableMembership)
      && (e.crashed ==> e.server.state == WaitingForStableMembership)
      && e.out == Silence(|s.clients|)
  }

  lemma DoShape(s: Server, call: Call)
    ensures EffectShape(s, call, Do(s, call))
  {
    var e := Do(s, call);
    if e.decided {
      SendVotesShape(s, call, s.(quorate := e.server.quorate, clients := Assign(s.clients, call, e.server.quorate)));
    }
  }

  lemma SendVotesShape(s: Server, call: Call, s1: Server)
    requires s1 == s.(quorate := s1.quorate, clients := Assign(s.clients, call, s1.quorate))
    ensures var (t, out) := SendVotes(s1, call); t.quorate == s1.quorate && DecisionShape(s, call, t, out)
  {
    var (t, out) := SendVotes(s1, call);
    forall i | 0 <= i < |out|
      ensures Decided(s.clients[i], call, t, t.clients[i], out[i])
      ensures t.clients[i].state == s1.clients[i].state
    {
      assert s1.clients[i] == s.clients[i].(state := NextState(s.clients[i], call, s1.quorate));
      assert !Addressed(s1.clients[i], call, false) <==> s1.clients[i].state != SendingNack;
    }
    if NoneAddressed(s1.clients, call, false) {
      NoneAddressedIff(s1.clients, call, false);
      NoneAddressedIff(s1.clients, call, true);
    } else {
      NoneAddressedIff(s1.clients, call, false);
    }
  }

  /** A client that leaves is in neither sending state. */
  lemma NoneAddressedIff(cs: seq<Client>, call: Call, acks: bool)
    requires forall i | 0 <= i < |cs| && Leaves(cs[i], call) :: cs[i].state == ClientWaiting
    ensures NoneAddressed(cs, call, acks) <==> NoneSending(cs, if acks then SendingAck else SendingNack)
  {
    if NoneAddressed(cs, call, acks) {
      forall i | 0 <= i < |cs| ensures cs[i].state != if acks then SendingAck else SendingNack {
        assert !Addressed(cs[i], call, acks);
      }
    }
  }

  /** What a reply of client i does to client j. */
  predicate Answered(s: Server, i: nat, j: nat, acks: bool, d: Client, o: Option<VoteInfo>)
    requires i < |s.clients| && j < |s.clients|
  {
    var c := s.clients[j];
    var state := if i == j then ClientWaiting else c.state;
    var sent := acks && state == SendingAck;
    && d == c.(state := state, expected := c.expected + if sent then 1 else 0)
    && o == if sent then Some(VoteInfo(c.expected + 1, c.ring, Ack)) else None
  }

  /** No other client still owes an answer to a NACK. */
  predicate LastNackAnswered(s: Server, i: nat) {
    s.state == SendingNacks && forall j | 0 <= j < |s.clients| && j != i :: s.clients[j].state != SendingNack
  }

  lemma {:induction false} ReplyShape(s: Server, i: nat, seqNo: nat)
    requires i < |s.clients| && UniqueIds(s.clients)
    ensures var (t, out) := ReplyReceived(s, i, seqNo);
            if s.clients[i].expected != seqNo then t == s && out == Silence(|s.clients|)
            else
              && t.quorate == s.quorate && |t.clients| == |s.clients|
              && (forall j | 0 <= j < |s.clients| :: Answered(s, i, j, LastNackAnswered(s, i), t.clients[j], out[j]))
              && (s.state == SendingNacks && !LastNackAnswered(s, i) ==> t.state == SendingNacks)
              && (s.state == SendingNacks && LastNackAnswered(s, i) ==>
                    t.state == if NoneSending(t.clients, SendingAck) then WaitingForChange else SendingAcks)
              && (s.state == SendingAcks ==>
                    t.state == if NoneSending(t.clients, SendingAck) then WaitingForChange else SendingAcks)
              && (s.state != SendingNacks && s.state != SendingAcks ==> t.state == s.state)
  {
    var c := s.clients[i];
    var s1 := s.(clients := s.clients[i := c.(state := ClientWaiting)]);
    var call := CallOf(c, false);
    assert LastNackAnswered(s, i) <==> s.state == SendingNacks && NoneSending(s1.clients, SendingNack) by {
      if s.state == SendingNacks && NoneSending(s1.clients, SendingNack) {
        forall j | 0 <= j < |s.clients| && j != i ensures s.clients[j].state != SendingNack {
          assert s1.clients[j] == s.clients[j];
        }
      }
    }
    if c.expected == seqNo && LastNackAnswered(s, i) {
      var (t, out) := SendAcks(s1, call);
      forall j | 0 <= j < |s.clients| ensures Answered(s, i, j, true, t.clients[j], out[j]) {
        assert RingToSend(s1.clients[j], call) == s.clients[j].ring;
      }
      NoneAddressedIff(s1.clients, call, true);
      assert forall j | 0 <= j < |s.clients| :: t.clients[j].state == s1.clients[j].state;
    }
  }

  // ---------------------------------------------------------------- the client list

  /** The client list is kept sorted by node id, so the ids are unique. */
  predicate Sorted(cs: seq<Client>) {
    forall i, j | 0 <= i < j < |cs| :: cs[i].id < cs[j].id
  }

  lemma {:induction false} InsertKeepsSorted(cs: seq<Client>, c: Client)
    requires Sorted(cs) && forall d | d in cs :: d.id != c.id
    ensures Sorted(Insert(cs, c))
    ensures forall d :: d in Insert(cs, c) <==> d == c || d in cs
  {
    if cs != [] {
      assert cs[0] in cs;
      assert cs == [cs[0]] + cs[1..];
      if cs[0].id < c.id {
        assert forall d | d in cs[1..] :: d in cs;
        InsertKeepsSorted(cs[1..], c);
        var tail := Insert(cs[1..], c);
        forall i | 0 <= i < |tail| ensures cs[0].id < tail[i].id {
          assert tail[i] in tail;
          if tail[i] != c {
            var k :| 0 <= k < |cs[1..]| && cs[1..][k] == tail[i];
            assert cs[k + 1] == tail[i];
          }
        }
      }
    }
  }

  // ---------------------------------------------------------------- the monitor

  /** The clients this decision refuses, with the number of the NACK each has to answer. */
  function NacksIn(cs: seq<Client>, out: Outbox): map<nat, nat>
    requires Sorted(cs) && |out| == |cs|
  {
    map i | 0 <= i < |cs| && out[i].Some? && out[i].value.vote == Nack :: cs[i].id := out[i].value.seqNo
  }

  /** An observer outside the server: which NACKs of the current decision are unanswered. */
  function Observe(owed: map<nat, nat>, s: Server, e: Event, a: Answer): map<nat, nat>
    requires Sorted(s.clients) && ValidEvent(s, e) && |a.out| == |s.clients|
  {
    if a.decided then NacksIn(s.clients, a.out)
    else
      match e
      case VoteReply(i, seqNo) =>
        AfterReply(owed, s.clients[i].id, seqNo)
      case Disconnected(i) => owed - {s.clients[i].id}
      case _ => owed
  }

  predicate SendsAck(out: Outbox) {
    exists i | 0 <= i < |out| :: out[i].Some? && out[i].value.vote == Ack
  }

  ghost predicate Inv(s: Server, owed: map<nat, nat>) {
    && Sorted(s.clients)
    && (s.state == SendingAcks ==> NoneSending(s.clients, SendingNack))
    && (s.state == SendingNacks ==>
          Matches(s.clients, owed) && owed.Keys <= Ids(s.clients))
  }

  function Ids(cs: seq<Client>): set<nat> {
    set c | c in cs :: c.id
  }

  predicate Matches(cs: seq<Client>, owed: map<nat, nat>) {
    forall c | c in cs :: (c.state == SendingNack <==> c.id in owed) && (c.id in owed ==> owed[c.id] == c.expected)
  }

  lemma SortedIsUnique(cs: seq<Client>)
    requires Sorted(cs)
    ensures UniqueIds(cs)
  {
    forall i, j | 0 <= i < j < |cs| ensures cs[i].id != cs[j].id {
      assert cs[i].id < cs[j].id;
    }
  }

  /** One client after a decision, in the observer's terms. */
  lemma DecidedClient(s: Server, call: Call, t: Server, out: Outbox, i: nat)
    requires Sorted(s.clients) && DecisionShape(s, call, t, out) && i < |out|
    ensures var c, owed := t.clients[i], NacksIn(s.clients, out);
            && c.id == s.clients[i].id
            && (t.state == SendingNacks ==>
                  (c.state == SendingNack <==> c.id in owed) && (c.id in owed ==> owed[c.id] == c.expected)
                  && (out[i].Some? ==> out[i].value.vote == Nack))
            && (t.state != SendingNacks ==> out[i].None? || out[i].value.vote == Ack)
  {
    assert Decided(s.clients[i], call, t, t.clients[i], out[i]);
    assert forall j | 0 <= j < |out| && s.clients[j].id == s.clients[i].id :: j == i;
  }

  /** A decision leaves the observer and the server in agreement. */
  lemma DecisionKeepsInv(s: Server, call: Call, t: Server, out: Outbox)
    requires Sorted(s.clients) && DecisionShape(s, call, t, out)
    ensures Inv(t, NacksIn(s.clients, out))
    ensures SendsAck(out) ==> NacksIn(s.clients, out) == map[]
  {
    forall i | 0 <= i < |out| ensures t.clients[i].id == s.clients[i].id {
      DecidedClient(s, call, t, out, i);
    }
    if t.state == SendingNacks {
      NacksMatch(s, call, t, out);
      NacksReachClients(s, call, t, out);
    } else {
      forall i | 0 <= i < |out| ensures out[i].None? || out[i].value.vote == Ack {
        DecidedClient(s, call, t, out, i);
      }
      assert NacksIn(s.clients, out).Keys == {};
    }
  }

  lemma NacksMatch(s: Server, call: Call, t: Server, out: Outbox)
    requires Sorted(s.clients) && DecisionShape(s, call, t, out) && t.state == SendingNacks
    ensures Matches(t.clients, NacksIn(s.clients, out))
  {
    forall c | c in t.clients
      ensures var owed := NacksIn(s.clients, out);
              (c.state == SendingNack <==> c.id in owed) && (c.id in owed ==> owed[c.id] == c.expected)
    {
      var i :| 0 <= i < |t.clients| && t.clients[i] == c;
      DecidedClient(s, call, t, out, i);
    }
  }

  lemma NacksReachClients(s: Server, call: Call, t: Server, out: Outbox)
    requires Sorted(s.clients) && DecisionShape(s, call, t, out) && t.state == SendingNacks
    ensures NacksIn(s.clients, out).Keys <= Ids(t.clients) && !SendsAck(out)
  {
    var owed := NacksIn(s.clients, out);
    forall id | id in owed ensures id in Ids(t.clients) {
      var i :| 0 <= i < |s.clients| && out[i].Some? && out[i].value.vote == Nack && s.clients[i].id == id;
      DecidedClient(s, call, t, out, i);
      assert t.clients[i] in t.clients;
    }
    forall i | 0 <= i < |out| ensures out[i].None? || out[i].value.vote == Nack {
      DecidedClient(s, call, t, out, i);
    }
  }

  /** A current reply takes exactly its sender off the list. */
  lemma OwedAfterReply(s: Server, owed: map<nat, nat>, i: nat, j: nat)
    requires Inv(s, owed) && s.state == SendingNacks && i < |s.clients| && j < |s.clients|
    ensures var rest := owed - {s.clients[i].id};
            && (s.clients[j].id in rest <==> j != i && s.clients[j].state == SendingNack)
            && (s.clients[j].id in rest ==> rest[s.clients[j].id] == s.clients[j].expected)
  {
    assert s.clients[i] in s.clients && s.clients[j] in s.clients;
  }

  /** A current reply while another NACK is unanswered. */
  lemma ReplyBeforeLast(s: Server, owed: map<nat, nat>, i: nat, t: Server)
    requires Inv(s, owed) && s.state == SendingNacks && i < |s.clients| && !LastNackAnswered(s, i)
    requires t == s.(clients := s.clients[i := s.clients[i].(state := ClientWaiting)])
    ensures Inv(t, owed - {s.clients[i].id})
  {
    var rest := owed - {s.clients[i].id};
    forall c | c in t.clients
      ensures (c.state == SendingNack <==> c.id in rest) && (c.id in rest ==> rest[c.id] == c.expected)
    {
      var j :| 0 <= j < |t.clients| && t.clients[j] == c;
      OwedAfterReply(s, owed, i, j);
    }
    forall k | k in rest ensures k in Ids(t.clients) {
      var c :| c in s.clients && c.id == k;
      var j :| 0 <= j < |s.clients| && s.clients[j] == c;
      assert t.clients[j] in t.clients;
    }
  }

  /** The last current reply leaves nobody on the list. */
  lemma NothingOwed(s: Server, owed: map<nat, nat>, i: nat)
    requires Inv(s, owed) && i < |s.clients| && LastNackAnswered(s, i)
    ensures owed - {s.clients[i].id} == map[]
  {
    var rest := owed - {s.clients[i].id};
    assert rest.Keys == {} by {
      forall k ensures k !in rest {
        if k in owed {
          var c :| c in s.clients && c.id == k;
          var j :| 0 <= j < |s.clients| && s.clients[j] == c;
          OwedAfterReply(s, owed, i, j);
        }
      }
    }
  }

  function AfterReply(owed: map<nat, nat>, id: nat, seqNo: nat): map<nat, nat> {
    if id in owed && owed[id] == seqNo then owed - {id} else owed
  }

  lemma ReplyKeepsInv(s: Server, owed: map<nat, nat>, i: nat, seqNo: nat)
    requires Inv(s, owed) && i < |s.clients|
    ensures var (t, out) := ReplyReceived(s, i, seqNo);
            var owed' := AfterReply(owed, s.clients[i].id, seqNo);
            Inv(t, owed') && (SendsAck(out) ==> owed' == map[])
  {
    var (t, out) := ReplyReceived(s, i, seqNo);
    SortedIsUnique(s.clients);
    ReplyShape(s, i, seqNo);
    assert s.clients[i] in s.clients;
    if s.clients[i].expected != seqNo {
      assert s.state == SendingNacks ==> AfterReply(owed, s.clients[i].id, seqNo) == owed;
    } else if s.state == SendingNacks {
      assert AfterReply(owed, s.clients[i].id, seqNo) == owed - {s.clients[i].id};
      if LastNackAnswered(s, i) {
        NothingOwed(s, owed, i);
        AckedClients(s, i, t, out);
      } else {
        ReplyBeforeLast(s, owed, i, t);
      }
    } else {
      OtherReply(s, i, t, out);
    }
  }

  lemma AckedClients(s: Server, i: nat, t: Server, out: Outbox)
    requires Sorted(s.clients) && i < |s.clients| && LastNackAnswered(s, i)
    requires |t.clients| == |s.clients| == |out|
    requires forall j | 0 <= j < |s.clients| :: Answered(s, i, j, true, t.clients[j], out[j])
    ensures Sorted(t.clients) && NoneSending(t.clients, SendingNack)
  {
    forall j | 0 <= j < |s.clients| ensures t.clients[j].id == s.clients[j].id && t.clients[j].state != SendingNack {
      assert Answered(s, i, j, true, t.clients[j], out[j]);
    }
  }

  lemma OtherReply(s: Server, i: nat, t: Server, out: Outbox)
    requires Sorted(s.clients) && i < |s.clients|
    requires |t.clients| == |s.clients| == |out|
    requires forall j | 0 <= j < |s.clients| :: Answered(s, i, j, false, t.clients[j], out[j])
    ensures Sorted(t.clients) && !SendsAck(out)
    ensures NoneSending(s.clients, SendingNack) ==> NoneSending(t.clients, SendingNack)
  {
    forall j | 0 <= j < |s.clients|
      ensures t.clients[j].id == s.clients[j].id && out[j].None?
      ensures t.clients[j].state == s.clients[j].state || t.clients[j].state == ClientWaiting
    {
      assert Answered(s, i, j, false, t.clients[j], out[j]);
    }
  }

  // ---------------------------------------------------------------- every event

  /** The handshake looks only at these three fields of a client. */
  predicate SameRole(c: Client, d: Client) {
    d.id == c.id && d.state == c.state && d.expected == c.expected
  }

  lemma StoredIsSameRole(cs: seq<Client>, i: nat, d: Client, e: Client)
    requires i < |cs| && SameRole(cs[i], d) && e in cs[i := d]
    ensures exists c | c in cs :: SameRole(c, e)
  {
    var j :| 0 <= j < |cs| && cs[i := d][j] == e;
    assert cs[j] in cs && SameRole(cs[j], e);
  }

  lemma StoredIds(cs: seq<Client>, i: nat, d: Client)
    requires i < |cs| && cs[i].id == d.id
    ensures Ids(cs) <= Ids(cs[i := d])
  {
    var ds := cs[i := d];
    forall c | c in cs ensures c.id in Ids(ds) {
      var j :| 0 <= j < |cs| && cs[j] == c;
      assert ds[j] in ds;
    }
  }

  /** Storing lists, ring id, heuristics or options does not touch the handshake. */
  lemma StoreKeepsInv(s: Server, owed: map<nat, nat>, i: nat, d: Client)
    requires Inv(s, owed) && i < |s.clients| && SameRole(s.clients[i], d)
    ensures Inv(s.(clients := s.clients[i := d]), owed)
  {
    var t := s.(clients := s.clients[i := d]);
    StoredIds(s.clients, i, d);
    if s.state == SendingNacks {
      forall e | e in t.clients
        ensures (e.state == SendingNack <==> e.id in owed) && (e.id in owed ==> owed[e.id] == e.expected)
      {
        StoredIsSameRole(s.clients, i, d, e);
      }
    }
  }

  lemma EffectKeepsInv(s: Server, owed: map<nat, nat>, call: Call, e: Effect)
    requires Inv(s, owed) && EffectShape(s, call, e)
    ensures var owed' := if e.decided then NacksIn(s.clients, e.out) else owed;
            Inv(e.server, owed') && (SendsAck(e.out) ==> e.decided && owed' == map[])
  {
    if e.decided {
      DecisionKeepsInv(s, call, e.server, e.out);
    }
  }

  lemma JoinKeepsInv(s: Server, owed: map<nat, nat>, c: Client)
    requires Inv(s, owed) && (forall d | d in s.clients :: d.id != c.id) && c.state == ClientWaiting
    ensures Inv(s.(clients := Insert(s.clients, c)), owed)
  {
    InsertKeepsSorted(s.clients, c);
    var cs := Insert(s.clients, c);
    forall i | s.state == SendingAcks && 0 <= i < |cs| ensures cs[i].state != SendingNack {
      assert cs[i] in cs;
    }
    if s.state == SendingNacks {
      assert c.id !in owed;
      forall id | id in owed ensures id in Ids(cs) {
        var d :| d in s.clients && d.id == id;
        assert d in cs;
      }
    }
  }

  lemma StillThere(cs: seq<Client>, i: nat, c: Client)
    requires i < |cs| && c in cs && c.id != cs[i].id
    ensures c in Without(cs, i)
  {
    var j :| 0 <= j < |cs| && cs[j] == c;
    assert Without(cs, i)[if j < i then j else j - 1] == c;
  }

  lemma WasThere(cs: seq<Client>, i: nat, c: Client)
    requires Sorted(cs) && i < |cs| && c in Without(cs, i)
    ensures c in cs && c.id != cs[i].id
  {
    var j :| 0 <= j < |Without(cs, i)| && Without(cs, i)[j] == c;
    assert cs[if j < i then j else j + 1] == c;
  }

  lemma WithoutElements(cs: seq<Client>, i: nat)
    requires Sorted(cs) && i < |cs|
    ensures Sorted(Without(cs, i))
    ensures forall c :: c in Without(cs, i) <==> c in cs && c.id != cs[i].id
  {
    forall c ensures c in Without(cs, i) <==> c in cs && c.id != cs[i].id {
      if c in Without(cs, i) {
        WasThere(cs, i, c);
      } else if c in cs && c.id != cs[i].id {
        StillThere(cs, i, c);
      }
    }
  }

  lemma RemovalKeepsMatches(cs: seq<Client>, owed: map<nat, nat>, i: nat)
    requires Sorted(cs) && i < |cs| && Matches(cs, owed) && owed.Keys <= Ids(cs)
    ensures Matches(Without(cs, i), owed - {cs[i].id}) && (owed - {cs[i].id}).Keys <= Ids(Without(cs, i))
  {
    WithoutElements(cs, i);
  }

  lemma RemovalKeepsInv(s: Server, owed: map<nat, nat>, i: nat)
    requires Inv(s, owed) && i < |s.clients|
    ensures Inv(s.(clients := Without(s.clients, i)), owed - {s.clients[i].id})
  {
    WithoutElements(s.clients, i);
    if s.state == SendingNacks {
      RemovalKeepsMatches(s.clients, owed, i);
    }
  }

  /** The client that leaves is refused nothing. */
  lemma LeaverOwesNothing(s: Server, i: nat, call: Call, e: Effect)
    requires Sorted(s.clients) && i < |s.clients| && Leaves(s.clients[i], call)
    requires EffectShape(s, call, e)
    ensures e.server.clients[i].id == s.clients[i].id
    ensures e.decided ==> s.clients[i].id !in NacksIn(s.clients, e.out)
  {
    if e.decided {
      assert Decided(s.clients[i], call, e.server, e.server.clients[i], e.out[i]);
      assert e.out[i].None?;
    }
  }

  lemma StoreKeepsTwoPhase(s: Server, owed: map<nat, nat>, i: nat, call: Call, e: Effect)
    requires Inv(s, owed) && i < |s.clients| && EffectShape(s, call, e)
    ensures var a := FinishStore(s, i, call, e);
            var owed' := if a.decided then NacksIn(s.clients, a.out) else owed;
            Inv(a.server, owed') && (SendsAck(a.out) ==> owed' == map[])
  {
    EffectKeepsInv(s, owed, call, e);
    StoreKeepsInv(e.server, if e.decided then NacksIn(s.clients, e.out) else owed, i, Seen(e.server.clients[i], call));
  }

  lemma ResetKeepsInv(owed: map<nat, nat>)
    ensures Inv(Server([], WaitingForChange, []), owed)
  {
  }

  lemma CrashedInv(s: Server, owed: map<nat, nat>, call: Call, e: Effect)
    requires Sorted(s.clients) && EffectShape(s, call, e) && e.crashed
    ensures Inv(e.server, owed) && !SendsAck(e.out)
  {
  }

  lemma FreeRemoval(s: Server, owed: map<nat, nat>, i: nat)
    requires Inv(s, owed) && i < |s.clients| && s.clients[i].id !in owed
    ensures Inv(s.(clients := Without(s.clients, i)), owed)
  {
    RemovalKeepsInv(s, owed, i);
    assert owed - {s.clients[i].id} == owed;
  }

  lemma DecidedRemoval(s: Server, i: nat, call: Call, e: Effect)
    requires Sorted(s.clients) && i < |s.clients| && Leaves(s.clients[i], call)
    requires EffectShape(s, call, e) && e.decided
    ensures |e.server.clients| == |s.clients| && e.server.clients[i].id == s.clients[i].id
    ensures var owed := NacksIn(s.clients, e.out);
            Inv(e.server.(clients := Without(e.server.clients, i)), owed) && (SendsAck(e.out) ==> owed == map[])
  {
    var owed := NacksIn(s.clients, e.out);
    DecisionKeepsInv(s, call, e.server, e.out);
    LeaverOwesNothing(s, i, call, e);
    FreeRemoval(e.server, owed, i);
  }

  lemma UndecidedRemoval(s: Server, owed: map<nat, nat>, i: nat, call: Call, e: Effect)
    requires Inv(s, owed) && i < |s.clients| && EffectShape(s, call, e) && !e.decided
    ensures |e.server.clients| == |s.clients|
    ensures Inv(e.server.(clients := Without(e.server.clients, i)), owed - {s.clients[i].id}) && !SendsAck(e.out)
  {
    EffectKeepsInv(s, owed, call, e);
    RemovalKeepsInv(e.server, owed, i);
  }

  lemma RemovalKeepsTwoPhase(s: Server, owed: map<nat, nat>, i: nat, call: Call, e: Effect)
    requires Inv(s, owed) && i < |s.clients| && Leaves(s.clients[i], call) && EffectShape(s, call, e)
    ensures |e.server.clients| == |e.out| == |s.clients|
    ensures var a := FinishDisconnect(s, i, e);
            var owed' := if a.decided then NacksIn(s.clients, a.out) else owed - {s.clients[i].id};
            Inv(a.server, owed') && (SendsAck(a.out) ==> owed' == map[])
  {
    var owed' := if e.decided then NacksIn(s.clients, e.out) else owed - {s.clients[i].id};
    ResetKeepsInv(owed');
    if e.crashed {
      CrashedInv(s, owed', call, e);
    } else if e.decided {
      DecidedRemoval(s, i, call, e);
    } else {
      UndecidedRemoval(s, owed, i, call, e);
    }
  }

  lemma DecideKeepsInv(s: Server, owed: map<nat, nat>, i: nat, call: Call, ready: bool)
    requires Inv(s, owed) && i < |s.clients| && call.id == s.clients[i].id
    ensures var a := DecideAndStore(s, i, call, ready);
            var owed' := if a.decided then NacksIn(s.clients, a.out) else owed;
            Inv(a.server, owed') && (SendsAck(a.out) ==> owed' == map[])
  {
    DoShape(s, call);
    StoreKeepsTwoPhase(s, owed, i, call, if ready then Do(s, call) else AskLaterEffect(s));
  }

  lemma DisconnectKeepsInv(s: Server, owed: map<nat, nat>, i: nat)
    requires Inv(s, owed) && i < |s.clients|
    ensures var a := Disconnect(s, i);
            var owed' := if a.decided then NacksIn(s.clients, a.out) else owed - {s.clients[i].id};
            Inv(a.server, owed') && (SendsAck(a.out) ==> owed' == map[])
  {
    var call := CallOf(s.clients[i], true);
    DoShape(s, call);
    RemovalKeepsTwoPhase(s, owed, i, call, Do(s, call));
  }

  /** The events that give the decision something new. */
  lemma ReportKeepsInv(s: Server, owed: map<nat, nat>, e: Event)
    requires Inv(s, owed) && ValidEvent(s, e) && (e.ConfigReceived? || e.MembershipReceived? || e.HeuristicsReceived?)
    ensures var a := Handle(s, e);
            Inv(a.server, Observe(owed, s, e, a))
            && (SendsAck(a.out) ==> Observe(owed, s, e, a) == map[])
  {
    match e
    case ConfigReceived(i, nodes, initial) =>
      DecideKeepsInv(s, owed, i, CallOf(s.clients[i], false).(config := nodes), !initial && s.clients[i].members != []);
    case MembershipReceived(i, ring, nodes, heuristics) =>
      DecideKeepsInv(s, owed, i, CallOf(s.clients[i], false).(ring := ring, members := nodes, heuristics := heuristics),
                     s.clients[i].config != []);
    case HeuristicsReceived(i, heuristics) =>
      DecideKeepsInv(s, owed, i, CallOf(s.clients[i], false).(heuristics := heuristics),
                     s.clients[i].config != [] && s.clients[i].members != []);
  }

  /** One event: the invariant is kept, and an ACK is sent only when no NACK is unanswered. */
  lemma EventKeepsInv(s: Server, owed: map<nat, nat>, e: Event)
    requires Inv(s, owed) && ValidEvent(s, e)
    ensures var a := Handle(s, e);
            Inv(a.server, Observe(owed, s, e, a))
            && (SendsAck(a.out) ==> Observe(owed, s, e, a) == map[])
  {
    match e
    case InitReceived(id, ring, tieBreaker, keepActive) =>
      if CheckNewClient(s.clients, id, tieBreaker) == NoError {
        JoinKeepsInv(s, owed, NewClient(id, ring, tieBreaker, keepActive));
      }
    case KeepActiveSet(i, on) =>
      StoreKeepsInv(s, owed, i, s.clients[i].(keepActive := on));
    case VoteReply(i, seqNo) =>
      ReplyKeepsInv(s, owed, i, seqNo);
    case Disconnected(i) =>
      DisconnectKeepsInv(s, owed, i);
    case _ =>
      ReportKeepsInv(s, owed, e);
  }

  // ---------------------------------------------------------------- every run

  /** Every event of the run concerns a client that is connected at that moment. */
  predicate ValidRun(s: Server, events: seq<Event>)
    decreases |events|
  {
    events == [] || (ValidEvent(s, events[0]) && ValidRun(Handle(s, events[0]).server, events[1..]))
  }

  /** At every point of the run: SENDING_ACKS means no client is in SENDING_NACK, and when a
      message with an ACK is sent every NACK of the decision has been answered by each client
      that is still connected, with its current number. */
  predicate TwoPhase(s: Server, owed: map<nat, nat>, events: seq<Event>)
    requires ValidRun(s, events)
    decreases |events|
  {
    && Sorted(s.clients)
    && (s.state == SendingAcks ==> NoneSending(s.clients, SendingNack))
    && (events != [] ==>
          var a := Handle(s, events[0]);
          var rest := Observe(owed, s, events[0], a);
          (SendsAck(a.out) ==> rest == map[]) && TwoPhase(a.server, rest, events[1..]))
  }

  lemma {:induction false} RunKeepsTwoPhase(s: Server, owed: map<nat, nat>, events: seq<Event>)
    requires Inv(s, owed) && ValidRun(s, events)
    ensures TwoPhase(s, owed, events)
    decreases |events|
  {
    if events != [] {
      EventKeepsInv(s, owed, events[0]);
      var a := Handle(s, events[0]);
      RunKeepsTwoPhase(a.server, Observe(owed, s, events[0], a), events[1..]);
    }
  }

  /** The handshake over every sequence of events from an empty cluster. */
  lemma TwoPhaseHandshake(events: seq<Event>)
    requires ValidRun(Server([], WaitingForChange, []), events)
    ensures TwoPhase(Server([], WaitingForChange, []), map[], events)
  {
    RunKeepsTwoPhase(Server([], WaitingForChange, []), map[], events);
  }
}
