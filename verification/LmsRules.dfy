/**
  The rules of last man standing in terms of what the clients have reported: groups and scores
  are numbers of clients, and a newcomer is held back while another group is active.
*/
module LmsRules {
  import opened Tlv
  import opened Lms

  // ---------------------------------------------------------------- counting

  ghost function Group(cs: seq<LmsClient>, r: RingId): set<nat> {
    set c | c in cs && c.ring == r :: c.id
  }

  ghost function GroupWith(cs: seq<LmsClient>, r: RingId, h: Heuristics): set<nat> {
    set c | c in cs && c.ring == r && c.heuristics == h :: c.id
  }

  /** The score: clients, and passed less failed heuristics. */
  ghost function Standing(cs: seq<LmsClient>, r: RingId): int {
    |Group(cs, r)| + |GroupWith(cs, r, Pass)| - |GroupWith(cs, r, Fail)|
  }

  predicate UniqueIds(cs: seq<LmsClient>) {
    forall i, j | 0 <= i < j < |cs| :: cs[i].id != cs[j].id
  }

  lemma OneMore(front: seq<LmsClient>, d: LmsClient, c: LmsClient)
    requires UniqueIds(front + [d])
    ensures c in front + [d] <==> c == d || c in front
    ensures c in front ==> c.id != d.id
  {
    var cs := front + [d];
    assert cs[|front|] == d;
    if c in front {
      var i :| 0 <= i < |front| && front[i] == c;
      assert cs[i] == c;
    }
  }

  lemma OneMoreClient(front: seq<LmsClient>, d: LmsClient, r: RingId)
    requires UniqueIds(front + [d])
    ensures |Group(front + [d], r)| == |Group(front, r)| + if d.ring == r then 1 else 0
  {
    forall c ensures (c in front + [d] <==> c == d || c in front) && (c in front ==> c.id != d.id) {
      OneMore(front, d, c);
    }
    assert d.id !in Group(front, r);
    assert Group(front + [d], r) == Group(front, r) + if d.ring == r then {d.id} else {};
  }

  lemma OneMoreWith(front: seq<LmsClient>, d: LmsClient, r: RingId, h: Heuristics)
    requires UniqueIds(front + [d])
    ensures |GroupWith(front + [d], r, h)| == |GroupWith(front, r, h)| + if d.ring == r && d.heuristics == h then 1 else 0
  {
    forall c ensures (c in front + [d] <==> c == d || c in front) && (c in front ==> c.id != d.id) {
      OneMore(front, d, c);
    }
    assert d.id !in GroupWith(front, r, h);
    if d.ring == r && d.heuristics == h {
      assert GroupWith(front + [d], r, h) == GroupWith(front, r, h) + {d.id};
    } else {
      assert GroupWith(front + [d], r, h) == GroupWith(front, r, h);
    }
  }

  /** The loops' sums are these numbers. */
  lemma {:induction false} SumsAreNumbers(cs: seq<LmsClient>, r: RingId)
    requires UniqueIds(cs) && r.seqNo != 0
    ensures Size(cs, r) == |Group(cs, r)| && Score(cs, r) == Standing(cs, r)
    decreases |cs|
  {
    if cs != [] {
      var front, d := cs[..|cs| - 1], cs[|cs| - 1];
      assert cs == front + [d];
      SumsAreNumbers(front, r);
      NumbersMore(front, d, r);
    }
  }

  lemma NumbersMore(front: seq<LmsClient>, d: LmsClient, r: RingId)
    requires UniqueIds(front + [d])
    ensures |Group(front + [d], r)| == |Group(front, r)| + if d.ring == r then 1 else 0
    ensures Standing(front + [d], r) == Standing(front, r) + if d.ring == r then Points(d) else 0
  {
    OneMoreClient(front, d, r);
    OneMoreWith(front, d, r, Pass);
    OneMoreWith(front, d, r, Fail);
  }

  // ---------------------------------------------------------------- the winner

  ghost predicate BestAlone(cs: seq<LmsClient>, r: RingId) {
    Group(cs, r) != {} && forall c | c in cs && c.ring != r :: Standing(cs, c.ring) < Standing(cs, r)
  }

  ghost predicate LargestAlone(cs: seq<LmsClient>, r: RingId) {
    Group(cs, r) != {} && forall c | c in cs && c.ring != r :: |Group(cs, c.ring)| < |Group(cs, r)|
  }

  ghost predicate SomeBest(cs: seq<LmsClient>) {
    exists r :: BestAlone(cs, r)
  }

  ghost predicate SomeLargest(cs: seq<LmsClient>) {
    exists r :: LargestAlone(cs, r)
  }

  /** The client with the lowest or highest id. */
  ghost predicate Extreme(cs: seq<LmsClient>, tb: TieBreaker, c: LmsClient) {
    c in cs && forall d | d in cs :: if tb == Lowest then c.id <= d.id else d.id <= c.id
  }

  ghost predicate HasExtreme(cs: seq<LmsClient>, tb: TieBreaker, r: RingId) {
    exists c :: Extreme(cs, tb, c) && c.ring == r
  }

  /** The best standing, when it is alone; else the largest group, when it is alone; else the
      group of the lowest or highest id. */
  ghost predicate Deserves(cs: seq<LmsClient>, tb: TieBreaker, r: RingId) {
    if SomeBest(cs) then BestAlone(cs, r)
    else if SomeLargest(cs) then LargestAlone(cs, r)
    else HasExtreme(cs, tb, r)
  }

  lemma GroupIsThere(cs: seq<LmsClient>, r: RingId)
    requires forall c | c in cs :: c.ring.seqNo != 0
    ensures r in Rings(cs) <==> Group(cs, r) != {}
  {
    if r in Rings(cs) {
      var c :| c in cs && c.ring == r;
      assert c.id in Group(cs, r);
    }
    if Group(cs, r) != {} {
      var id :| id in Group(cs, r);
      var c :| c in cs && c.ring == r && c.id == id;
    }
  }

  lemma BestAloneIff(cs: seq<LmsClient>, tb: TieBreaker, r: RingId)
    requires Snapshot(cs, tb)
    ensures Leads(Scores(cs), r) <==> BestAlone(cs, r)
    ensures Leads(Sizes(cs), r) <==> LargestAlone(cs, r)
  {
    GroupIsThere(cs, r);
    forall q | q in Rings(cs) ensures Scores(cs)[q] == Standing(cs, q) && Sizes(cs)[q] == |Group(cs, q)| {
      SumsAreNumbers(cs, q);
    }
    forall c | c in cs ensures c.ring in Rings(cs) {
    }
  }

  lemma ExtremeIff(cs: seq<LmsClient>, tb: TieBreaker, r: RingId)
    requires !tb.Nominated?
    ensures r in Holders(cs, tb) <==> HasExtreme(cs, tb, r)
  {
    forall c | c in cs ensures Named(cs, tb, c) <==> Extreme(cs, tb, c) {
    }
  }

  /** The winner, without a look at the loops. */
  lemma WinsIff(cs: seq<LmsClient>, tb: TieBreaker, r: RingId)
    requires Snapshot(cs, tb)
    ensures Wins(cs, tb, r) <==> Deserves(cs, tb, r)
  {
    forall q ensures (Leads(Scores(cs), q) <==> BestAlone(cs, q)) && (Leads(Sizes(cs), q) <==> LargestAlone(cs, q)) {
      BestAloneIff(cs, tb, q);
    }
    assert SomeLeader(Scores(cs)) <==> SomeBest(cs);
    assert SomeLeader(Sizes(cs)) <==> SomeLargest(cs);
    ExtremeIff(cs, tb, r);
  }

  // ---------------------------------------------------------------- the vote

  /** Another client that is in the list of client i, or has it in its own, reports another ring. */
  predicate Mismatch(cs: seq<LmsClient>, i: nat)
    requires i < |cs|
  {
    exists j :: 0 <= j < |cs| && j != i && (cs[j].id in cs[i].members || cs[i].id in cs[j].members) && cs[j].ring != cs[i].ring
  }

  /** A client with another ring id holds an ACK. */
  predicate OthersActive(cs: seq<LmsClient>, i: nat)
    requires i < |cs|
  {
    exists j :: 0 <= j < |cs| && cs[j].ring != cs[i].ring && cs[j].last == Some(Ack)
  }

  lemma MatchIff(cs: seq<LmsClient>, i: nat)
    requires i < |cs|
    ensures RingsMatch(cs, i, cs[i].ring) <==> !Mismatch(cs, i)
  {
  }

  lemma ActiveIff(cs: seq<LmsClient>, i: nat)
    requires i < |cs|
    ensures Blocked(cs, i, cs[i].ring) <==> cs[i].last.None? && OthersActive(cs, i)
  {
    if d :| d in cs && d.ring != cs[i].ring && d.last == Some(Ack) {
      var j :| 0 <= j < |cs| && cs[j] == d;
    }
  }

  lemma AnotherRing(cs: seq<LmsClient>, tb: TieBreaker, i: nat)
    requires Snapshot(cs, tb) && i < |cs| && OthersActive(cs, i)
    ensures |Rings(cs)| > 1
  {
    var j :| 0 <= j < |cs| && cs[j].ring != cs[i].ring;
    assert cs[i] in cs && cs[j] in cs && {cs[i].ring, cs[j].ring} <= Rings(cs);
    TwoElements(Rings(cs), cs[i].ring, cs[j].ring);
  }

  lemma TwoElements(rings: set<RingId>, a: RingId, b: RingId)
    requires a in rings && b in rings && a != b
    ensures |rings| > 1
  {
    var others := rings - {a};
    assert b in others && |others| > 0;
    assert rings == others + {a};
  }

  lemma MismatchWaits(cs: seq<LmsClient>, i: nat)
    requires i < |cs| && Mismatch(cs, i)
    ensures VoteOf(cs, i, cs[i].ring) == (WaitForReply, Some(WaitForReply))
  {
    MatchIff(cs, i);
  }

  lemma NewcomerIsRefused(cs: seq<LmsClient>, tb: TieBreaker, i: nat)
    requires Snapshot(cs, tb) && i < |cs| && !Mismatch(cs, i) && cs[i].last == None && OthersActive(cs, i)
    ensures VoteOf(cs, i, cs[i].ring) == (Nack, None)
  {
    MatchIff(cs, i);
    ActiveIff(cs, i);
    AnotherRing(cs, tb, i);
  }

  lemma DeservingGetsAck(cs: seq<LmsClient>, tb: TieBreaker, i: nat)
    requires Snapshot(cs, tb) && i < |cs| && !Mismatch(cs, i) && !(cs[i].last == None && OthersActive(cs, i))
    ensures VoteOf(cs, i, cs[i].ring) == if Deserves(cs, tb, cs[i].ring) then (Ack, Some(Ack)) else (Nack, Some(Nack))
  {
    MatchIff(cs, i);
    ActiveIff(cs, i);
    WinsIff(cs, tb, cs[i].ring);
    VoteAgrees(cs, tb, i);
    assert cs[i] in cs && cs[i].ring in Rings(cs);
    if Wins(cs, tb, cs[i].ring) {
      assert VoteOf(cs, i, cs[i].ring) == (Ack, Some(Ack));
    } else {
      assert VoteOf(cs, i, cs[i].ring) == (Nack, Some(Nack));
    }
  }

  /** Every case of the vote and of the stored result. */
  lemma VoteTable(cs: seq<LmsClient>, tb: TieBreaker, i: nat)
    requires Snapshot(cs, tb) && i < |cs|
    ensures Mismatch(cs, i) ==> VoteOf(cs, i, cs[i].ring) == (WaitForReply, Some(WaitForReply))
    ensures !Mismatch(cs, i) && cs[i].last == None && OthersActive(cs, i) ==> VoteOf(cs, i, cs[i].ring) == (Nack, None)
    ensures !Mismatch(cs, i) && !(cs[i].last == None && OthersActive(cs, i)) ==>
              VoteOf(cs, i, cs[i].ring) == if Deserves(cs, tb, cs[i].ring) then (Ack, Some(Ack)) else (Nack, Some(Nack))
  {
    if Mismatch(cs, i) {
      MismatchWaits(cs, i);
    } else if cs[i].last == None && OthersActive(cs, i) {
      NewcomerIsRefused(cs, tb, i);
    } else {
      DeservingGetsAck(cs, tb, i);
    }
  }

  // ---------------------------------------------------------------- newcomers in a round

  /** What has been evaluated so far changes only the stored results of those in the order. */
  lemma {:induction false} RoundLeavesOthers(cs: seq<LmsClient>, order: seq<nat>, j: nat)
    requires InRange(cs, order) && j < |cs| && j !in order
    ensures Round(cs, order)[j] == cs[j]
    decreases |order|
  {
    if order != [] {
      assert order[0] in order;
      RoundLeavesOthers(WithResult(cs, order[0]), order[1..], j);
    }
  }

  /** In any round and at any point of it: while a client with another ring id holds an ACK, a
      client without a result is not told ACK, and stays one unless it is told to wait. */
  lemma NewcomersHeldBack(cs: seq<LmsClient>, tb: TieBreaker, order: seq<nat>, i: nat)
    requires Snapshot(cs, tb) && InRange(cs, order) && i < |cs|
    ensures var ds := Round(cs, order);
            ds[i].last == None && OthersActive(ds, i) ==>
              VoteOf(ds, i, ds[i].ring) == if Mismatch(cs, i) then (WaitForReply, Some(WaitForReply)) else (Nack, None)
  {
    var ds := Round(cs, order);
    RoundKeepsReports(cs, tb, order);
    VoteTable(ds, tb, i);
    assert Mismatch(ds, i) <==> Mismatch(cs, i);
  }

  /** In particular the newcomers of a round get no ACK before the active clients have been
      evaluated anew. */
  lemma ActivePartitionFirst(cs: seq<LmsClient>, tb: TieBreaker, order: seq<nat>, i: nat, j: nat)
    requires Snapshot(cs, tb) && InRange(cs, order) && i < |cs| && j < |cs|
    requires cs[j].ring != cs[i].ring && cs[j].last == Some(Ack) && j !in order
    ensures Round(cs, order)[i].last == None ==> VoteOf(Round(cs, order), i, cs[i].ring).0 != Ack
  {
    RoundLeavesOthers(cs, order, j);
    RoundKeepsReports(cs, tb, order);
    NewcomersHeldBack(cs, tb, order, i);
  }
}
