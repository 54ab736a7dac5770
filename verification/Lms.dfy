/**
  The last-man-standing algorithm: clients are grouped by ring id, the groups are scored, and
  every client is told separately whether its own group wins.
*/
module Lms {
  import opened Tlv

  /** What the server stores for a client; `last` is None until the client has had a result. */
  datatype LmsClient = LmsClient(
    id: nat,
    tieBreaker: TieBreaker,
    ring: RingId,
    members: seq<nat>,
    heuristics: Heuristics,
    last: Option<Vote>)

  const INT_MAX: nat := 0x7fff_ffff
  const NO_RING := RingId(0, 0)

  // ---------------------------------------------------------------- groups by ring id

  predicate InGroup(c: LmsClient, r: RingId) {
    c.ring.seqNo != 0 && c.ring == r
  }

  function Points(c: LmsClient): int {
    match c.heuristics
    case Pass => 2
    case Fail => 0
    case HeuristicsUndefined => 1
  }

  /** The number of clients with ring id r, and their score: one point each, one more for a
      passed heuristics, one less for a failed one. */
  function Size(cs: seq<LmsClient>, r: RingId): nat {
    if cs == [] then 0 else Size(cs[..|cs| - 1], r) + if InGroup(cs[|cs| - 1], r) then 1 else 0
  }

  function Score(cs: seq<LmsClient>, r: RingId): (s: int)
    ensures 0 <= s <= 2 * Size(cs, r)
  {
    if cs == [] then 0 else Score(cs[..|cs| - 1], r) + if InGroup(cs[|cs| - 1], r) then Points(cs[|cs| - 1]) else 0
  }

  function Rings(cs: seq<LmsClient>): set<RingId> {
    set c | c in cs && c.ring.seqNo != 0 :: c.ring
  }

  // ---------------------------------------------------------------- the winner

  type Figures = map<RingId, int>

  function Sizes(cs: seq<LmsClient>): Figures {
    map r | r in Rings(cs) :: Size(cs, r)
  }

  function Scores(cs: seq<LmsClient>): Figures {
    map r | r in Rings(cs) :: Score(cs, r)
  }

  /** r has the greatest figure, and alone. */
  predicate Leads(figures: Figures, r: RingId) {
    r in figures && forall q | q in figures && q != r :: figures[q] < figures[r]
  }

  ghost predicate SomeLeader(figures: Figures) {
    exists q :: Leads(figures, q)
  }

  /** The one best score, else the one largest group of all, else the tie-breaker. */
  ghost predicate Elects(scores: Figures, sizes: Figures, holders: set<RingId>, r: RingId) {
    r in scores
    && if SomeLeader(scores) then Leads(scores, r) else if SomeLeader(sizes) then Leads(sizes, r) else r in holders
  }

  /** c is the node the tie-breaker names, of all connected clients. */
  predicate Named(cs: seq<LmsClient>, tb: TieBreaker, c: LmsClient) {
    c in cs
    && match tb
       case Lowest => forall d | d in cs :: c.id <= d.id
       case Highest => forall d | d in cs :: d.id <= c.id
       case Nominated(id) => c.id == id
  }

  function Holders(cs: seq<LmsClient>, tb: TieBreaker): set<RingId> {
    set c | c in cs && Named(cs, tb, c) :: c.ring
  }

  ghost predicate Wins(cs: seq<LmsClient>, tb: TieBreaker, r: RingId) {
    Elects(Scores(cs), Sizes(cs), Holders(cs, tb), r)
  }

  lemma ElectsExactlyOne(scores: Figures, sizes: Figures, holder: RingId)
    requires scores.Keys == sizes.Keys && holder in scores
    ensures exists r :: Elects(scores, sizes, {holder}, r)
    ensures forall r, q | Elects(scores, sizes, {holder}, r) && Elects(scores, sizes, {holder}, q) :: r == q
  {
    if r :| Leads(scores, r) {
      assert Elects(scores, sizes, {holder}, r);
    } else if r :| Leads(sizes, r) {
      assert Elects(scores, sizes, {holder}, r);
    } else {
      assert Elects(scores, sizes, {holder}, holder);
    }
  }

  // ---------------------------------------------------------------- the checks before it

  predicate Related(c: LmsClient, d: LmsClient) {
    d.id in c.members || c.id in d.members
  }

  /** No other client that is in c's list, or has c in its list, has another ring id. */
  predicate RingsMatch(cs: seq<LmsClient>, i: nat, ring: RingId)
    requires i < |cs|
  {
    forall j | 0 <= j < |cs| && j != i && Related(cs[i], cs[j]) :: cs[j].ring == ring
  }

  /** A client without a result yet, while somebody with another ring id holds an ACK. */
  predicate Blocked(cs: seq<LmsClient>, i: nat, ring: RingId)
    requires i < |cs|
  {
    cs[i].last.None? && exists d | d in cs :: d.ring != ring && d.last == Some(Ack)
  }

  /** The vote for client i with ring id `ring`, and its stored result afterwards. */
  ghost function VoteOf(cs: seq<LmsClient>, i: nat, ring: RingId): (r: (Vote, Option<Vote>))
    requires i < |cs|
  {
    if !RingsMatch(cs, i, ring) || Rings(cs) == {} then (WaitForReply, Some(WaitForReply))
    else if |Rings(cs)| == 1 then (Ack, Some(Ack))
    else if Blocked(cs, i, ring) then (Nack, cs[i].last)
    else if Elected(cs, i, ring) then (Ack, Some(Ack))
    else (Nack, Some(Nack))
  }

  /** The group's score or size wins, or the tie-breaker decides as the source evaluates it:
      a nominated node gets the vote only for itself. */
  ghost predicate Elected(cs: seq<LmsClient>, i: nat, ring: RingId)
    requires i < |cs|
  {
    if SomeLeader(Scores(cs)) then Leads(Scores(cs), ring)
    else if SomeLeader(Sizes(cs)) then Leads(Sizes(cs), ring)
    else TieBreakerElects(cs, i, ring)
  }

  predicate TieBreakerElects(cs: seq<LmsClient>, i: nat, ring: RingId)
    requires i < |cs|
  {
    var (tbId, tbRing) := TieBreakerNode(cs, cs[i]);
    cs[i].id == tbId || tbRing == ring
  }

  /** The loop over the clients that looks for the tie-breaker node, as client c runs it. */
  function TieBreakerNode(cs: seq<LmsClient>, c: LmsClient): (nat, RingId) {
    if cs == [] then
      (match c.tieBreaker case Lowest => INT_MAX case Highest => 0 case Nominated(id) => id, NO_RING)
    else
      var (tbId, tbRing) := TieBreakerNode(cs[..|cs| - 1], c);
      var d := cs[|cs| - 1];
      match c.tieBreaker
      case Lowest => if d.id < tbId then (d.id, d.ring) else (tbId, tbRing)
      case Highest => if d.id > tbId then (d.id, d.ring) else (tbId, tbRing)
      case Nominated(id) => (tbId, if id == c.id then d.ring else tbRing)
  }

  // ---------------------------------------------------------------- agreement

  /** What the algorithm is made for: everybody has reported a ring id, and the tie-breaker is
      the lowest or the highest node id. */
  ghost predicate Snapshot(cs: seq<LmsClient>, tb: TieBreaker) {
    && !tb.Nominated?
    && (forall i, j | 0 <= i < j < |cs| :: cs[i].id != cs[j].id)
    && (forall c | c in cs :: c.ring.seqNo != 0 && c.tieBreaker == tb && 1 <= c.id < INT_MAX)
  }

  /** One more client in the search for the tie-breaker node. */
  lemma NamedExtends(front: seq<LmsClient>, tb: TieBreaker, e: LmsClient, d: LmsClient)
    requires Named(front, tb, e) && !tb.Nominated?
    ensures Named(front + [d], tb, if (tb == Lowest && d.id < e.id) || (tb == Highest && d.id > e.id) then d else e)
  {
  }

  lemma {:induction false} TieBreakerIsNamed(cs: seq<LmsClient>, all: seq<LmsClient>, tb: TieBreaker, c: LmsClient)
    requires cs != [] && cs <= all && Snapshot(all, tb) && c.tieBreaker == tb
    ensures exists d :: Named(cs, tb, d) && TieBreakerNode(cs, c) == (d.id, d.ring)
  {
    var front, d := cs[..|cs| - 1], cs[|cs| - 1];
    assert d in all;
    assert cs == front + [d];
    if front == [] {
      assert TieBreakerNode(front, c) == (if tb == Lowest then INT_MAX else 0, NO_RING);
      assert Named(cs, tb, d);
    } else {
      TieBreakerIsNamed(front, all, tb, c);
      var e :| Named(front, tb, e) && TieBreakerNode(front, c) == (e.id, e.ring);
      NamedExtends(front, tb, e, d);
    }
  }

  lemma NamedIsUnique(cs: seq<LmsClient>, tb: TieBreaker, c: LmsClient, d: LmsClient)
    requires Snapshot(cs, tb) && Named(cs, tb, c) && Named(cs, tb, d)
    ensures c == d
  {
    var i :| 0 <= i < |cs| && cs[i] == c;
    var j :| 0 <= j < |cs| && cs[j] == d;
    assert c.id == d.id;
  }

  lemma OneHolder(cs: seq<LmsClient>, tb: TieBreaker, d: LmsClient)
    requires Snapshot(cs, tb) && Named(cs, tb, d)
    ensures Holders(cs, tb) == {d.ring} && d.ring in Rings(cs)
  {
    forall c | c in cs && Named(cs, tb, c) ensures c == d {
      NamedIsUnique(cs, tb, c, d);
    }
  }

  lemma TieBreakerElectsHolder(cs: seq<LmsClient>, tb: TieBreaker, i: nat)
    requires Snapshot(cs, tb) && i < |cs|
    ensures TieBreakerElects(cs, i, cs[i].ring) <==> cs[i].ring in Holders(cs, tb)
  {
    assert cs[i] in cs;
    TieBreakerIsNamed(cs, cs, tb, cs[i]);
    var (tbId, tbRing) := TieBreakerNode(cs, cs[i]);
    var d :| Named(cs, tb, d) && TieBreakerNode(cs, cs[i]) == (d.id, d.ring);
    OneHolder(cs, tb, d);
    if cs[i].id == tbId {
      var j :| 0 <= j < |cs| && cs[j] == d;
      assert j == i;
    }
  }

  /** Client i is elected exactly when its ring id wins. */
  lemma ElectedIffWins(cs: seq<LmsClient>, tb: TieBreaker, i: nat)
    requires Snapshot(cs, tb) && i < |cs|
    ensures Elected(cs, i, cs[i].ring) <==> Wins(cs, tb, cs[i].ring)
  {
    assert cs[i] in cs && cs[i].ring in Rings(cs);
    TieBreakerElectsHolder(cs, tb, i);
  }

  /** There is exactly one winner. */
  lemma ExactlyOneWins(cs: seq<LmsClient>, tb: TieBreaker)
    requires Snapshot(cs, tb) && cs != []
    ensures exists r :: Wins(cs, tb, r)
    ensures forall r, q | Wins(cs, tb, r) && Wins(cs, tb, q) :: r == q
  {
    assert cs[0] in cs;
    TieBreakerIsNamed(cs, cs, tb, cs[0]);
    var d :| Named(cs, tb, d);
    OneHolder(cs, tb, d);
    ElectsExactlyOne(Scores(cs), Sizes(cs), d.ring);
    var r :| Elects(Scores(cs), Sizes(cs), {d.ring}, r);
    assert Wins(cs, tb, r);
  }

  lemma OnlyOne(figures: Figures, r: RingId)
    requires |figures| == 1 && r in figures
    ensures Leads(figures, r) && SomeLeader(figures)
  {
    assert figures.Keys - {r} == {} by {
      assert |figures.Keys - {r}| == 0;
    }
    forall q | q in figures ensures q == r {
      assert q !in figures.Keys - {r};
    }
    assert Leads(figures, r);
  }

  /** Agreement of the separate evaluations: an ACK goes only to the winner; a client that
      passes its ring id check and is not held back as a newcomer gets ACK exactly when its
      ring id wins. */
  lemma VoteAgrees(cs: seq<LmsClient>, tb: TieBreaker, i: nat)
    requires Snapshot(cs, tb) && i < |cs|
    ensures var vote := VoteOf(cs, i, cs[i].ring).0;
            && (vote == Ack ==> Wins(cs, tb, cs[i].ring))
            && (RingsMatch(cs, i, cs[i].ring) && !Blocked(cs, i, cs[i].ring) ==>
                  vote == if Wins(cs, tb, cs[i].ring) then Ack else Nack)
  {
    assert cs[i] in cs && cs[i].ring in Rings(cs);
    ElectedIffWins(cs, tb, i);
    if |Rings(cs)| == 1 {
      assert Scores(cs).Keys == Rings(cs);
      OnlyOne(Scores(cs), cs[i].ring);
    }
  }

  // ---------------------------------------------------------------- a whole round

  ghost function WithResult(cs: seq<LmsClient>, i: nat): (ds: seq<LmsClient>)
    requires i < |cs|
    ensures |ds| == |cs|
  {
    cs[i := cs[i].(last := VoteOf(cs, i, cs[i].ring).1)]
  }

  predicate InRange(cs: seq<LmsClient>, order: seq<nat>) {
    forall k | 0 <= k < |order| :: order[k] < |cs|
  }

  /** The algorithm run for the clients in this order, each result stored before the next run. */
  ghost function Round(cs: seq<LmsClient>, order: seq<nat>): (ds: seq<LmsClient>)
    requires InRange(cs, order)
    ensures |ds| == |cs|
    decreases |order|
  {
    if order == [] then cs else Round(WithResult(cs, order[0]), order[1..])
  }

  /** Everything but the stored results. */
  predicate SameReports(cs: seq<LmsClient>, ds: seq<LmsClient>) {
    |cs| == |ds| && forall i | 0 <= i < |cs| :: ds[i] == cs[i].(last := ds[i].last)
  }

  lemma SameReportsSameWinner(cs: seq<LmsClient>, ds: seq<LmsClient>, tb: TieBreaker, r: RingId)
    requires SameReports(cs, ds)
    ensures Wins(cs, tb, r) == Wins(ds, tb, r)
  {
    SameFigures(cs, ds);
    assert SameReports(ds, cs);
    HoldersIn(cs, ds, tb);
    HoldersIn(ds, cs, tb);
    assert Holders(cs, tb) == Holders(ds, tb);
  }

  lemma SameRings(cs: seq<LmsClient>, ds: seq<LmsClient>)
    requires SameReports(cs, ds)
    ensures Rings(cs) <= Rings(ds)
  {
    forall c | c in cs ensures c.ring.seqNo != 0 ==> c.ring in Rings(ds) {
      var j :| 0 <= j < |cs| && cs[j] == c;
      assert ds[j] in ds;
    }
  }

  lemma {:induction false} SameGroup(cs: seq<LmsClient>, ds: seq<LmsClient>, r: RingId)
    requires SameReports(cs, ds)
    ensures Size(cs, r) == Size(ds, r) && Score(cs, r) == Score(ds, r)
  {
    if cs != [] {
      SameGroup(cs[..|cs| - 1], ds[..|ds| - 1], r);
    }
  }

  lemma SameFigures(cs: seq<LmsClient>, ds: seq<LmsClient>)
    requires SameReports(cs, ds)
    ensures Rings(cs) == Rings(ds) && Scores(cs) == Scores(ds) && Sizes(cs) == Sizes(ds)
  {
    SameRings(cs, ds);
    SameRings(ds, cs);
    forall r ensures Size(cs, r) == Size(ds, r) && Score(cs, r) == Score(ds, r) {
      SameGroup(cs, ds, r);
    }
  }

  /** Node ids present in one list are present in the other. */
  lemma SamePresent(cs: seq<LmsClient>, ds: seq<LmsClient>, d: LmsClient)
    requires SameReports(cs, ds) && d in ds
    ensures exists b :: b in cs && b.id == d.id
  {
    var j :| 0 <= j < |ds| && ds[j] == d;
    assert cs[j] in cs && cs[j].id == d.id;
  }

  lemma NamedStays(cs: seq<LmsClient>, ds: seq<LmsClient>, tb: TieBreaker, i: nat)
    requires SameReports(cs, ds) && i < |cs| && Named(cs, tb, cs[i])
    ensures Named(ds, tb, ds[i])
  {
    forall d | d in ds ensures exists b :: b in cs && b.id == d.id {
      SamePresent(cs, ds, d);
    }
  }

  lemma HoldersIn(cs: seq<LmsClient>, ds: seq<LmsClient>, tb: TieBreaker)
    requires SameReports(cs, ds)
    ensures Holders(cs, tb) <= Holders(ds, tb)
  {
    forall c | c in cs && Named(cs, tb, c) ensures c.ring in Holders(ds, tb) {
      var i :| 0 <= i < |cs| && cs[i] == c;
      NamedStays(cs, ds, tb, i);
      assert ds[i] in ds;
    }
  }

  lemma SameReportsTrans(cs: seq<LmsClient>, bs: seq<LmsClient>, ds: seq<LmsClient>)
    requires SameReports(cs, bs) && SameReports(bs, ds)
    ensures SameReports(cs, ds)
  {
  }

  lemma {:induction false} RoundKeepsReports(cs: seq<LmsClient>, tb: TieBreaker, order: seq<nat>)
    requires Snapshot(cs, tb) && InRange(cs, order)
    ensures Snapshot(Round(cs, order), tb) && SameReports(cs, Round(cs, order))
    decreases |order|
  {
    if order != [] {
      var bs := WithResult(cs, order[0]);
      SameReportsSnapshot(cs, bs, tb);
      RoundKeepsReports(bs, tb, order[1..]);
      SameReportsTrans(cs, bs, Round(bs, order[1..]));
    }
  }

  /** With newcomers and failed ring id checks as well: whoever is told ACK after part of a
      round belongs to the one winner. */
  lemma RoundAcksOneRing(cs: seq<LmsClient>, tb: TieBreaker, order: seq<nat>, i: nat)
    requires Snapshot(cs, tb) && InRange(cs, order) && i < |cs|
    ensures var ds := Round(cs, order);
            VoteOf(ds, i, ds[i].ring).0 == Ack ==> Wins(cs, tb, cs[i].ring)
  {
    var ds := Round(cs, order);
    RoundKeepsReports(cs, tb, order);
    VoteAgrees(ds, tb, i);
    SameReportsSameWinner(cs, ds, tb, cs[i].ring);
  }

  /** No newcomers, and every ring id check passes. */
  predicate Settled(cs: seq<LmsClient>) {
    forall i | 0 <= i < |cs| :: cs[i].last.Some? && RingsMatch(cs, i, cs[i].ring)
  }

  lemma SettledStays(cs: seq<LmsClient>, ds: seq<LmsClient>, i: nat)
    requires Settled(cs) && SameReports(cs, ds) && i < |ds| && ds[i].last.Some?
    ensures RingsMatch(ds, i, ds[i].ring) && !Blocked(ds, i, ds[i].ring)
  {
    forall j | 0 <= j < |ds| && j != i && Related(ds[i], ds[j]) ensures ds[j].ring == ds[i].ring {
      assert RingsMatch(cs, i, cs[i].ring) && Related(cs[i], cs[j]);
    }
  }

  lemma SettledResult(cs: seq<LmsClient>, i: nat)
    requires i < |cs| && RingsMatch(cs, i, cs[i].ring) && !Blocked(cs, i, cs[i].ring) && cs[i].ring in Rings(cs)
    ensures WithResult(cs, i)[i].last == Some(VoteOf(cs, i, cs[i].ring).0)
  {
  }

  /** One evaluation in a settled round. */
  lemma SettledVote(cs: seq<LmsClient>, bs: seq<LmsClient>, tb: TieBreaker, i: nat)
    requires Snapshot(cs, tb) && Settled(cs) && Snapshot(bs, tb) && SameReports(cs, bs) && i < |bs| && bs[i].last.Some?
    ensures WithResult(bs, i)[i].last == Some(if Wins(cs, tb, cs[i].ring) then Ack else Nack)
  {
    assert bs[i] in bs;
    SettledStays(cs, bs, i);
    SettledResult(bs, i);
    VoteAgrees(bs, tb, i);
    SameReportsSameWinner(cs, bs, tb, cs[i].ring);
  }

  /** The results of the clients asked so far in a round that started from the snapshot cs. */
  ghost predicate Agreed(cs: seq<LmsClient>, tb: TieBreaker, expected: seq<Vote>, ds: seq<LmsClient>, asked: set<nat>) {
    && |ds| == |cs| == |expected| && Snapshot(ds, tb) && SameReports(cs, ds)
    && forall i | 0 <= i < |ds| :: ds[i].last.Some? && (i in asked ==> ds[i].last == Some(expected[i]))
  }

  lemma SameReportsSnapshot(cs: seq<LmsClient>, ds: seq<LmsClient>, tb: TieBreaker)
    requires Snapshot(cs, tb) && SameReports(cs, ds)
    ensures Snapshot(ds, tb)
  {
    forall d | d in ds ensures d.ring.seqNo != 0 && d.tieBreaker == tb && 1 <= d.id < INT_MAX {
      var j :| 0 <= j < |ds| && ds[j] == d;
      assert cs[j] in cs;
    }
  }

  lemma AgreedStep(cs: seq<LmsClient>, tb: TieBreaker, expected: seq<Vote>, bs: seq<LmsClient>, asked: set<nat>,
                   i: nat, ds: seq<LmsClient>)
    requires Snapshot(cs, tb) && Agreed(cs, tb, expected, bs, asked) && i < |bs|
    requires ds == bs[i := bs[i].(last := Some(expected[i]))]
    ensures Agreed(cs, tb, expected, ds, asked + {i})
  {
    SameReportsSnapshot(cs, ds, tb);
  }

  /** What a settled snapshot promises every client. */
  ghost function Promised(cs: seq<LmsClient>, tb: TieBreaker): (expected: seq<Vote>)
    ensures |expected| == |cs|
  {
    seq(|cs|, i requires 0 <= i < |cs| => if Wins(cs, tb, cs[i].ring) then Ack else Nack)
  }

  lemma PromiseKept(cs: seq<LmsClient>, tb: TieBreaker, bs: seq<LmsClient>, asked: set<nat>, i: nat)
    requires Snapshot(cs, tb) && Settled(cs) && i < |bs| && Agreed(cs, tb, Promised(cs, tb), bs, asked)
    ensures WithResult(bs, i) == bs[i := bs[i].(last := Some(Promised(cs, tb)[i]))]
  {
    SettledVote(cs, bs, tb, i);
  }

  lemma RoundUnfolds(bs: seq<LmsClient>, order: seq<nat>, ds: seq<LmsClient>)
    requires order != [] && InRange(bs, order) && WithResult(bs, order[0]) == ds
    ensures Round(bs, order) == Round(ds, order[1..])
  {
  }

  lemma NobodyAsked(cs: seq<LmsClient>, tb: TieBreaker, expected: seq<Vote>, bs: seq<LmsClient>, asked: set<nat>)
    requires Agreed(cs, tb, expected, bs, asked)
    ensures forall i | 0 <= i < |bs| && i in asked :: bs[i].last == Some(expected[i])
  {
  }

  lemma AskedMore(asked: set<nat>, i: nat, order: seq<nat>)
    requires order != [] && order[0] == i
    ensures forall k :: k in asked || k in order <==> k in asked + {i} || k in order[1..]
  {
    assert order == [i] + order[1..];
  }

  lemma {:induction false} RoundAgreesFrom(cs: seq<LmsClient>, tb: TieBreaker, expected: seq<Vote>,
                                           bs: seq<LmsClient>, asked: set<nat>, order: seq<nat>)
    requires Snapshot(cs, tb) && Settled(cs) && expected == Promised(cs, tb)
    requires Agreed(cs, tb, expected, bs, asked) && InRange(bs, order)
    ensures forall i | 0 <= i < |cs| && (i in asked || i in order) :: Round(bs, order)[i].last == Some(expected[i])
    decreases |order|
  {
    if order == [] {
      NobodyAsked(cs, tb, expected, bs, asked);
    } else {
      var i := order[0];
      var ds := bs[i := bs[i].(last := Some(expected[i]))];
      PromiseKept(cs, tb, bs, asked, i);
      RoundUnfolds(bs, order, ds);
      AgreedStep(cs, tb, expected, bs, asked, i, ds);
      RoundAgreesFrom(cs, tb, expected, ds, asked + {i}, order[1..]);
      AskedMore(asked, i, order);
    }
  }

  /** After a settled round, whatever its order, the stored result of every client that was
      asked is ACK exactly when its ring id is the winner. */
  lemma {:induction false} RoundAgrees(cs: seq<LmsClient>, tb: TieBreaker, order: seq<nat>)
    requires Snapshot(cs, tb) && Settled(cs) && InRange(cs, order)
    ensures forall i | 0 <= i < |cs| && i in order ::
              Round(cs, order)[i].last == Some(if Wins(cs, tb, cs[i].ring) then Ack else Nack)
  {
    RoundAgreesFrom(cs, tb, Promised(cs, tb), cs, {}, order);
  }

  // ---------------------------------------------------------------- independence of the order

  lemma {:induction false} FiguresOfPermutation(cs: seq<LmsClient>, ds: seq<LmsClient>, r: RingId)
    requires multiset(cs) == multiset(ds)
    ensures Size(cs, r) == Size(ds, r) && Score(cs, r) == Score(ds, r)
    decreases |cs|
  {
    if cs == [] {
      assert |multiset(ds)| == 0;
      assert ds == [];
    } else {
      var front, last := cs[..|cs| - 1], cs[|cs| - 1];
      assert cs == front + [last];
      assert last in multiset(ds);
      var k :| 0 <= k < |ds| && ds[k] == last;
      assert ds == ds[..k] + [last] + ds[k + 1..];
      PermutedRest(front, last, ds[..k], ds[k + 1..]);
      FiguresOfPermutation(front, ds[..k] + ds[k + 1..], r);
      TakenOut(ds, k, r);
    }
  }

  lemma PermutedRest(front: seq<LmsClient>, c: LmsClient, before: seq<LmsClient>, after: seq<LmsClient>)
    requires multiset(front + [c]) == multiset(before + [c] + after)
    ensures multiset(front) == multiset(before + after)
  {
    assert multiset(front + [c]) == multiset(front) + multiset{c};
    assert multiset(before + [c] + after) == multiset(before + after) + multiset{c};
    assert multiset(front) == multiset(front + [c]) - multiset{c};
  }

  lemma {:induction false} TakenOut(ds: seq<LmsClient>, k: nat, r: RingId)
    requires k < |ds|
    ensures var rest := ds[..k] + ds[k + 1..];
            && Size(ds, r) == Size(rest, r) + (if InGroup(ds[k], r) then 1 else 0)
            && Score(ds, r) == Score(rest, r) + (if InGroup(ds[k], r) then Points(ds[k]) else 0)
    decreases |ds|
  {
    var rest := ds[..k] + ds[k + 1..];
    var n := |ds| - 1;
    if k == n {
      assert rest == ds[..n];
    } else {
      TakenOut(ds[..n], k, r);
      assert rest[..|rest| - 1] == ds[..n][..k] + ds[..n][k + 1..] && rest[|rest| - 1] == ds[n];
    }
  }

  /** The winner does not depend on the order of the client list. */
  lemma WinnerIgnoresOrder(cs: seq<LmsClient>, ds: seq<LmsClient>, tb: TieBreaker, r: RingId)
    requires multiset(cs) == multiset(ds)
    ensures Wins(cs, tb, r) == Wins(ds, tb, r)
  {
    assert forall c :: c in cs <==> c in ds by {
      forall c ensures c in cs <==> c in ds {
        assert c in cs <==> c in multiset(cs);
        assert c in ds <==> c in multiset(ds);
      }
    }
    assert Rings(cs) == Rings(ds);
    forall q ensures Size(cs, q) == Size(ds, q) && Score(cs, q) == Score(ds, q) {
      FiguresOfPermutation(cs, ds, q);
    }
    assert Scores(cs) == Scores(ds) && Sizes(cs) == Sizes(ds);
    assert forall c :: Named(cs, tb, c) <==> Named(ds, tb, c);
    assert Holders(cs, tb) == Holders(ds, tb);
  }

  // ---------------------------------------------------------------- a nominated tie-breaker node

  lemma {:induction false} NominatedNode(cs: seq<LmsClient>, c: LmsClient, id: nat)
    requires c.tieBreaker == Nominated(id) && c.id != id
    ensures TieBreakerNode(cs, c) == (id, NO_RING)
  {
    if cs != [] {
      NominatedNode(cs[..|cs| - 1], c, id);
    }
  }

  /** Neither the score nor the size decides. */
  ghost predicate CompleteTie(cs: seq<LmsClient>) {
    Rings(cs) != {} && !SomeLeader(Scores(cs)) && !SomeLeader(Sizes(cs))
  }

  lemma NominatedElection(cs: seq<LmsClient>, i: nat, id: nat)
    requires i < |cs| && cs[i].tieBreaker == Nominated(id) && cs[i].ring != NO_RING
    ensures TieBreakerElects(cs, i, cs[i].ring) <==> cs[i].id == id
  {
    if cs[i].id != id {
      NominatedNode(cs, cs[i], id);
    } else {
      NominatedId(cs, cs[i], id);
    }
  }

  /** With a nominated node a complete tie gives the vote to that node alone: the other members
      of its partition, which the manual promises the vote as well, are refused. */
  lemma NominatedOnlyItself(cs: seq<LmsClient>, i: nat, id: nat)
    requires i < |cs| && cs[i].tieBreaker == Nominated(id) && cs[i].ring != NO_RING
    requires CompleteTie(cs) && RingsMatch(cs, i, cs[i].ring) && !Blocked(cs, i, cs[i].ring)
    ensures VoteOf(cs, i, cs[i].ring).0 == if cs[i].id == id then Ack else Nack
  {
    if |Rings(cs)| == 1 {
      var r :| r in Rings(cs);
      assert Scores(cs).Keys == Rings(cs);
      OnlyOne(Scores(cs), r);
    }
    NominatedElection(cs, i, id);
  }

  lemma {:induction false} NominatedId(cs: seq<LmsClient>, c: LmsClient, id: nat)
    requires c.tieBreaker == Nominated(id)
    ensures TieBreakerNode(cs, c).0 == id
  {
    if cs != [] {
      NominatedId(cs[..|cs| - 1], c, id);
    }
  }

  /** So on a complete tie the manual's promise, the vote for the whole partition of the
      nominated node k, is kept exactly when that node is alone in its partition. */
  lemma NominatedAsPromisedIff(cs: seq<LmsClient>, k: nat)
    requires k < |cs| && cs[k].ring != NO_RING && CompleteTie(cs)
    requires forall i | 0 <= i < |cs| ::
               && cs[i].tieBreaker == Nominated(cs[k].id) && cs[i].ring != NO_RING
               && RingsMatch(cs, i, cs[i].ring) && !Blocked(cs, i, cs[i].ring)
    ensures (forall i | 0 <= i < |cs| :: VoteOf(cs, i, cs[i].ring).0 == Ack <==> cs[i].ring == cs[k].ring)
            <==> (forall i | 0 <= i < |cs| :: cs[i].ring == cs[k].ring <==> cs[i].id == cs[k].id)
  {
    forall i | 0 <= i < |cs| ensures VoteOf(cs, i, cs[i].ring).0 == if cs[i].id == cs[k].id then Ack else Nack {
      NominatedOnlyItself(cs, i, cs[k].id);
    }
  }

  function Half(id: nat, ring: nat, members: seq<nat>): LmsClient {
    LmsClient(id, Nominated(1), RingId(ring, 1), members, HeuristicsUndefined, Some(Nack))
  }

  lemma TwoTied(figures: Figures, r1: RingId, r2: RingId)
    requires figures.Keys == {r1, r2} && r1 != r2 && figures[r1] == figures[r2]
    ensures !SomeLeader(figures)
  {
    forall r ensures !Leads(figures, r) {
      var other := if r == r1 then r2 else r1;
      assert r in figures ==> other in figures && other != r;
    }
  }

  lemma TwoHalvesTie(a: LmsClient, b: LmsClient, c: LmsClient, d: LmsClient)
    requires a.ring == b.ring && c.ring == d.ring && a.ring != c.ring && a.ring.seqNo != 0 && c.ring.seqNo != 0
    requires Points(a) == Points(b) == Points(c) == Points(d)
    ensures CompleteTie([a, b, c, d])
  {
    var cs := [a, b, c, d];
    FourClients(a, b, c, d, a.ring);
    FourClients(a, b, c, d, c.ring);
    FourRings(a, b, c, d);
    TwoTied(Scores(cs), a.ring, c.ring);
    TwoTied(Sizes(cs), a.ring, c.ring);
  }

  /** Two halves of two nodes tie; node 1 is nominated, and node 2, its neighbour, is refused. */
  lemma NominatedNeighbourRefused()
    ensures var cs := [Half(1, 1, [1, 2]), Half(2, 1, [1, 2]), Half(3, 2, [3, 4]), Half(4, 2, [3, 4])];
            CompleteTie(cs) && VoteOf(cs, 0, cs[0].ring).0 == Ack && VoteOf(cs, 1, cs[1].ring).0 == Nack
  {
    var a, b, c, d := Half(1, 1, [1, 2]), Half(2, 1, [1, 2]), Half(3, 2, [3, 4]), Half(4, 2, [3, 4]);
    TwoHalvesTie(a, b, c, d);
    NominatedOnlyItself([a, b, c, d], 0, 1);
    NominatedOnlyItself([a, b, c, d], 1, 1);
  }

  // ---------------------------------------------------------------- the largest partition of all

  function Member(id: nat, ring: nat, h: Heuristics): LmsClient {
    LmsClient(id, Lowest, RingId(ring, 1), [id], h, Some(Nack))
  }

  lemma FourClients(a: LmsClient, b: LmsClient, c: LmsClient, d: LmsClient, r: RingId)
    ensures Size([a, b, c, d], r) == (if InGroup(a, r) then 1 else 0) + (if InGroup(b, r) then 1 else 0)
                                     + (if InGroup(c, r) then 1 else 0) + (if InGroup(d, r) then 1 else 0)
    ensures Score([a, b, c, d], r) == (if InGroup(a, r) then Points(a) else 0) + (if InGroup(b, r) then Points(b) else 0)
                                      + (if InGroup(c, r) then Points(c) else 0) + (if InGroup(d, r) then Points(d) else 0)
  {
    OneMore([], a, r);
    OneMore([a], b, r);
    OneMore([a, b], c, r);
    OneMore([a, b, c], d, r);
    assert [] + [a] == [a] && [a] + [b] == [a, b] && [a, b] + [c] == [a, b, c] && [a, b, c] + [d] == [a, b, c, d];
  }

  lemma NoLeader(figures: Figures, r1: RingId, r2: RingId, r3: RingId)
    requires figures.Keys == {r1, r2, r3} && r1 != r2 && figures[r1] == figures[r2] > figures[r3]
    ensures !SomeLeader(figures)
  {
    forall r ensures !Leads(figures, r) {
      var other := if r == r1 then r2 else r1;
      assert r in figures ==> other != r && figures[other] >= figures[r];
    }
  }

  lemma LargestElected(scores: Figures, sizes: Figures, holders: set<RingId>, r1: RingId, r2: RingId, r3: RingId)
    requires scores.Keys == {r1, r2, r3} && sizes.Keys == {r1, r2, r3} && r1 != r2
    requires scores[r1] == scores[r2] > scores[r3] && sizes[r1] < sizes[r3] && sizes[r2] < sizes[r3]
    ensures Elects(scores, sizes, holders, r3)
  {
    NoLeader(scores, r1, r2, r3);
    assert Leads(sizes, r3);
  }

  lemma ThreeGroups(cs: seq<LmsClient>, r1: RingId, r2: RingId, r3: RingId)
    requires Rings(cs) == {r1, r2, r3} && r1 != r2
    requires Score(cs, r1) == Score(cs, r2) > Score(cs, r3) && Size(cs, r1) < Size(cs, r3) && Size(cs, r2) < Size(cs, r3)
    ensures Wins(cs, Lowest, r3)
  {
    LargestElected(Scores(cs), Sizes(cs), Holders(cs, Lowest), r1, r2, r3);
  }

  function Example(): (cs: seq<LmsClient>)
    ensures |cs| == 4
  {
    [Member(1, 1, Pass), Member(2, 2, Pass), Member(3, 3, Fail), Member(4, 3, Fail)]
  }

  /** After a tie on the score the largest partition is looked for among all partitions, not
      among those that tie: here two partitions tie with score 2 and a third with score 0 wins. */
  lemma LargestNeedNotBeBest()
    ensures Wins(Example(), Lowest, RingId(3, 1))
    ensures Score(Example(), RingId(3, 1)) == 0 && Score(Example(), RingId(1, 1)) == Score(Example(), RingId(2, 1)) == 2
  {
    var a, b, c, d := Member(1, 1, Pass), Member(2, 2, Pass), Member(3, 3, Fail), Member(4, 3, Fail);
    var r1, r2, r3 := RingId(1, 1), RingId(2, 1), RingId(3, 1);
    FourClients(a, b, c, d, r1);
    FourClients(a, b, c, d, r2);
    FourClients(a, b, c, d, r3);
    FourRings(a, b, c, d);
    ThreeGroups([a, b, c, d], r1, r2, r3);
  }

  lemma FourRings(a: LmsClient, b: LmsClient, c: LmsClient, d: LmsClient)
    requires a.ring.seqNo != 0 && b.ring.seqNo != 0 && c.ring.seqNo != 0 && d.ring == c.ring
    ensures Rings([a, b, c, d]) == {a.ring, b.ring, c.ring}
  {
    var cs := [a, b, c, d];
    assert a in cs && b in cs && c in cs;
  }

  predicate TopScore(scores: Figures, r: RingId) {
    r in scores && forall q | q in scores :: scores[q] <= scores[r]
  }

  /** The partition that decides once the scores tie: the one largest of all, else the one of the
      tie-breaker node. */
  ghost predicate DecidesNext(cs: seq<LmsClient>, tb: TieBreaker, d: RingId) {
    if SomeLeader(Sizes(cs)) then Leads(Sizes(cs), d) else exists c :: Named(cs, tb, c) && c.ring == d
  }

  /** With b a partition of the best score and d the one that decides next: the winner has the best
      score exactly when b alone has it or d has it too. */
  lemma WinnerHasTopScoreIff(cs: seq<LmsClient>, tb: TieBreaker, r: RingId, b: RingId, d: RingId)
    requires Snapshot(cs, tb) && Wins(cs, tb, r) && TopScore(Scores(cs), b) && DecidesNext(cs, tb, d)
    ensures TopScore(Scores(cs), r) <==> Leads(Scores(cs), b) || Score(cs, d) == Score(cs, b)
  {
    DecidingRing(cs, tb, d);
    if !SomeLeader(Scores(cs)) {
      DecisiveWins(cs, tb, r, d);
    }
    TopOf(Scores(cs), r, b, d);
  }

  lemma TopOf(scores: Figures, r: RingId, b: RingId, d: RingId)
    requires TopScore(scores, b) && r in scores && d in scores
    requires if SomeLeader(scores) then Leads(scores, r) else r == d
    ensures TopScore(scores, r) <==> Leads(scores, b) || scores[d] == scores[b]
  {
  }

  lemma DecidingRing(cs: seq<LmsClient>, tb: TieBreaker, d: RingId)
    requires Snapshot(cs, tb) && DecidesNext(cs, tb, d)
    ensures d in Rings(cs)
  {
    if !SomeLeader(Sizes(cs)) {
      var c :| Named(cs, tb, c) && c.ring == d;
    }
  }

  lemma DecisiveWins(cs: seq<LmsClient>, tb: TieBreaker, r: RingId, d: RingId)
    requires Snapshot(cs, tb) && Wins(cs, tb, r) && !SomeLeader(Scores(cs)) && DecidesNext(cs, tb, d)
    ensures r == d
  {
    if !SomeLeader(Sizes(cs)) {
      var c :| Named(cs, tb, c) && c.ring == d;
      OneHolder(cs, tb, c);
    }
  }

  /** With two partitions, one ring id on either side of a split, it always has. */
  lemma TopScoreOfTwo(cs: seq<LmsClient>, tb: TieBreaker, r: RingId, q: RingId)
    requires Snapshot(cs, tb) && Wins(cs, tb, r) && Rings(cs) <= {r, q}
    ensures TopScore(Scores(cs), r)
  {
    OneOfTwo(Scores(cs), r, q);
  }

  lemma OneOfTwo(figures: Figures, r: RingId, q: RingId)
    requires r in figures && figures.Keys <= {r, q}
    ensures TopScore(figures, r) || (Leads(figures, q) && !Leads(figures, r))
  {
  }

  // ---------------------------------------------------------------- creating the partitions

  /** One entry of the partition list. */
  datatype Partition = Partition(ring: RingId, numNodes: nat, score: int)

  predicate DistinctRings(ps: seq<Partition>) {
    forall i, j | 0 <= i < j < |ps| :: ps[i].ring != ps[j].ring
  }

  predicate FiguresRight(cs: seq<LmsClient>, p: Partition) {
    p.numNodes == Size(cs, p.ring) && p.score == Score(cs, p.ring)
  }

  function RingsOf(ps: seq<Partition>): set<RingId> {
    set p | p in ps :: p.ring
  }

  /** The partitions are the groups of the clients: one entry per ring id, with its figures. */
  predicate IsPartition(cs: seq<LmsClient>, ps: seq<Partition>) {
    DistinctRings(ps) && RingsOf(ps) == Rings(cs) && forall i | 0 <= i < |ps| :: FiguresRight(cs, ps[i])
  }

  function SumNodes(ps: seq<Partition>): nat {
    if ps == [] then 0 else SumNodes(ps[..|ps| - 1]) + ps[|ps| - 1].numNodes
  }

  function Initialised(cs: seq<LmsClient>): nat {
    if cs == [] then 0 else Initialised(cs[..|cs| - 1]) + if cs[|cs| - 1].ring.seqNo != 0 then 1 else 0
  }

  lemma {:induction false} SumUpdated(ps: seq<Partition>, k: nat, q: Partition)
    requires k < |ps|
    ensures SumNodes(ps[k := q]) == SumNodes(ps) - ps[k].numNodes + q.numNodes
  {
    var n := |ps| - 1;
    if k < n {
      SumUpdated(ps[..n], k, q);
      assert ps[k := q][..n] == ps[..n][k := q];
    } else {
      assert ps[k := q][..n] == ps[..n];
    }
  }

  /** One more client: only the figures of its group change. */
  lemma OneMore(cs: seq<LmsClient>, c: LmsClient, r: RingId)
    ensures var ds := cs + [c];
            && Size(ds, r) == Size(cs, r) + (if InGroup(c, r) then 1 else 0)
            && Score(ds, r) == Score(cs, r) + (if InGroup(c, r) then Points(c) else 0)
            && Initialised(ds) == Initialised(cs) + (if c.ring.seqNo != 0 then 1 else 0)
            && Rings(ds) == Rings(cs) + if c.ring.seqNo != 0 then {c.ring} else {}
  {
    var ds := cs + [c];
    assert ds[..|cs|] == cs && c in ds;
    assert forall d :: d in ds <==> d in cs || d == c;
    assert Rings(ds) == Rings(cs) + if c.ring.seqNo != 0 then {c.ring} else {};
  }

  lemma UpdatedRings(ps: seq<Partition>, k: nat, q: Partition)
    requires k < |ps| && ps[k].ring == q.ring
    ensures RingsOf(ps[k := q]) == RingsOf(ps)
  {
    var qs := ps[k := q];
    forall p | p in ps ensures p.ring in RingsOf(qs) {
      var j :| 0 <= j < |ps| && ps[j] == p;
      assert qs[j] in qs;
    }
    forall p | p in qs ensures p.ring in RingsOf(ps) {
      var j :| 0 <= j < |qs| && qs[j] == p;
      assert ps[j] in ps;
    }
  }

  lemma MemberRing(ps: seq<Partition>, k: nat)
    requires k < |ps|
    ensures ps[k].ring in RingsOf(ps)
  {
    assert ps[k] in ps;
  }

  /** Count client c in the entry k of its group. */
  lemma Counted(cs: seq<LmsClient>, c: LmsClient, ps: seq<Partition>, k: nat)
    requires IsPartition(cs, ps) && SumNodes(ps) == Initialised(cs) && c.ring.seqNo != 0
    requires k < |ps| && ps[k].ring == c.ring
    ensures var qs := ps[k := Partition(c.ring, ps[k].numNodes + 1, ps[k].score + Points(c))];
            IsPartition(cs + [c], qs) && SumNodes(qs) == Initialised(cs + [c])
  {
    var q := Partition(c.ring, ps[k].numNodes + 1, ps[k].score + Points(c));
    SumUpdated(ps, k, q);
    UpdatedRings(ps, k, q);
    MemberRing(ps, k);
    OneMore(cs, c, c.ring);
    var qs := ps[k := q];
    forall j | 0 <= j < |ps| ensures FiguresRight(cs + [c], qs[j]) {
      assert FiguresRight(cs, ps[j]);
      OneMore(cs, c, ps[j].ring);
    }
  }

  lemma {:induction false} NobodyThere(cs: seq<LmsClient>, r: RingId)
    requires r !in Rings(cs)
    ensures Size(cs, r) == 0 && Score(cs, r) == 0
  {
    if cs != [] {
      var front, last := cs[..|cs| - 1], cs[|cs| - 1];
      assert last in cs && forall c | c in front :: c in cs;
      NobodyThere(front, r);
    }
  }

  /** The new group has one client. */
  lemma NewGroupRight(cs: seq<LmsClient>, c: LmsClient)
    requires c.ring.seqNo != 0 && c.ring !in Rings(cs)
    ensures FiguresRight(cs + [c], Partition(c.ring, 1, Points(c)))
  {
    NobodyThere(cs, c.ring);
    OneMore(cs, c, c.ring);
  }

  /** The other groups are not touched. */
  lemma OldGroupRight(cs: seq<LmsClient>, c: LmsClient, p: Partition)
    requires FiguresRight(cs, p) && p.ring != c.ring
    ensures FiguresRight(cs + [c], p)
  {
    OneMore(cs, c, p.ring);
  }

  lemma OneMoreEntry(ps: seq<Partition>, q: Partition)
    requires DistinctRings(ps) && q.ring !in RingsOf(ps)
    ensures DistinctRings(ps + [q]) && RingsOf(ps + [q]) == RingsOf(ps) + {q.ring}
    ensures SumNodes(ps + [q]) == SumNodes(ps) + q.numNodes
  {
    var qs := ps + [q];
    assert qs[..|ps|] == ps;
    assert forall p :: p in qs <==> p in ps || p == q;
    forall j | 0 <= j < |ps| ensures qs[j].ring != q.ring {
      MemberRing(ps, j);
    }
  }

  /** A client with a new ring id starts a group. */
  lemma GroupStarted(cs: seq<LmsClient>, c: LmsClient, ps: seq<Partition>)
    requires IsPartition(cs, ps) && SumNodes(ps) == Initialised(cs) && c.ring.seqNo != 0 && c.ring !in RingsOf(ps)
    ensures var qs := ps + [Partition(c.ring, 1, Points(c))];
            IsPartition(cs + [c], qs) && SumNodes(qs) == Initialised(cs + [c])
  {
    var qs := ps + [Partition(c.ring, 1, Points(c))];
    OneMore(cs, c, c.ring);
    OneMoreEntry(ps, qs[|ps|]);
    forall j | 0 <= j < |qs| ensures FiguresRight(cs + [c], qs[j]) {
      if j < |ps| {
        MemberRing(ps, j);
        OldGroupRight(cs, c, ps[j]);
      } else {
        NewGroupRight(cs, c);
      }
    }
  }

  /** A client without a ring id is left out. */
  lemma Skipped(cs: seq<LmsClient>, c: LmsClient, ps: seq<Partition>)
    requires IsPartition(cs, ps) && SumNodes(ps) == Initialised(cs) && c.ring.seqNo == 0
    ensures IsPartition(cs + [c], ps) && SumNodes(ps) == Initialised(cs + [c])
  {
    OneMore(cs, c, c.ring);
    forall j | 0 <= j < |ps| ensures FiguresRight(cs + [c], ps[j]) {
      assert FiguresRight(cs, ps[j]);
      OneMore(cs, c, ps[j].ring);
    }
  }

  method FindPartition(ps: seq<Partition>, ring: RingId) returns (k: nat)
    ensures k <= |ps| && (k < |ps| ==> ps[k].ring == ring)
    ensures k == |ps| ==> ring !in RingsOf(ps)
  {
    k := 0;
    while k < |ps|
      invariant k <= |ps| && forall j | 0 <= j < k :: ps[j].ring != ring
    {
      if ps[k].ring == ring {
        return;
      }
      k := k + 1;
    }
  }

  /** Client c joins its group, which is created when it is the first. */
  method CountClient(ghost cs: seq<LmsClient>, ps: seq<Partition>, c: LmsClient) returns (qs: seq<Partition>)
    requires IsPartition(cs, ps) && SumNodes(ps) == Initialised(cs)
    ensures IsPartition(cs + [c], qs) && SumNodes(qs) == Initialised(cs + [c])
  {
    if c.ring.seqNo == 0 {
      Skipped(cs, c, ps);
      return ps;
    }
    var k := FindPartition(ps, c.ring);
    qs := ps;
    if k == |ps| {
      GroupStarted(cs, c, ps);
      qs := qs + [Partition(c.ring, 0, 0)];
    } else {
      Counted(cs, c, ps, k);
    }
    var p := qs[k].(numNodes := qs[k].numNodes + 1, score := qs[k].score + 1);
    if c.heuristics == Pass {
      p := p.(score := p.score + 1);
    } else if c.heuristics == Fail {
      p := p.(score := p.score - 1);
    }
    qs := qs[k := p];
    assert qs == if k == |ps| then ps + [Partition(c.ring, 1, Points(c))]
                 else ps[k := Partition(c.ring, ps[k].numNodes + 1, ps[k].score + Points(c))];
  }

  /** From an empty list: one entry per ring id, all initialised clients counted. */
  method CreatePartitions(cs: seq<LmsClient>) returns (ps: seq<Partition>)
    ensures IsPartition(cs, ps) && SumNodes(ps) == Initialised(cs)
    ensures forall i | 0 <= i < |ps| :: 0 <= ps[i].score <= 2 * ps[i].numNodes
  {
    ps := [];
    assert RingsOf(ps) == Rings(cs[..0]);
    for i := 0 to |cs|
      invariant IsPartition(cs[..i], ps) && SumNodes(ps) == Initialised(cs[..i])
    {
      ps := CountClient(cs[..i], ps, cs[i]);
      assert cs[..i + 1] == cs[..i] + [cs[i]];
    }
    assert cs[..|cs|] == cs;
    assert forall i | 0 <= i < |ps| :: FiguresRight(cs, ps[i]);
  }

  // ---------------------------------------------------------------- the algorithm

  method AllRingIdsMatch(cs: seq<LmsClient>, i: nat, ring: RingId) returns (match_: bool)
    requires i < |cs|
    ensures match_ <==> RingsMatch(cs, i, ring)
  {
    for j := 0 to |cs|
      invariant forall k | 0 <= k < j && k != i && Related(cs[i], cs[k]) :: cs[k].ring == ring
    {
      if j == i {
        continue;
      }
      var inOurPartition := cs[j].id in cs[i].members;
      if !inOurPartition {
        inOurPartition := cs[i].id in cs[j].members;
      }
      if inOurPartition && cs[j].ring != ring {
        return false;
      }
    }
    match_ := true;
  }

  /** The first entry with the greatest figure, and whether another entry ties with it. */
  method FindLeader(values: seq<int>) returns (best: nat, joint: bool)
    requires values != []
    ensures best < |values| && forall j | 0 <= j < |values| :: values[j] <= values[best]
    ensures forall j | 0 <= j < best :: values[j] < values[best]
    ensures joint <==> exists j | 0 <= j < |values| :: j != best && values[j] == values[best]
  {
    best := 0;
    for j := 0 to |values|
      invariant best < |values| && forall k | 0 <= k < j :: values[k] <= values[best]
      invariant forall k | 0 <= k < best :: values[k] < values[best]
    {
      if values[best] < values[j] {
        best := j;
      }
    }
    joint := false;
    for j := 0 to |values|
      invariant joint <==> exists k | 0 <= k < j :: k != best && values[k] == values[best]
    {
      if j != best && values[j] == values[best] {
        joint := true;
      }
    }
  }

  /** A leader among the entries of the partition list leads the figures of the groups. */
  lemma LeaderOfEntries(ps: seq<Partition>, values: seq<int>, figures: Figures, best: nat, joint: bool)
    requires |values| == |ps| && best < |ps| && DistinctRings(ps) && RingsOf(ps) == figures.Keys
    requires forall j | 0 <= j < |ps| :: ps[j].ring in figures && figures[ps[j].ring] == values[j]
    requires forall j | 0 <= j < |values| :: values[j] <= values[best]
    requires joint <==> exists j | 0 <= j < |values| :: j != best && values[j] == values[best]
    ensures SomeLeader(figures) <==> !joint
    ensures !joint ==> forall r :: Leads(figures, r) <==> r == ps[best].ring
  {
    forall r | r in figures ensures exists j :: 0 <= j < |ps| && ps[j].ring == r {
      var p :| p in ps && p.ring == r;
      var j :| 0 <= j < |ps| && ps[j] == p;
    }
    if joint {
      var k :| 0 <= k < |values| && k != best && values[k] == values[best];
      forall r ensures !Leads(figures, r) {
        if r in figures {
          var j :| 0 <= j < |ps| && ps[j].ring == r;
          var other := ps[if j == best then k else best].ring;
          assert other in figures && other != r && figures[other] >= figures[r];
        }
      }
    } else {
      var b := ps[best].ring;
      forall q | q in figures && q != b ensures figures[q] < figures[b] {
        var j :| 0 <= j < |ps| && ps[j].ring == q;
      }
      assert Leads(figures, b);
    }
  }

  method FindTieBreakerNode(cs: seq<LmsClient>, c: LmsClient) returns (tbId: nat, tbRing: RingId)
    ensures (tbId, tbRing) == TieBreakerNode(cs, c)
  {
    tbRing := NO_RING;
    match c.tieBreaker {
      case Lowest => tbId := INT_MAX;
      case Highest => tbId := 0;
      case Nominated(id) => tbId := id;
    }
    for j := 0 to |cs|
      invariant (tbId, tbRing) == TieBreakerNode(cs[..j], c)
    {
      assert cs[..j + 1][..j] == cs[..j];
      match c.tieBreaker {
        case Lowest =>
          if cs[j].id < tbId {
            tbId, tbRing := cs[j].id, cs[j].ring;
          }
        case Highest =>
          if cs[j].id > tbId {
            tbId, tbRing := cs[j].id, cs[j].ring;
          }
        case Nominated(id) =>
          if id == c.id {
            tbRing := cs[j].ring;
          }
      }
    }
    assert cs[..|cs|] == cs;
  }

  method IsBlocked(cs: seq<LmsClient>, i: nat, ring: RingId) returns (blocked: bool)
    requires i < |cs|
    ensures blocked <==> Blocked(cs, i, ring)
  {
    if cs[i].last.Some? {
      return false;
    }
    for j := 0 to |cs|
      invariant forall k | 0 <= k < j :: cs[k].ring == ring || cs[k].last != Some(Ack)
    {
      if cs[j].ring != ring && cs[j].last == Some(Ack) {
        return true;
      }
    }
    blocked := false;
  }

  /** The algorithm data of one client. */
  class LmsInfo {
    var last: Option<Vote>
    var partitions: seq<Partition>

    /** Run the algorithm for client i; the partition list is empty again afterwards. */
    method DoLms(cs: seq<LmsClient>, i: nat, ring: RingId) returns (vote: Vote)
      requires i < |cs| && last == cs[i].last && partitions == []
      modifies this
      ensures (vote, last) == VoteOf(cs, i, ring)
      ensures partitions == []
    {
      var matching := AllRingIdsMatch(cs, i, ring);
      if !matching {
        vote, last := WaitForReply, Some(WaitForReply);
        return;
      }
      partitions := CreatePartitions(cs);
      PartitionCount(cs, partitions);
      if partitions == [] {
        vote, last := WaitForReply, Some(WaitForReply);
        return;
      }
      if |partitions| == 1 {
        partitions := [];
        vote, last := Ack, Some(Ack);
        return;
      }
      var blocked := IsBlocked(cs, i, ring);
      if blocked {
        partitions := [];
        return Nack;
      }
      var elected := Elect(cs, i, ring, partitions);
      vote := if elected then Ack else Nack;
      last := Some(vote);
      partitions := [];
    }
  }

  lemma {:induction false} PartitionCount(cs: seq<LmsClient>, ps: seq<Partition>)
    requires IsPartition(cs, ps)
    ensures |Rings(cs)| == |ps|
  {
    RingsCounted(ps);
  }

  lemma {:induction false} RingsCounted(ps: seq<Partition>)
    requires DistinctRings(ps)
    ensures |RingsOf(ps)| == |ps|
  {
    if ps != [] {
      var front, last := ps[..|ps| - 1], ps[|ps| - 1];
      assert ps == front + [last];
      RingsCounted(front);
      assert RingsOf(ps) == RingsOf(front) + {last.ring};
      assert last.ring !in RingsOf(front);
    }
  }

  /** Score, then size over all partitions, then the tie-breaker. */
  method Elect(cs: seq<LmsClient>, i: nat, ring: RingId, ps: seq<Partition>) returns (elected: bool)
    requires i < |cs| && IsPartition(cs, ps) && ps != []
    ensures elected <==> Elected(cs, i, ring)
  {
    forall j | 0 <= j < |ps|
      ensures FiguresRight(cs, ps[j]) && ps[j].ring in Rings(cs)
    {
      MemberRing(ps, j);
    }
    var scores := seq(|ps|, j requires 0 <= j < |ps| => ps[j].score);
    var best, joint := FindLeader(scores);
    LeaderOfEntries(ps, scores, Scores(cs), best, joint);
    if !joint {
      return ps[best].ring == ring;
    }
    var sizes := seq(|ps|, j requires 0 <= j < |ps| => ps[j].numNodes);
    var largest, jointSize := FindLeader(sizes);
    LeaderOfEntries(ps, sizes, Sizes(cs), largest, jointSize);
    if !jointSize {
      return ps[largest].ring == ring;
    }
    var tbId, tbRing := FindTieBreakerNode(cs, cs[i]);
    elected := cs[i].id == tbId || tbRing == ring;
  }
}
