/**
  The decision half of the 50:50 split algorithm as functions of the server's
  client list: is the membership stable, which partition is better, which one is selected.
  `FfsplitServer` runs the same decision with loops over client objects and is proved
  against these functions.
*/
module Ffsplit {
  import opened Tlv

  datatype ClientState = ClientWaiting | SendingNack | SendingAck

  /** What the server stores for one connected client. */
  datatype Client = Client(
    id: nat,
    tieBreaker: TieBreaker,
    keepActive: bool,
    ring: RingId,
    config: seq<nat>,
    members: seq<nat>,
    heuristics: Heuristics,
    state: ClientState,
    expected: nat)

  /** The event being decided on. The caller's lists, ring id and heuristics are passed along
      because the stored ones are replaced only after the algorithm returns. */
  datatype Call = Call(
    id: nat,
    leaving: bool,
    ring: RingId,
    config: seq<nat>,
    members: seq<nat>,
    heuristics: Heuristics)

  predicate Leaves(c: Client, call: Call) {
    call.leaving && c.id == call.id
  }

  /** The client as this decision sees it: the caller with its new values, the others as stored. */
  function Seen(c: Client, call: Call): Client {
    if c.id == call.id
    then c.(ring := call.ring, config := call.config, members := call.members, heuristics := call.heuristics)
    else c
  }

  predicate UniqueIds(cs: seq<Client>) {
    forall i, j | 0 <= i < j < |cs| :: cs[i].id != cs[j].id
  }

  /** Position of the first client with this node id, or |cs| when it is not connected. */
  function Find(cs: seq<Client>, id: nat): (k: nat)
    ensures k <= |cs|
    ensures k < |cs| ==> cs[k].id == id
    ensures forall j | 0 <= j < k :: cs[j].id != id
  {
    if cs == [] then 0
    else if cs[0].id == id then 0
    else
      var k := Find(cs[1..], id);
      assert forall j | 0 < j <= k :: cs[j] == cs[1..][j - 1];
      k + 1
  }

  lemma FindAt(cs: seq<Client>, k: nat)
    requires UniqueIds(cs) && k < |cs|
    ensures Find(cs, cs[k].id) == k
  {
    assert Find(cs, cs[k].id) <= k;
  }

  predicate Subset(a: seq<nat>, b: seq<nat>) {
    forall x | x in a :: x in b
  }

  predicate SameNodes(a: seq<nat>, b: seq<nat>) {
    Subset(a, b) && Subset(b, a)
  }

  // ---------------------------------------------------------------- stability

  predicate ConfigsAgree(cs: seq<Client>, call: Call, i: nat, j: nat)
    requires i < |cs| && j < |cs|
  {
    i == j || Leaves(cs[i], call) || Leaves(cs[j], call)
    || Subset(Seen(cs[i], call).config, Seen(cs[j], call).config)
  }

  /** Client i and the connected client with node id n, when n is in i's membership list. */
  predicate PartitionAgrees(cs: seq<Client>, call: Call, i: nat, n: nat)
    requires i < |cs|
  {
    var k := Find(cs, n);
    k == |cs| || Leaves(cs[k], call)
    || (Seen(cs[i], call).ring == Seen(cs[k], call).ring
        && Subset(Seen(cs[i], call).members, Seen(cs[k], call).members))
  }

  predicate ConfigsStable(cs: seq<Client>, call: Call) {
    forall i, j | 0 <= i < |cs| && 0 <= j < |cs| :: ConfigsAgree(cs, call, i, j)
  }

  predicate PartitionStable(cs: seq<Client>, call: Call, i: nat)
    requires i < |cs|
  {
    Leaves(cs[i], call) || forall n | n in Seen(cs[i], call).members :: PartitionAgrees(cs, call, i, n)
  }

  predicate Stable(cs: seq<Client>, call: Call) {
    ConfigsStable(cs, call) && forall i | 0 <= i < |cs| :: PartitionStable(cs, call, i)
  }

  // ---------------------------------------------------------------- comparing two partitions

  /** size_t arithmetic: the modulus of the 64-bit unsigned type. */
  const SIZE_MODULUS: nat := 0x1_0000_0000_0000_0000

  datatype Counts = Counts(active: nat, pass: nat, fail: nat)

  /** A partition as reported by the client at index `owner`. */
  datatype Candidate = Candidate(owner: nat, ring: RingId, config: seq<nat>, members: seq<nat>, heuristics: Heuristics)

  function HeuristicsSeenFrom(cs: seq<Client>, owner: nat, heuristics: Heuristics, k: nat): Heuristics
    requires k < |cs|
  {
    if k == owner then heuristics else cs[k].heuristics
  }

  function CountOne(counts: Counts, h: Heuristics): Counts {
    Counts(counts.active + 1,
           counts.pass + (if h == Pass then 1 else 0),
           counts.fail + (if h == Fail then 1 else 0))
  }

  /** Connected members of the list and their heuristics results. */
  function Stats(cs: seq<Client>, owner: nat, heuristics: Heuristics, members: seq<nat>): (counts: Counts)
    ensures counts.pass + counts.fail <= counts.active <= |members|
  {
    if members == [] then Counts(0, 0, 0)
    else
      var last := |members| - 1;
      var counts := Stats(cs, owner, heuristics, members[..last]);
      var k := Find(cs, members[last]);
      if k == |cs| then counts
      else CountOne(counts, HeuristicsSeenFrom(cs, owner, heuristics, k))
  }

  function CandidateStats(cs: seq<Client>, p: Candidate): Counts {
    Stats(cs, p.owner, p.heuristics, p.members)
  }

  /** size_t subtraction and addition of values below the modulus. */
  function SizeSub(a: nat, b: nat): int {
    if a >= b then a - b else a - b + SIZE_MODULUS
  }

  function SizeAdd(a: int, b: int): int {
    if a + b < SIZE_MODULUS then a + b else a + b - SIZE_MODULUS
  }

  /** The score, computed as the source does: the difference may wrap, the sum wraps back. */
  function Score(counts: Counts): int {
    SizeAdd(counts.active, SizeSub(counts.pass, counts.fail))
  }

  function MinId(l: seq<nat>): (m: nat)
    requires l != []
    ensures m in l && forall x | x in l :: m <= x
  {
    var front, last := l[..|l| - 1], l[|l| - 1];
    assert l == front + [last];
    if front == [] then last
    else
      var m := MinId(front);
      if last < m then last else m
  }

  function MaxId(l: seq<nat>): (m: nat)
    requires l != []
    ensures m in l && forall x | x in l :: x <= m
  {
    var front, last := l[..|l| - 1], l[|l| - 1];
    assert l == front + [last];
    if front == [] then last
    else
      var m := MaxId(front);
      if last > m then last else m
  }

  /** The node the tie-breaker favours; None where the source asserts a non-empty config list. */
  function PreferredNode(tieBreaker: TieBreaker, config: seq<nat>): Option<nat> {
    match tieBreaker
    case Lowest => if config == [] then None else Some(MinId(config))
    case Highest => if config == [] then None else Some(MaxId(config))
    case Nominated(id) => Some(id)
  }

  datatype Comparison = Better | NotBetter | AssertFailed

  function Truth(b: bool): Comparison {
    if b then Better else NotBetter
  }

  /** What decides between two halves. */
  datatype Figures = Figures(score: int, active: nat, wasQuorate: bool)

  function FiguresOf(cs: seq<Client>, best: Option<Candidate>, quorate: seq<nat>): Figures
    requires best.Some? ==> best.value.owner < |cs|
  {
    match best
    case None => Figures(Score(Counts(0, 0, 0)), 0, false)
    case Some(p) =>
      var counts := CandidateStats(cs, p);
      Figures(Score(counts), counts.active, cs[p.owner].id in quorate)
  }

  function Preference(tieBreaker: TieBreaker, config: seq<nat>, members: seq<nat>): Comparison {
    match PreferredNode(tieBreaker, config)
    case None => AssertFailed
    case Some(n) => Truth(n in members)
  }

  /** Score, active clients, membership in the previous quorate partition when `keep`, tie-breaker. */
  function CompareFigures(f1: Figures, f2: Figures, keep: bool, preference: Comparison): Comparison {
    if f1.score != f2.score then Truth(f1.score > f2.score)
    else if f1.active != f2.active then Truth(f1.active > f2.active)
    else if keep && f1.wasQuorate != f2.wasQuorate then Truth(f1.wasQuorate)
    else preference
  }

  /** Is partition p better than the best one found so far? */
  function Compare(cs: seq<Client>, p: Candidate, best: Option<Candidate>, quorate: seq<nat>, keep: bool): Comparison
    requires p.owner < |cs|
    requires best.Some? ==> best.value.owner < |cs|
  {
    if |p.config| % 2 != 0 then Truth(|p.members| > |p.config| / 2)
    else if |p.members| != |p.config| / 2 then Truth(|p.members| > |p.config| / 2)
    else CompareFigures(FiguresOf(cs, Some(p), quorate), FiguresOf(cs, best, quorate), keep && best.Some?,
                        Preference(cs[p.owner].tieBreaker, p.config, p.members))
  }

  // ---------------------------------------------------------------- selecting a partition

  datatype Selection = Aborted | Selected(best: Option<Candidate>)

  function CandidateOf(cs: seq<Client>, call: Call, i: nat): Candidate
    requires i < |cs|
  {
    var c := Seen(cs[i], call);
    Candidate(i, c.ring, c.config, c.members, c.heuristics)
  }

  predicate AllKeepActive(cs: seq<Client>) {
    forall i | 0 <= i < |cs| :: cs[i].keepActive
  }

  /** The best partition is one reported by a client that stays, as this decision sees it. */
  predicate ReportedBest(cs: seq<Client>, call: Call, best: Option<Candidate>, n: nat) {
    best.Some? ==>
      best.value.owner < n && best.value.owner < |cs| && !Leaves(cs[best.value.owner], call)
      && best.value == CandidateOf(cs, call, best.value.owner)
  }

  /** One turn of the selection loop: client i against the best partition so far. */
  function SelectStep(cs: seq<Client>, call: Call, quorate: seq<nat>, best: Option<Candidate>, i: nat): (s: Selection)
    requires i < |cs| && ReportedBest(cs, call, best, i)
    ensures s.Selected? ==> ReportedBest(cs, call, s.best, i + 1)
  {
    if Leaves(cs[i], call) then Selected(best)
    else
      var p := CandidateOf(cs, call, i);
      match Compare(cs, p, best, quorate, AllKeepActive(cs))
      case Better => Selected(Some(p))
      case NotBetter => Selected(best)
      case AssertFailed => Aborted
  }

  /** The left fold of the comparison over the first n clients. */
  function SelectUpTo(cs: seq<Client>, call: Call, quorate: seq<nat>, n: nat): (s: Selection)
    requires n <= |cs|
    ensures s.Selected? ==> ReportedBest(cs, call, s.best, n)
  {
    if n == 0 then Selected(None)
    else
      var before := SelectUpTo(cs, call, quorate, n - 1);
      if before.Aborted? then Aborted else SelectStep(cs, call, quorate, before.best, n - 1)
  }

  function Select(cs: seq<Client>, call: Call, quorate: seq<nat>): Selection {
    SelectUpTo(cs, call, quorate, |cs|)
  }
}
