/**
  What the selection of a partition means: the fold over the clients picks the maximum of
  a lexicographic key, whatever the order of the clients, and never a minority.
*/
module FfsplitSelection {
  import opened Tlv
  import opened Ffsplit

  predicate Staying(cs: seq<Client>, call: Call, i: int) {
    0 <= i < |cs| && !Leaves(cs[i], call)
  }

  /** At least half of the configured nodes; for an odd configuration that is more than half. */
  predicate Eligible(cs: seq<Client>, call: Call, i: int) {
    Staying(cs, call, i) && 2 * |Seen(cs[i], call).members| >= |Seen(cs[i], call).config|
  }

  predicate Majority(cs: seq<Client>, call: Call, i: nat)
    requires i < |cs|
  {
    2 * |Seen(cs[i], call).members| > |Seen(cs[i], call).config|
  }

  predicate NoRepeats(l: seq<nat>) {
    forall i, j | 0 <= i < j < |l| :: l[i] != l[j]
  }

  predicate Disjoint(a: seq<nat>, b: seq<nat>) {
    forall x | x in a :: x !in b
  }

  /** One client's lists as corosync provides them; of all this the server checks only that a
      list is not empty and contains its sender. */
  predicate ListsOk(c: Client) {
    && c.config != [] && NoRepeats(c.config) && NoRepeats(c.members)
    && Subset(c.members, c.config)
    && (c.members != [] ==> c.id in c.members)
    && |c.members| < SIZE_MODULUS / 2
    && (match PreferredNode(c.tieBreaker, c.config) case None => false case Some(n) => n in c.config)
  }

  /** Two clients: one configuration, one tie-breaker, and the same partition or disjoint ones. */
  predicate PairOk(c: Client, d: Client) {
    && c.tieBreaker == d.tieBreaker
    && SameNodes(c.config, d.config)
    && (SameNodes(c.members, d.members) || Disjoint(c.members, d.members))
  }

  ghost predicate SplitCluster(cs: seq<Client>, call: Call) {
    && UniqueIds(cs)
    && (forall i | Staying(cs, call, i) :: ListsOk(Seen(cs[i], call)))
    && (forall i, j | Staying(cs, call, i) && Staying(cs, call, j) :: PairOk(Seen(cs[i], call), Seen(cs[j], call)))
  }

  // ---------------------------------------------------------------- the key

  /** Ordered lexicographically; a majority beats every half and its other components do not matter. */
  datatype Key = MajorityKey | HalfKey(score: int, active: nat, wasQuorate: bool, preferred: bool)

  predicate Less(a: Key, b: Key) {
    match (a, b)
    case (MajorityKey, _) => false
    case (HalfKey(_, _, _, _), MajorityKey) => true
    case (HalfKey(s1, a1, w1, p1), HalfKey(s2, a2, w2, p2)) =>
      s1 < s2 || (s1 == s2 && (a1 < a2 || (a1 == a2 && ((!w1 && w2) || (w1 == w2 && !p1 && p2)))))
  }

  function TiedKey(cs: seq<Client>, p: Candidate, quorate: seq<nat>, keep: bool): Key
    requires p.owner < |cs|
  {
    var counts := CandidateStats(cs, p);
    HalfKey(Score(counts),
            counts.active,
            keep && cs[p.owner].id in quorate,
            Preference(cs[p.owner].tieBreaker, p.config, p.members).Better?)
  }

  function KeyOf(cs: seq<Client>, call: Call, quorate: seq<nat>, i: nat): Key
    requires i < |cs|
  {
    if Majority(cs, call, i) then MajorityKey
    else TiedKey(cs, CandidateOf(cs, call, i), quorate, AllKeepActive(cs))
  }

  // ---------------------------------------------------------------- arithmetic and set facts

  predicate PlainScore(counts: Counts) {
    Score(counts) == counts.active + counts.pass - counts.fail
  }

  /** pass + fail <= active, so the unsigned difference in the score never wraps in value. */
  lemma ScoreNeverWraps(counts: Counts)
    requires counts.pass + counts.fail <= counts.active < SIZE_MODULUS / 2
    ensures PlainScore(counts)
  {
  }

  function Elements(l: seq<nat>): set<nat> {
    set x | x in l
  }

  lemma {:induction false} ElementsSize(l: seq<nat>)
    requires NoRepeats(l)
    ensures |Elements(l)| == |l|
  {
    if l != [] {
      var front, last := l[..|l| - 1], l[|l| - 1];
      assert l == front + [last];
      ElementsSize(front);
      assert Elements(l) == Elements(front) + {last};
    }
  }

  /** Two disjoint parts of one configuration together have at most as many nodes. */
  lemma DisjointSizes(a: seq<nat>, b: seq<nat>, config: seq<nat>)
    requires NoRepeats(a) && NoRepeats(b) && NoRepeats(config)
    requires Subset(a, config) && Subset(b, config) && Disjoint(a, b)
    ensures |a| + |b| <= |config|
    ensures |a| + |b| == |config| ==> forall x | x in config :: x in a || x in b
  {
    ElementsSize(a);
    ElementsSize(b);
    ElementsSize(config);
    var both := Elements(a) + Elements(b);
    assert |both| == |a| + |b| by {
      assert Elements(a) * Elements(b) == {};
    }
    assert both <= Elements(config);
    SubsetSize(both, Elements(config));
    if |a| + |b| == |config| {
      forall x | x in config ensures x in a || x in b {
        assert x in Elements(config);
      }
    }
  }

  lemma SubsetSize(a: set<nat>, b: set<nat>)
    requires a <= b
    ensures |a| <= |b|
    ensures |a| == |b| ==> a == b
  {
    assert b == a + (b - a);
  }

  lemma SameSizes(a: seq<nat>, b: seq<nat>)
    requires NoRepeats(a) && NoRepeats(b) && SameNodes(a, b)
    ensures |a| == |b|
  {
    ElementsSize(a);
    ElementsSize(b);
    assert Elements(a) == Elements(b);
  }

  /** A client that is in its own list is counted as active. */
  lemma {:induction false} OwnerIsActive(cs: seq<Client>, owner: nat, h: Heuristics, members: seq<nat>, id: nat)
    requires Find(cs, id) < |cs|
    requires id in members
    ensures Stats(cs, owner, h, members).active >= 1
  {
    var last := |members| - 1;
    if members[last] != id {
      assert members == members[..last] + [members[last]];
      OwnerIsActive(cs, owner, h, members[..last], id);
    }
  }

  lemma CandidateScore(cs: seq<Client>, call: Call, i: nat)
    requires SplitCluster(cs, call) && Staying(cs, call, i)
    ensures PlainScore(CandidateStats(cs, CandidateOf(cs, call, i)))
  {
    assert ListsOk(Seen(cs[i], call));
    ScoreNeverWraps(CandidateStats(cs, CandidateOf(cs, call, i)));
  }

  lemma CandidateActive(cs: seq<Client>, call: Call, i: nat)
    requires SplitCluster(cs, call) && Staying(cs, call, i) && Eligible(cs, call, i)
    ensures CandidateStats(cs, CandidateOf(cs, call, i)).active >= 1
  {
    var c := Seen(cs[i], call);
    var p := CandidateOf(cs, call, i);
    assert ListsOk(c) && c.members != [] && cs[i].id == c.id;
    OwnerIsActive(cs, i, p.heuristics, p.members, c.id);
  }

  /** The score of a candidate is the plain sum, and an eligible one counts its own reporter. */
  lemma CandidateCounts(cs: seq<Client>, call: Call, i: nat)
    requires SplitCluster(cs, call) && Staying(cs, call, i)
    ensures var counts := CandidateStats(cs, CandidateOf(cs, call, i));
            PlainScore(counts)
            && (Eligible(cs, call, i) ==> counts.active >= 1)
  {
    CandidateScore(cs, call, i);
    if Eligible(cs, call, i) {
      CandidateActive(cs, call, i);
    }
  }

  // ---------------------------------------------------------------- partitions and keys

  /** Partitions that overlap are the same; disjoint ones cannot outgrow the configuration. */
  lemma SizesOfTwo(cs: seq<Client>, call: Call, i: nat, j: nat)
    requires SplitCluster(cs, call) && Eligible(cs, call, i) && Eligible(cs, call, j)
    ensures |Seen(cs[i], call).config| == |Seen(cs[j], call).config|
    ensures Majority(cs, call, i) ==> SameNodes(Seen(cs[i], call).members, Seen(cs[j], call).members)
    ensures Majority(cs, call, i) == Majority(cs, call, j)
    ensures !SameNodes(Seen(cs[i], call).members, Seen(cs[j], call).members) ==>
              forall x | x in Seen(cs[i], call).config ::
                x in Seen(cs[i], call).members <==> x !in Seen(cs[j], call).members
  {
    var c, d := Seen(cs[i], call), Seen(cs[j], call);
    assert ListsOk(c) && ListsOk(d) && PairOk(c, d);
    SameSizes(c.config, d.config);
    if SameNodes(c.members, d.members) {
      SameSizes(c.members, d.members);
    } else {
      DisjointSizes(c.members, d.members, c.config);
    }
  }

  /** Equal keys mean the same partition. */
  lemma {:induction false} EqualKeysSamePartition(cs: seq<Client>, call: Call, quorate: seq<nat>, i: nat, j: nat)
    requires SplitCluster(cs, call) && Eligible(cs, call, i) && Eligible(cs, call, j)
    requires KeyOf(cs, call, quorate, i) == KeyOf(cs, call, quorate, j)
    ensures SameNodes(Seen(cs[i], call).members, Seen(cs[j], call).members)
  {
    var c, d := Seen(cs[i], call), Seen(cs[j], call);
    assert ListsOk(c) && ListsOk(d) && PairOk(c, d);
    SizesOfTwo(cs, call, i, j);
    SamePreferredNode(c, d);
    var n := PreferredNode(c.tieBreaker, c.config).value;
    assert !Majority(cs, call, i) ==> (n in c.members <==> n in d.members);
    assert n in c.config;
  }

  lemma SamePreferredNode(c: Client, d: Client)
    requires ListsOk(c) && ListsOk(d) && PairOk(c, d)
    ensures PreferredNode(c.tieBreaker, c.config) == PreferredNode(d.tieBreaker, d.config)
  {
    assert MinId(c.config) in d.config && MinId(d.config) in c.config;
    assert MaxId(c.config) in d.config && MaxId(d.config) in c.config;
  }

  /** The size tests of the comparison, for odd and even configurations. */
  lemma SizeTests(members: nat, config: nat)
    ensures config % 2 != 0 ==> (members > config / 2 <==> 2 * members >= config) && 2 * members != config
    ensures config % 2 == 0 ==> (members > config / 2 <==> 2 * members > config) && (members == config / 2 <==> 2 * members == config)
  {}

  /** Compare for a challenger that is not exactly half of its configuration. */
  lemma CompareBySize(cs: seq<Client>, p: Candidate, best: Option<Candidate>, quorate: seq<nat>, keep: bool)
    requires p.owner < |cs| && (best.Some? ==> best.value.owner < |cs|)
    requires 2 * |p.members| != |p.config|
    ensures Compare(cs, p, best, quorate, keep) == Truth(2 * |p.members| >= |p.config|)
  {
    SizeTests(|p.members|, |p.config|);
  }

  /** The figures in terms of keys. The comparison is not antisymmetric: on a full tie it
      follows the tie-breaker of the challenger alone. */
  lemma FiguresFollowKeys(f1: Figures, f2: Figures, keep: bool, preference: Comparison, p2: bool)
    requires !preference.AssertFailed?
    ensures Follows(CompareFigures(f1, f2, keep, preference),
                    HalfKey(f1.score, f1.active, keep && f1.wasQuorate, preference.Better?),
                    HalfKey(f2.score, f2.active, keep && f2.wasQuorate, p2))
  {
  }

  lemma CompareHalfIsFigures(cs: seq<Client>, p: Candidate, best: Option<Candidate>, quorate: seq<nat>, keep: bool)
    requires p.owner < |cs| && (best.Some? ==> best.value.owner < |cs|)
    requires 2 * |p.members| == |p.config|
    ensures Compare(cs, p, best, quorate, keep)
            == CompareFigures(FiguresOf(cs, Some(p), quorate), FiguresOf(cs, best, quorate), keep && best.Some?,
                              Preference(cs[p.owner].tieBreaker, p.config, p.members))
  {
    SizeTests(|p.members|, |p.config|);
  }

  lemma TiedKeyIsFigures(cs: seq<Client>, p: Candidate, quorate: seq<nat>, keep: bool)
    requires p.owner < |cs|
    ensures var f := FiguresOf(cs, Some(p), quorate);
            TiedKey(cs, p, quorate, keep)
            == HalfKey(f.score, f.active, keep && f.wasQuorate,
                       Preference(cs[p.owner].tieBreaker, p.config, p.members).Better?)
  {
  }

  predicate Follows(r: Comparison, k1: Key, k2: Key) {
    && !r.AssertFailed?
    && (r.Better? ==> !Less(k1, k2))
    && (r.NotBetter? ==> !Less(k2, k1))
  }

  lemma CompareHalves(cs: seq<Client>, p: Candidate, q: Candidate, quorate: seq<nat>, keep: bool)
    requires p.owner < |cs| && q.owner < |cs|
    requires 2 * |p.members| == |p.config|
    requires PreferredNode(cs[p.owner].tieBreaker, p.config).Some?
    ensures Follows(Compare(cs, p, Some(q), quorate, keep), TiedKey(cs, p, quorate, keep), TiedKey(cs, q, quorate, keep))
  {
    CompareHalfIsFigures(cs, p, Some(q), quorate, keep);
    TiedKeyIsFigures(cs, p, quorate, keep);
    TiedKeyIsFigures(cs, q, quorate, keep);
    FiguresFollowKeys(FiguresOf(cs, Some(p), quorate), FiguresOf(cs, Some(q), quorate), keep,
                      Preference(cs[p.owner].tieBreaker, p.config, p.members),
                      Preference(cs[q.owner].tieBreaker, q.config, q.members).Better?);
  }

  /** One comparison in terms of keys. */
  lemma {:induction false} CompareFollowsKeys(cs: seq<Client>, call: Call, quorate: seq<nat>, i: nat, j: nat)
    requires SplitCluster(cs, call) && Staying(cs, call, i) && Eligible(cs, call, j)
    ensures var r := Compare(cs, CandidateOf(cs, call, i), Some(CandidateOf(cs, call, j)), quorate, AllKeepActive(cs));
            var ki, kj := KeyOf(cs, call, quorate, i), KeyOf(cs, call, quorate, j);
            && !r.AssertFailed?
            && (r.Better? ==> Eligible(cs, call, i) && !Less(ki, kj))
            && (r.NotBetter? && Eligible(cs, call, i) ==> !Less(kj, ki))
  {
    if Eligible(cs, call, i) && !Majority(cs, call, i) {
      SizesOfTwo(cs, call, i, j);
      CandidateCounts(cs, call, i);
      CandidateCounts(cs, call, j);
      assert ListsOk(Seen(cs[i], call));
      CompareHalves(cs, CandidateOf(cs, call, i), CandidateOf(cs, call, j), quorate, AllKeepActive(cs));
    } else {
      CompareBySize(cs, CandidateOf(cs, call, i), Some(CandidateOf(cs, call, j)), quorate, AllKeepActive(cs));
    }
  }

  lemma CompareWithNone(cs: seq<Client>, call: Call, quorate: seq<nat>, i: nat)
    requires SplitCluster(cs, call) && Staying(cs, call, i)
    ensures Compare(cs, CandidateOf(cs, call, i), None, quorate, AllKeepActive(cs)) == Truth(Eligible(cs, call, i))
  {
    var p := CandidateOf(cs, call, i);
    assert ListsOk(Seen(cs[i], call));
    CandidateCounts(cs, call, i);
    SizeTests(|p.members|, |p.config|);
  }

  // ---------------------------------------------------------------- the fold

  /** The keys of the eligible clients, by position. */
  ghost function Keys(cs: seq<Client>, call: Call, quorate: seq<nat>): (keys: seq<Option<Key>>)
    ensures |keys| == |cs|
  {
    seq(|cs|, i requires 0 <= i < |cs| =>
      if Eligible(cs, call, i) then Some(KeyOf(cs, call, quorate, i)) else None)
  }

  /** No eligible position below n beats o. */
  ghost predicate Greatest(keys: seq<Option<Key>>, n: nat, o: int)
    requires n <= |keys|
  {
    0 <= o < n && keys[o].Some? && forall i | 0 <= i < n && keys[i].Some? :: !Less(keys[o].value, keys[i].value)
  }

  ghost predicate NoneEligible(keys: seq<Option<Key>>, n: nat)
    requires n <= |keys|
  {
    forall i | 0 <= i < n :: keys[i].None?
  }

  lemma LessTransitive(a: Key, b: Key, c: Key)
    requires !Less(b, a) && !Less(c, b)
    ensures !Less(c, a)
  {
  }

  lemma LessTotal(a: Key, b: Key)
    ensures Less(a, b) || Less(b, a) || a == b
  {
  }

  /** Extending the range by one client, by what the comparison said of it. */
  lemma ExtendGreatest(keys: seq<Option<Key>>, n: nat, b: nat, o: nat)
    requires n < |keys| && Greatest(keys, n, b)
    requires o == n ==> keys[n].Some? && !Less(keys[n].value, keys[b].value)
    requires o != n ==> o == b && (keys[n].Some? ==> !Less(keys[b].value, keys[n].value))
    ensures Greatest(keys, n + 1, o)
  {
    forall i | 0 <= i < n && keys[i].Some? ensures !Less(keys[o].value, keys[i].value) {
      LessTransitive(keys[i].value, keys[b].value, keys[o].value);
    }
  }

  ghost predicate FoldState(keys: seq<Option<Key>>, n: nat, s: Selection)
    requires n <= |keys|
  {
    && s.Selected?
    && (s.best.None? ==> NoneEligible(keys, n))
    && (s.best.Some? ==> Greatest(keys, n, s.best.value.owner))
  }

  lemma StepFromSome(cs: seq<Client>, call: Call, quorate: seq<nat>, keys: seq<Option<Key>>, n: nat, b: nat)
    requires SplitCluster(cs, call) && Staying(cs, call, n) && keys == Keys(cs, call, quorate)
    requires Greatest(keys, n, b) && !Leaves(cs[b], call)
    ensures FoldState(keys, n + 1, SelectStep(cs, call, quorate, Some(CandidateOf(cs, call, b)), n))
  {
    assert Eligible(cs, call, b) && keys[b] == Some(KeyOf(cs, call, quorate, b));
    CompareFollowsKeys(cs, call, quorate, n, b);
    assert Eligible(cs, call, n) ==> keys[n] == Some(KeyOf(cs, call, quorate, n));
    var r := Compare(cs, CandidateOf(cs, call, n), Some(CandidateOf(cs, call, b)), quorate, AllKeepActive(cs));
    ExtendGreatest(keys, n, b, if r.Better? then n else b);
  }

  lemma StepFromNone(cs: seq<Client>, call: Call, quorate: seq<nat>, keys: seq<Option<Key>>, n: nat)
    requires SplitCluster(cs, call) && Staying(cs, call, n) && keys == Keys(cs, call, quorate)
    requires NoneEligible(keys, n)
    ensures FoldState(keys, n + 1, SelectStep(cs, call, quorate, None, n))
  {
    CompareWithNone(cs, call, quorate, n);
    assert keys[n].Some? <==> Eligible(cs, call, n);
    FirstEligible(keys, n);
  }

  lemma FirstEligible(keys: seq<Option<Key>>, n: nat)
    requires n < |keys| && NoneEligible(keys, n)
    ensures if keys[n].Some? then Greatest(keys, n + 1, n) else NoneEligible(keys, n + 1)
  {
  }

  lemma StepOverLeaver(cs: seq<Client>, call: Call, quorate: seq<nat>, keys: seq<Option<Key>>, n: nat, best: Option<Candidate>)
    requires n < |cs| && Leaves(cs[n], call) && keys == Keys(cs, call, quorate)
    requires ReportedBest(cs, call, best, n) && FoldState(keys, n, Selected(best))
    ensures FoldState(keys, n + 1, SelectStep(cs, call, quorate, best, n))
  {
    assert keys[n].None?;
  }

  lemma StepKeepsBest(cs: seq<Client>, call: Call, quorate: seq<nat>, keys: seq<Option<Key>>, n: nat, best: Option<Candidate>)
    requires SplitCluster(cs, call) && n < |cs| && keys == Keys(cs, call, quorate)
    requires ReportedBest(cs, call, best, n) && FoldState(keys, n, Selected(best))
    ensures FoldState(keys, n + 1, SelectStep(cs, call, quorate, best, n))
  {
    if !Staying(cs, call, n) {
      StepOverLeaver(cs, call, quorate, keys, n, best);
    } else if best.None? {
      StepFromNone(cs, call, quorate, keys, n);
    } else {
      StepFromSome(cs, call, quorate, keys, n, best.value.owner);
    }
  }

  ghost predicate StepKeeps(cs: seq<Client>, call: Call, quorate: seq<nat>, keys: seq<Option<Key>>, n: nat, best: Option<Candidate>)
    requires |keys| == |cs|
  {
    n < |cs| && ReportedBest(cs, call, best, n) && FoldState(keys, n, Selected(best)) ==>
      FoldState(keys, n + 1, SelectStep(cs, call, quorate, best, n))
  }

  lemma {:induction false} FoldInduction(cs: seq<Client>, call: Call, quorate: seq<nat>, keys: seq<Option<Key>>, n: nat)
    requires |keys| == |cs| && n <= |cs|
    requires forall k, best :: StepKeeps(cs, call, quorate, keys, k, best)
    ensures FoldState(keys, n, SelectUpTo(cs, call, quorate, n))
  {
    if n > 0 {
      FoldInduction(cs, call, quorate, keys, n - 1);
      assert StepKeeps(cs, call, quorate, keys, n - 1, SelectUpTo(cs, call, quorate, n - 1).best);
    }
  }

  lemma FoldKeepsBest(cs: seq<Client>, call: Call, quorate: seq<nat>, keys: seq<Option<Key>>, n: nat)
    requires SplitCluster(cs, call) && n <= |cs| && keys == Keys(cs, call, quorate)
    ensures FoldState(keys, n, SelectUpTo(cs, call, quorate, n))
  {
    forall k: nat, best ensures StepKeeps(cs, call, quorate, keys, k, best) {
      if k < |cs| && ReportedBest(cs, call, best, k) && FoldState(keys, k, Selected(best)) {
        StepKeepsBest(cs, call, quorate, keys, k, best);
      }
    }
    FoldInduction(cs, call, quorate, keys, n);
  }

  /** Client m reports at least half of the nodes and no client that does has a greater key. */
  ghost predicate Best(cs: seq<Client>, call: Call, quorate: seq<nat>, m: int) {
    Eligible(cs, call, m)
    && forall i | Eligible(cs, call, i) :: !Less(KeyOf(cs, call, quorate, m), KeyOf(cs, call, quorate, i))
  }

  /** The selected list is that of a client with the greatest key, and every other client with the
      greatest key reports the same nodes. When nothing is selected is stated without these
      premises by `FfsplitTheorems.NothingSelectedIff`. */
  lemma SelectIsLexicographicMaximum(cs: seq<Client>, call: Call, quorate: seq<nat>)
    requires SplitCluster(cs, call)
    ensures var s := Select(cs, call, quorate);
            && s.Selected?
            && (s.best.None? <==> forall i :: !Eligible(cs, call, i))
            && (s.best.Some? ==> Best(cs, call, quorate, s.best.value.owner))
            && forall m | Best(cs, call, quorate, m) ::
                 s.best.Some? && SameNodes(s.best.value.members, Seen(cs[m], call).members)
  {
    var keys := Keys(cs, call, quorate);
    FoldKeepsBest(cs, call, quorate, keys, |cs|);
    var s := Select(cs, call, quorate);
    if s.best.Some? {
      var o := s.best.value.owner;
      assert Eligible(cs, call, o);
      forall i | Eligible(cs, call, i) ensures !Less(KeyOf(cs, call, quorate, o), KeyOf(cs, call, quorate, i)) {
        assert keys[i] == Some(KeyOf(cs, call, quorate, i));
      }
      forall m | Best(cs, call, quorate, m) ensures SameNodes(s.best.value.members, Seen(cs[m], call).members) {
        LessTotal(KeyOf(cs, call, quorate, m), KeyOf(cs, call, quorate, o));
        EqualKeysSamePartition(cs, call, quorate, o, m);
      }
    } else {
      forall i ensures !Eligible(cs, call, i) {
        if 0 <= i < |cs| {
          assert keys[i].None?;
        }
      }
    }
  }

  /** The selection never falls on a minority, whatever the clients have stored. */
  lemma {:induction false} NeverAMinority(cs: seq<Client>, call: Call, quorate: seq<nat>, n: nat)
    requires n <= |cs|
    ensures var s := SelectUpTo(cs, call, quorate, n);
            s.Selected? && s.best.Some? ==> Eligible(cs, call, s.best.value.owner)
  {
    if n > 0 {
      NeverAMinority(cs, call, quorate, n - 1);
    }
  }
}
