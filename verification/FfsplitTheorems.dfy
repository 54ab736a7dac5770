/**
  Consequences for an administrator: the selection does not depend on the order in which
  clients are listed, the previously active half keeps the vote on a tie, and the one
  situation in which the source's assertion on the config list stops the server.
*/
module FfsplitTheorems {
  import opened Tlv
  import opened Ffsplit
  import opened FfsplitSelection

  // ---------------------------------------------------------------- order independence

  predicate SameClients(cs: seq<Client>, ds: seq<Client>) {
    (forall c | c in cs :: c in ds) && (forall d | d in ds :: d in cs)
  }

  lemma FindSame(cs: seq<Client>, ds: seq<Client>, id: nat)
    requires UniqueIds(cs) && UniqueIds(ds) && SameClients(cs, ds)
    ensures Find(cs, id) < |cs| <==> Find(ds, id) < |ds|
    ensures Find(cs, id) < |cs| ==> cs[Find(cs, id)] == ds[Find(ds, id)]
  {
    var i, j := Find(cs, id), Find(ds, id);
    if i < |cs| {
      assert cs[i] in ds;
    }
    if j < |ds| {
      assert ds[j] in cs;
    }
  }

  lemma {:induction false} StatsSame(cs: seq<Client>, i: nat, ds: seq<Client>, j: nat, h: Heuristics, members: seq<nat>)
    requires UniqueIds(cs) && UniqueIds(ds) && SameClients(cs, ds)
    requires i < |cs| && j < |ds| && cs[i].id == ds[j].id
    ensures Stats(cs, i, h, members) == Stats(ds, j, h, members)
  {
    if members != [] {
      var last := |members| - 1;
      StatsSame(cs, i, ds, j, h, members[..last]);
      FindSame(cs, ds, members[last]);
    }
  }

  lemma KeySame(cs: seq<Client>, i: nat, ds: seq<Client>, j: nat, call: Call, quorate: seq<nat>)
    requires UniqueIds(cs) && UniqueIds(ds) && SameClients(cs, ds)
    requires i < |cs| && j < |ds| && cs[i] == ds[j]
    ensures Eligible(cs, call, i) == Eligible(ds, call, j)
    ensures KeyOf(cs, call, quorate, i) == KeyOf(ds, call, quorate, j)
  {
    var p := CandidateOf(cs, call, i);
    StatsSame(cs, i, ds, j, p.heuristics, p.members);
    assert AllKeepActive(cs) == AllKeepActive(ds) by {
      forall k | 0 <= k < |ds| && AllKeepActive(cs) ensures ds[k].keepActive {
        assert ds[k] in cs;
      }
      forall k | 0 <= k < |cs| && AllKeepActive(ds) ensures cs[k].keepActive {
        assert cs[k] in ds;
      }
    }
  }

  lemma SplitClusterSame(cs: seq<Client>, ds: seq<Client>, call: Call)
    requires SplitCluster(cs, call) && UniqueIds(ds) && SameClients(cs, ds)
    ensures SplitCluster(ds, call)
  {
    forall j | Staying(ds, call, j) ensures ListsOk(Seen(ds[j], call)) {
      assert ds[j] in cs;
      var i :| 0 <= i < |cs| && cs[i] == ds[j];
      assert Staying(cs, call, i);
    }
    forall j, l | Staying(ds, call, j) && Staying(ds, call, l) ensures PairOk(Seen(ds[j], call), Seen(ds[l], call)) {
      assert ds[j] in cs && ds[l] in cs;
      var i :| 0 <= i < |cs| && cs[i] == ds[j];
      var k :| 0 <= k < |cs| && cs[k] == ds[l];
      assert Staying(cs, call, i) && Staying(cs, call, k);
    }
  }

  /** A client with the greatest key in one order has the greatest key in every order. */
  lemma BestSame(cs: seq<Client>, m: nat, ds: seq<Client>, j: nat, call: Call, quorate: seq<nat>)
    requires UniqueIds(cs) && UniqueIds(ds) && SameClients(cs, ds)
    requires m < |cs| && j < |ds| && cs[m] == ds[j] && Best(cs, call, quorate, m)
    ensures Best(ds, call, quorate, j)
  {
    KeySame(cs, m, ds, j, call, quorate);
    forall l | Eligible(ds, call, l) ensures !Less(KeyOf(ds, call, quorate, j), KeyOf(ds, call, quorate, l)) {
      assert ds[l] in cs;
      var k :| 0 <= k < |cs| && cs[k] == ds[l];
      KeySame(cs, k, ds, l, call, quorate);
      assert Eligible(cs, call, k);
    }
  }

  /** The selected partition does not depend on the order of the client list. */
  lemma SelectionIgnoresOrder(cs: seq<Client>, ds: seq<Client>, call: Call, quorate: seq<nat>)
    requires SplitCluster(cs, call) && UniqueIds(ds) && SameClients(cs, ds)
    ensures var s, t := Select(cs, call, quorate), Select(ds, call, quorate);
            && s.Selected? && t.Selected?
            && s.best.Some? == t.best.Some?
            && (s.best.Some? ==> SameNodes(t.best.value.members, s.best.value.members))
  {
    SplitClusterSame(cs, ds, call);
    SelectIsLexicographicMaximum(cs, call, quorate);
    SelectIsLexicographicMaximum(ds, call, quorate);
    var s, t := Select(cs, call, quorate), Select(ds, call, quorate);
    if s.best.Some? {
      var m := s.best.value.owner;
      assert cs[m] in ds;
      var j :| 0 <= j < |ds| && ds[j] == cs[m];
      BestSame(cs, m, ds, j, call, quorate);
    } else if t.best.Some? {
      var j := t.best.value.owner;
      assert ds[j] in cs;
      var m :| 0 <= m < |cs| && cs[m] == ds[j];
      BestSame(ds, j, cs, m, call, quorate);
    }
  }

  // ---------------------------------------------------------------- keep active partition

  /** With the keep-active tie-breaker on everywhere and two halves tied on score and active
      clients, the only half with a remaining client of the previous quorate partition wins. */
  lemma KeepActivePartition(cs: seq<Client>, call: Call, quorate: seq<nat>, w: nat)
    requires SplitCluster(cs, call) && AllKeepActive(cs)
    requires Eligible(cs, call, w) && cs[w].id in quorate
    requires forall i | Eligible(cs, call, i) ::
               !Majority(cs, call, i) && !Majority(cs, call, w)
               && KeyOf(cs, call, quorate, i).score == KeyOf(cs, call, quorate, w).score
               && KeyOf(cs, call, quorate, i).active == KeyOf(cs, call, quorate, w).active
    requires forall i | Eligible(cs, call, i) && cs[i].id in quorate ::
               SameNodes(Seen(cs[i], call).members, Seen(cs[w], call).members)
    ensures var s := Select(cs, call, quorate);
            s.Selected? && s.best.Some? && SameNodes(s.best.value.members, Seen(cs[w], call).members)
  {
    SelectIsLexicographicMaximum(cs, call, quorate);
    var s := Select(cs, call, quorate);
    assert s.best.None? ==> !Eligible(cs, call, w);
    var o := s.best.value.owner;
    assert !Less(KeyOf(cs, call, quorate, o), KeyOf(cs, call, quorate, w));
    assert KeyOf(cs, call, quorate, w).wasQuorate;
  }

  // ---------------------------------------------------------------- when nothing is selected

  /** What the server checks when lists arrive: a list that is there contains its sender. */
  ghost predicate SendersListed(cs: seq<Client>, call: Call) {
    && UniqueIds(cs)
    && forall i | Staying(cs, call, i) ::
         Seen(cs[i], call).members != [] ==>
           cs[i].id in Seen(cs[i], call).members && |Seen(cs[i], call).members| < SIZE_MODULUS / 2
  }

  /** Client i reports at least half of the configured nodes, more than half when their number
      is odd. */
  predicate ReportsHalf(cs: seq<Client>, call: Call, i: int) {
    Eligible(cs, call, i) && Seen(cs[i], call).members != []
  }

  /** Against "no best yet" exactly a list of at least half wins. */
  lemma FirstCandidate(cs: seq<Client>, call: Call, quorate: seq<nat>, i: nat)
    requires SendersListed(cs, call) && Staying(cs, call, i)
    ensures var r := Compare(cs, CandidateOf(cs, call, i), None, quorate, AllKeepActive(cs));
            r.Better? <==> ReportsHalf(cs, call, i)
  {
    var p := CandidateOf(cs, call, i);
    if 2 * |p.members| != |p.config| {
      CompareBySize(cs, p, None, quorate, AllKeepActive(cs));
    } else {
      CompareHalfIsFigures(cs, p, None, quorate, AllKeepActive(cs));
      if p.members != [] {
        OwnerIsActive(cs, i, p.heuristics, p.members, cs[i].id);
        ScoreNeverWraps(CandidateStats(cs, p));
      }
    }
  }

  lemma NoneStep(cs: seq<Client>, call: Call, quorate: seq<nat>, n: nat, best: Option<Candidate>)
    requires SendersListed(cs, call) && n < |cs| && ReportedBest(cs, call, best, n)
    ensures var s := SelectStep(cs, call, quorate, best, n);
            s.Selected? ==> (s.best.None? <==> best.None? && !ReportsHalf(cs, call, n))
  {
    if Staying(cs, call, n) && best.None? {
      FirstCandidate(cs, call, quorate, n);
    }
  }

  /** The clients that report at least half, by position. */
  ghost function Halves(cs: seq<Client>, call: Call): (halves: seq<bool>)
    ensures |halves| == |cs| && forall i | 0 <= i < |cs| :: halves[i] == ReportsHalf(cs, call, i)
  {
    seq(|cs|, i requires 0 <= i < |cs| => ReportsHalf(cs, call, i))
  }

  ghost predicate NoneSoFar(halves: seq<bool>, n: nat, s: Selection)
    requires n <= |halves|
  {
    s.Selected? ==> (s.best.None? <==> forall i | 0 <= i < n :: !halves[i])
  }

  ghost predicate StepKeepsNone(cs: seq<Client>, call: Call, quorate: seq<nat>, halves: seq<bool>, n: nat, best: Option<Candidate>)
    requires |halves| == |cs|
  {
    n < |cs| && ReportedBest(cs, call, best, n) && NoneSoFar(halves, n, Selected(best)) ==>
      NoneSoFar(halves, n + 1, SelectStep(cs, call, quorate, best, n))
  }

  lemma {:induction false} NoneInduction(cs: seq<Client>, call: Call, quorate: seq<nat>, halves: seq<bool>, n: nat)
    requires |halves| == |cs| && n <= |cs|
    requires forall k, best :: StepKeepsNone(cs, call, quorate, halves, k, best)
    ensures NoneSoFar(halves, n, SelectUpTo(cs, call, quorate, n))
  {
    if n > 0 {
      NoneInduction(cs, call, quorate, halves, n - 1);
      var before := SelectUpTo(cs, call, quorate, n - 1);
      if before.Selected? {
        assert StepKeepsNone(cs, call, quorate, halves, n - 1, before.best);
      }
    }
  }

  lemma NoneUpTo(cs: seq<Client>, call: Call, quorate: seq<nat>, n: nat)
    requires SendersListed(cs, call) && n <= |cs|
    ensures NoneSoFar(Halves(cs, call), n, SelectUpTo(cs, call, quorate, n))
  {
    var halves := Halves(cs, call);
    forall k: nat, best ensures StepKeepsNone(cs, call, quorate, halves, k, best) {
      if k < |cs| && ReportedBest(cs, call, best, k) && NoneSoFar(halves, k, Selected(best)) {
        NoneStep(cs, call, quorate, k, best);
      }
    }
    NoneInduction(cs, call, quorate, halves, n);
  }

  lemma {:induction false} ConfiguredNeverAsserts(cs: seq<Client>, call: Call, quorate: seq<nat>, n: nat)
    requires n <= |cs| && forall i | Staying(cs, call, i) :: Seen(cs[i], call).config != []
    ensures SelectUpTo(cs, call, quorate, n).Selected?
  {
    if n > 0 {
      ConfiguredNeverAsserts(cs, call, quorate, n - 1);
      if Staying(cs, call, n - 1) {
        ConfigAvoidsAssertion(cs, CandidateOf(cs, call, n - 1), SelectUpTo(cs, call, quorate, n - 1).best, quorate, AllKeepActive(cs));
      }
    }
  }

  /** Nothing is selected exactly when no remaining client reports at least half of the nodes,
      whether or not lists overlap, leave the configuration or repeat nodes; and unless a
      remaining client has no configuration the selection always comes to a result. */
  lemma NothingSelectedIff(cs: seq<Client>, call: Call, quorate: seq<nat>)
    requires SendersListed(cs, call)
    ensures var s := Select(cs, call, quorate);
            && (s.Selected? ==> (s.best.None? <==> forall i :: !ReportsHalf(cs, call, i)))
            && ((forall i | Staying(cs, call, i) :: Seen(cs[i], call).config != []) ==> s.Selected?)
  {
    var halves := Halves(cs, call);
    NoneUpTo(cs, call, quorate, |cs|);
    assert (forall i | 0 <= i < |cs| :: !halves[i]) <==> forall i :: !ReportsHalf(cs, call, i);
    if forall i | Staying(cs, call, i) :: Seen(cs[i], call).config != [] {
      ConfiguredNeverAsserts(cs, call, quorate, |cs|);
    }
  }

  // ---------------------------------------------------------------- the assertion

  /** With the one tie-breaker the server requires of all clients. */
  ghost predicate AcceptedLists(cs: seq<Client>, call: Call) {
    && SendersListed(cs, call)
    && (forall i, j | 0 <= i < |cs| && 0 <= j < |cs| :: cs[i].tieBreaker == cs[j].tieBreaker)
  }

  /** The first client that stays. */
  function FirstStaying(cs: seq<Client>, call: Call, n: nat): (i: nat)
    requires n <= |cs|
    ensures n <= i <= |cs|
    ensures i < |cs| ==> Staying(cs, call, i)
    ensures forall k | n <= k < i :: !Staying(cs, call, k)
    decreases |cs| - n
  {
    if n == |cs| || Staying(cs, call, n) then n else FirstStaying(cs, call, n + 1)
  }

  lemma FirstIsIn(l: seq<nat>)
    ensures l != [] ==> l[0] in l
  {
  }

  lemma EmptyConfigEverywhere(cs: seq<Client>, call: Call, i: nat, j: nat)
    requires Stable(cs, call) && Staying(cs, call, i) && Staying(cs, call, j)
    requires Seen(cs[i], call).config == []
    ensures Seen(cs[j], call).config == []
  {
    if i != j {
      var l := Seen(cs[j], call).config;
      FirstIsIn(l);
      assert ConfigsAgree(cs, call, j, i);
    }
  }

  /** Client f has sent something, or names its preferred node. */
  predicate Harmless(cs: seq<Client>, call: Call, f: nat)
    requires f < |cs|
  {
    Seen(cs[f], call).config != [] || Seen(cs[f], call).members != [] || cs[f].tieBreaker.Nominated?
  }

  /** What the selection keeps once a harmless first client f has been passed. */
  predicate Passed(cs: seq<Client>, call: Call, f: nat, n: nat, s: Selection)
    requires f < |cs|
  {
    && s.Selected?
    && (s.best.None? && f < n && Seen(cs[f], call).config == [] ==> cs[f].tieBreaker.Nominated?)
    && (s.best.Some? ==> s.best.value.config != [] || s.best.value.members != [])
  }

  lemma LeaverPassed(cs: seq<Client>, call: Call, quorate: seq<nat>, i: nat, f: nat, best: Option<Candidate>)
    requires i < |cs| && !Staying(cs, call, i) && Staying(cs, call, f)
    requires ReportedBest(cs, call, best, i) && Passed(cs, call, f, i, Selected(best))
    ensures Passed(cs, call, f, i + 1, SelectStep(cs, call, quorate, best, i))
  {
    assert f != i;
  }

  /** After a first client that does not trip the assertion, no later one does. */
  lemma {:induction false} NoLaterAssertion(cs: seq<Client>, call: Call, quorate: seq<nat>, f: nat, n: nat)
    requires AcceptedLists(cs, call) && Stable(cs, call) && n <= |cs|
    requires f == FirstStaying(cs, call, 0) && f < |cs| && Harmless(cs, call, f)
    ensures Passed(cs, call, f, n, SelectUpTo(cs, call, quorate, n))
  {
    if n > 0 {
      NoLaterAssertion(cs, call, quorate, f, n - 1);
      var before := SelectUpTo(cs, call, quorate, n - 1);
      PassedMore(cs, call, quorate, n - 1, f, before.best);
    }
  }

  lemma PassedMore(cs: seq<Client>, call: Call, quorate: seq<nat>, i: nat, f: nat, best: Option<Candidate>)
    requires AcceptedLists(cs, call) && Stable(cs, call) && i < |cs|
    requires f == FirstStaying(cs, call, 0) && f < |cs| && Harmless(cs, call, f)
    requires ReportedBest(cs, call, best, i) && Passed(cs, call, f, i, Selected(best))
    ensures Passed(cs, call, f, i + 1, SelectStep(cs, call, quorate, best, i))
  {
    if Staying(cs, call, i) {
      StepNeverAsserts(cs, call, quorate, i, f, best);
    } else {
      LeaverPassed(cs, call, quorate, i, f, best);
    }
  }

  lemma ConfigAvoidsAssertion(cs: seq<Client>, p: Candidate, best: Option<Candidate>, quorate: seq<nat>, keep: bool)
    requires p.owner < |cs| && (best.Some? ==> best.value.owner < |cs|)
    requires p.config != [] || p.members != [] || cs[p.owner].tieBreaker.Nominated?
    ensures !Compare(cs, p, best, quorate, keep).AssertFailed?
  {
    if 2 * |p.members| == |p.config| {
      CompareHalfIsFigures(cs, p, best, quorate, keep);
    } else {
      CompareBySize(cs, p, best, quorate, keep);
    }
  }

  lemma EmptyListsLose(cs: seq<Client>, p: Candidate, best: Option<Candidate>, quorate: seq<nat>, keep: bool)
    requires p.owner < |cs| && (best.Some? ==> best.value.owner < |cs|)
    requires p.config == [] && p.members == []
    requires best.Some? ==>
               CandidateStats(cs, best.value).active >= 1 && PlainScore(CandidateStats(cs, best.value))
    requires best.None? ==> cs[p.owner].tieBreaker.Nominated?
    ensures Compare(cs, p, best, quorate, keep) == NotBetter
  {
    CompareHalfIsFigures(cs, p, best, quorate, keep);
  }

  lemma StepNeverAsserts(cs: seq<Client>, call: Call, quorate: seq<nat>, i: nat, f: nat, best: Option<Candidate>)
    requires AcceptedLists(cs, call) && Stable(cs, call) && Staying(cs, call, i) && Staying(cs, call, f) && f <= i
    requires Harmless(cs, call, f)
    requires ReportedBest(cs, call, best, i) && Passed(cs, call, f, i, Selected(best))
    ensures Passed(cs, call, f, i + 1, SelectStep(cs, call, quorate, best, i))
  {
    var p := CandidateOf(cs, call, i);
    if p.config != [] {
      EmptyConfigElsewhere(cs, call, f, i);
      ConfigAvoidsAssertion(cs, p, best, quorate, AllKeepActive(cs));
    } else if p.members != [] {
      CompareBySize(cs, p, best, quorate, AllKeepActive(cs));
    } else {
      EmptyConfigEverywhere(cs, call, i, f);
      if best.Some? {
        var q := best.value;
        EmptyConfigEverywhere(cs, call, i, q.owner);
        OwnerIsActive(cs, q.owner, q.heuristics, q.members, cs[q.owner].id);
        ScoreNeverWraps(CandidateStats(cs, q));
      }
      EmptyListsLose(cs, p, best, quorate, AllKeepActive(cs));
    }
  }

  lemma EmptyConfigElsewhere(cs: seq<Client>, call: Call, i: nat, j: nat)
    requires Stable(cs, call) && Staying(cs, call, i) && Staying(cs, call, j)
    requires Seen(cs[j], call).config != []
    ensures Seen(cs[i], call).config != []
  {
    if Seen(cs[i], call).config == [] {
      EmptyConfigEverywhere(cs, call, i, j);
    }
  }

  /** The assertion in the tie-breaker fails exactly when the first remaining client has sent
      neither list and the tie-breaker is lowest or highest. A client that has only sent its
      init message is such a client as soon as the clients before it disconnect. */
  lemma AssertionFailsIff(cs: seq<Client>, call: Call, quorate: seq<nat>)
    requires AcceptedLists(cs, call) && Stable(cs, call)
    ensures var f := FirstStaying(cs, call, 0);
            Select(cs, call, quorate).Aborted?
            <==> f < |cs| && Seen(cs[f], call).config == [] && Seen(cs[f], call).members == []
                 && !cs[f].tieBreaker.Nominated?
  {
    var f := FirstStaying(cs, call, 0);
    if f == |cs| {
      SelectSkipsLeavers(cs, call, quorate, f);
    } else if Harmless(cs, call, f) {
      NoLaterAssertion(cs, call, quorate, f, |cs|);
    } else {
      SelectSkipsLeavers(cs, call, quorate, f);
      assert SelectUpTo(cs, call, quorate, f + 1).Aborted?;
      AbortIsFinal(cs, call, quorate, f + 1, |cs|);
    }
  }

  lemma {:induction false} SelectSkipsLeavers(cs: seq<Client>, call: Call, quorate: seq<nat>, n: nat)
    requires n <= |cs| && n <= FirstStaying(cs, call, 0)
    ensures SelectUpTo(cs, call, quorate, n) == Selected(None)
  {
    if n > 0 {
      SelectSkipsLeavers(cs, call, quorate, n - 1);
      assert !Staying(cs, call, n - 1);
    }
  }

  lemma {:induction false} AbortIsFinal(cs: seq<Client>, call: Call, quorate: seq<nat>, m: nat, n: nat)
    requires m <= n <= |cs| && SelectUpTo(cs, call, quorate, m).Aborted?
    ensures SelectUpTo(cs, call, quorate, n).Aborted?
    decreases n
  {
    if m < n {
      AbortIsFinal(cs, call, quorate, m, n - 1);
    }
  }
}
