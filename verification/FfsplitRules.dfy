/**
  The rules of the 50:50 split algorithm in terms of what the clients have reported: how many
  members of a list are connected, how many of them report a passed or a failed heuristics, and
  which half the tie-breaker names.
*/
module FfsplitRules {
  import opened Tlv
  import opened Ffsplit
  import opened FfsplitSelection
  import opened FfsplitTheorems

  // ---------------------------------------------------------------- counting

  /** The connected clients of a list. */
  ghost function Present(cs: seq<Client>, members: seq<nat>): set<nat> {
    set c | c in cs && c.id in members :: c.id
  }

  /** Those with a result, where the reporter's own result is the one it has just reported. */
  ghost function PresentWith(cs: seq<Client>, members: seq<nat>, reporter: nat, own: Heuristics, h: Heuristics): set<nat> {
    set c | c in cs && c.id in members && HasResult(c, reporter, own, h) :: c.id
  }

  predicate HasResult(c: Client, reporter: nat, own: Heuristics, h: Heuristics) {
    (if c.id == reporter then own else c.heuristics) == h
  }

  lemma NoMoreMember(cs: seq<Client>, front: seq<nat>, m: nat)
    requires NoRepeats(front + [m])
    ensures m !in front && forall x :: x in front + [m] <==> x == m || x in front
  {
    var l := front + [m];
    assert l[|front|] == m;
    forall i | 0 <= i < |front| ensures front[i] != m {
      assert l[i] != l[|front|];
    }
  }

  /** The members that `takes` takes. */
  ghost function Chosen(cs: seq<Client>, members: seq<nat>, takes: Client -> bool): set<nat> {
    set c | c in cs && c.id in members && takes(c) :: c.id
  }

  lemma OneMoreChosen(cs: seq<Client>, front: seq<nat>, m: nat, takes: Client -> bool)
    requires UniqueIds(cs) && NoRepeats(front + [m])
    ensures var k := Find(cs, m);
            |Chosen(cs, front + [m], takes)| == |Chosen(cs, front, takes)| + if k < |cs| && takes(cs[k]) then 1 else 0
  {
    NoMoreMember(cs, front, m);
    var k := Find(cs, m);
    forall c | c in cs && c.id == m ensures k < |cs| && c == cs[k] {
      OnlyClient(cs, c);
    }
    if k < |cs| && takes(cs[k]) {
      assert cs[k] in cs;
      assert Chosen(cs, front + [m], takes) == Chosen(cs, front, takes) + {m};
    } else {
      assert Chosen(cs, front + [m], takes) == Chosen(cs, front, takes);
    }
  }

  lemma OnlyClient(cs: seq<Client>, c: Client)
    requires UniqueIds(cs) && c in cs
    ensures Find(cs, c.id) < |cs| && cs[Find(cs, c.id)] == c
  {
    var j :| 0 <= j < |cs| && cs[j] == c;
    FindAt(cs, j);
  }

  lemma OneMorePresent(cs: seq<Client>, front: seq<nat>, m: nat)
    requires UniqueIds(cs) && NoRepeats(front + [m])
    ensures |Present(cs, front + [m])| == |Present(cs, front)| + if Find(cs, m) < |cs| then 1 else 0
  {
    var everybody := (c: Client) => true;
    assert Present(cs, front + [m]) == Chosen(cs, front + [m], everybody);
    assert Present(cs, front) == Chosen(cs, front, everybody);
    OneMoreChosen(cs, front, m, everybody);
  }

  lemma OneMorePresentWith(cs: seq<Client>, front: seq<nat>, m: nat, owner: nat, own: Heuristics, h: Heuristics)
    requires UniqueIds(cs) && NoRepeats(front + [m]) && owner < |cs|
    ensures var k := Find(cs, m);
            |PresentWith(cs, front + [m], cs[owner].id, own, h)| == |PresentWith(cs, front, cs[owner].id, own, h)|
              + if k < |cs| && HeuristicsSeenFrom(cs, owner, own, k) == h then 1 else 0
  {
    var r := cs[owner].id;
    var takes := (c: Client) => HasResult(c, r, own, h);
    assert PresentWith(cs, front + [m], r, own, h) == Chosen(cs, front + [m], takes);
    assert PresentWith(cs, front, r, own, h) == Chosen(cs, front, takes);
    OneMoreChosen(cs, front, m, takes);
    if Find(cs, m) < |cs| {
      ResultOf(cs, owner, own, Find(cs, m), h);
    }
  }

  lemma ResultOf(cs: seq<Client>, owner: nat, own: Heuristics, k: nat, h: Heuristics)
    requires UniqueIds(cs) && owner < |cs| && k < |cs|
    ensures cs[k] in cs
    ensures HasResult(cs[k], cs[owner].id, own, h) <==> HeuristicsSeenFrom(cs, owner, own, k) == h
  {
    assert k == owner <==> cs[k].id == cs[owner].id;
  }

  /** The loop's three counts are the sizes of these sets. */
  lemma {:induction false} CountsAreNumbers(cs: seq<Client>, owner: nat, own: Heuristics, members: seq<nat>)
    requires UniqueIds(cs) && NoRepeats(members) && owner < |cs|
    ensures var counts, r := Stats(cs, owner, own, members), cs[owner].id;
            && counts.active == |Present(cs, members)|
            && counts.pass == |PresentWith(cs, members, r, own, Pass)|
            && counts.fail == |PresentWith(cs, members, r, own, Fail)|
    decreases |members|
  {
    if members == [] {
      assert Present(cs, members) == {};
    } else {
      var front, m := members[..|members| - 1], members[|members| - 1];
      assert members == front + [m];
      CountsAreNumbers(cs, owner, own, front);
      OneMorePresent(cs, front, m);
      OneMorePresentWith(cs, front, m, owner, own, Pass);
      OneMorePresentWith(cs, front, m, owner, own, Fail);
    }
  }

  // ---------------------------------------------------------------- which half is better

  ghost function Connected(cs: seq<Client>, call: Call, i: nat): nat
    requires i < |cs|
  {
    |Present(cs, Seen(cs[i], call).members)|
  }

  /** Connected members, plus the passed, less the failed, as client i reports them. */
  ghost function Standing(cs: seq<Client>, call: Call, i: nat): int
    requires i < |cs|
  {
    var c := Seen(cs[i], call);
    |Present(cs, c.members)| + |PresentWith(cs, c.members, c.id, c.heuristics, Pass)| - |PresentWith(cs, c.members, c.id, c.heuristics, Fail)|
  }

  /** The list of client i has the node the tie-breaker favours. */
  predicate Favoured(c: Client) {
    match c.tieBreaker
    case Lowest => exists x :: x in c.config && x in c.members && forall y | y in c.config :: x <= y
    case Highest => exists x :: x in c.config && x in c.members && forall y | y in c.config :: y <= x
    case Nominated(id) => id in c.members
  }

  predicate EverybodyKeepsActive(cs: seq<Client>) {
    forall c | c in cs :: c.keepActive
  }

  /** Half i against half j: standing, then connected members, then, if everybody has asked for
      it, the reporter's part in the last decision, then the tie-breaker. */
  ghost predicate Beats(cs: seq<Client>, call: Call, quorate: seq<nat>, i: nat, j: nat)
    requires i < |cs| && j < |cs|
  {
    if Standing(cs, call, i) != Standing(cs, call, j) then Standing(cs, call, i) > Standing(cs, call, j)
    else if Connected(cs, call, i) != Connected(cs, call, j) then Connected(cs, call, i) > Connected(cs, call, j)
    else if EverybodyKeepsActive(cs) && (cs[i].id in quorate) != (cs[j].id in quorate) then cs[i].id in quorate
    else Favoured(Seen(cs[i], call))
  }

  lemma FavouredIff(c: Client)
    requires ListsOk(c)
    ensures Favoured(c) <==> Preference(c.tieBreaker, c.config, c.members).Better?
  {
  }

  /** Halves of one configuration: exactly one of them is favoured. */
  lemma OneIsFavoured(cs: seq<Client>, call: Call, i: nat, j: nat)
    requires SplitCluster(cs, call) && Eligible(cs, call, i) && Eligible(cs, call, j)
    requires !SameNodes(Seen(cs[i], call).members, Seen(cs[j], call).members)
    ensures Favoured(Seen(cs[i], call)) <==> !Favoured(Seen(cs[j], call))
  {
    var c, d := Seen(cs[i], call), Seen(cs[j], call);
    assert ListsOk(c) && ListsOk(d) && PairOk(c, d);
    SizesOfTwo(cs, call, i, j);
    SamePreferredNode(c, d);
    FavouredIff(c);
    FavouredIff(d);
    var n := PreferredNode(c.tieBreaker, c.config).value;
    assert n in c.config;
  }

  lemma StandingIsScore(cs: seq<Client>, call: Call, i: nat)
    requires SplitCluster(cs, call) && Staying(cs, call, i)
    ensures var counts := CandidateStats(cs, CandidateOf(cs, call, i));
            Score(counts) == Standing(cs, call, i) && counts.active == Connected(cs, call, i)
  {
    CandidateScore(cs, call, i);
    CandidateNumbers(cs, call, i);
  }

  lemma CandidateNumbers(cs: seq<Client>, call: Call, i: nat)
    requires SplitCluster(cs, call) && Staying(cs, call, i)
    ensures var counts := CandidateStats(cs, CandidateOf(cs, call, i));
            counts.active + counts.pass - counts.fail == Standing(cs, call, i) && counts.active == Connected(cs, call, i)
  {
    var c := Seen(cs[i], call);
    assert ListsOk(c);
    CountsAreNumbers(cs, i, c.heuristics, c.members);
  }

  /** The key of a half, in these terms. */
  lemma KeyIsStanding(cs: seq<Client>, call: Call, quorate: seq<nat>, i: nat)
    requires SplitCluster(cs, call) && Eligible(cs, call, i) && !Majority(cs, call, i)
    ensures KeyOf(cs, call, quorate, i)
            == HalfKey(Standing(cs, call, i), Connected(cs, call, i), EverybodyKeepsActive(cs) && cs[i].id in quorate,
                       Favoured(Seen(cs[i], call)))
  {
    StandingIsScore(cs, call, i);
    KeepActiveIff(cs);
    assert ListsOk(Seen(cs[i], call));
    FavouredKey(cs, call, i);
  }

  lemma FavouredKey(cs: seq<Client>, call: Call, i: nat)
    requires i < |cs| && ListsOk(Seen(cs[i], call))
    ensures var p := CandidateOf(cs, call, i);
            Favoured(Seen(cs[i], call)) <==> Preference(cs[i].tieBreaker, p.config, p.members).Better?
  {
    FavouredIff(Seen(cs[i], call));
  }

  lemma KeepActiveIff(cs: seq<Client>)
    ensures AllKeepActive(cs) <==> EverybodyKeepsActive(cs)
  {
    if AllKeepActive(cs) {
      forall c | c in cs ensures c.keepActive {
        var k :| 0 <= k < |cs| && cs[k] == c;
      }
    }
    forall k | 0 <= k < |cs| && EverybodyKeepsActive(cs) ensures cs[k].keepActive {
      assert cs[k] in cs;
    }
  }

  /** A half that beats every other half is selected, whatever the order of the clients. */
  lemma BetterHalfIsSelected(cs: seq<Client>, call: Call, quorate: seq<nat>, i: nat)
    requires SplitCluster(cs, call) && Eligible(cs, call, i) && !Majority(cs, call, i)
    requires forall j | Eligible(cs, call, j) ::
               SameNodes(Seen(cs[j], call).members, Seen(cs[i], call).members) || Beats(cs, call, quorate, i, j)
    ensures var s := Select(cs, call, quorate);
            s.Selected? && s.best.Some? && SameNodes(s.best.value.members, Seen(cs[i], call).members)
  {
    SelectIsLexicographicMaximum(cs, call, quorate);
    var s := Select(cs, call, quorate);
    assert s.best.None? ==> !Eligible(cs, call, i);
    var o := s.best.value.owner;
    assert Best(cs, call, quorate, o);
    if !SameNodes(Seen(cs[o], call).members, Seen(cs[i], call).members) {
      SizesOfTwo(cs, call, o, i);
      OneIsFavoured(cs, call, i, o);
      KeyIsStanding(cs, call, quorate, i);
      KeyIsStanding(cs, call, quorate, o);
      assert Less(KeyOf(cs, call, quorate, o), KeyOf(cs, call, quorate, i));
    }
  }

  /** In particular more connected and passed, less failed, wins against every tie-breaker. */
  lemma HigherStandingIsSelected(cs: seq<Client>, call: Call, quorate: seq<nat>, i: nat)
    requires SplitCluster(cs, call) && Eligible(cs, call, i) && !Majority(cs, call, i)
    requires forall j | Eligible(cs, call, j) ::
               SameNodes(Seen(cs[j], call).members, Seen(cs[i], call).members) || Standing(cs, call, j) < Standing(cs, call, i)
    ensures var s := Select(cs, call, quorate);
            s.Selected? && s.best.Some? && SameNodes(s.best.value.members, Seen(cs[i], call).members)
  {
    BetterHalfIsSelected(cs, call, quorate, i);
  }

  /** A majority is selected whatever the halves report. */
  lemma MajorityIsSelected(cs: seq<Client>, call: Call, quorate: seq<nat>, i: nat)
    requires SplitCluster(cs, call) && Staying(cs, call, i) && Majority(cs, call, i)
    ensures var s := Select(cs, call, quorate);
            s.Selected? && s.best.Some? && SameNodes(s.best.value.members, Seen(cs[i], call).members)
  {
    SelectIsLexicographicMaximum(cs, call, quorate);
    assert Best(cs, call, quorate, i);
  }
}
