/**
  What a stable membership is: the reporting clients fall into partitions, the members of
  one partition have the same ring id and the same list, and all configurations agree.
*/
module FfsplitStability {
  import opened Ffsplit
  import opened FfsplitSelection

  /** Client j is in the membership list client i reports. */
  predicate Together(cs: seq<Client>, call: Call, i: nat, j: nat)
    requires i < |cs| && j < |cs|
  {
    cs[j].id in Seen(cs[i], call).members
  }

  predicate Reports(cs: seq<Client>, call: Call, i: int) {
    Staying(cs, call, i) && Seen(cs[i], call).members != []
  }

  /** The server refuses a membership list without its sender. */
  ghost predicate OwnersListed(cs: seq<Client>, call: Call) {
    UniqueIds(cs) && forall i | Reports(cs, call, i) :: Together(cs, call, i, i)
  }

  ghost predicate OneConfiguration(cs: seq<Client>, call: Call) {
    forall i, j | Staying(cs, call, i) && Staying(cs, call, j) ::
      SameNodes(Seen(cs[i], call).config, Seen(cs[j], call).config)
  }

  /** Clients that see each other agree on the ring id and on the whole list. */
  predicate SameView(cs: seq<Client>, call: Call, i: nat, j: nat)
    requires i < |cs| && j < |cs|
  {
    Seen(cs[i], call).ring == Seen(cs[j], call).ring
    && SameNodes(Seen(cs[i], call).members, Seen(cs[j], call).members)
  }

  ghost predicate ConsistentViews(cs: seq<Client>, call: Call) {
    forall i, j | Staying(cs, call, i) && Staying(cs, call, j) && Together(cs, call, i, j) :: SameView(cs, call, i, j)
  }

  lemma StableSharesConfiguration(cs: seq<Client>, call: Call)
    requires Stable(cs, call)
    ensures OneConfiguration(cs, call)
  {
    forall i, j | Staying(cs, call, i) && Staying(cs, call, j)
      ensures SameNodes(Seen(cs[i], call).config, Seen(cs[j], call).config)
    {
      assert ConfigsAgree(cs, call, i, j) && ConfigsAgree(cs, call, j, i);
    }
  }

  lemma StableSharesViews(cs: seq<Client>, call: Call)
    requires Stable(cs, call) && OwnersListed(cs, call)
    ensures ConsistentViews(cs, call)
  {
    forall i, j | Staying(cs, call, i) && Staying(cs, call, j) && Together(cs, call, i, j)
      ensures SameView(cs, call, i, j)
    {
      FindAt(cs, j);
      FindAt(cs, i);
      assert PartitionStable(cs, call, i) && PartitionStable(cs, call, j);
      assert PartitionAgrees(cs, call, i, cs[j].id);
      assert Reports(cs, call, i) && Together(cs, call, i, i);
      assert cs[i].id in Seen(cs[j], call).members;
      assert PartitionAgrees(cs, call, j, cs[i].id);
    }
  }

  /** The loops of the source accept exactly the memberships with one configuration and
      consistent views. */
  lemma StableIff(cs: seq<Client>, call: Call)
    requires OwnersListed(cs, call)
    ensures Stable(cs, call) <==> OneConfiguration(cs, call) && ConsistentViews(cs, call)
  {
    if Stable(cs, call) {
      StableSharesConfiguration(cs, call);
      StableSharesViews(cs, call);
    }
    if OneConfiguration(cs, call) && ConsistentViews(cs, call) {
      forall i, j | 0 <= i < |cs| && 0 <= j < |cs| ensures ConfigsAgree(cs, call, i, j) {
        assert Staying(cs, call, i) && Staying(cs, call, j) ==>
          SameNodes(Seen(cs[i], call).config, Seen(cs[j], call).config);
      }
      forall i, n | 0 <= i < |cs| && !Leaves(cs[i], call) && n in Seen(cs[i], call).members
        ensures PartitionAgrees(cs, call, i, n)
      {
        var k := Find(cs, n);
        if k < |cs| && !Leaves(cs[k], call) {
          assert Staying(cs, call, i) && Staying(cs, call, k) && Together(cs, call, i, k);
          assert SameView(cs, call, i, k);
        }
      }
    }
  }

  /** "Is in the list of" is an equivalence relation on the reporting clients. */
  lemma TogetherIsEquivalence(cs: seq<Client>, call: Call)
    requires Stable(cs, call) && OwnersListed(cs, call)
    ensures forall i | Reports(cs, call, i) :: Together(cs, call, i, i)
    ensures forall i, j | Reports(cs, call, i) && Reports(cs, call, j) && Together(cs, call, i, j) :: Together(cs, call, j, i)
    ensures forall i, j, k | Reports(cs, call, i) && Reports(cs, call, j) && Reports(cs, call, k)
                             && Together(cs, call, i, j) && Together(cs, call, j, k) :: Together(cs, call, i, k)
    ensures forall i, j | Reports(cs, call, i) && Staying(cs, call, j) && Together(cs, call, i, j) :: Reports(cs, call, j)
  {
    StableSharesViews(cs, call);
    forall i, j | Reports(cs, call, i) && Staying(cs, call, j) && Together(cs, call, i, j)
      ensures Together(cs, call, j, i) && Reports(cs, call, j)
    {
      assert SameView(cs, call, i, j) && Together(cs, call, i, i);
    }
    forall i, j, k | Reports(cs, call, i) && Reports(cs, call, j) && Reports(cs, call, k)
                     && Together(cs, call, i, j) && Together(cs, call, j, k)
      ensures Together(cs, call, i, k)
    {
      assert SameView(cs, call, i, j);
    }
  }

  /** Every connected client in the selected list has the ring id of the client that reported it. */
  lemma SelectedShareRing(cs: seq<Client>, call: Call, o: nat, k: nat)
    requires UniqueIds(cs) && Stable(cs, call)
    requires Staying(cs, call, o) && Staying(cs, call, k) && Together(cs, call, o, k)
    ensures Seen(cs[k], call).ring == Seen(cs[o], call).ring
  {
    FindAt(cs, k);
    assert PartitionStable(cs, call, o);
    assert PartitionAgrees(cs, call, o, cs[k].id);
  }
}
