/** Equality of node lists, decided by deleting from a copy. */
module NodeList {

  datatype NodeState = NotSet | Member | Dead | Leaving

  datatype Node = Node(id: nat, dataCenter: nat, state: NodeState)

  predicate UniqueIds(l: seq<Node>) {
    forall i, j | 0 <= i < j < |l| :: l[i].id != l[j].id
  }

  /** The entries with this id, in order. */
  function WithId(l: seq<Node>, id: nat): seq<Node> {
    if l == [] then [] else WithId(l[..|l| - 1], id) + if l[|l| - 1].id == id then [l[|l| - 1]] else []
  }

  /** For every id the same entries in the same order. */
  ghost predicate SameById(a: seq<Node>, b: seq<Node>) {
    forall id :: WithId(a, id) == WithId(b, id)
  }

  /** A node list, changed in place by insertion at the end and deletion. */
  class List {
    var nodes: seq<Node>

    constructor ()
      ensures nodes == []
    {
      nodes := [];
    }

    method Add(n: Node)
      modifies this
      ensures nodes == old(nodes) + [n]
    {
      nodes := nodes + [n];
    }

    /** The first entry with this id. */
    method FindNodeId(id: nat) returns (k: nat)
      ensures k <= |nodes| && (k < |nodes| ==> nodes[k].id == id)
      ensures forall j | 0 <= j < k :: nodes[j].id != id
    {
      k := 0;
      while k < |nodes|
        invariant k <= |nodes| && forall j | 0 <= j < k :: nodes[j].id != id
      {
        if nodes[k].id == id {
          return;
        }
        k := k + 1;
      }
    }

    method Del(k: nat)
      requires k < |nodes|
      modifies this
      ensures nodes == old(nodes)[..k] + old(nodes)[k + 1..]
    {
      nodes := nodes[..k] + nodes[k + 1..];
    }

    method Clone() returns (copy: List)
      ensures fresh(copy) && copy.nodes == nodes
    {
      copy := new List();
      for i := 0 to |nodes|
        invariant fresh(copy) && copy.nodes == nodes[..i]
      {
        copy.Add(nodes[i]);
      }
    }

    /** Equal exactly when both lists have the same entries for every id, in the same order; so
        the order of entries with different ids does not matter. Nothing that existed before is
        changed. */
    method Eq(other: List) returns (equal: bool)
      ensures equal <==> SameById(nodes, other.nodes)
      ensures equal ==> multiset(nodes) == multiset(other.nodes)
      ensures UniqueIds(other.nodes) ==> (equal <==> multiset(nodes) == multiset(other.nodes))
    {
      var copy := other.Clone();
      ghost var list1, list2 := nodes, other.nodes;
      SameMeansPermutation(list1, list2);
      for i := 0 to |nodes|
        invariant fresh(copy) && Remaining(list1[..i], copy.nodes, list2)
      {
        var k := copy.FindNodeId(nodes[i].id);
        if k == |copy.nodes| || nodes[i] != copy.nodes[k] {
          NoCounterpart(list1, i, copy.nodes, k, list2);
          return false;
        }
        OneMatched(list1, i, copy.nodes, k, list2);
        copy.Del(k);
      }
      assert list1[..|list1|] == list1;
      if copy.nodes != [] {
        SomethingLeft(list1, copy.nodes, list2);
        return false;
      }
      equal := true;
    }
  }

  // ---------------------------------------------------------------- the loop

  /** What has been matched and what is left of the copy make up the second list. */
  ghost predicate Remaining(done: seq<Node>, copy: seq<Node>, list2: seq<Node>) {
    forall id :: WithId(list2, id) == WithId(done, id) + WithId(copy, id)
  }

  lemma {:induction false} WithIdSplit(a: seq<Node>, b: seq<Node>, id: nat)
    ensures WithId(a + b, id) == WithId(a, id) + WithId(b, id)
  {
    if b == [] {
      assert a + b == a;
    } else {
      assert (a + b)[..|a + b| - 1] == a + b[..|b| - 1];
      WithIdSplit(a, b[..|b| - 1], id);
    }
  }

  lemma WithIdOne(n: Node, id: nat)
    ensures WithId([n], id) == if n.id == id then [n] else []
  {
    assert [n][..0] == [];
  }

  lemma {:induction false} NoneWithId(l: seq<Node>, id: nat)
    requires forall j | 0 <= j < |l| :: l[j].id != id
    ensures WithId(l, id) == []
  {
    if l != [] {
      NoneWithId(l[..|l| - 1], id);
    }
  }

  /** Entry k taken out of the list. */
  lemma TakenOut(l: seq<Node>, k: nat, id: nat)
    requires k < |l|
    ensures WithId(l, id) == WithId(l[..k], id) + (if l[k].id == id then [l[k]] else []) + WithId(l[k + 1..], id)
    ensures WithId(l[..k] + l[k + 1..], id) == WithId(l[..k], id) + WithId(l[k + 1..], id)
  {
    assert l == l[..k] + [l[k]] + l[k + 1..];
    WithIdSplit(l[..k] + [l[k]], l[k + 1..], id);
    WithIdSplit(l[..k], [l[k]], id);
    WithIdOne(l[k], id);
    WithIdSplit(l[..k], l[k + 1..], id);
  }

  lemma OneMatched(list1: seq<Node>, i: nat, copy: seq<Node>, k: nat, list2: seq<Node>)
    requires i < |list1| && k < |copy| && copy[k] == list1[i] && forall j | 0 <= j < k :: copy[j].id != copy[k].id
    requires Remaining(list1[..i], copy, list2)
    ensures Remaining(list1[..i + 1], copy[..k] + copy[k + 1..], list2)
  {
    assert list1[..i + 1] == list1[..i] + [copy[k]] && copy == copy[..k] + [copy[k]] + copy[k + 1..];
    forall id
      ensures WithId(list2, id) == WithId(list1[..i + 1], id) + WithId(copy[..k] + copy[k + 1..], id)
    {
      Moved(list1[..i], copy[k], copy[..k], copy[k + 1..], id);
    }
  }

  /** An entry that goes from the copy to what has been matched. */
  lemma Moved(done: seq<Node>, n: Node, before: seq<Node>, after: seq<Node>, id: nat)
    requires forall j | 0 <= j < |before| :: before[j].id != n.id
    ensures WithId(done + [n], id) + WithId(before + after, id) == WithId(done, id) + WithId(before + [n] + after, id)
  {
    WithIdSplit(done, [n], id);
    WithIdSplit(before, after, id);
    WithIdSplit(before + [n], after, id);
    WithIdSplit(before, [n], id);
    WithIdOne(n, id);
    if id == n.id {
      NoneWithId(before, id);
    }
    Regrouped(WithId(done, id), WithId(before, id), WithId([n], id), WithId(after, id));
  }

  lemma Regrouped(d: seq<Node>, b: seq<Node>, m: seq<Node>, a: seq<Node>)
    requires b == [] || m == []
    ensures (d + m) + (b + a) == d + (b + m + a)
  {
  }

  /** The first entry left with the id of entry i is missing or another one. */
  lemma NoCounterpart(list1: seq<Node>, i: nat, copy: seq<Node>, k: nat, list2: seq<Node>)
    requires i < |list1| && Remaining(list1[..i], copy, list2)
    requires k <= |copy| && forall j | 0 <= j < k :: copy[j].id != list1[i].id
    requires k < |copy| ==> copy[k].id == list1[i].id && copy[k] != list1[i]
    ensures !SameById(list1, list2)
  {
    var id := list1[i].id;
    TakenOut(list1, i, id);
    NoneWithId(copy[..k], id);
    if k < |copy| {
      TakenOut(copy, k, id);
      assert WithId(list2, id)[|WithId(list1[..i], id)|] == copy[k];
    } else {
      assert copy[..k] == copy;
    }
    assert WithId(list1, id)[|WithId(list1[..i], id)|] == list1[i];
    assert WithId(list1, id) != WithId(list2, id);
  }

  lemma SomethingLeft(list1: seq<Node>, copy: seq<Node>, list2: seq<Node>)
    requires Remaining(list1, copy, list2) && copy != []
    ensures !SameById(list1, list2)
  {
    var id := copy[0].id;
    TakenOut(copy, 0, id);
    assert WithId(list2, id) == WithId(list1, id) + WithId(copy, id);
  }

  // ---------------------------------------------------------------- permutations

  lemma {:induction false} CountWithId(l: seq<Node>, id: nat, n: Node)
    ensures multiset(WithId(l, id))[n] == if n.id == id then multiset(l)[n] else 0
  {
    if l != [] {
      CountWithId(l[..|l| - 1], id, n);
      assert l == l[..|l| - 1] + [l[|l| - 1]];
    }
  }

  lemma {:induction false} OneWithId(l: seq<Node>, id: nat)
    requires UniqueIds(l)
    ensures |WithId(l, id)| <= 1
  {
    if l != [] {
      if l[|l| - 1].id == id {
        NoneWithId(l[..|l| - 1], id);
      } else {
        OneWithId(l[..|l| - 1], id);
      }
    }
  }

  lemma SameElement(a: seq<Node>, b: seq<Node>)
    requires multiset(a) == multiset(b) && |b| <= 1
    ensures a == b
  {
    assert |a| == |multiset(a)| == |multiset(b)| == |b|;
    if |b| == 1 {
      assert a[0] in multiset(b);
    }
  }

  /** Lists with the same entries for every id are permutations of each other, and when the
      second has no id twice this is all that counts. */
  lemma SameMeansPermutation(a: seq<Node>, b: seq<Node>)
    ensures SameById(a, b) ==> multiset(a) == multiset(b)
    ensures UniqueIds(b) && multiset(a) == multiset(b) ==> SameById(a, b)
  {
    if SameById(a, b) {
      forall n ensures multiset(a)[n] == multiset(b)[n] {
        CountWithId(a, n.id, n);
        CountWithId(b, n.id, n);
        assert WithId(a, n.id) == WithId(b, n.id);
      }
    }
    if UniqueIds(b) && multiset(a) == multiset(b) {
      forall id ensures WithId(a, id) == WithId(b, id) {
        forall n ensures multiset(WithId(a, id))[n] == multiset(WithId(b, id))[n] {
          CountWithId(a, id, n);
          CountWithId(b, id, n);
        }
        OneWithId(b, id);
        SameElement(WithId(a, id), WithId(b, id));
      }
    }
  }
}
