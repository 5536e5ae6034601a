/**
 Grouping listed positions by a key: the keys in order of first appearance, and the positions of
 each. Turns are grouped so by trajectory, and inside a trajectory by agent.
*/
module Grouping {
  import opened Sequences

  /** The keys of the listed positions, in order of first appearance. */
  function Keys(keys: seq<int>, idxes: seq<nat>): (r: seq<int>)
    requires forall a :: 0 <= a < |idxes| ==> idxes[a] < |keys|
  {
    if idxes == [] then []
    else
      var r, k := Keys(keys, idxes[..|idxes| - 1]), keys[idxes[|idxes| - 1]];
      if k in r then r else r + [k]
  }

  /** The listed positions with the given key. */
  function Members(keys: seq<int>, idxes: seq<nat>, k: int): (r: seq<nat>)
    requires forall a :: 0 <= a < |idxes| ==> idxes[a] < |keys|
    ensures forall a :: 0 <= a < |r| ==> r[a] < |keys|
  {
    if idxes == [] then []
    else
      var r, last := Members(keys, idxes[..|idxes| - 1], k), idxes[|idxes| - 1];
      if keys[last] == k then r + [last] else r
  }

  lemma {:induction false} MemberIff(keys: seq<int>, idxes: seq<nat>, k: int, i: nat)
    requires forall a :: 0 <= a < |idxes| ==> idxes[a] < |keys|
    ensures i in Members(keys, idxes, k) <==> i in idxes && i < |keys| && keys[i] == k
  {
    if idxes != [] {
      var front, last := idxes[..|idxes| - 1], idxes[|idxes| - 1];
      MemberIff(keys, front, k, i);
      assert idxes == front + [last];
    }
  }

  lemma {:induction false} KeyIff(keys: seq<int>, idxes: seq<nat>, k: int)
    requires forall a :: 0 <= a < |idxes| ==> idxes[a] < |keys|
    ensures k in Keys(keys, idxes) <==> Members(keys, idxes, k) != []
  {
    if idxes != [] {
      KeyIff(keys, idxes[..|idxes| - 1], k);
    }
  }

  lemma {:induction false} KeysDistinct(keys: seq<int>, idxes: seq<nat>)
    requires forall a :: 0 <= a < |idxes| ==> idxes[a] < |keys|
    ensures Distinct(Keys(keys, idxes))
  {
    if idxes != [] {
      KeysDistinct(keys, idxes[..|idxes| - 1]);
      var r, k := Keys(keys, idxes[..|idxes| - 1]), keys[idxes[|idxes| - 1]];
      if k !in r {
        DistinctPush(r, k);
      }
    }
  }

  lemma {:induction false} MembersDistinct(keys: seq<int>, idxes: seq<nat>, k: int)
    requires Distinct(idxes) && forall a :: 0 <= a < |idxes| ==> idxes[a] < |keys|
    ensures Distinct(Members(keys, idxes, k))
  {
    if idxes != [] {
      var front, last := idxes[..|idxes| - 1], idxes[|idxes| - 1];
      DistinctFront(idxes);
      MembersDistinct(keys, front, k);
      MemberIff(keys, front, k, last);
      if keys[last] == k {
        DistinctPush(Members(keys, front, k), last);
      }
    }
  }

  /** Groups positions by key: the keys in order, and every key's positions. */
  method GroupBy(keys: seq<int>, idxes: seq<nat>) returns (order: seq<int>, groups: map<int, seq<nat>>)
    requires forall a :: 0 <= a < |idxes| ==> idxes[a] < |keys|
    ensures order == Keys(keys, idxes)
    ensures forall k :: k in order ==> k in groups && groups[k] == Members(keys, idxes, k)
  {
    order, groups := [], map[];
    for n := 0 to |idxes|
      invariant order == Keys(keys, idxes[..n])
      invariant forall k :: k in order <==> k in groups
      invariant forall k :: k in groups ==> groups[k] == Members(keys, idxes[..n], k)
    {
      var k := keys[idxes[n]];
      assert idxes[..n + 1][..n] == idxes[..n];
      KeyIff(keys, idxes[..n], k);
      if k !in groups {
        order, groups := order + [k], groups[k := []];
      }
      groups := groups[k := groups[k] + [idxes[n]]];
    }
    assert idxes[..|idxes|] == idxes;
  }

  lemma {:induction false} KeysAre(keys: seq<int>, idxes: seq<nat>, k: int)
    requires forall a :: 0 <= a < |idxes| ==> idxes[a] < |keys|
    requires idxes != [] && forall a :: 0 <= a < |idxes| ==> keys[idxes[a]] == k
    ensures Keys(keys, idxes) == [k] && Members(keys, idxes, k) == idxes
  {
    var front, last := idxes[..|idxes| - 1], idxes[|idxes| - 1];
    if front != [] {
      KeysAre(keys, front, k);
    }
    assert idxes == front + [last];
  }
}
