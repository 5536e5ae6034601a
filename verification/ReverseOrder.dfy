/**
 Undoing the order in which samples were dealt to micro-batches: the index lists of the
 micro-batches, one after the other, say where every output row belongs.
*/
module ReverseOrder {
  import opened Sequences
  import opened Outcomes

  /** The position that a list index names; a negative one counts from the end. */
  function Place(x: int, n: nat): int {
    if x < 0 then x + n else x
  }

  function Places(order: seq<int>): (r: seq<int>)
    ensures |r| == |order|
  {
    seq(|order|, i requires 0 <= i < |order| => Place(order[i], |order|))
  }

  predicate InBounds(places: seq<int>) {
    forall i :: 0 <= i < |places| ==> 0 <= places[i] < |places|
  }

  /** The last of the first n positions that holds j; without one, what was there before. */
  function LastBefore(places: seq<int>, j: nat, n: nat, before: int): int
    requires n <= |places|
  {
    if n == 0 then before else if places[n - 1] == j then n - 1 else LastBefore(places, j, n - 1, before)
  }

  function ReverseOf(order: seq<int>): (r: seq<int>)
    ensures |r| == |order|
  {
    seq(|order|, j requires 0 <= j < |order| => LastBefore(Places(order), j, |order|, order[j]))
  }

  /** `get_reverse_idx`: overwrites a copy of the list; an index beyond its ends fails. */
  method GetReverseIdx(order: seq<int>) returns (r: Result<seq<int>>)
    ensures r == if InBounds(Places(order)) then Ok(ReverseOf(order)) else Err(IndexError)
  {
    var n := |order|;
    var reverse := new int[n](i requires 0 <= i < n => order[i]);
    for i := 0 to n
      invariant forall k :: 0 <= k < i ==> 0 <= Places(order)[k] < n
      invariant forall j {:trigger reverse[j]} :: 0 <= j < n ==> reverse[j] == LastBefore(Places(order), j, i, order[j])
    {
      var place := Place(order[i], n);
      assert Places(order)[i] == place;
      if place < 0 || place >= n {
        return Err(IndexError);
      }
      reverse[place] := i;
    }
    assert reverse[..] == ReverseOf(order);
    r := Ok(reverse[..]);
  }

  // ---------------------------------------------------------------- when it is an inverse

  lemma {:induction false} LastIs(places: seq<int>, j: nat, n: nat, before: int, i: nat)
    requires i < n <= |places| && places[i] == j
    ensures i <= LastBefore(places, j, n, before) < n && places[LastBefore(places, j, n, before)] == j
  {
    if places[n - 1] != j {
      LastIs(places, j, n - 1, before, i);
    }
  }

  /** The reversed list sends every index back to its position. */
  ghost predicate SendsBack(order: seq<int>)
    requires InBounds(Places(order))
  {
    forall i :: 0 <= i < |order| ==> ReverseOf(order)[Places(order)[i]] == i
  }

  /** It does exactly if no position is named twice. */
  lemma {:induction false} SendsBackExactly(order: seq<int>)
    requires InBounds(Places(order))
    ensures SendsBack(order) <==> Distinct(Places(order))
  {
    var places, n := Places(order), |order|;
    if Distinct(places) {
      forall i | 0 <= i < n ensures ReverseOf(order)[places[i]] == i {
        LastIs(places, places[i], n, order[places[i]], i);
        var last := ReverseOf(order)[places[i]];
        assert i < last ==> Differ(places, i, last);
      }
    }
    if SendsBack(order) {
      forall i: nat, k: nat | i < k < n ensures Differ(places, i, k) {
        assert ReverseOf(order)[places[i]] == i && ReverseOf(order)[places[k]] == k;
      }
    }
  }

  /** Distinct indices below n reach every index below n. */
  lemma {:induction false} EveryIndexReached(places: seq<int>, j: nat)
    requires InBounds(places) && Distinct(places) && j < |places|
    ensures j in places
  {
    if j !in places {
      forall i, k | 0 <= i < k < |places| ensures places[i] != places[k] {
        assert Differ(places, i, k);
      }
      var bound := BelowSet(|places|) - {j};
      assert bound + {j} == BelowSet(|places|);
      DistinctBound(places, bound);
    }
  }

  /** The reversed list is an inverse on both sides. */
  lemma {:induction false} BothInverse(order: seq<int>, j: nat)
    requires InBounds(Places(order)) && Distinct(Places(order)) && j < |order|
    ensures 0 <= ReverseOf(order)[j] < |order| && Places(order)[ReverseOf(order)[j]] == j
    ensures ReverseOf(order)[Places(order)[j]] == j
  {
    SendsBackExactly(order);
    EveryIndexReached(Places(order), j);
    var i :| 0 <= i < |order| && Places(order)[i] == j;
    assert ReverseOf(order)[Places(order)[i]] == i;
  }

  lemma {:induction false} OwnPlaces(order: seq<int>)
    requires InBounds(order)
    ensures Places(order) == order
  {
  }

  /** Reversing twice gives the named positions back, so a list without negative indices itself. */
  lemma {:induction false} ReverseTwice(order: seq<int>)
    requires InBounds(Places(order)) && Distinct(Places(order))
    ensures InBounds(ReverseOf(order)) && Distinct(ReverseOf(order)) && ReverseOf(ReverseOf(order)) == Places(order)
    ensures InBounds(order) ==> ReverseOf(ReverseOf(order)) == order
  {
    var r := ReverseOf(order);
    forall j | 0 <= j < |r| ensures 0 <= r[j] < |r| {
      BothInverse(order, j);
    }
    forall i: nat, k: nat | i < k < |r| ensures Differ(r, i, k) {
      BothInverse(order, i);
      BothInverse(order, k);
    }
    OwnPlaces(r);
    SendsBackExactly(r);
    forall j | 0 <= j < |r| ensures ReverseOf(r)[j] == Places(order)[j] {
      BothInverse(order, j);
      assert ReverseOf(r)[Places(r)[Places(order)[j]]] == Places(order)[j];
    }
    if InBounds(order) {
      OwnPlaces(order);
    }
  }

  // ---------------------------------------------------------------- micro-batches

  /** What the model computes for the samples of each part, in the order of the parts. */
  function Outputs<T, U>(f: T -> U, data: seq<T>, parts: seq<seq<nat>>): (r: seq<U>)
    requires forall p, j :: 0 <= p < |parts| && 0 <= j < |parts[p]| ==> parts[p][j] < |data|
  {
    if parts == [] then [] else Map(f, Gather(data, parts[0])) + Outputs(f, data, parts[1..])
  }

  lemma {:induction false} OutputsAt<T, U>(f: T -> U, data: seq<T>, parts: seq<seq<nat>>)
    requires forall p, j :: 0 <= p < |parts| && 0 <= j < |parts[p]| ==> parts[p][j] < |data|
    ensures |Outputs(f, data, parts)| == |Flatten<nat>(parts)|
    ensures forall i :: 0 <= i < |Flatten<nat>(parts)| ==>
      Flatten<nat>(parts)[i] < |data| && Outputs(f, data, parts)[i] == f(data[Flatten<nat>(parts)[i]])
  {
    if parts != [] {
      OutputsAt(f, data, parts[1..]);
    }
  }

  /** The flattened index lists of a partition are distinct and in bounds. */
  lemma {:induction false} PartitionOrder(parts: seq<seq<nat>>, n: nat)
    requires IsPartition(parts, n)
    ensures |Flatten<nat>(parts)| == n && InBounds(Flatten<nat>(parts)) && Distinct(Flatten<nat>(parts))
    ensures forall p, j :: 0 <= p < |parts| && 0 <= j < |parts[p]| ==> parts[p][j] < n
  {
    var flat := Flatten<nat>(parts);
    assert |flat| == |multiset(flat)| && |Range(n)| == |multiset(Range(n))|;
    RangeMultiset(n);
    forall i | 0 <= i < |flat| ensures flat[i] < n {
      assert flat[i] in multiset(flat);
    }
    forall i: nat, k: nat | i < k < |flat| ensures Differ(flat, i, k) {
      if flat[i] == flat[k] {
        Twice(flat, i, k);
      }
    }
    forall p, j | 0 <= p < |parts| && 0 <= j < |parts[p]| ensures parts[p][j] < n {
      var x := parts[p][j];
      assert x in parts[p];
      FlattenMember<nat>(parts, p, x);
      assert x in multiset(flat);
    }
  }

  /** Reordered by the reversed index list, the micro-batches' outputs are those of the batch, sample by sample. */
  lemma {:induction false} OutputsRestored<T, U>(f: T -> U, data: seq<T>, parts: seq<seq<nat>>)
    requires IsPartition(parts, |data|)
    ensures forall p, j :: 0 <= p < |parts| && 0 <= j < |parts[p]| ==> parts[p][j] < |data|
    ensures |Flatten<nat>(parts)| == |Outputs(f, data, parts)| == |data| && InBounds(Places(Flatten<nat>(parts)))
    ensures forall j :: 0 <= j < |data| ==> 0 <= ReverseOf(Flatten<nat>(parts))[j] < |data|
    ensures Gather(Outputs(f, data, parts), ReverseOf(Flatten<nat>(parts))) == Map(f, data)
  {
    var order := Flatten<nat>(parts);
    PartitionOrder(parts, |data|);
    OutputsAt(f, data, parts);
    OwnPlaces(order);
    forall j | 0 <= j < |data| ensures 0 <= ReverseOf(order)[j] < |data| && order[ReverseOf(order)[j]] == j {
      BothInverse(order, j);
    }
    var restored := Gather(Outputs(f, data, parts), ReverseOf(order));
    forall j | 0 <= j < |data| ensures restored[j] == Map(f, data)[j] {
      assert restored[j] == f(data[order[ReverseOf(order)[j]]]);
    }
  }
}
