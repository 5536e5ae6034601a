/**
 The objects of the largest differencing method: states whose bags absorb those of another state,
 and the heap loop that merges states until one is left.
*/
module Partitioner {
  import opened Sequences
  import opened Outcomes
  import opened KarmarkarKarp

  class State {
    const k: nat
    var sets: seq<Bag>

    ghost predicate Valid()
      reads this
    {
      k > 0 && |sets| == k
    }

    constructor (items: seq<Item>, k: nat)
      requires k > 0 && (|items| == 1 || |items| == k)
      ensures Valid() && this.k == k
      ensures sets == StateOf(items, k)
    {
      this.k := k;
      sets := [];
      new;
      for i := 0 to k
        invariant sets == FreshBags(items, k)[..i]
      {
        sets := sets + [if i < |items| then Bag(items[i].len, [items[i]]) else EMPTY_BAG];
      }
      assert sets == FreshBags(items, k);
      sets := SortDown(sets);
    }

    method Merge(other: State)
      requires Valid() && other.Valid() && other != this && other.k == k
      modifies this
      ensures Valid()
      ensures sets == MergeStates(old(sets), other.sets)
    {
      ghost var paired := Paired(sets, other.sets);
      for i := 0 to k
        invariant |sets| == k
        invariant sets[..i] == paired[..i] && sets[i..] == old(sets)[i..]
      {
        var merged := AbsorbInto(sets[i], other.sets[k - 1 - i].items);
        sets := sets[i := merged];
      }
      assert sets == paired;
      sets := SortDown(sets);
    }
  }

  /** `Set.merge`: takes over the items of another set one by one. */
  method AbsorbInto(x: Bag, items: seq<Item>) returns (r: Bag)
    ensures r == Bag(x.sum + Total(items), x.items + items)
  {
    r := x;
    for j := 0 to |items|
      invariant r == Bag(x.sum + Total(items[..j]), x.items + items[..j])
    {
      TotalConcat(items[..j], [items[j]]);
      assert [items[j]][1..] == [];
      assert items[..j + 1] == items[..j] + [items[j]];
      r := Bag(r.sum + items[j].len, r.items + [items[j]]);
    }
    assert items[..|items|] == items;
  }

  ghost predicate ValidStates(heap: seq<State>, k: nat)
    reads heap
  {
    && k > 0
    && (forall i :: 0 <= i < |heap| ==> heap[i].Valid() && heap[i].k == k)
    && (forall i, j :: 0 <= i < j < |heap| ==> heap[i] != heap[j])
  }

  function StateViews(heap: seq<State>): (r: seq<seq<Bag>>)
    reads heap
    ensures |r| == |heap|
    ensures forall i :: 0 <= i < |heap| ==> r[i] == heap[i].sets
  {
    seq(|heap|, i requires 0 <= i < |heap| reads heap => heap[i].sets)
  }

  /** Pushes one new state per group of items. */
  method PushAll(groups: seq<seq<Item>>, k: nat) returns (heap: seq<State>)
    requires k > 0 && forall b :: 0 <= b < |groups| ==> |groups[b]| == 1 || |groups[b]| == k
    ensures ValidStates(heap, k) && fresh(heap)
    ensures StateViews(heap) == StatesOf(groups, k)
  {
    heap := PushEach(groups, k, StatesOf(groups, k));
  }

  method PushEach(groups: seq<seq<Item>>, k: nat, ghost goal: seq<seq<Bag>>) returns (heap: seq<State>)
    requires k > 0 && forall b :: 0 <= b < |groups| ==> |groups[b]| == 1 || |groups[b]| == k
    requires |goal| == |groups| && forall b :: 0 <= b < |groups| ==> goal[b] == StateOf(groups[b], k)
    ensures ValidStates(heap, k) && fresh(heap) && StateViews(heap) == goal
  {
    heap := [];
    for b := 0 to |groups|
      invariant |heap| == b && ValidStates(heap, k) && fresh(heap)
      invariant forall j :: 0 <= j < b ==> heap[j].sets == goal[j]
    {
      var s := new State(groups[b], k);
      assert s.sets == goal[b];
      heap := heap + [s];
    }
  }

  /** `heapq.heappop`: takes a least state out of the heap. */
  method PopLeast(heap: seq<State>, k: nat) returns (s: State, rest: seq<State>)
    requires ValidStates(heap, k) && heap != []
    ensures s in heap && ValidStates(rest, k) && (forall h :: h in rest ==> h in heap && h != s)
    ensures s.Valid() && s.k == k && s.sets == StateViews(heap)[Least(StateViews(heap), k)]
    ensures StateViews(rest) == RemoveAt(StateViews(heap), Least(StateViews(heap), k))
  {
    var best := 0;
    for j := 0 to |heap|
      invariant best < |heap|
      invariant Least(StateViews(heap), k) == LeastFrom(StateViews(heap), k, best, j)
    {
      if StateLess(heap[j].sets, heap[best].sets) {
        best := j;
      }
    }
    s, rest := heap[best], RemoveAt(heap, best);
    assert forall j :: 0 <= j < |rest| ==> rest[j] == heap[if j < best then j else j + 1];
  }

  lemma {:induction false} RoundOfPops(v: seq<seq<Bag>>, k: nat, rest: seq<seq<Bag>>)
    requires Heap(v, k) && |v| > 1 && rest == RemoveAt(v, Least(v, k))
    ensures Heap(rest, k) && rest != []
    ensures Round(v, k) == RemoveAt(rest, Least(rest, k)) + [MergeStates(v[Least(v, k)], rest[Least(rest, k)])]
  {
  }

  /** Merges two popped states in place and pushes the result; the other states stay as they were. */
  method MergeAndPush(state0: State, state1: State, others: seq<State>, k: nat) returns (next: seq<State>)
    requires ValidStates(others, k) && state0 !in others
    requires state0.Valid() && state1.Valid() && state0 != state1 && state0.k == state1.k == k
    modifies state0
    ensures ValidStates(next, k) && next == others + [state0]
    ensures StateViews(next) == old(StateViews(others)) + [MergeStates(old(state0.sets), old(state1.sets))]
  {
    assert forall j :: 0 <= j < |others| ==> others[j] in others;
    state0.Merge(state1);
    next := others + [state0];
  }

  /** One round of the heap loop: pop twice, merge in place, push. */
  method MergeRound(heap: seq<State>, k: nat) returns (next: seq<State>)
    requires ValidStates(heap, k) && |heap| > 1
    modifies heap
    ensures ValidStates(next, k) && forall i :: 0 <= i < |next| ==> next[i] in heap
    ensures StateViews(next) == Round(old(StateViews(heap)), k)
  {
    var state0, rest := PopLeast(heap, k);
    RoundOfPops(StateViews(heap), k, StateViews(rest));
    var state1, others := PopLeast(rest, k);
    next := MergeAndPush(state0, state1, others, k);
    assert forall j :: 0 <= j < |others| ==> others[j] in others;
  }

  method MakeStates(lens: seq<nat>, k: nat, equalSize: bool) returns (heap: seq<State>)
    requires k > 0 && (equalSize ==> |lens| % k == 0)
    ensures ValidStates(heap, k) && fresh(heap)
    ensures StateViews(heap) == InitialStates(lens, k, equalSize)
  {
    heap := PushAll(InitialGroups(lens, k, equalSize), k);
  }

  /** Merges states until one is left. */
  method ReduceHeap(states: seq<State>, k: nat) returns (final: seq<Bag>)
    requires ValidStates(states, k) && states != []
    modifies states
    ensures final == Reduce(old(StateViews(states)), k)
  {
    var heap := states;
    while |heap| > 1
      invariant heap != [] && ValidStates(heap, k) && forall i :: 0 <= i < |heap| ==> heap[i] in states
      invariant Reduce(StateViews(heap), k) == Reduce(old(StateViews(states)), k)
      decreases |heap|
    {
      ghost var views := StateViews(heap);
      heap := MergeRound(heap, k);
      assert Reduce(views, k) == Reduce(Round(views, k), k);
    }
    final := heap[0].sets;
  }

  /** `karmarkar_karp`: fails exactly when equal sizes are asked for and k does not divide the count. */
  method Partition(lens: seq<nat>, k: nat, equalSize: bool) returns (r: Result<seq<seq<nat>>>)
    requires k > 0 && lens != []
    ensures r == if equalSize && |lens| % k != 0 then Err(AssertionError)
                 else Ok(Partitions(lens, k, equalSize))
  {
    if equalSize && |lens| % k != 0 {
      return Err(AssertionError);
    }
    var heap := MakeStates(lens, k, equalSize);
    var final := ReduceHeap(heap, k);
    var partitions := PartitionsOf(final);
    if equalSize {
      PartitionsEqualSize(lens, k);
      var even := SizesMultiplyTo(partitions, k, |lens|);
      if !even {
        return Err(AssertionError);
      }
    }
    r := Ok(partitions);
  }

  method SizesMultiplyTo(partitions: seq<seq<nat>>, k: nat, n: nat) returns (ok: bool)
    ensures ok <==> forall p :: 0 <= p < |partitions| ==> |partitions[p]| * k == n
  {
    for i := 0 to |partitions|
      invariant forall p :: 0 <= p < i ==> |partitions[p]| * k == n
    {
      if |partitions[i]| * k != n {
        return false;
      }
    }
    return true;
  }

  // ---------------------------------------------------------------- checked and sorted partitions

  function InsertIndex(x: nat, s: seq<nat>): (r: seq<nat>)
    ensures |r| == |s| + 1
  {
    if s == [] then [x]
    else if x < s[0] then [x] + s
    else [s[0]] + InsertIndex(x, s[1..])
  }

  function SortIndices(s: seq<nat>): (r: seq<nat>)
    ensures |r| == |s|
  {
    if s == [] then [] else InsertIndex(s[|s| - 1], SortIndices(s[..|s| - 1]))
  }

  ghost predicate Sorted(s: seq<nat>) {
    forall i, j :: 0 <= i < j < |s| ==> s[i] <= s[j]
  }

  lemma {:induction false} InsertIndexMultiset(x: nat, s: seq<nat>)
    ensures multiset(InsertIndex(x, s)) == multiset(s) + multiset{x}
  {
    if s != [] {
      InsertIndexMultiset(x, s[1..]);
      assert s == [s[0]] + s[1..];
    }
  }

  lemma {:induction false} InsertIndexSorted(x: nat, s: seq<nat>)
    requires Sorted(s)
    ensures Sorted(InsertIndex(x, s))
  {
    if s != [] && x >= s[0] {
      InsertIndexSorted(x, s[1..]);
      InsertIndexMultiset(x, s[1..]);
      var r := InsertIndex(x, s[1..]);
      forall j | 0 <= j < |r| ensures s[0] <= r[j] {
        InsertedOrOld(s[1..], x, r, j);
      }
    }
  }

  lemma {:induction false} SortIndicesSorted(s: seq<nat>)
    ensures Sorted(SortIndices(s)) && multiset(SortIndices(s)) == multiset(s)
  {
    if s != [] {
      SortIndicesSorted(s[..|s| - 1]);
      InsertIndexSorted(s[|s| - 1], SortIndices(s[..|s| - 1]));
      InsertIndexMultiset(s[|s| - 1], SortIndices(s[..|s| - 1]));
      assert s == s[..|s| - 1] + [s[|s| - 1]];
    }
  }

  function SortedParts(parts: seq<seq<nat>>): (r: seq<seq<nat>>)
    ensures |r| == |parts|
    ensures forall p :: 0 <= p < |parts| ==> r[p] == SortIndices(parts[p])
  {
    seq(|parts|, p requires 0 <= p < |parts| => SortIndices(parts[p]))
  }

  lemma {:induction false} SortedPartsCover(parts: seq<seq<nat>>)
    ensures multiset(Flatten<nat>(SortedParts(parts))) == multiset(Flatten<nat>(parts))
  {
    if parts != [] {
      SortedPartsCover(parts[1..]);
      SortIndicesSorted(parts[0]);
      assert SortedParts(parts)[1..] == SortedParts(parts[1..]);
    }
  }

  /** What `get_seqlen_balanced_partitions` returns when its assertions hold. */
  function Balanced(lens: seq<nat>, k: nat, equalSize: bool): (r: seq<seq<nat>>)
    requires 0 < k <= |lens| && (equalSize ==> |lens| % k == 0)
    ensures |r| == k
  {
    SortedParts(Partitions(lens, k, equalSize))
  }

  /**
   The checked partitions: k sorted, non-empty parts that place every index exactly once and
   whose loads differ by at most the spread bound.
   */
  lemma {:induction false} BalancedValid(lens: seq<nat>, k: nat, equalSize: bool)
    requires 0 < k <= |lens| && (equalSize ==> |lens| % k == 0)
    ensures var parts := Balanced(lens, k, equalSize);
      && IsPartition(parts, |lens|)
      && (forall p :: 0 <= p < k ==> parts[p] != [] && Sorted(parts[p]))
      && (equalSize ==> forall p :: 0 <= p < k ==> |parts[p]| == |lens| / k)
      && (forall p, q :: 0 <= p < k && 0 <= q < k ==>
            Load(lens, parts[p]) <= Load(lens, parts[q]) + SpreadBound(lens, k, equalSize))
  {
    var raw, parts := Partitions(lens, k, equalSize), Balanced(lens, k, equalSize);
    PartitionsCover(lens, k, equalSize);
    SortedPartsCover(raw);
    PartitionsNonEmpty(lens, k, equalSize);
    if equalSize {
      PartitionsEqualSize(lens, k);
    }
    forall p | 0 <= p < k ensures Sorted(parts[p]) && Load(lens, parts[p]) == Load(lens, raw[p]) {
      SortIndicesSorted(raw[p]);
      LoadPermutation(lens, parts[p], raw[p]);
    }
    forall p, q | 0 <= p < k && 0 <= q < k
      ensures Load(lens, raw[p]) <= Load(lens, raw[q]) + SpreadBound(lens, k, equalSize)
    {
      PartitionsBalanced(lens, k, equalSize, p, q);
    }
  }

  lemma {:induction false} BalancedFullest(lens: seq<nat>, k: nat, p: nat)
    requires 0 < k <= |lens| && p < k
    ensures k * Load(lens, Balanced(lens, k, false)[p]) <= Sum(lens) + (k - 1) * Longest(lens)
  {
    var raw := Partitions(lens, k, false);
    SortIndicesSorted(raw[p]);
    LoadPermutation(lens, Balanced(lens, k, false)[p], raw[p]);
    FullestPart(lens, k, p);
  }

  function Members(parts: seq<seq<nat>>): set<nat> {
    set i | i in Flatten<nat>(parts)
  }

  lemma {:induction false} MembersPush(parts: seq<seq<nat>>, i: nat)
    requires i < |parts|
    ensures Members(parts[..i + 1]) == Members(parts[..i]) + set x | x in parts[i]
  {
    FlattenPush<nat>(parts[..i], parts[i]);
    assert parts[..i + 1] == parts[..i] + [parts[i]];
  }

  lemma {:induction false} PartitionMembers(parts: seq<seq<nat>>, n: nat)
    requires IsPartition(parts, n)
    ensures Members(parts) == BelowSet(n)
  {
    forall i: nat ensures i in Members(parts) <==> i < n {
      assert i in Flatten<nat>(parts) <==> i in multiset(Flatten<nat>(parts));
      RangeCount(n, i);
    }
  }

  lemma {:induction false} ChecksHold(lens: seq<nat>, k: nat, equalSize: bool)
    requires 0 < k <= |lens| && (equalSize ==> |lens| % k == 0)
    ensures forall p :: 0 <= p < k ==> Partitions(lens, k, equalSize)[p] != []
    ensures Members(Partitions(lens, k, equalSize)) == BelowSet(|lens|)
  {
    PartitionsNonEmpty(lens, k, equalSize);
    PartitionsCover(lens, k, equalSize);
    PartitionMembers(Partitions(lens, k, equalSize), |lens|);
  }

  /** `get_seqlen_balanced_partitions`: none of its checks on the partitions ever fires. */
  method BalancedPartitions(lens: seq<nat>, k: nat, equalSize: bool) returns (r: Result<seq<seq<nat>>>)
    requires k > 0
    ensures r == if |lens| < k || (equalSize && |lens| % k != 0) then Err(AssertionError)
                 else Ok(Balanced(lens, k, equalSize))
  {
    if |lens| < k {
      return Err(AssertionError);
    }
    var found := Partition(lens, k, equalSize);
    if found.Err? {
      return found;
    }
    ChecksHold(lens, k, equalSize);
    r := CheckAndSort(found.value, |lens|);
  }

  /** `_check_and_sort_partitions` on the partitions of n indices. */
  method CheckAndSort(partitions: seq<seq<nat>>, n: nat) returns (r: Result<seq<seq<nat>>>)
    ensures r == if (forall p :: 0 <= p < |partitions| ==> partitions[p] != []) && Members(partitions) == BelowSet(n)
                 then Ok(SortedParts(partitions)) else Err(AssertionError)
  {
    var sorted: seq<seq<nat>> := [];
    var seen: set<nat> := {};
    for i := 0 to |partitions|
      invariant forall p :: 0 <= p < i ==> partitions[p] != []
      invariant sorted == SortedParts(partitions)[..i]
      invariant seen == Members(partitions[..i])
    {
      if partitions[i] == [] {
        return Err(AssertionError);
      }
      MembersPush(partitions, i);
      seen := seen + set x | x in partitions[i];
      sorted := sorted + [SortIndices(partitions[i])];
    }
    assert partitions[..|partitions|] == partitions;
    assert SortedParts(partitions)[..|partitions|] == SortedParts(partitions);
    r := if seen == BelowSet(n) then Ok(sorted) else Err(AssertionError);
  }
}
