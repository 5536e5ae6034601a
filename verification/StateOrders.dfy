/**
 The orders of the differencing method in plain numbers: which state the heap gives out, how a merged
 state is sorted, in which order items are grouped, and in which order the parts are listed.
*/
module StateOrders {
  import opened Sequences
  import opened KarmarkarKarp
  import opened Partitioner

  // ---------------------------------------------------------------- lists of items

  predicate ItemBefore(x: Item, y: Item) {
    x.idx < y.idx || (x.idx == y.idx && x.len < y.len)
  }

  /** At the first difference list a has ended, or has the smaller item. */
  ghost predicate DiffersAt(a: seq<Item>, b: seq<Item>, p: nat) {
    && p <= |a| && p < |b| && (forall q :: 0 <= q < p ==> a[q] == b[q])
    && (p == |a| || ItemBefore(a[p], b[p]))
  }

  ghost predicate ListBefore(a: seq<Item>, b: seq<Item>) {
    exists p: nat :: DiffersAt(a, b, p)
  }

  lemma {:induction false} ItemsLessExactly(a: seq<Item>, b: seq<Item>)
    ensures ItemsLess(a, b) <==> ListBefore(a, b)
  {
    if a == [] && b != [] {
      assert DiffersAt(a, b, 0);
    } else if a != [] && b != [] && a[0] != b[0] {
      if ItemBefore(a[0], b[0]) {
        assert DiffersAt(a, b, 0);
      }
    } else if a != [] && b != [] {
      ItemsLessExactly(a[1..], b[1..]);
      if ListBefore(a[1..], b[1..]) {
        var p: nat :| DiffersAt(a[1..], b[1..], p);
        LaterDifference(a, b, p + 1);
      }
      if ListBefore(a, b) {
        var p: nat :| DiffersAt(a, b, p);
        assert p > 0;
        LaterDifference(a, b, p);
      }
    }
  }

  lemma {:induction false} LaterDifference(a: seq<Item>, b: seq<Item>, p: nat)
    requires a != [] && b != [] && a[0] == b[0] && p > 0
    ensures DiffersAt(a, b, p) <==> DiffersAt(a[1..], b[1..], p - 1)
  {
    if DiffersAt(a[1..], b[1..], p - 1) {
      forall q | 0 <= q < p ensures a[q] == b[q] {
        assert q > 0 ==> a[1..][q - 1] == b[1..][q - 1];
      }
    }
  }

  lemma {:induction false} ItemsTotal(a: seq<Item>, b: seq<Item>)
    ensures a == b || ItemsLess(a, b) || ItemsLess(b, a)
    ensures ItemsLess(a, b) ==> !ItemsLess(b, a)
  {
    if a != [] && b != [] && a[0] == b[0] {
      ItemsTotal(a[1..], b[1..]);
      assert a == [a[0]] + a[1..] && b == [b[0]] + b[1..];
    }
  }

  // ---------------------------------------------------------------- bags and states

  /** Larger sum first, then more items, then the later list. */
  ghost predicate Outranks(x: Bag, y: Bag) {
    || x.sum > y.sum
    || (x.sum == y.sum && |x.items| > |y.items|)
    || (x.sum == y.sum && |x.items| == |y.items| && (x.items == y.items || ListBefore(y.items, x.items)))
  }

  lemma {:induction false} OutranksExactly(x: Bag, y: Bag)
    ensures Outranks(x, y) <==> !BagLess(x, y)
  {
    ItemsTotal(x.items, y.items);
    ItemsLessIrreflexive(x.items);
    ItemsLessExactly(y.items, x.items);
  }

  lemma {:induction false} NotLessTransitive(x: Bag, y: Bag, z: Bag)
    requires !BagLess(x, y) && !BagLess(y, z)
    ensures !BagLess(x, z)
  {
    ItemsTotal(x.items, y.items);
    ItemsTotal(y.items, z.items);
    if BagLess(x, z) && BagLess(z, y) {
      BagLessTransitive(x, z, y);
    }
  }

  ghost predicate RankedDown(s: seq<Bag>) {
    forall i, j :: 0 <= i < j < |s| ==> !BagLess(s[i], s[j])
  }

  lemma {:induction false} InsertRanked(x: Bag, s: seq<Bag>)
    requires RankedDown(s)
    ensures RankedDown(InsertBag(x, s))
  {
    if s != [] && BagLess(s[0], x) {
      ItemsTotal(x.items, s[0].items);
      forall j | 0 <= j < |s| ensures !BagLess(x, s[j]) {
        if j > 0 {
          NotLessTransitive(x, s[0], s[j]);
        }
      }
    } else if s != [] {
      InsertRanked(x, s[1..]);
      InsertBagMultiset(x, s[1..]);
      var r := InsertBag(x, s[1..]);
      forall j | 0 <= j < |r| ensures !BagLess(s[0], r[j]) {
        assert r[j] in multiset(r);
        assert r[j] == x || r[j] in s[1..];
      }
    }
  }

  lemma {:induction false} SortedRanked(s: seq<Bag>)
    ensures RankedDown(SortDown(s))
  {
    if s != [] {
      SortedRanked(s[..|s| - 1]);
      InsertRanked(s[|s| - 1], SortDown(s[..|s| - 1]));
    }
  }

  /** A state lists its bags by sum, then by number of items, then by the items. */
  lemma {:induction false} StateSorted(s: seq<Bag>, i: nat, j: nat)
    requires i < j < |s|
    ensures multiset(SortDown(s)) == multiset(s) && Outranks(SortDown(s)[i], SortDown(s)[j])
  {
    SortDownMultiset(s);
    SortedRanked(s);
    OutranksExactly(SortDown(s)[i], SortDown(s)[j]);
  }

  /** State a leaves the heap before b: a wider gap from first to last bag, or as wide a one and a higher first bag. */
  ghost predicate PopsFirst(a: seq<Bag>, b: seq<Bag>)
    requires a != [] && b != []
  {
    var gapA, gapB := a[0].sum - a[|a| - 1].sum, b[0].sum - b[|b| - 1].sum;
    gapA > gapB || (gapA == gapB && Outranks(a[0], b[0]))
  }

  /** The heap gives out the state with the largest gap, among equal gaps the one with the highest first bag. */
  lemma {:induction false} LeastPopsFirst(heap: seq<seq<Bag>>, k: nat, j: nat)
    requires Heap(heap, k) && j < |heap|
    ensures PopsFirst(heap[Least(heap, k)], heap[j])
  {
    LeastIsLeast(heap, k);
    OutranksExactly(heap[Least(heap, k)][0], heap[j][0]);
  }

  ghost predicate PopsFirstOf(a: seq<Bag>, heap: seq<seq<Bag>>, k: nat)
    requires Heap(heap, k) && a != []
  {
    forall h :: 0 <= h < |heap| ==> PopsFirst(a, heap[h])
  }

  lemma {:induction false} LeastPopsFirstOfAll(heap: seq<seq<Bag>>, k: nat)
    requires Heap(heap, k) && heap != []
    ensures PopsFirstOf(heap[Least(heap, k)], heap, k)
  {
    forall h | 0 <= h < |heap| ensures PopsFirst(heap[Least(heap, k)], heap[h]) {
      LeastPopsFirst(heap, k, h);
    }
  }

  /** Bag i of the one state with bag k - 1 - i of the other. */
  function Joined(a: seq<Bag>, b: seq<Bag>, k: nat): (r: seq<Bag>)
    requires |a| == |b| == k
    ensures |r| == k && forall i :: 0 <= i < k ==>
      r[i] == Bag(a[i].sum + Total(b[k - 1 - i].items), a[i].items + b[k - 1 - i].items)
  {
    seq(k, i requires 0 <= i < k => Bag(a[i].sum + Total(b[k - 1 - i].items), a[i].items + b[k - 1 - i].items))
  }

  lemma {:induction false} PairedIsJoined(a: seq<Bag>, b: seq<Bag>, k: nat)
    requires |a| == |b| == k
    ensures Paired(a, b) == Joined(a, b, k)
  {
  }

  /** The merged state holds the joined bags, sorted. */
  ghost predicate MergesTo(a: seq<Bag>, b: seq<Bag>, merged: seq<Bag>, k: nat) {
    && |a| == |b| == |merged| == k
    && (forall p, q :: 0 <= p < q < k ==> Outranks(merged[p], merged[q]))
    && multiset(merged) == multiset(Joined(a, b, k))
  }

  lemma {:induction false} MergeMerges(a: seq<Bag>, b: seq<Bag>, k: nat)
    requires |a| == |b| == k
    ensures MergesTo(a, b, MergeStates(a, b), k)
  {
    var merged := MergeStates(a, b);
    forall p, q | 0 <= p < q < k ensures Outranks(merged[p], merged[q]) {
      StateSorted(Paired(a, b), p, q);
    }
    SortDownMultiset(Paired(a, b));
    PairedIsJoined(a, b, k);
  }

  /** Two states popped one after the other are replaced by what they merge to. */
  ghost predicate PopsAndMerges(heap: seq<seq<Bag>>, after: seq<seq<Bag>>, k: nat, i: nat, j: nat)
    requires Heap(heap, k)
  {
    && i < |heap| && j < |heap| - 1 && |after| == |heap| - 1
    && PopsFirstOf(heap[i], heap, k) && PopsFirstOf(RemoveAt(heap, i)[j], RemoveAt(heap, i), k)
    && after[..|after| - 1] == RemoveAt(RemoveAt(heap, i), j)
    && MergesTo(heap[i], RemoveAt(heap, i)[j], after[|after| - 1], k)
  }

  /** A round merges the two states that pop first. */
  lemma {:induction false} RoundMergesWidest(heap: seq<seq<Bag>>, k: nat) returns (i: nat, j: nat)
    requires Heap(heap, k) && |heap| > 1
    ensures PopsAndMerges(heap, Round(heap, k), k, i, j)
  {
    i := Least(heap, k);
    var rest := RemoveAt(heap, i);
    j := Least(rest, k);
    LeastPopsFirstOfAll(heap, k);
    LeastPopsFirstOfAll(rest, k);
    MergeMerges(heap[i], rest[j], k);
    LastOfPushed(RemoveAt(rest, j), MergeStates(heap[i], rest[j]));
  }

  ghost predicate OneRound(heap: seq<seq<Bag>>, after: seq<seq<Bag>>, k: nat) {
    Heap(heap, k) && exists i: nat, j: nat :: PopsAndMerges(heap, after, k, i, j)
  }

  /** Every heap of the trace comes from the one before it by popping and merging two states. */
  ghost predicate Rounds(trace: seq<seq<seq<Bag>>>, k: nat) {
    forall t, u {:trigger trace[t], trace[u]} :: 0 <= t && u == t + 1 && u < |trace| ==> OneRound(trace[t], trace[u], k)
  }

  /** The last state is what is left after popping and merging two states again and again. */
  lemma {:induction false} ReduceIsRounds(heap: seq<seq<Bag>>, k: nat) returns (trace: seq<seq<seq<Bag>>>)
    requires Heap(heap, k) && heap != []
    ensures Rounds(trace, k) && trace != [] && trace[0] == heap && trace[|trace| - 1] == [Reduce(heap, k)]
    decreases |heap|
  {
    if |heap| == 1 {
      trace := [heap];
      assert heap == [heap[0]];
    } else {
      var i, j := RoundMergesWidest(heap, k);
      assert OneRound(heap, Round(heap, k), k);
      var rest := ReduceIsRounds(Round(heap, k), k);
      trace := [heap] + rest;
      RoundsPush(heap, rest, k);
    }
  }

  lemma {:induction false} RoundsPush(heap: seq<seq<Bag>>, rest: seq<seq<seq<Bag>>>, k: nat)
    requires rest != [] && Rounds(rest, k) && OneRound(heap, rest[0], k)
    ensures Rounds([heap] + rest, k)
  {
    var trace := [heap] + rest;
    forall t, u | 0 <= t && u == t + 1 && u < |trace| ensures OneRound(trace[t], trace[u], k) {
      assert t > 0 ==> OneRound(rest[t - 1], rest[u - 1], k);
    }
  }

  /** The parts are the index lists of the last state, each sorted. */
  lemma {:induction false} PartsOfLast(lens: seq<nat>, k: nat, equalSize: bool) returns (trace: seq<seq<seq<Bag>>>)
    requires 0 < k <= |lens| && (equalSize ==> |lens| % k == 0)
    ensures Rounds(trace, k) && trace != [] && trace[0] == InitialStates(lens, k, equalSize)
    ensures |trace[|trace| - 1]| == 1 && |trace[|trace| - 1][0]| == k
    ensures forall p :: 0 <= p < k ==>
      var part := Balanced(lens, k, equalSize)[p];
      Sorted(part) && multiset(part) == multiset(Indices(trace[|trace| - 1][0][p].items))
  {
    trace := ReduceIsRounds(InitialStates(lens, k, equalSize), k);
    forall p | 0 <= p < k
      ensures var part := Balanced(lens, k, equalSize)[p];
        Sorted(part) && multiset(part) == multiset(Indices(trace[|trace| - 1][0][p].items))
    {
      SortIndicesSorted(Partitions(lens, k, equalSize)[p]);
    }
  }

  lemma {:induction false} LastOfPushed<T>(s: seq<T>, x: T)
    ensures (s + [x])[..|s|] == s && (s + [x])[|s|] == x
  {
  }

  // ---------------------------------------------------------------- items and parts

  /** Shorter, or as long with no larger index. */
  predicate NotAfter(x: Item, y: Item) {
    x.len < y.len || (x.len == y.len && x.idx <= y.idx)
  }

  ghost predicate ShortFirst(s: seq<Item>) {
    forall i, j :: 0 <= i < j < |s| ==> NotAfter(s[i], s[j])
  }

  lemma {:induction false} InsertShort(x: Item, s: seq<Item>)
    requires ShortFirst(s)
    ensures ShortFirst(InsertItem(x, s))
  {
    if s != [] && !(x.len < s[0].len || (x.len == s[0].len && x.idx < s[0].idx)) {
      InsertShort(x, s[1..]);
      InsertItemMultiset(x, s[1..]);
      var r := InsertItem(x, s[1..]);
      forall j | 0 <= j < |r| ensures NotAfter(s[0], r[j]) {
        assert r[j] in multiset(r);
        assert r[j] == x || r[j] in s[1..];
      }
    }
  }

  lemma {:induction false} SortUpShort(s: seq<Item>)
    ensures ShortFirst(SortUp(s))
  {
    if s != [] {
      SortUpShort(s[..|s| - 1]);
      InsertShort(s[|s| - 1], SortUp(s[..|s| - 1]));
    }
  }

  /** Items are grouped by length, and items of one length by index; every item occurs once. */
  lemma {:induction false} GroupsInOrder(lens: seq<nat>, k: nat, equalSize: bool)
    requires k > 0 && (equalSize ==> |lens| % k == 0)
    ensures ShortFirst(Flatten(InitialGroups(lens, k, equalSize)))
    ensures multiset(Flatten(InitialGroups(lens, k, equalSize))) == multiset(Indexed(lens))
  {
    var sorted := SortUp(Indexed(lens));
    SortUpShort(Indexed(lens));
    SortUpMultiset(Indexed(lens));
    if equalSize {
      FlattenBlocks(sorted, k);
    } else {
      FlattenSingles(sorted);
    }
  }

  lemma {:induction false} FinalDescending(lens: seq<nat>, k: nat, equalSize: bool)
    requires k > 0 && lens != [] && (equalSize ==> |lens| % k == 0)
    ensures Descending(FinalState(lens, k, equalSize))
  {
    var heap := InitialStates(lens, k, equalSize);
    var groups := InitialGroups(lens, k, equalSize);
    forall b | 0 <= b < |heap| ensures Descending(heap[b]) {
      SortDownDescending(FreshBags(groups[b], k));
    }
    forall a, b | |a| == |b| ensures Descending(MergeStates(a, b)) {
      SortDownDescending(Paired(a, b));
    }
    ReduceKeeps(s => Descending(s), heap, k);
  }

  /** The parts are listed by load, the fullest first. */
  lemma {:induction false} PartsByLoad(lens: seq<nat>, k: nat, equalSize: bool, p: nat, q: nat)
    requires 0 < k <= |lens| && (equalSize ==> |lens| % k == 0) && p < q < k
    ensures Load(lens, Balanced(lens, k, equalSize)[p]) >= Load(lens, Balanced(lens, k, equalSize)[q])
  {
    var raw, s := Partitions(lens, k, equalSize), FinalState(lens, k, equalSize);
    FinalDescending(lens, k, equalSize);
    FinalSums(lens, k, equalSize, p);
    FinalSums(lens, k, equalSize, q);
    SortIndicesSorted(raw[p]);
    SortIndicesSorted(raw[q]);
    LoadPermutation(lens, raw[p], SortIndices(raw[p]));
    LoadPermutation(lens, raw[q], SortIndices(raw[q]));
    assert Before(s[p], s[q]);
  }
}
