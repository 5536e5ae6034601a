/**
 The k-way largest differencing method, which balances the summed lengths of k partitions.

 `Bag` and `Reduce` describe the algorithm on values. Module Partitioner has the states the program
 mutates and is proved to compute that description. The balance and
 validity theorems are about the description.
*/
module KarmarkarKarp {
  import opened Sequences

  datatype Item = Item(idx: nat, len: nat)

  /** The value of one partition under construction: its summed length and its items. */
  datatype Bag = Bag(sum: int, items: seq<Item>)

  const EMPTY_BAG := Bag(0, [])

  // ---------------------------------------------------------------- the orders

  /** The order of two lists of (index, length) pairs. */
  predicate ItemsLess(a: seq<Item>, b: seq<Item>) {
    if b == [] then false
    else if a == [] then true
    else if a[0] != b[0] then
      a[0].idx < b[0].idx || (a[0].idx == b[0].idx && a[0].len < b[0].len)
    else ItemsLess(a[1..], b[1..])
  }

  predicate BagLess(x: Bag, y: Bag) {
    if x.sum != y.sum then x.sum < y.sum
    else if |x.items| != |y.items| then |x.items| < |y.items|
    else ItemsLess(x.items, y.items)
  }

  function Spread(s: seq<Bag>): int
    requires s != []
  {
    s[0].sum - s[|s| - 1].sum
  }

  /** The heap order of states: widest spread first, then the one with the largest first bag. */
  predicate StateLess(a: seq<Bag>, b: seq<Bag>)
    requires a != [] && b != []
  {
    if Spread(a) != Spread(b) then Spread(a) > Spread(b)
    else BagLess(b[0], a[0])
  }

  lemma {:induction false} ItemsLessTransitive(a: seq<Item>, b: seq<Item>, c: seq<Item>)
    requires ItemsLess(a, b) && ItemsLess(b, c)
    ensures ItemsLess(a, c)
  {
    if a != [] && a[0] == b[0] == c[0] {
      ItemsLessTransitive(a[1..], b[1..], c[1..]);
    }
  }

  lemma {:induction false} BagLessTransitive(a: Bag, b: Bag, c: Bag)
    requires BagLess(a, b) && BagLess(b, c)
    ensures BagLess(a, c)
  {
    if a.sum == b.sum == c.sum && |a.items| == |b.items| == |c.items| {
      ItemsLessTransitive(a.items, b.items, c.items);
    }
  }

  lemma {:induction false} StateLessTransitive(a: seq<Bag>, b: seq<Bag>, c: seq<Bag>)
    requires a != [] && b != [] && c != []
    requires StateLess(a, b) && StateLess(b, c)
    ensures StateLess(a, c)
  {
    if Spread(a) == Spread(b) == Spread(c) {
      BagLessTransitive(c[0], b[0], a[0]);
    }
  }

  lemma {:induction false} ItemsLessIrreflexive(a: seq<Item>)
    ensures !ItemsLess(a, a)
  {
    if a != [] {
      ItemsLessIrreflexive(a[1..]);
    }
  }

  // ---------------------------------------------------------------- sorting

  function InsertBag(x: Bag, s: seq<Bag>): (r: seq<Bag>)
    ensures |r| == |s| + 1
  {
    if s == [] then [x]
    else if BagLess(s[0], x) then [x] + s
    else [s[0]] + InsertBag(x, s[1..])
  }

  /** Largest bag first; equal bags keep their order. */
  function SortDown(s: seq<Bag>): (r: seq<Bag>)
    ensures |r| == |s|
  {
    if s == [] then [] else InsertBag(s[|s| - 1], SortDown(s[..|s| - 1]))
  }

  function InsertItem(x: Item, s: seq<Item>): (r: seq<Item>)
    ensures |r| == |s| + 1
  {
    if s == [] then [x]
    else if x.len < s[0].len || (x.len == s[0].len && x.idx < s[0].idx) then [x] + s
    else [s[0]] + InsertItem(x, s[1..])
  }

  /** Shortest item first, ties by index. */
  function SortUp(s: seq<Item>): (r: seq<Item>)
    ensures |r| == |s|
  {
    if s == [] then [] else InsertItem(s[|s| - 1], SortUp(s[..|s| - 1]))
  }

  lemma {:induction false} InsertBagMultiset(x: Bag, s: seq<Bag>)
    ensures multiset(InsertBag(x, s)) == multiset(s) + multiset{x}
  {
    if s != [] && !BagLess(s[0], x) {
      InsertBagMultiset(x, s[1..]);
      assert s == [s[0]] + s[1..];
    }
  }

  lemma {:induction false} SortDownMultiset(s: seq<Bag>)
    ensures multiset(SortDown(s)) == multiset(s)
  {
    if s != [] {
      var n := |s| - 1;
      SortDownMultiset(s[..n]);
      InsertBagMultiset(s[n], SortDown(s[..n]));
      MultisetPush<Bag>(s, n);
      assert s[..n + 1] == s;
    }
  }

  lemma {:induction false} InsertItemMultiset(x: Item, s: seq<Item>)
    ensures multiset(InsertItem(x, s)) == multiset(s) + multiset{x}
  {
    if s != [] {
      InsertItemMultiset(x, s[1..]);
      assert s == [s[0]] + s[1..];
    }
  }

  lemma {:induction false} SortUpMultiset(s: seq<Item>)
    ensures multiset(SortUp(s)) == multiset(s)
  {
    if s != [] {
      SortUpMultiset(s[..|s| - 1]);
      InsertItemMultiset(s[|s| - 1], SortUp(s[..|s| - 1]));
      assert s == s[..|s| - 1] + [s[|s| - 1]];
    }
  }

  /** x may stand before y in a sorted state: larger sum, or equal sums and no fewer items. */
  predicate Before(x: Bag, y: Bag) {
    x.sum > y.sum || (x.sum == y.sum && |x.items| >= |y.items|)
  }

  ghost predicate Descending(s: seq<Bag>) {
    forall i, j :: 0 <= i < j < |s| ==> Before(s[i], s[j])
  }

  lemma {:induction false} InsertBagDescending(x: Bag, s: seq<Bag>)
    requires Descending(s)
    ensures Descending(InsertBag(x, s))
  {
    if s != [] && !BagLess(s[0], x) {
      InsertBagDescending(x, s[1..]);
      InsertBagMultiset(x, s[1..]);
      var r := InsertBag(x, s[1..]);
      forall j | 0 <= j < |r| ensures Before(s[0], r[j]) {
        assert r[j] in multiset(r);
        assert r[j] == x || r[j] in s[1..];
      }
    }
  }

  lemma {:induction false} SortDownDescending(s: seq<Bag>)
    ensures Descending(SortDown(s))
  {
    if s != [] {
      SortDownDescending(s[..|s| - 1]);
      InsertBagDescending(s[|s| - 1], SortDown(s[..|s| - 1]));
    }
  }

  ghost predicate Ascending(s: seq<Item>) {
    forall i, j :: 0 <= i < j < |s| ==> s[i].len <= s[j].len
  }

  lemma {:induction false} InsertItemAscending(x: Item, s: seq<Item>)
    requires Ascending(s)
    ensures Ascending(InsertItem(x, s))
  {
    if s != [] && !(x.len < s[0].len || (x.len == s[0].len && x.idx < s[0].idx)) {
      InsertItemAscending(x, s[1..]);
      InsertItemMultiset(x, s[1..]);
      var r := InsertItem(x, s[1..]);
      forall j | 0 <= j < |r| ensures s[0].len <= r[j].len {
        assert r[j] in multiset(r);
        assert r[j] == x || r[j] in s[1..];
      }
    }
  }

  lemma {:induction false} SortUpAscending(s: seq<Item>)
    ensures Ascending(SortUp(s))
  {
    if s != [] {
      SortUpAscending(s[..|s| - 1]);
      InsertItemAscending(s[|s| - 1], SortUp(s[..|s| - 1]));
    }
  }

  // ---------------------------------------------------------------- the algorithm on values

  function Total(items: seq<Item>): nat {
    if items == [] then 0 else items[0].len + Total(items[1..])
  }

  function Combine(x: Bag, y: Bag): Bag {
    Bag(x.sum + Total(y.items), x.items + y.items)
  }

  /** Largest with smallest, second largest with second smallest, and so on. */
  function Paired(a: seq<Bag>, b: seq<Bag>): (r: seq<Bag>)
    requires |a| == |b|
    ensures |r| == |a|
    ensures forall i :: 0 <= i < |a| ==> r[i] == Combine(a[i], b[|a| - 1 - i])
  {
    seq(|a|, i requires 0 <= i < |a| => Combine(a[i], b[|a| - 1 - i]))
  }

  function MergeStates(a: seq<Bag>, b: seq<Bag>): (r: seq<Bag>)
    requires |a| == |b|
    ensures |r| == |a|
  {
    SortDown(Paired(a, b))
  }

  function FreshBags(items: seq<Item>, k: nat): (r: seq<Bag>)
    requires |items| <= k
    ensures |r| == k
    ensures forall i :: 0 <= i < k ==>
      r[i] == if i < |items| then Bag(items[i].len, [items[i]]) else EMPTY_BAG
  {
    seq(k, i requires 0 <= i < k => if i < |items| then Bag(items[i].len, [items[i]]) else EMPTY_BAG)
  }

  function StateOf(items: seq<Item>, k: nat): (r: seq<Bag>)
    requires |items| <= k
    ensures |r| == k
  {
    SortDown(FreshBags(items, k))
  }

  ghost predicate Heap(heap: seq<seq<Bag>>, k: nat) {
    k > 0 && forall i :: 0 <= i < |heap| ==> |heap[i]| == k
  }

  /** The position of a state that no other state precedes, scanning from `from`. */
  function LeastFrom(heap: seq<seq<Bag>>, k: nat, best: nat, from: nat): (r: nat)
    requires Heap(heap, k) && best < |heap| && from <= |heap|
    ensures r < |heap|
    decreases |heap| - from
  {
    if from == |heap| then best
    else LeastFrom(heap, k, if StateLess(heap[from], heap[best]) then from else best, from + 1)
  }

  function Least(heap: seq<seq<Bag>>, k: nat): (r: nat)
    requires Heap(heap, k) && heap != []
    ensures r < |heap|
  {
    LeastFrom(heap, k, 0, 0)
  }

  lemma {:induction false} LeastFromIsLeast(heap: seq<seq<Bag>>, k: nat, best: nat, from: nat)
    requires Heap(heap, k) && best < |heap| && from <= |heap|
    requires forall j :: 0 <= j < from ==> !StateLess(heap[j], heap[best])
    ensures forall j :: 0 <= j < |heap| ==> !StateLess(heap[j], heap[LeastFrom(heap, k, best, from)])
    decreases |heap| - from
  {
    if from < |heap| {
      var next := if StateLess(heap[from], heap[best]) then from else best;
      forall j | 0 <= j <= from ensures !StateLess(heap[j], heap[next]) {
        ItemsLessIrreflexive(heap[j][0].items);
        if j < from && next == from && StateLess(heap[j], heap[from]) {
          StateLessTransitive(heap[j], heap[from], heap[best]);
        }
      }
      LeastFromIsLeast(heap, k, next, from + 1);
    }
  }

  /** What the heap promises of a popped state. */
  lemma {:induction false} LeastIsLeast(heap: seq<seq<Bag>>, k: nat)
    requires Heap(heap, k) && heap != []
    ensures forall j :: 0 <= j < |heap| ==> !StateLess(heap[j], heap[Least(heap, k)])
  {
    LeastFromIsLeast(heap, k, 0, 0);
  }

  /** Removes state i, then state j of the rest, and pushes the two merged. */
  function MergeAt(heap: seq<seq<Bag>>, k: nat, i: nat, j: nat): (r: seq<seq<Bag>>)
    requires Heap(heap, k) && i < |heap| && j < |heap| - 1
    ensures Heap(r, k) && |r| == |heap| - 1
  {
    var rest := RemoveAt(heap, i);
    RemoveAt(rest, j) + [MergeStates(heap[i], rest[j])]
  }

  /** One round: pop two states, merge the second into the first and push the result. */
  function Round(heap: seq<seq<Bag>>, k: nat): (r: seq<seq<Bag>>)
    requires Heap(heap, k) && |heap| > 1
    ensures Heap(r, k) && |r| == |heap| - 1
  {
    var i := Least(heap, k);
    var rest := RemoveAt(heap, i);
    var j := Least(rest, k);
    MergeAt(heap, k, i, j)
  }

  function Reduce(heap: seq<seq<Bag>>, k: nat): (r: seq<Bag>)
    requires Heap(heap, k) && heap != []
    ensures |r| == k
    decreases |heap|
  {
    if |heap| == 1 then heap[0] else Reduce(Round(heap, k), k)
  }

  function Indexed(lens: seq<nat>): (r: seq<Item>)
    ensures |r| == |lens|
    ensures forall i :: 0 <= i < |lens| ==> r[i] == Item(i, lens[i])
  {
    seq(|lens|, i requires 0 <= i < |lens| => Item(i, lens[i]))
  }

  /** The blocks of k consecutive items, in order. */
  function Blocks(items: seq<Item>, k: nat): (r: seq<seq<Item>>)
    requires k > 0 && |items| % k == 0
    ensures forall b :: 0 <= b < |r| ==> |r[b]| == k
    ensures items != [] ==> r != []
    decreases |items|
  {
    if items == [] then []
    else
      BlockStep(|items|, k);
      [items[..k]] + Blocks(items[k..], k)
  }

  function Singles(items: seq<Item>): (r: seq<seq<Item>>)
    ensures |r| == |items| && forall b :: 0 <= b < |r| ==> r[b] == [items[b]]
  {
    if items == [] then [] else [[items[0]]] + Singles(items[1..])
  }

  /** One state per group; a single item leaves k - 1 bags empty. */
  function StatesOf(groups: seq<seq<Item>>, k: nat): (r: seq<seq<Bag>>)
    requires k > 0 && forall b :: 0 <= b < |groups| ==> |groups[b]| <= k
    ensures Heap(r, k) && |r| == |groups|
    ensures forall b :: 0 <= b < |groups| ==> r[b] == StateOf(groups[b], k)
  {
    if groups == [] then [] else [StateOf(groups[0], k)] + StatesOf(groups[1..], k)
  }

  function InitialGroups(lens: seq<nat>, k: nat, equalSize: bool): (r: seq<seq<Item>>)
    requires k > 0 && (equalSize ==> |lens| % k == 0)
    ensures forall b :: 0 <= b < |r| ==> |r[b]| == if equalSize then k else 1
    ensures lens != [] ==> r != []
  {
    var sorted := SortUp(Indexed(lens));
    if equalSize then Blocks(sorted, k) else Singles(sorted)
  }

  function InitialStates(lens: seq<nat>, k: nat, equalSize: bool): (r: seq<seq<Bag>>)
    requires k > 0 && (equalSize ==> |lens| % k == 0)
    ensures Heap(r, k) && (lens != [] ==> r != [])
  {
    StatesOf(InitialGroups(lens, k, equalSize), k)
  }

  function FinalState(lens: seq<nat>, k: nat, equalSize: bool): (r: seq<Bag>)
    requires k > 0 && lens != [] && (equalSize ==> |lens| % k == 0)
    ensures |r| == k
  {
    Reduce(InitialStates(lens, k, equalSize), k)
  }

  function Indices(items: seq<Item>): (r: seq<nat>)
    ensures |r| == |items|
    ensures forall j :: 0 <= j < |items| ==> r[j] == items[j].idx
  {
    seq(|items|, j requires 0 <= j < |items| => items[j].idx)
  }

  function PartitionsOf(bags: seq<Bag>): (r: seq<seq<nat>>)
    ensures |r| == |bags|
    ensures forall i :: 0 <= i < |bags| ==> r[i] == Indices(bags[i].items)
  {
    seq(|bags|, i requires 0 <= i < |bags| => Indices(bags[i].items))
  }

  // ---------------------------------------------------------------- what every state keeps

  /** The sum of a bag measure over a state, and over all states of the heap. */
  ghost function Measure(f: Bag -> int, s: seq<Bag>): int {
    if s == [] then 0 else f(s[0]) + Measure(f, s[1..])
  }

  ghost function HeapMeasure(f: Bag -> int, heap: seq<seq<Bag>>): int {
    if heap == [] then 0 else Measure(f, heap[0]) + HeapMeasure(f, heap[1..])
  }

  /** How often a bag holds the item x. */
  ghost function TallyOf(x: Item): Bag -> int {
    (b: Bag) => multiset(b.items)[x]
  }

  ghost function SizeOf(): Bag -> int {
    (b: Bag) => |b.items|
  }

  ghost function NonEmpty(): Bag -> int {
    (b: Bag) => if b.items != [] then 1 else 0
  }

  ghost function Tally(s: seq<Bag>, x: Item): int {
    Measure(TallyOf(x), s)
  }

  ghost function Size(s: seq<Bag>): int {
    Measure(SizeOf(), s)
  }

  /** How many bags of a state hold an item. */
  ghost function Filled(s: seq<Bag>): int {
    Measure(NonEmpty(), s)
  }

  /** Merging two bags adds their measures. */
  ghost predicate Additive(f: Bag -> int) {
    f(EMPTY_BAG) == 0 && forall x, y :: f(Combine(x, y)) == f(x) + f(y)
  }

  lemma {:induction false} TallyAdditive(x: Item)
    ensures Additive(TallyOf(x)) && Additive(SizeOf())
  {
  }

  ghost predicate SumsAgree(s: seq<Bag>) {
    forall i :: 0 <= i < |s| ==> s[i].sum == Total(s[i].items)
  }

  /** No two bags of the state are more than d apart. */
  ghost predicate Within(s: seq<Bag>, d: int) {
    forall i, j :: 0 <= i < |s| && 0 <= j < |s| ==> s[i].sum - s[j].sum <= d
  }

  ghost predicate SameCounts(s: seq<Bag>) {
    forall i, j :: 0 <= i < |s| && 0 <= j < |s| ==> |s[i].items| == |s[j].items|
  }

  ghost predicate Sound(s: seq<Bag>, k: nat, d: int) {
    && k > 0 && |s| == k
    && Descending(s)
    && SumsAgree(s)
    && Within(s, d)
    && Filled(s) == Min(Size(s), k)
  }

  lemma {:induction false} InsertBagMeasure(f: Bag -> int, x: Bag, s: seq<Bag>)
    ensures Measure(f, InsertBag(x, s)) == f(x) + Measure(f, s)
  {
    if s != [] {
      InsertBagMeasure(f, x, s[1..]);
    }
    assert InsertBag(x, s)[1..] == if s == [] then [] else if BagLess(s[0], x) then s else InsertBag(x, s[1..]);
  }

  lemma {:induction false} MeasureConcat(f: Bag -> int, a: seq<Bag>, b: seq<Bag>)
    ensures Measure(f, a + b) == Measure(f, a) + Measure(f, b)
  {
    if a == [] {
      assert a + b == b;
    } else {
      assert (a + b)[1..] == a[1..] + b;
      MeasureConcat(f, a[1..], b);
    }
  }

  lemma {:induction false} MeasurePush(f: Bag -> int, a: seq<Bag>, x: Bag)
    ensures Measure(f, a + [x]) == Measure(f, a) + f(x)
  {
    MeasureConcat(f, a, [x]);
    assert [x][1..] == [];
  }

  lemma {:induction false} SortDownMeasure(f: Bag -> int, s: seq<Bag>)
    ensures Measure(f, SortDown(s)) == Measure(f, s)
  {
    if s != [] {
      var front, last := s[..|s| - 1], s[|s| - 1];
      SortDownMeasure(f, front);
      InsertBagMeasure(f, last, SortDown(front));
      MeasurePush(f, front, last);
      assert s == front + [last];
    }
  }

  /** In a sorted state the bags that hold items come first. */
  lemma {:induction false} FilledPrefix(s: seq<Bag>)
    requires Descending(s) && SumsAgree(s)
    ensures 0 <= Filled(s) <= |s|
    ensures forall i :: 0 <= i < |s| ==> (s[i].items != [] <==> i < Filled(s))
  {
    var f := FilledFrom(s, 0);
    forall i, j | 0 <= i < j < |s| && s[j].items != [] ensures s[i].items != [] {
      EmptyAfterEmpty(s, i, j);
    }
    PrefixCount(s, f);
  }

  lemma {:induction false} EmptyAfterEmpty(s: seq<Bag>, i: nat, j: nat)
    requires Descending(s) && SumsAgree(s) && i < j < |s| && s[j].items != []
    ensures s[i].items != []
  {
    assert Before(s[i], s[j]);
    assert s[j].sum >= 0;
  }

  /** The first bag at or after `from` that holds no item. */
  function FilledFrom(s: seq<Bag>, from: nat): (r: nat)
    requires from <= |s|
    ensures from <= r <= |s|
    ensures forall i :: from <= i < r ==> s[i].items != []
    ensures r < |s| ==> s[r].items == []
    decreases |s| - from
  {
    if from == |s| || s[from].items == [] then from else FilledFrom(s, from + 1)
  }

  lemma {:induction false} PrefixCount(s: seq<Bag>, f: nat)
    requires f <= |s|
    requires forall i :: 0 <= i < |s| ==> (s[i].items != [] <==> i < f)
    ensures Filled(s) == f
  {
    if s != [] {
      PrefixCount(s[1..], if f > 0 then f - 1 else 0);
    }
  }

  /** Bags filled from the front by one state and from the back by the other. */
  lemma {:induction false} BothEndsCount(s: seq<Bag>, front: nat, back: nat)
    requires forall i :: 0 <= i < |s| ==> (s[i].items != [] <==> i < front || i >= |s| - back)
    ensures Filled(s) == Min(front + back, |s|)
  {
    if s != [] {
      BothEndsCount(s[1..], if front > 0 then front - 1 else 0, back);
    }
  }

  lemma {:induction false} TotalConcat(a: seq<Item>, b: seq<Item>)
    ensures Total(a + b) == Total(a) + Total(b)
  {
    if a == [] {
      assert a + b == b;
    } else {
      assert (a + b)[1..] == a[1..] + b;
      TotalConcat(a[1..], b);
    }
  }

  lemma {:induction false} PairedMeasure(f: Bag -> int, a: seq<Bag>, b: seq<Bag>)
    requires |a| == |b| && Additive(f)
    ensures Measure(f, Paired(a, b)) == Measure(f, a) + Measure(f, b)
  {
    var n := |a|;
    if n > 0 {
      var x, y := a[0], b[n - 1];
      PairedMeasure(f, a[1..], b[..n - 1]);
      assert Paired(a, b)[1..] == Paired(a[1..], b[..n - 1]);
      MeasurePush(f, b[..n - 1], y);
      assert b == b[..n - 1] + [y];
      assert f(Combine(x, y)) == f(x) + f(y);
    }
  }

  /** Pairing opposite ends cancels the differences: the merged state is no wider than the wider parent. */
  lemma {:induction false} PairedWithin(a: seq<Bag>, b: seq<Bag>, k: nat, d: int)
    requires Sound(a, k, d) && Sound(b, k, d)
    ensures Within(Paired(a, b), d) && SumsAgree(Paired(a, b))
  {
    var c := Paired(a, b);
    forall i | 0 <= i < k
      ensures c[i].sum == a[i].sum + b[k - 1 - i].sum == Total(c[i].items)
    {
      TotalConcat(a[i].items, b[k - 1 - i].items);
    }
    forall i, j | 0 <= i < k && 0 <= j < k
      ensures c[i].sum - c[j].sum <= d
    {
      OppositeEnds(a, b, k, d, i, j);
    }
  }

  lemma {:induction false} OppositeEnds(a: seq<Bag>, b: seq<Bag>, k: nat, d: int, i: nat, j: nat)
    requires Sound(a, k, d) && Sound(b, k, d) && i < k && j < k
    ensures a[i].sum + b[k - 1 - i].sum - (a[j].sum + b[k - 1 - j].sum) <= d
  {
    var i', j' := k - 1 - i, k - 1 - j;
    assert a[i].sum - a[j].sum <= d && b[i'].sum - b[j'].sum <= d;
    if i < j {
      assert Before(b[j'], b[i']);
    } else if j < i {
      assert Before(a[j], a[i]);
    }
  }

  lemma {:induction false} PairedPattern(a: seq<Bag>, b: seq<Bag>, fa: nat, fb: nat)
    requires |a| == |b|
    requires forall i :: 0 <= i < |a| ==> (a[i].items != [] <==> i < fa)
    requires forall i :: 0 <= i < |b| ==> (b[i].items != [] <==> i < fb)
    ensures Filled(Paired(a, b)) == Min(fa + fb, |a|)
  {
    var c := Paired(a, b);
    forall i | 0 <= i < |c| ensures c[i].items != [] <==> i < fa || i >= |c| - fb {
      assert c[i].items == a[i].items + b[|a| - 1 - i].items;
    }
    BothEndsCount(c, fa, fb);
  }

  lemma {:induction false} PairedFilled(a: seq<Bag>, b: seq<Bag>, k: nat, d: int)
    requires Sound(a, k, d) && Sound(b, k, d)
    ensures Filled(Paired(a, b)) == Min(Size(Paired(a, b)), k)
  {
    FilledPrefix(a);
    FilledPrefix(b);
    PairedPattern(a, b, Filled(a), Filled(b));
    TallyAdditive(Item(0, 0));
    PairedMeasure(SizeOf(), a, b);
  }

  lemma {:induction false} SortedSound(s: seq<Bag>, k: nat, d: int)
    requires k > 0 && |s| == k && SumsAgree(s) && Within(s, d)
    requires Filled(s) == Min(Size(s), k)
    ensures Sound(SortDown(s), k, d)
  {
    SortDownDescending(s);
    SortDownMeasure(SizeOf(), s);
    SortDownMeasure(NonEmpty(), s);
    var r := SortDown(s);
    forall i | 0 <= i < k ensures r[i] in s {
      SortDownMember(s, i);
    }
  }

  lemma {:induction false} SortDownSameCounts(s: seq<Bag>)
    requires SameCounts(s)
    ensures SameCounts(SortDown(s))
  {
    var r := SortDown(s);
    forall i | 0 <= i < |r| ensures |r[i].items| == |s[0].items| {
      SortDownMember(s, i);
    }
  }

  lemma {:induction false} SortDownMember(s: seq<Bag>, i: nat)
    requires i < |s|
    ensures SortDown(s)[i] in s
  {
    SortDownMultiset(s);
    assert SortDown(s)[i] in multiset(SortDown(s));
  }

  lemma {:induction false} MergeSound(a: seq<Bag>, b: seq<Bag>, k: nat, d: int)
    requires Sound(a, k, d) && Sound(b, k, d)
    ensures Sound(MergeStates(a, b), k, d)
  {
    PairedWithin(a, b, k, d);
    PairedFilled(a, b, k, d);
    SortedSound(Paired(a, b), k, d);
  }

  lemma {:induction false} MergeMeasure(f: Bag -> int, a: seq<Bag>, b: seq<Bag>)
    requires |a| == |b| && Additive(f)
    ensures Measure(f, MergeStates(a, b)) == Measure(f, a) + Measure(f, b)
  {
    PairedMeasure(f, a, b);
    SortDownMeasure(f, Paired(a, b));
  }

  lemma {:induction false} MergeSameCounts(a: seq<Bag>, b: seq<Bag>)
    requires |a| == |b| && SameCounts(a) && SameCounts(b)
    ensures SameCounts(MergeStates(a, b))
  {
    PairedSameCounts(a, b);
    SortDownSameCounts(Paired(a, b));
  }

  lemma {:induction false} PairedSameCounts(a: seq<Bag>, b: seq<Bag>)
    requires |a| == |b| && SameCounts(a) && SameCounts(b)
    ensures SameCounts(Paired(a, b))
  {
    var c, n := Paired(a, b), |a|;
    forall i, j | 0 <= i < n && 0 <= j < n ensures |c[i].items| == |c[j].items| {
      assert |a[i].items| == |a[j].items| && |b[n - 1 - i].items| == |b[n - 1 - j].items|;
    }
  }

  // ---------------------------------------------------------------- any merge order

  lemma {:induction false} HeapMeasureConcat(f: Bag -> int, a: seq<seq<Bag>>, b: seq<seq<Bag>>)
    ensures HeapMeasure(f, a + b) == HeapMeasure(f, a) + HeapMeasure(f, b)
  {
    if a == [] {
      assert a + b == b;
    } else {
      assert (a + b)[1..] == a[1..] + b;
      HeapMeasureConcat(f, a[1..], b);
    }
  }

  lemma {:induction false} HeapMeasureRemove(f: Bag -> int, heap: seq<seq<Bag>>, i: nat)
    requires i < |heap|
    ensures HeapMeasure(f, heap) == Measure(f, heap[i]) + HeapMeasure(f, RemoveAt(heap, i))
  {
    HeapMeasureConcat(f, heap[..i], heap[i..]);
    HeapMeasureConcat(f, heap[..i], heap[i + 1..]);
    assert heap[..i] + heap[i..] == heap;
    assert heap[i..][1..] == heap[i + 1..];
  }

  /** Merging any two states keeps what merging keeps; the heap order plays no part. */
  lemma {:induction false} MergeAnyTwo(p: seq<Bag> -> bool, heap: seq<seq<Bag>>, k: nat, i: nat, j: nat)
    requires Heap(heap, k) && Every(p, heap) && i < |heap| && j < |heap| - 1
    requires forall a, b :: |a| == k && |b| == k && p(a) && p(b) ==> p(MergeStates(a, b))
    ensures Every(p, MergeAt(heap, k, i, j))
  {
    var rest := RemoveAt(heap, i);
    RemoveEvery(p, heap, i);
    RemoveEvery(p, rest, j);
  }

  lemma {:induction false} MergeAnyTwoMeasure(f: Bag -> int, heap: seq<seq<Bag>>, k: nat, i: nat, j: nat)
    requires Heap(heap, k) && i < |heap| && j < |heap| - 1 && Additive(f)
    ensures HeapMeasure(f, MergeAt(heap, k, i, j)) == HeapMeasure(f, heap)
  {
    var rest := RemoveAt(heap, i);
    var merged := MergeStates(heap[i], rest[j]);
    HeapMeasureRemove(f, heap, i);
    HeapMeasureRemove(f, rest, j);
    HeapMeasureConcat(f, RemoveAt(rest, j), [merged]);
    assert [merged][1..] == [];
    MergeMeasure(f, heap[i], rest[j]);
  }

  /** The last state has every property that the first states have and merging keeps. */
  lemma {:induction false} ReduceKeeps(p: seq<Bag> -> bool, heap: seq<seq<Bag>>, k: nat)
    requires Heap(heap, k) && heap != [] && Every(p, heap)
    requires forall a, b :: |a| == k && |b| == k && p(a) && p(b) ==> p(MergeStates(a, b))
    ensures p(Reduce(heap, k))
    decreases |heap|
  {
    if |heap| > 1 {
      var i := Least(heap, k);
      MergeAnyTwo(p, heap, k, i, Least(RemoveAt(heap, i), k));
      ReduceKeeps(p, Round(heap, k), k);
    }
  }

  lemma {:induction false} ReduceMeasure(f: Bag -> int, heap: seq<seq<Bag>>, k: nat)
    requires Heap(heap, k) && heap != [] && Additive(f)
    ensures Measure(f, Reduce(heap, k)) == HeapMeasure(f, heap)
    decreases |heap|
  {
    if |heap| > 1 {
      var i := Least(heap, k);
      MergeAnyTwoMeasure(f, heap, k, i, Least(RemoveAt(heap, i), k));
      ReduceMeasure(f, Round(heap, k), k);
    } else {
      assert heap[1..] == [];
    }
  }

  // ---------------------------------------------------------------- the initial states

  /** The measure of items that each sit in a bag of their own. */
  ghost function ItemMeasure(f: Bag -> int, items: seq<Item>): int {
    if items == [] then 0 else f(Bag(items[0].len, [items[0]])) + ItemMeasure(f, items[1..])
  }

  lemma {:induction false} FreshBagsMeasure(f: Bag -> int, items: seq<Item>, k: nat)
    requires |items| <= k && f(EMPTY_BAG) == 0
    ensures Measure(f, FreshBags(items, k)) == ItemMeasure(f, items)
  {
    if k > 0 {
      var rest := if items == [] then [] else items[1..];
      FreshBagsMeasure(f, rest, k - 1);
      assert FreshBags(items, k)[1..] == FreshBags(rest, k - 1);
    }
  }

  lemma {:induction false} ItemMeasureConcat(f: Bag -> int, a: seq<Item>, b: seq<Item>)
    ensures ItemMeasure(f, a + b) == ItemMeasure(f, a) + ItemMeasure(f, b)
  {
    if a == [] {
      assert a + b == b;
    } else {
      assert (a + b)[1..] == a[1..] + b;
      ItemMeasureConcat(f, a[1..], b);
    }
  }

  lemma {:induction false} ItemMeasureCounts(items: seq<Item>, x: Item)
    ensures ItemMeasure(SizeOf(), items) == ItemMeasure(NonEmpty(), items) == |items|
    ensures ItemMeasure(TallyOf(x), items) == multiset(items)[x]
  {
    if items != [] {
      ItemMeasureCounts(items[1..], x);
      assert items == [items[0]] + items[1..];
      assert multiset(items)[x] == multiset([items[0]])[x] + multiset(items[1..])[x];
    }
  }

  lemma {:induction false} StateOfMeasure(f: Bag -> int, items: seq<Item>, k: nat)
    requires |items| <= k && f(EMPTY_BAG) == 0
    ensures Measure(f, StateOf(items, k)) == ItemMeasure(f, items)
  {
    FreshBagsMeasure(f, items, k);
    SortDownMeasure(f, FreshBags(items, k));
  }

  lemma {:induction false} FreshBagsFilled(items: seq<Item>, k: nat)
    requires |items| <= k
    ensures Filled(FreshBags(items, k)) == Size(FreshBags(items, k)) == |items|
  {
    FreshBagsMeasure(SizeOf(), items, k);
    FreshBagsMeasure(NonEmpty(), items, k);
    ItemMeasureCounts(items, Item(0, 0));
  }

  lemma {:induction false} FreshBagsWithin(items: seq<Item>, k: nat, d: int)
    requires |items| == 1 || |items| == k
    requires |items| < k ==> forall i :: 0 <= i < |items| ==> items[i].len <= d
    requires forall i, j :: 0 <= i < |items| && 0 <= j < |items| ==> items[i].len - items[j].len <= d
    requires |items| <= k
    ensures SumsAgree(FreshBags(items, k)) && Within(FreshBags(items, k), d)
  {
    var s := FreshBags(items, k);
    forall i | 0 <= i < k ensures s[i].sum == Total(s[i].items) {
      if i < |items| {
        assert s[i].items[1..] == [];
      }
    }
    if k > 0 {
      assert items[0].len - items[0].len <= d;
    }
  }

  lemma {:induction false} StateOfSound(items: seq<Item>, k: nat, d: int)
    requires k > 0 && (|items| == 1 || |items| == k)
    requires |items| < k ==> forall i :: 0 <= i < |items| ==> items[i].len <= d
    requires forall i, j :: 0 <= i < |items| && 0 <= j < |items| ==> items[i].len - items[j].len <= d
    ensures Sound(StateOf(items, k), k, d)
  {
    FreshBagsFilled(items, k);
    FreshBagsWithin(items, k, d);
    SortedSound(FreshBags(items, k), k, d);
  }

  lemma {:induction false} StatesMeasure(f: Bag -> int, groups: seq<seq<Item>>, k: nat)
    requires k > 0 && f(EMPTY_BAG) == 0 && forall b :: 0 <= b < |groups| ==> |groups[b]| <= k
    ensures HeapMeasure(f, StatesOf(groups, k)) == ItemMeasure(f, Flatten<Item>(groups))
  {
    if groups != [] {
      StatesMeasure(f, groups[1..], k);
      StateOfMeasure(f, groups[0], k);
      ItemMeasureConcat(f, groups[0], Flatten<Item>(groups[1..]));
      assert StatesOf(groups, k)[1..] == StatesOf(groups[1..], k);
    }
  }

  lemma {:induction false} FlattenSingles(items: seq<Item>)
    ensures Flatten<Item>(Singles(items)) == items
  {
    if items != [] {
      FlattenSingles(items[1..]);
      assert Singles(items)[1..] == Singles(items[1..]);
    }
  }

  lemma {:induction false} FlattenBlocks(items: seq<Item>, k: nat)
    requires k > 0 && |items| % k == 0
    ensures Flatten<Item>(Blocks(items, k)) == items
    decreases |items|
  {
    if items != [] {
      BlockStep(|items|, k);
      FlattenBlocks(items[k..], k);
      assert Blocks(items, k)[1..] == Blocks(items[k..], k);
    }
  }

  /** The largest difference of lengths inside one block of k consecutive items. */
  function WidestGap(items: seq<Item>, k: nat): nat
    requires k > 0 && |items| % k == 0
    decreases |items|
  {
    if items == [] then 0
    else
      BlockStep(|items|, k);
      var rest := WidestGap(items[k..], k);
      var gap := items[k - 1].len - items[0].len;
      if gap > rest then gap else rest
  }

  lemma {:induction false} BlockSound(block: seq<Item>, k: nat, d: nat)
    requires NarrowBlock(block, k, d)
    ensures Sound(StateOf(block, k), k, d) && SameCounts(StateOf(block, k))
  {
    forall i, j | 0 <= i < k && 0 <= j < k ensures block[i].len - block[j].len <= d {
      assert block[0].len <= block[j].len && block[i].len <= block[k - 1].len;
    }
    StateOfSound(block, k, d);
    SortDownSameCounts(FreshBags(block, k));
  }

  ghost predicate NarrowBlock(block: seq<Item>, k: nat, d: nat) {
    k > 0 && |block| == k && Ascending(block) && block[k - 1].len - block[0].len <= d
  }

  lemma {:induction false} BlocksNarrow(items: seq<Item>, k: nat, d: nat)
    requires k > 0 && |items| % k == 0 && Ascending(items) && WidestGap(items, k) <= d
    ensures forall b :: 0 <= b < |Blocks(items, k)| ==> NarrowBlock(Blocks(items, k)[b], k, d)
    decreases |items|
  {
    if items != [] {
      BlockStep(|items|, k);
      BlocksNarrow(items[k..], k, d);
      assert NarrowBlock(items[..k], k, d);
    }
  }

  // ---------------------------------------------------------------- the theorems

  /** How far apart two parts may end up: the longest item, or the widest gap in one sorted block. */
  function SpreadBound(lens: seq<nat>, k: nat, equalSize: bool): nat
    requires k > 0 && (equalSize ==> |lens| % k == 0)
  {
    if equalSize then WidestGap(SortUp(Indexed(lens)), k) else Longest(lens)
  }

  lemma {:induction false} GapAtMost(items: seq<Item>, k: nat, most: nat)
    requires k > 0 && |items| % k == 0 && forall i :: 0 <= i < |items| ==> items[i].len <= most
    ensures WidestGap(items, k) <= most
    decreases |items|
  {
    if items != [] {
      BlockStep(|items|, k);
      GapAtMost(items[k..], k, most);
    }
  }

  /** In equal-size mode the bound is at most the largest length. */
  lemma {:induction false} SpreadAtMost(lens: seq<nat>, k: nat, most: nat)
    requires k > 0 && |lens| % k == 0 && forall i :: 0 <= i < |lens| ==> lens[i] <= most
    ensures SpreadBound(lens, k, true) <= most
  {
    var items := SortUp(Indexed(lens));
    SortUpMultiset(Indexed(lens));
    forall i | 0 <= i < |items| ensures items[i].len <= most {
      assert items[i] in multiset(Indexed(lens));
    }
    GapAtMost(items, k, most);
  }

  lemma {:induction false} FinalStateSound(lens: seq<nat>, k: nat, equalSize: bool)
    requires k > 0 && lens != [] && (equalSize ==> |lens| % k == 0)
    ensures Sound(FinalState(lens, k, equalSize), k, SpreadBound(lens, k, equalSize))
    ensures equalSize ==> SameCounts(FinalState(lens, k, equalSize))
  {
    var d := SpreadBound(lens, k, equalSize);
    var heap := InitialStates(lens, k, equalSize);
    InitialStatesSound(lens, k, equalSize, d);
    ReduceKeeps(s => Sound(s, k, d), heap, k) by {
      forall a, b | Sound(a, k, d) && Sound(b, k, d) ensures Sound(MergeStates(a, b), k, d) {
        MergeSound(a, b, k, d);
      }
    }
    if equalSize {
      ReduceKeeps(s => SameCounts(s), heap, k) by {
        forall a, b | |a| == |b| && SameCounts(a) && SameCounts(b) ensures SameCounts(MergeStates(a, b)) {
          MergeSameCounts(a, b);
        }
      }
    }
  }

  lemma {:induction false} GroupSound(lens: seq<nat>, k: nat, equalSize: bool, b: nat)
    requires k > 0 && lens != [] && (equalSize ==> |lens| % k == 0)
    requires b < |InitialGroups(lens, k, equalSize)|
    ensures Sound(StateOf(InitialGroups(lens, k, equalSize)[b], k), k, SpreadBound(lens, k, equalSize))
    ensures equalSize ==> SameCounts(StateOf(InitialGroups(lens, k, equalSize)[b], k))
  {
    var d, sorted := SpreadBound(lens, k, equalSize), SortUp(Indexed(lens));
    if equalSize {
      SortUpAscending(Indexed(lens));
      BlocksNarrow(sorted, k, d);
      BlockSound(Blocks(sorted, k)[b], k, d);
    } else {
      SortUpMultiset(Indexed(lens));
      assert sorted[b] in multiset(Indexed(lens));
      StateOfSound([sorted[b]], k, d);
    }
  }

  lemma {:induction false} InitialStatesSound(lens: seq<nat>, k: nat, equalSize: bool, d: nat)
    requires k > 0 && lens != [] && (equalSize ==> |lens| % k == 0)
    requires d == SpreadBound(lens, k, equalSize)
    ensures Every(s => Sound(s, k, d), InitialStates(lens, k, equalSize))
    ensures equalSize ==> Every(s => SameCounts(s), InitialStates(lens, k, equalSize))
  {
    var states := InitialStates(lens, k, equalSize);
    forall b | 0 <= b < |states|
      ensures Sound(states[b], k, d) && (equalSize ==> SameCounts(states[b]))
    {
      GroupSound(lens, k, equalSize, b);
    }
  }

  /** The last state holds exactly the indexed lengths. */
  lemma {:induction false} FinalStateTally(lens: seq<nat>, k: nat, equalSize: bool, x: Item)
    requires k > 0 && lens != [] && (equalSize ==> |lens| % k == 0)
    ensures Tally(FinalState(lens, k, equalSize), x) == multiset(Indexed(lens))[x]
    ensures Size(FinalState(lens, k, equalSize)) == |lens|
  {
    var sorted := SortUp(Indexed(lens));
    SortUpMultiset(Indexed(lens));
    TallyAdditive(x);
    ItemMeasureCounts(sorted, x);
    FinalStateMeasure(SizeOf(), lens, k, equalSize);
    FinalStateMeasure(TallyOf(x), lens, k, equalSize);
  }

  lemma {:induction false} FinalStateMeasure(f: Bag -> int, lens: seq<nat>, k: nat, equalSize: bool)
    requires k > 0 && lens != [] && (equalSize ==> |lens| % k == 0) && Additive(f)
    ensures Measure(f, FinalState(lens, k, equalSize)) == ItemMeasure(f, SortUp(Indexed(lens)))
  {
    var sorted := SortUp(Indexed(lens));
    StatesMeasure(f, InitialGroups(lens, k, equalSize), k);
    if equalSize {
      FlattenBlocks(sorted, k);
    } else {
      FlattenSingles(sorted);
    }
    ReduceMeasure(f, InitialStates(lens, k, equalSize), k);
  }

  function ItemLists(s: seq<Bag>): (r: seq<seq<Item>>)
    ensures |r| == |s|
    ensures forall i :: 0 <= i < |s| ==> r[i] == s[i].items
  {
    seq(|s|, i requires 0 <= i < |s| => s[i].items)
  }

  lemma {:induction false} FlattenTally(s: seq<Bag>, x: Item)
    ensures multiset(Flatten<Item>(ItemLists(s)))[x] == Tally(s, x)
  {
    if s != [] {
      FlattenTally(s[1..], x);
      assert ItemLists(s)[1..] == ItemLists(s[1..]);
      var a, b := s[0].items, Flatten<Item>(ItemLists(s[1..]));
      assert multiset(a + b)[x] == multiset(a)[x] + multiset(b)[x];
    }
  }

  lemma {:induction false} FlattenIndices(s: seq<Bag>)
    ensures Flatten<nat>(PartitionsOf(s)) == Map((x: Item) => x.idx, Flatten<Item>(ItemLists(s)))
  {
    if s != [] {
      FlattenIndices(s[1..]);
      assert ItemLists(s)[1..] == ItemLists(s[1..]);
      assert PartitionsOf(s)[1..] == PartitionsOf(s[1..]);
    }
  }

  function Partitions(lens: seq<nat>, k: nat, equalSize: bool): (r: seq<seq<nat>>)
    requires k > 0 && lens != [] && (equalSize ==> |lens| % k == 0)
    ensures |r| == k
  {
    PartitionsOf(FinalState(lens, k, equalSize))
  }

  /** Every index is placed exactly once. */
  lemma {:induction false} PartitionsCover(lens: seq<nat>, k: nat, equalSize: bool)
    requires k > 0 && lens != [] && (equalSize ==> |lens| % k == 0)
    ensures IsPartition(Partitions(lens, k, equalSize), |lens|)
  {
    var s := FinalState(lens, k, equalSize);
    FlattenIndices(s);
    forall x ensures multiset(Flatten<Item>(ItemLists(s)))[x] == multiset(Indexed(lens))[x] {
      FlattenTally(s, x);
      FinalStateTally(lens, k, equalSize, x);
    }
    PermutationMap((x: Item) => x.idx, Flatten<Item>(ItemLists(s)), Indexed(lens));
    assert Map((x: Item) => x.idx, Indexed(lens)) == Range(|lens|);
  }

  lemma {:induction false} TotalIsLoad(lens: seq<nat>, items: seq<Item>)
    requires forall x :: x in items ==> x.idx < |lens| && x.len == lens[x.idx]
    ensures Total(items) == Load(lens, Indices(items))
  {
    if items != [] {
      TotalIsLoad(lens, items[1..]);
      assert Indices(items)[1..] == Indices(items[1..]);
    }
  }

  lemma {:induction false} BagItem(s: seq<Bag>, p: nat, x: Item)
    requires p < |s| && x in s[p].items
    ensures Tally(s, x) > 0
  {
    TallyNonNegative(s[1..], x);
    if p > 0 {
      BagItem(s[1..], p - 1, x);
    }
  }

  lemma {:induction false} TallyNonNegative(s: seq<Bag>, x: Item)
    ensures Tally(s, x) >= 0
  {
    if s != [] {
      TallyNonNegative(s[1..], x);
    }
  }

  /** In a state that holds exactly the indexed lengths, the sum of a bag is the load of its indices. */
  lemma {:induction false} BagSumIsLoad(lens: seq<nat>, s: seq<Bag>, p: nat)
    requires p < |s| && s[p].sum == Total(s[p].items)
    requires forall x :: Tally(s, x) == multiset(Indexed(lens))[x]
    ensures s[p].sum == Load(lens, Indices(s[p].items))
  {
    forall x | x in s[p].items ensures x.idx < |lens| && x.len == lens[x.idx] {
      BagItem(s, p, x);
      assert x in multiset(Indexed(lens));
    }
    TotalIsLoad(lens, s[p].items);
  }

  lemma {:induction false} FinalSums(lens: seq<nat>, k: nat, equalSize: bool, p: nat)
    requires k > 0 && lens != [] && (equalSize ==> |lens| % k == 0) && p < k
    ensures FinalState(lens, k, equalSize)[p].sum == Load(lens, Partitions(lens, k, equalSize)[p])
  {
    FinalStateSound(lens, k, equalSize);
    forall x ensures Tally(FinalState(lens, k, equalSize), x) == multiset(Indexed(lens))[x] {
      FinalStateTally(lens, k, equalSize, x);
    }
    BagSumIsLoad(lens, FinalState(lens, k, equalSize), p);
  }

  /** The balance bound: no two parts differ by more than the spread bound. */
  lemma {:induction false} PartitionsBalanced(lens: seq<nat>, k: nat, equalSize: bool, p: nat, q: nat)
    requires k > 0 && lens != [] && (equalSize ==> |lens| % k == 0) && p < k && q < k
    ensures Load(lens, Partitions(lens, k, equalSize)[p])
      <= Load(lens, Partitions(lens, k, equalSize)[q]) + SpreadBound(lens, k, equalSize)
  {
    FinalStateSound(lens, k, equalSize);
    FinalSums(lens, k, equalSize, p);
    FinalSums(lens, k, equalSize, q);
  }

  lemma {:induction false} SpreadArithmetic(k: int, top: int, d: int)
    ensures top + (k - 1) * (top - d) == k * top - (k - 1) * d
  {
    assert (k - 1) * (top - d) == (k - 1) * top - (k - 1) * d;
    assert k * top == top + (k - 1) * top;
  }

  lemma {:induction false} FullestLoad(lens: seq<nat>, parts: seq<seq<nat>>, d: int, p: nat)
    requires p < |parts| && IsPartition(parts, |lens|)
    requires forall q :: 0 <= q < |parts| ==> Load(lens, parts[p]) <= Load(lens, parts[q]) + d
    ensures |parts| * Load(lens, parts[p]) <= Sum(lens) + (|parts| - 1) * d
  {
    var top := Load(lens, parts[p]);
    SumAtLeast(Loads(lens, parts), top - d, p);
    PartitionLoads(lens, parts);
    SpreadArithmetic(|parts|, top, d);
  }

  /** The fullest of k unequal-sized parts exceeds the average by less than one longest item. */
  lemma {:induction false} FullestPart(lens: seq<nat>, k: nat, p: nat)
    requires k > 0 && lens != [] && p < k
    ensures k * Load(lens, Partitions(lens, k, false)[p]) <= Sum(lens) + (k - 1) * Longest(lens)
  {
    var parts := Partitions(lens, k, false);
    forall q | 0 <= q < k ensures Load(lens, parts[p]) <= Load(lens, parts[q]) + Longest(lens) {
      PartitionsBalanced(lens, k, false, p, q);
    }
    PartitionsCover(lens, k, false);
    FullestLoad(lens, parts, Longest(lens), p);
  }

  lemma {:induction false} SoundNonEmpty(s: seq<Bag>, k: nat, d: int)
    requires Sound(s, k, d) && Size(s) >= k
    ensures forall p :: 0 <= p < k ==> s[p].items != []
  {
    FilledPrefix(s);
  }

  /** With at least k items no part is empty, even when lengths are zero. */
  lemma {:induction false} PartitionsNonEmpty(lens: seq<nat>, k: nat, equalSize: bool)
    requires 0 < k <= |lens| && (equalSize ==> |lens| % k == 0)
    ensures forall p :: 0 <= p < k ==> Partitions(lens, k, equalSize)[p] != []
  {
    FinalStateSound(lens, k, equalSize);
    FinalStateTally(lens, k, equalSize, Item(0, 0));
    SoundNonEmpty(FinalState(lens, k, equalSize), k, SpreadBound(lens, k, equalSize));
  }

  lemma {:induction false} SameCountsSize(s: seq<Bag>, c: nat)
    requires forall i :: 0 <= i < |s| ==> |s[i].items| == c
    ensures Size(s) == |s| * c
  {
    if s != [] {
      SameCountsSize(s[1..], c);
      SuccTimes(|s[1..]|, c);
    }
  }

  /** Equal-size mode gives every part exactly |lens| / k items. */
  lemma {:induction false} PartitionsEqualSize(lens: seq<nat>, k: nat)
    requires k > 0 && lens != [] && |lens| % k == 0
    ensures forall p :: 0 <= p < k ==>
      |Partitions(lens, k, true)[p]| * k == |lens| && |Partitions(lens, k, true)[p]| == |lens| / k
  {
    var s := FinalState(lens, k, true);
    FinalStateSound(lens, k, true);
    FinalStateTally(lens, k, true, Item(0, 0));
    var c := |s[0].items|;
    assert forall p :: 0 <= p < k ==> |s[p].items| == c;
    SameCountsSize(s, c);
    assert |lens| == c * k;
    DivModUnique(|lens|, c, 0, k);
  }
}
