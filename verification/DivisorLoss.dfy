/**
 A batch whose micro-batch count starts at a multiple of the divisor and does not end at one: the
 largest differencing method splits lengths 3, 3, 2, 2, 2 into 7 and 5, although two groups of 6
 exist and Best Fit Decreasing finds them.
*/
module DivisorLoss {
  import opened Sequences
  import opened Outcomes
  import opened BestFit
  import opened KarmarkarKarp
  import opened Partitioner
  import opened DynamicBatches

  const LENS: seq<nat> := [3, 3, 2, 2, 2]

  // ---------------------------------------------------------------- the starting count

  lemma {:induction false} Order()
    ensures OrderDown(LENS, 5) == [0, 1, 2, 3, 4]
  {
    assert OrderDown(LENS, 1) == [0];
    assert OrderDown(LENS, 2) == [0] + InsertDown(LENS, 1, [0][1..]);
    AppendLast([0, 1], 2);
    AppendLast([0, 1, 2], 3);
    AppendLast([0, 1, 2, 3], 4);
  }

  lemma {:induction false} AppendLast(s: seq<nat>, i: nat)
    requires forall j :: 0 <= j < |s| ==> LengthAt(LENS, i) <= LengthAt(LENS, s[j])
    ensures InsertDown(LENS, i, s) == s + [i]
  {
    if s != [] {
      AppendLast(s[1..], i);
      assert s == [s[0]] + s[1..];
    }
  }

  lemma {:induction false} PackStep(n: nat, before: seq<seq<nat>>, after: seq<seq<nat>>)
    requires n < 5 && Pack(LENS, 6, [0, 1, 2, 3, 4], n) == before && Put(LENS, 6, before, n) == after
    ensures Pack(LENS, 6, [0, 1, 2, 3, 4], n + 1) == after
  {
    var order: seq<nat> := [0, 1, 2, 3, 4];
    assert order[n] == n;
  }

  lemma {:induction false} FirstGroup()
    ensures Pack(LENS, 6, [0, 1, 2, 3, 4], 2) == [[0, 1]]
  {
    PutNew([], 0);
    PackStep(0, [], [[0]]);
    PutOnly([0], 1);
    assert [0] + [1] == [0, 1];
    PackStep(1, [[0]], [[0, 1]]);
  }

  lemma {:induction false} SecondGroup()
    ensures Pack(LENS, 6, [0, 1, 2, 3, 4], 5) == [[0, 1], [2, 3, 4]]
  {
    FirstGroup();
    Loads01();
    PutNew([[0, 1]], 2);
    assert [[0, 1]] + [[2]] == [[0, 1], [2]];
    PackStep(2, [[0, 1]], [[0, 1], [2]]);
    PutSecond([2], 3);
    assert [2] + [3] == [2, 3];
    PackStep(3, [[0, 1], [2]], [[0, 1], [2, 3]]);
    PutSecond([2, 3], 4);
    assert [2, 3] + [4] == [2, 3, 4];
    PackStep(4, [[0, 1], [2, 3]], [[0, 1], [2, 3, 4]]);
  }

  lemma {:induction false} TwoGroups()
    ensures |Groups(LENS, 6)| == 2
  {
    Order();
    SecondGroup();
  }

  lemma {:induction false} Loads01()
    ensures Load(LENS, [0]) == 3 && Load(LENS, [0, 1]) == 6 && Load(LENS, [2]) == 2 && Load(LENS, [2, 3]) == 4
  {
    LoadPush(LENS, [], 0);
    LoadPush(LENS, [0], 1);
    LoadPush(LENS, [], 2);
    LoadPush(LENS, [2], 3);
    assert [0] + [1] == [0, 1] && [2] + [3] == [2, 3];
  }

  lemma {:induction false} PutNew(parts: seq<seq<nat>>, i: nat)
    requires forall g :: 0 <= g < |parts| ==> !Fits(LENS, 6, parts[g], LengthAt(LENS, i))
    ensures Put(LENS, 6, parts, i) == parts + [[i]]
  {
  }

  lemma {:induction false} PutOnly(part: seq<nat>, i: nat)
    requires part == [0] && i == 1
    ensures Put(LENS, 6, [part], i) == [part + [i]]
  {
    Loads01();
    assert Fits(LENS, 6, [part][0], LengthAt(LENS, i));
  }

  lemma {:induction false} PutSecond(part: seq<nat>, i: nat)
    requires (part == [2] && i == 3) || (part == [2, 3] && i == 4)
    ensures Put(LENS, 6, [[0, 1], part], i) == [[0, 1], part + [i]]
  {
    Loads01();
    var parts := [[0, 1], part];
    assert !Fits(LENS, 6, parts[0], LengthAt(LENS, i)) && Fits(LENS, 6, parts[1], LengthAt(LENS, i));
  }

  // ---------------------------------------------------------------- two parts

  function Single(i: nat): Item
    requires i < 5
  {
    Item(i, LENS[i])
  }

  function Lone(i: nat): seq<Bag>
    requires i < 5
  {
    [Bag(LENS[i], [Single(i)]), EMPTY_BAG]
  }

  lemma {:induction false} LoneState(i: nat)
    requires i < 5
    ensures StateOf([Single(i)], 2) == Lone(i)
  {
    assert FreshBags([Single(i)], 2) == Lone(i);
    SortedAlready(Bag(LENS[i], [Single(i)]), EMPTY_BAG);
  }

  lemma {:induction false} SortedAlready(x: Bag, y: Bag)
    requires !BagLess(x, y)
    ensures SortDown([x, y]) == [x, y]
  {
    assert [x, y][..1] == [x] && [x][..0] == [];
    assert SortDown([x]) == [x];
    assert InsertBag(y, [x]) == [x] + InsertBag(y, []);
  }

  lemma {:induction false} SortedUp()
    ensures SortUp(Indexed(LENS)) == [Single(2), Single(3), Single(4), Single(0), Single(1)]
  {
    var items := Indexed(LENS);
    assert SortUp(items[..1]) == [Single(0)] by {
      assert items[..1] == [Single(0)];
    }
    assert SortUp(items[..2]) == [Single(0), Single(1)] by {
      assert items[..2][..1] == items[..1];
      InsertLast([Single(0)], Single(1));
    }
    assert SortUp(items[..3]) == [Single(2), Single(0), Single(1)] by {
      assert items[..3][..2] == items[..2];
    }
    assert SortUp(items[..4]) == [Single(2), Single(3), Single(0), Single(1)] by {
      assert items[..4][..3] == items[..3];
      InsertBehind([Single(2)], Single(3), [Single(0), Single(1)]);
    }
    assert items[..4] == items[..|items| - 1];
    InsertBehind([Single(2), Single(3)], Single(4), [Single(0), Single(1)]);
    assert [Single(2), Single(3)] + [Single(0), Single(1)] == SortUp(items[..4]);
  }

  lemma {:induction false} InsertLast(s: seq<Item>, x: Item)
    requires forall j :: 0 <= j < |s| ==> s[j].len < x.len || (s[j].len == x.len && s[j].idx <= x.idx)
    ensures InsertItem(x, s) == s + [x]
  {
    if s != [] {
      InsertLast(s[1..], x);
      assert s == [s[0]] + s[1..];
    }
  }

  lemma {:induction false} InsertBehind(s: seq<Item>, x: Item, t: seq<Item>)
    requires forall j :: 0 <= j < |s| ==> s[j].len < x.len || (s[j].len == x.len && s[j].idx <= x.idx)
    requires t != [] && x.len < t[0].len
    ensures InsertItem(x, s + t) == s + [x] + t
  {
    if s == [] {
      assert s + t == t;
    } else {
      InsertBehind(s[1..], x, t);
      assert (s + t)[1..] == s[1..] + t;
      assert s == [s[0]] + s[1..];
    }
  }

  /** The popped state is the one that precedes all others. */
  lemma {:induction false} LeastIs(heap: seq<seq<Bag>>, i: nat)
    requires Heap(heap, 2) && i < |heap|
    requires forall j :: 0 <= j < |heap| && j != i ==> StateLess(heap[i], heap[j])
    ensures Least(heap, 2) == i
  {
    LeastIsLeast(heap, 2);
  }

  lemma {:induction false} Merged(x: seq<Bag>, y: seq<Bag>, z: seq<Bag>)
    requires |x| == |y| == |z| == 2 && z[0] == Combine(x[0], y[1])
    requires z[1] == Combine(x[1], y[0]) && !BagLess(z[0], z[1])
    ensures MergeStates(x, y) == z
  {
    assert Paired(x, y) == [z[0], z[1]];
    SortedAlready(z[0], z[1]);
  }

  lemma {:induction false} LoneLess(i: nat, j: nat)
    requires i < 5 && j < 5 && (LENS[i] > LENS[j] || (LENS[i] == LENS[j] && i > j))
    ensures StateLess(Lone(i), Lone(j))
  {
  }

  const THREES: seq<Bag> := [Bag(3, [Item(1, 3)]), Bag(3, [Item(0, 3)])]
  const TWOS: seq<Bag> := [Bag(2, [Item(4, 2)]), Bag(2, [Item(3, 2)])]
  const FIVE: seq<Bag> := [Bag(5, [Item(2, 2), Item(0, 3)]), Bag(3, [Item(1, 3)])]
  const SEVEN: seq<Bag> := [Bag(7, [Item(2, 2), Item(0, 3), Item(3, 2)]), Bag(5, [Item(1, 3), Item(4, 2)])]

  /** One round: state i of the heap and then state j of the rest are popped and merged into z. */
  lemma {:induction false} RoundIs(heap: seq<seq<Bag>>, i: nat, rest: seq<seq<Bag>>, j: nat, left: seq<seq<Bag>>,
        z: seq<Bag>)
    requires Heap(heap, 2) && |heap| > 1 && i < |heap|
    requires rest == RemoveAt(heap, i) && j < |rest| && left == RemoveAt(rest, j)
    requires forall h :: 0 <= h < |heap| && h != i ==> StateLess(heap[i], heap[h])
    requires forall h :: 0 <= h < |rest| && h != j ==> StateLess(rest[j], rest[h])
    requires |z| == 2 && z[0] == Combine(heap[i][0], rest[j][1]) && z[1] == Combine(heap[i][1], rest[j][0])
    requires !BagLess(z[0], z[1])
    ensures Round(heap, 2) == left + [z]
  {
    LeastIs(heap, i);
    LeastIs(rest, j);
    Merged(heap[i], rest[j], z);
  }

  lemma {:induction false} FirstRound(heap: seq<seq<Bag>>)
    requires heap == [Lone(2), Lone(3), Lone(4), Lone(0), Lone(1)]
    ensures Heap(heap, 2) && Round(heap, 2) == [Lone(2), Lone(3), Lone(4), THREES]
  {
    forall h | 0 <= h < 5 && h != 4 ensures StateLess(heap[4], heap[h]) {
      LoneLess(1, [2, 3, 4, 0][h]);
    }
    var rest := heap[..4];
    forall h | 0 <= h < 4 && h != 3 ensures StateLess(rest[3], rest[h]) {
      LoneLess(0, [2, 3, 4][h]);
    }
    RoundIs(heap, 4, rest, 3, heap[..3], THREES);
  }

  lemma {:induction false} SecondRound(heap: seq<seq<Bag>>)
    requires heap == [Lone(2), Lone(3), Lone(4), THREES]
    ensures Heap(heap, 2) && Round(heap, 2) == [Lone(2), THREES, TWOS]
  {
    LoneLess(4, 2);
    LoneLess(4, 3);
    LoneLess(3, 2);
    var rest := [heap[0], heap[1], heap[3]];
    assert StateLess(heap[2], heap[3]) && StateLess(rest[1], rest[2]);
    RoundIs(heap, 2, rest, 1, [heap[0], heap[3]], TWOS);
  }

  lemma {:induction false} ThirdRound(heap: seq<seq<Bag>>)
    requires heap == [Lone(2), THREES, TWOS]
    ensures Heap(heap, 2) && Round(heap, 2) == [TWOS, FIVE]
  {
    assert StateLess(heap[0], heap[1]) && StateLess(heap[0], heap[2]) && StateLess(heap[1], heap[2]);
    RoundIs(heap, 0, heap[1..], 0, [heap[2]], FIVE);
  }

  lemma {:induction false} FourthRound(heap: seq<seq<Bag>>)
    requires heap == [TWOS, FIVE]
    ensures Heap(heap, 2) && Round(heap, 2) == [SEVEN]
  {
    assert StateLess(heap[1], heap[0]);
    RoundIs(heap, 1, [heap[0]], 0, [], SEVEN);
  }

  lemma {:induction false} Final()
    ensures FinalState(LENS, 2, false) == SEVEN
  {
    SortedUp();
    var groups := InitialGroups(LENS, 2, false);
    assert groups == [[Single(2)], [Single(3)], [Single(4)], [Single(0)], [Single(1)]];
    LoneState(0);
    LoneState(1);
    LoneState(2);
    LoneState(3);
    LoneState(4);
    assert InitialStates(LENS, 2, false) == [Lone(2), Lone(3), Lone(4), Lone(0), Lone(1)];
    AllRounds(InitialStates(LENS, 2, false));
  }

  lemma {:induction false} AllRounds(heap: seq<seq<Bag>>)
    requires heap == [Lone(2), Lone(3), Lone(4), Lone(0), Lone(1)]
    ensures Heap(heap, 2) && Reduce(heap, 2) == SEVEN
  {
    FirstRound(heap);
    var second := Round(heap, 2);
    SecondRound(second);
    var third := Round(second, 2);
    ThirdRound(third);
    var fourth := Round(third, 2);
    FourthRound(fourth);
    ReduceStep(heap);
    ReduceStep(second);
    ReduceStep(third);
    ReduceStep(fourth);
  }

  lemma {:induction false} ReduceStep(heap: seq<seq<Bag>>)
    requires Heap(heap, 2) && |heap| > 1
    ensures Reduce(heap, 2) == Reduce(Round(heap, 2), 2)
  {
  }

  // ---------------------------------------------------------------- the retry

  const RANK := RankBatch(LENS, LENS, 3)

  lemma {:induction false} TwoPartsTooFull()
    ensures !RankFits(RANK, 2, 6)
  {
    Final();
    FinalSums(LENS, 2, false, 0);
    var part := Partitions(LENS, 2, false)[0];
    SortIndicesSorted(part);
    LoadPermutation(LENS, Balanced(LENS, 2, false)[0], part);
  }

  lemma {:induction false} ThreePartsFit()
    ensures RankFits(RANK, 3, 6)
  {
    assert Sum(LENS) == 12 by {
      assert LENS[1..] == [3, 2, 2, 2] && LENS[1..][1..] == [2, 2, 2] && LENS[1..][1..][1..] == [2, 2];
    }
    assert Longest(LENS) == 3 by {
      assert LENS[1..] == [3, 2, 2, 2] && LENS[1..][1..] == [2, 2, 2] && LENS[1..][1..][1..] == [2, 2];
    }
    RoomyFits(RANK, 3, 6);
  }

  lemma {:induction false} OneRankStarts(ranks: seq<RankBatch>, cap: nat)
    requires |ranks| == 1 && |Groups(ranks[0].lens, cap)| == 2
    ensures StartCounts(ranks, cap, None, Some(2), true) == [2]
  {
    var own := OwnCounts(ranks, cap, None);
    assert own == [2];
    assert Longest(own) == 2 by {
      assert own[1..] == [];
    }
    RoundUpFits(2, 2);
  }

  lemma {:induction false} SecondCountFits(sizes: seq<nat>, fits: (nat, nat) -> bool)
    requires sizes == [5] && !fits(0, 2) && fits(0, 3)
    ensures Settle(sizes, [2], fits) == Ok([3])
  {
    var second := Incremented([2]);
    assert second == [3];
    assert AllFit(second, fits);
    assert Settle(sizes, second, fits) == Ok(second);
    var counts: seq<nat> := [2];
    assert !AllFit(counts, fits) by {
      assert !fits(0, counts[0]);
    }
  }

  lemma {:induction false} OneRankSettles(ranks: seq<RankBatch>, cap: nat)
    requires |ranks| == 1 && |ranks[0].lens| == 5 && !RankFits(ranks[0], 2, cap) && RankFits(ranks[0], 3, cap)
    ensures Settle(Sizes(ranks), [2], FitsAt(ranks, cap)) == Ok([3])
  {
    assert Sizes(ranks) == [5];
    SecondCountFits(Sizes(ranks), FitsAt(ranks, cap));
  }

  /** One rank, a cap of 6 and a divisor of 2: the count starts at 2 and ends at 3. */
  lemma {:induction false} DivisorIsLost(ranks: seq<RankBatch>, cap: nat)
    requires ranks == [RANK] && cap == 6
    ensures StartCounts(ranks, cap, None, Some(2), true) == [2]
    ensures Settle(Sizes(ranks), [2], FitsAt(ranks, cap)) == Ok([3])
  {
    TwoGroups();
    OneRankStarts(ranks, cap);
    TwoPartsTooFull();
    ThreePartsFit();
    OneRankSettles(ranks, cap);
  }
}
